/** `ReadTargets`: reading a build log that may hold several builds, one after the other. */
module BuildLog {
  /** A well-formed log line; times are in milliseconds, as written. */
  datatype Record = Record(start: int, end: int, name: string, hash: string)

  /** A line is a record or has the wrong number of fields. */
  datatype Line = Corrupt | Valid(record: Record)

  /** One build step: its times and all of its outputs. */
  datatype Target = Target(hash: string, start: int, end: int, outputs: seq<string>)

  function Records(lines: seq<Line>): seq<Record> {
    if lines == [] then []
    else Records(lines[..|lines| - 1]) + if lines[|lines| - 1].Valid? then [lines[|lines| - 1].record] else []
  }

  lemma {:induction false} RecordsConcat(a: seq<Line>, b: seq<Line>)
    ensures Records(a + b) == Records(a) + Records(b)
    decreases |b|
  {
    if b == [] {
      assert a + b == a;
    } else {
      assert (a + b)[..|a + b| - 1] == a + b[..|b| - 1];
      RecordsConcat(a, b[..|b| - 1]);
    }
  }

  /** Corrupt lines are skipped wherever they stand, and touch nothing before or behind them. */
  lemma {:induction false} CorruptIsSkipped(a: seq<Line>, b: seq<Line>)
    ensures Records(a + [Corrupt] + b) == Records(a + b)
  {
    RecordsConcat(a + [Corrupt], b);
    RecordsConcat(a, b);
    assert (a + [Corrupt])[..|a|] == a;
  }

  /** A log without corrupt lines is read line by line. */
  lemma {:induction false} ValidAreKept(lines: seq<Line>)
    requires forall i :: 0 <= i < |lines| ==> lines[i].Valid?
    ensures |Records(lines)| == |lines| && forall i :: 0 <= i < |lines| ==> Records(lines)[i] == lines[i].record
  {
    if lines != [] {
      ValidAreKept(lines[..|lines| - 1]);
    }
  }

  // ----- the insertion-ordered dictionary

  function IndexOf(ts: seq<Target>, hash: string): (i: nat)
    ensures i <= |ts|
    ensures i < |ts| ==> ts[i].hash == hash
    ensures forall j :: 0 <= j < i ==> ts[j].hash != hash
  {
    if ts == [] then 0 else if ts[0].hash == hash then 0 else 1 + IndexOf(ts[1..], hash)
  }

  /** Add an output to the step with that hash, or a new step at the end. */
  function Add(ts: seq<Target>, r: Record): seq<Target> {
    var i := IndexOf(ts, r.hash);
    if i < |ts| then ts[i := ts[i].(outputs := ts[i].outputs + [r.name])]
    else ts + [Target(r.hash, r.start, r.end, [r.name])]
  }

  // ----- grouping, defined without the loop

  /** Records of one command, in order. */
  function Of(rs: seq<Record>, hash: string): seq<Record> {
    if rs == [] then []
    else Of(rs[..|rs| - 1], hash) + if rs[|rs| - 1].hash == hash then [rs[|rs| - 1]] else []
  }

  function Names(rs: seq<Record>): (r: seq<string>)
    ensures |r| == |rs|
  {
    seq(|rs|, i requires 0 <= i < |rs| => rs[i].name)
  }

  /** Hashes in order of first occurrence. */
  function Hashes(rs: seq<Record>): seq<string> {
    if rs == [] then []
    else
      var before, h := Hashes(rs[..|rs| - 1]), rs[|rs| - 1].hash;
      if h in before then before else before + [h]
  }

  /** `ts` is the grouping of `rs` by hash: one step per hash, in order of first occurrence, with
      the times of its first record and the names of all of them. */
  ghost predicate Groups(ts: seq<Target>, rs: seq<Record>) {
    && |ts| == |Hashes(rs)|
    && forall i :: 0 <= i < |ts| ==>
         var of := Of(rs, Hashes(rs)[i]);
         of != [] && ts[i] == Target(Hashes(rs)[i], of[0].start, of[0].end, Names(of))
  }

  lemma {:induction false} HashesShape(rs: seq<Record>)
    ensures forall h :: h in Hashes(rs) <==> Of(rs, h) != []
    ensures forall i, j :: 0 <= i < j < |Hashes(rs)| ==> Hashes(rs)[i] != Hashes(rs)[j]
  {
    if rs != [] {
      HashesShape(rs[..|rs| - 1]);
    }
  }

  /** The dictionary holds a hash exactly when the records do. */
  lemma {:induction false} LookUp(ts: seq<Target>, rs: seq<Record>, hash: string)
    requires Groups(ts, rs)
    ensures var i := IndexOf(ts, hash);
      && (i < |ts| <==> Of(rs, hash) != [])
      && (i < |ts| ==>
            var of := Of(rs, hash);
            Hashes(rs)[i] == hash && ts[i] == Target(hash, of[0].start, of[0].end, Names(of)))
  {
    hide Names, Of, Hashes;
    HashesShape(rs);
    var i := IndexOf(ts, hash);
    assert forall k :: 0 <= k < |ts| ==> ts[k].hash == Hashes(rs)[k];
  }

  lemma {:induction false} OfAdd(rs: seq<Record>, r: Record, hash: string)
    ensures Of(rs + [r], hash) == Of(rs, hash) + if r.hash == hash then [r] else []
  {
    assert (rs + [r])[..|rs|] == rs;
  }

  lemma {:induction false} HashesAdd(rs: seq<Record>, r: Record)
    ensures Hashes(rs + [r]) == if Of(rs, r.hash) != [] then Hashes(rs) else Hashes(rs) + [r.hash]
  {
    assert (rs + [r])[..|rs|] == rs;
    HashesShape(rs);
  }

  /** Adding a record to a grouping groups one record more. */
  lemma {:induction false} GroupsAdd(ts: seq<Target>, rs: seq<Record>, r: Record)
    requires Groups(ts, rs)
    ensures Groups(Add(ts, r), rs + [r])
  {
    hide Of, Hashes;
    var all := rs + [r];
    HashesShape(rs);
    HashesAdd(rs, r);
    LookUp(ts, rs, r.hash);
    var after, hs := Add(ts, r), Hashes(all);
    forall j | 0 <= j < |after|
      ensures Of(all, hs[j]) != []
      ensures after[j] == Target(hs[j], Of(all, hs[j])[0].start, Of(all, hs[j])[0].end, Names(Of(all, hs[j]))) {
      OfAdd(rs, r, hs[j]);
      if hs[j] == r.hash {
        assert Names(Of(rs, r.hash) + [r]) == Names(Of(rs, r.hash)) + [r.name];
        assert j < |ts| ==> j == IndexOf(ts, r.hash);
      } else {
        assert Of(rs, hs[j]) + [] == Of(rs, hs[j]);
        assert j < |ts| && after[j] == ts[j];
      }
    }
  }

  // ----- one build

  /** End times never decrease and records with one hash share start and end. */
  ghost predicate OneBuild(rs: seq<Record>) {
    && (forall i, j :: 0 <= i < j < |rs| ==> rs[i].end <= rs[j].end)
    && (forall i, j :: 0 <= i < j < |rs| && rs[i].hash == rs[j].hash ==>
          rs[i].start == rs[j].start && rs[i].end == rs[j].end)
  }

  /** Where the last build starts: a build is extended record by record for as long as it stays one. */
  ghost function LastBuild(rs: seq<Record>): (m: nat)
    ensures m <= |rs|
  {
    if rs == [] then 0
    else
      var m := LastBuild(rs[..|rs| - 1]);
      if OneBuild(rs[m..]) then m else |rs| - 1
  }

  lemma {:induction false} LastBuildIsOne(rs: seq<Record>)
    ensures OneBuild(rs[LastBuild(rs)..])
    ensures rs != [] ==> LastBuild(rs) < |rs|
  {
    if rs != [] {
      LastBuildIsOne(rs[..|rs| - 1]);
    }
  }

  /** A build is cut only where it has to be: one build is kept whole, and otherwise the first record of
      the last build could not extend the build in front of it. */
  lemma {:induction false} CutOnlyWhereNeeded(rs: seq<Record>)
    ensures OneBuild(rs) ==> LastBuild(rs) == 0
    ensures var m := LastBuild(rs);
      0 < m ==> m < |rs| && LastBuild(rs[..m]) < m && !OneBuild(rs[LastBuild(rs[..m])..m + 1])
  {
    hide OneBuild;
    if rs != [] {
      var init := rs[..|rs| - 1];
      var m := LastBuild(rs);
      CutOnlyWhereNeeded(init);
      LastBuildIsOne(init);
      LastBuildIsOne(rs);
      PartOfBuild(rs, |rs| - 1);
      if m < |init| {
        assert init[..m] == rs[..m];
        if m > 0 {
          assert init[LastBuild(init[..m])..m + 1] == rs[LastBuild(rs[..m])..m + 1];
        }
      } else {
        assert rs[..m] == init && rs[LastBuild(init)..] == rs[LastBuild(init)..m + 1];
        if init == [] {
          OneRecord(rs);
        }
      }
      assert rs[0..] == rs;
    }
  }

  lemma {:induction false} PartOfBuild(rs: seq<Record>, n: nat)
    requires n <= |rs|
    ensures OneBuild(rs) ==> OneBuild(rs[..n])
  {
  }

  lemma {:induction false} OneRecord(rs: seq<Record>)
    requires |rs| == 1
    ensures OneBuild(rs[0..])
  {
  }

  lemma {:induction false} OfMembers(rs: seq<Record>, hash: string)
    ensures forall r :: r in Of(rs, hash) <==> r in rs && r.hash == hash
  {
    if rs != [] {
      OfMembers(rs[..|rs| - 1], hash);
      assert rs == rs[..|rs| - 1] + [rs[|rs| - 1]];
    }
  }

  /** What the loop tests for the next record against what the dictionary holds. */
  predicate Restarts(ts: seq<Target>, lastEnd: int, r: Record) {
    r.end < lastEnd
    || (var i := IndexOf(ts, r.hash); i < |ts| && (ts[i].start != r.start || ts[i].end != r.end))
  }

  /** The two tests together recognise exactly the records that do not extend the build. */
  lemma {:induction false} RestartsIffNotOneBuild(ts: seq<Target>, rs: seq<Record>, lastEnd: int, r: Record)
    requires Groups(ts, rs) && OneBuild(rs) && rs != [] && lastEnd == rs[|rs| - 1].end
    ensures Restarts(ts, lastEnd, r) <==> !OneBuild(rs + [r])
  {
    hide Groups, Of, Hashes, Names;
    var all, of := rs + [r], Of(rs, r.hash);
    LookUp(ts, rs, r.hash);
    OfMembers(rs, r.hash);
    assert all[|rs| - 1] == rs[|rs| - 1] && all[|rs|] == r;
    if of != [] {
      assert of[0] in of;
      var k :| 0 <= k < |rs| && rs[k] == of[0];
      assert all[k] == rs[k];
      assert forall j :: 0 <= j < |rs| && rs[j].hash == r.hash ==> rs[j].start == rs[k].start && rs[j].end == rs[k].end;
    } else {
      assert forall j :: 0 <= j < |rs| ==> rs[j] in rs && rs[j].hash != r.hash;
    }
  }

  lemma {:induction false} EmptyGroups()
    ensures Groups([], [])
  {
  }

  /** The last build after one more record, given what the loop decides about it. */
  lemma {:induction false} NextBuild(rs: seq<Record>, r: Record, ts: seq<Target>, lastEnd: int, showAll: bool, m: nat)
    requires m == (if showAll then 0 else LastBuild(rs)) && m <= |rs| && Groups(ts, rs[m..])
    requires rs != [] ==> lastEnd == rs[|rs| - 1].end
    ensures rs == [] ==> ts == []
    ensures !showAll ==> LastBuild(rs + [r]) == if Restarts(ts, lastEnd, r) then |rs| else m
  {
    hide Restarts, OneBuild, Of, Names;
    var all := rs + [r];
    assert all[..|all| - 1] == rs;
    if !showAll {
      LastBuildIsOne(rs);
      assert all[m..] == rs[m..] + [r];
      if rs != [] {
        RestartsIffNotOneBuild(ts, rs[m..], lastEnd, r);
      }
    }
  }

  method AddRecord(ts: seq<Target>, r: Record) returns (r': seq<Target>)
    ensures r' == Add(ts, r)
  {
    var i := 0;
    while i < |ts| && ts[i].hash != r.hash
      invariant 0 <= i <= |ts| && forall j :: 0 <= j < i ==> ts[j].hash != r.hash
    {
      i := i + 1;
    }
    if i < |ts| {
      r' := ts[i := ts[i].(outputs := ts[i].outputs + [r.name])];
    } else {
      r' := ts + [Target(r.hash, r.start, r.end, [r.name])];
    }
  }

  /** Reading a log. Unless everything is shown, the result is exactly the grouping of the last
      build, a suffix of the valid records in which end times never decrease and records with one
      hash share their times; a suffix is cut only where the next record could not extend it. */
  method ReadTargets(lines: seq<Line>, showAll: bool) returns (ts: seq<Target>)
    ensures var rs := Records(lines);
      Groups(ts, if showAll then rs else rs[LastBuild(rs)..])
  {
    hide Groups, OneBuild, Add, LastBuild;
    ts := [];
    var lastEnd := 0;
    ghost var rs, m := [], 0;
    EmptyGroups();
    for n := 0 to |lines|
      invariant rs == Records(lines[..n])
      invariant m == if showAll then 0 else LastBuild(rs)
      invariant m <= |rs| && Groups(ts, rs[m..])
      invariant rs != [] ==> lastEnd == rs[|rs| - 1].end
    {
      assert lines[..n + 1][..n] == lines[..n];
      if lines[n].Valid? {
        var r := lines[n].record;
        ghost var all, restarts := rs + [r], !showAll && Restarts(ts, lastEnd, r);
        NextBuild(rs, r, ts, lastEnd, showAll, m);
        if !showAll && r.end < lastEnd {
          ts := [];
        }
        var i := IndexOf(ts, r.hash);
        if i < |ts| && !showAll && (ts[i].start != r.start || ts[i].end != r.end) {
          ts := [];
        }
        if restarts {
          m := |rs|;
        }
        EmptyGroups();
        assert restarts ==> ts == [] && rs[m..] == [];
        GroupsAdd(ts, rs[m..], r);
        assert all[m..] == rs[m..] + [r] && all[..|all| - 1] == rs;
        ts := AddRecord(ts, r);
        rs := all;
        lastEnd := r.end;
      }
    }
    assert lines[..|lines|] == lines;
    assert rs[0..] == rs;
  }
}
