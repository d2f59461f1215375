/** `memory_plan_reuse_patched`: pointless lines at the end are dropped, and every remaining planning
    line is planned against the state of the subgraph it stands in. */
module PlanningStates {
  import opened Sequences

  type Name = string

  /** A generated line: allocation or free of a buffer, the borders of a subgraph, anything else; a
      planned line names the state it was planned against. */
  datatype Line = Planning(name: Name) | Enter | Exit | Other | Planned(name: Name, state: nat)

  datatype PlanError = NoState | StatesLeft

  /** Dropped from the end: planning lines of buffers that are not returned. */
  predicate Pointless(l: Line, returned: set<Name>) {
    l.Planning? && l.name !in returned
  }

  function Trimmed(lines: seq<Line>, returned: set<Name>): seq<Line> {
    if lines != [] && Pointless(lines[|lines| - 1], returned) then Trimmed(lines[..|lines| - 1], returned) else lines
  }

  /** Exactly the trailing planning lines of buffers that are not returned go. */
  lemma {:induction false} TrimmedIsMaximal(lines: seq<Line>, returned: set<Name>)
    ensures var t := Trimmed(lines, returned);
      && t <= lines
      && (forall i :: |t| <= i < |lines| ==> lines[i].Planning? && lines[i].name !in returned)
      && (t != [] && t[|t| - 1].Planning? ==> t[|t| - 1].name in returned)
  {
    if lines != [] && Pointless(lines[|lines| - 1], returned) {
      TrimmedIsMaximal(lines[..|lines| - 1], returned);
    }
  }

  // ----- nesting, without a stack

  /** Open subgraphs in front of line `i`, the whole graph included. */
  function Depth(lines: seq<Line>, i: nat): int
    requires i <= |lines|
  {
    if i == 0 then 1
    else Depth(lines, i - 1) + if lines[i - 1].Enter? then 1 else if lines[i - 1].Exit? then -1 else 0
  }

  /** Reading backwards from line `i` and skipping the subgraphs that were closed: the state of the
      `skip`-th innermost open subgraph. State `k + 1` belongs to the entry at line `k`, state 0 to
      the whole graph. */
  function Opener(lines: seq<Line>, i: nat, skip: nat): nat
    requires i <= |lines|
  {
    if i == 0 then 0
    else if lines[i - 1].Exit? then Opener(lines, i - 1, skip + 1)
    else if !lines[i - 1].Enter? then Opener(lines, i - 1, skip)
    else if skip == 0 then i
    else Opener(lines, i - 1, skip - 1)
  }

  /** Every planning line and every exit stands inside the graph or one of its subgraphs. */
  predicate Inside(lines: seq<Line>, n: nat)
    requires n <= |lines|
  {
    forall i :: 0 <= i < n && (lines[i].Planning? || lines[i].Exit?) ==> Depth(lines, i) >= 1
  }

  /** What the loop and its final assertion ask for: planning lines and exits only where something is
      open, and one thing open at the end. The lines between may close the graph's own state and open
      another in its place. */
  predicate Plannable(lines: seq<Line>) {
    Inside(lines, |lines|) && Depth(lines, |lines|) == 1
  }

  /** Subgraphs are nested inside the graph and all of them are closed at the end. */
  predicate Nested(lines: seq<Line>) {
    (forall k :: 0 <= k <= |lines| ==> Depth(lines, k) >= 1) && Depth(lines, |lines|) == 1
  }

  lemma {:induction false} InsideMeansOpen(lines: seq<Line>, n: nat)
    requires n <= |lines| && Inside(lines, n)
    ensures Depth(lines, n) >= 0
  {
    if n > 0 {
      InsideMeansOpen(lines, n - 1);
    }
  }

  /** Nested lines are planned without an error. Lines that are planned without one are not nested
      exactly when somewhere nothing is open. */
  lemma {:induction false} NestedOrClosed(lines: seq<Line>)
    ensures Nested(lines) ==> Plannable(lines)
    ensures Plannable(lines) ==> (!Nested(lines) <==> exists k :: 0 <= k <= |lines| && Depth(lines, k) == 0)
  {
    if Plannable(lines) {
      forall k | 0 <= k <= |lines| ensures Depth(lines, k) >= 0 {
        InsideMeansOpen(lines, k);
      }
      if !Nested(lines) {
        var k :| 0 <= k <= |lines| && Depth(lines, k) < 1;
        assert Depth(lines, k) == 0;
      }
    }
  }

  /** Such lines exist: an exit from the graph itself, then an entry. */
  lemma {:induction false} ExitThenEnter()
    ensures Plannable([Exit, Enter]) && !Nested([Exit, Enter])
  {
    var lines := [Exit, Enter];
    assert Depth(lines, 0) == 1 && Depth(lines, 1) == 0 && Depth(lines, 2) == 1;
  }

  function PlannedLine(lines: seq<Line>, i: nat): Line
    requires i < |lines|
  {
    if lines[i].Planning? then Planned(lines[i].name, Opener(lines, i, 0)) else lines[i]
  }

  function FromTop(states: seq<nat>, k: nat): nat
    requires k < |states|
  {
    states[|states| - 1 - k]
  }

  /** The stack holds the open subgraphs, innermost last. */
  ghost predicate StackOf(lines: seq<Line>, i: nat, states: seq<nat>)
    requires i <= |lines|
  {
    && |states| == Depth(lines, i)
    && forall k: nat :: k < |states| ==> FromTop(states, k) == Opener(lines, i, k)
  }

  lemma {:induction false} StackPush(lines: seq<Line>, i: nat, states: seq<nat>)
    requires i < |lines| && lines[i].Enter? && StackOf(lines, i, states)
    ensures StackOf(lines, i + 1, states + [i + 1])
  {
    var s := states + [i + 1];
    forall k: nat | k < |s| ensures FromTop(s, k) == Opener(lines, i + 1, k) {
      if k > 0 {
        assert FromTop(s, k) == FromTop(states, k - 1);
      }
    }
  }

  lemma {:induction false} StackPop(lines: seq<Line>, i: nat, states: seq<nat>)
    requires i < |lines| && lines[i].Exit? && StackOf(lines, i, states) && states != []
    ensures StackOf(lines, i + 1, states[..|states| - 1])
  {
    var s := states[..|states| - 1];
    forall k: nat | k < |s| ensures FromTop(s, k) == Opener(lines, i + 1, k) {
      assert FromTop(s, k) == FromTop(states, k + 1);
    }
  }

  lemma {:induction false} StackStays(lines: seq<Line>, i: nat, states: seq<nat>)
    requires i < |lines| && !lines[i].Enter? && !lines[i].Exit? && StackOf(lines, i, states)
    ensures StackOf(lines, i + 1, states)
  {
    forall k: nat | k < |states| ensures FromTop(states, k) == Opener(lines, i + 1, k) {
      assert FromTop(states, k) == Opener(lines, i, k);
    }
  }

  lemma {:induction false} StackStarts(lines: seq<Line>)
    ensures StackOf(lines, 0, [0])
  {
  }

  lemma {:induction false} StackTop(lines: seq<Line>, i: nat, states: seq<nat>)
    requires i <= |lines| && StackOf(lines, i, states)
    ensures |states| == Depth(lines, i)
    ensures states != [] ==> states[|states| - 1] == Opener(lines, i, 0)
  {
    if states != [] {
      assert FromTop(states, 0) == Opener(lines, i, 0);
    }
  }

  class Wrapper {
    var lines: seq<Line>

    constructor (lines: seq<Line>)
      ensures this.lines == lines
    {
      this.lines := lines;
    }

    /** Planning ends without an error if and only if the lines that are kept are plannable; it fails at
        the final assertion if and only if subgraphs are left open, and otherwise for want of a state.
        Without an error every planning line got the state of its innermost open subgraph. */
    method MemoryPlanReuse(returned: set<Name>) returns (r: Result<(), PlanError>)
      modifies this
      ensures r.Ok? <==> Plannable(Trimmed(old(lines), returned))
      ensures var kept := Trimmed(old(lines), returned);
        r == Err(StatesLeft) <==> Inside(kept, |kept|) && Depth(kept, |kept|) > 1
      ensures r.Ok? ==>
        var kept := Trimmed(old(lines), returned);
        lines == seq(|kept|, i requires 0 <= i < |kept| => PlannedLine(kept, i))
    {
      hide Depth, Opener, StackOf;
      while lines != [] && Pointless(lines[|lines| - 1], returned)
        invariant Trimmed(lines, returned) == Trimmed(old(lines), returned)
        decreases |lines|
      {
        lines := lines[..|lines| - 1];
      }
      ghost var kept := lines;
      var states: seq<nat> := [0];
      StackStarts(kept);
      for i := 0 to |lines|
        invariant |lines| == |kept| && StackOf(kept, i, states) && Inside(kept, i)
        invariant forall j :: 0 <= j < i ==> lines[j] == PlannedLine(kept, j)
        invariant forall j :: i <= j < |lines| ==> lines[j] == kept[j]
      {
        StackTop(kept, i, states);
        match lines[i] {
          case Planning(name) =>
            if states == [] {
              return Err(NoState);
            }
            StackStays(kept, i, states);
            lines := lines[i := Planned(name, states[|states| - 1])];
          case Enter =>
            StackPush(kept, i, states);
            states := states + [i + 1];
          case Exit =>
            if states == [] {
              return Err(NoState);
            }
            StackPop(kept, i, states);
            states := states[..|states| - 1];
          case _ =>
            StackStays(kept, i, states);
        }
      }
      StackTop(kept, |kept|, states);
      if states == [] {
        return Err(NoState);
      }
      states := states[..|states| - 1];
      if states != [] {
        return Err(StatesLeft);
      }
      r := Ok(());
    }
  }

  /** From entry `s` to line `i` its subgraph is never closed. */
  ghost predicate StaysOpen(lines: seq<Line>, s: nat, i: nat)
    requires s <= i <= |lines|
  {
    forall k: nat :: s <= k <= i ==> Depth(lines, k) >= Depth(lines, s)
  }

  /** The state found backwards is that of an enclosing entry: between it and the line every subgraph
      that was opened is closed again, and the entry's own is not. */
  lemma {:induction false} OpenerEncloses(lines: seq<Line>, i: nat, skip: nat)
    requires i <= |lines| && skip < Depth(lines, i)
    ensures var s := Opener(lines, i, skip);
      && s <= i && (s > 0 ==> lines[s - 1].Enter?)
      && Depth(lines, s) == Depth(lines, i) - skip && StaysOpen(lines, s, i)
  {
    if i > 0 && !(lines[i - 1].Enter? && skip == 0) {
      var back := if lines[i - 1].Exit? then skip + 1 else if lines[i - 1].Enter? then skip - 1 else skip;
      OpenerEncloses(lines, i - 1, back);
      var s := Opener(lines, i - 1, back);
      assert Opener(lines, i, skip) == s && Depth(lines, i) >= Depth(lines, s);
      hide Depth, Opener;
      assert StaysOpen(lines, s, i);
    }
  }
}
