/** `_chunked_conv_forward` across ranks. Every all-reduce, and under sharded parameters every
    convolution call, is a collective: it completes only once all ranks have issued it, and only if
    they issued the same kind of operation. Ranks run at their own pace in between. */
module ConvLockstep {
  import opened Sequences
  import opened Chunking

  // ----- row-wise convolution in chunks

  function MapRows<T, U>(conv: T -> U, x: seq<T>): (r: seq<U>)
    ensures |r| == |x|
  {
    seq(|x|, i requires 0 <= i < |x| => conv(x[i]))
  }

  /** `tensor.split(size)` along the rows. */
  function Split<T>(x: seq<T>, size: nat): seq<seq<T>>
    requires size > 0
  {
    if |x| <= size then [x] else [x[..size]] + Split(x[size..], size)
  }

  lemma {:induction false} SplitCount<T>(x: seq<T>, size: nat)
    requires size > 0 && |x| > 0
    ensures |Split(x, size)| == CeilDiv(|x|, size)
    decreases |x|
  {
    if |x| <= size {
      DivModSmall(|x| - 1, size);
      DivModShift(|x| - 1, size);
    } else {
      SplitCount(x[size..], size);
      DivModShift(|x| - 1, size);
    }
  }

  /** Piece `k` holds the rows from `k * size` on, `size` of them or what is left, and there is one piece
      for every started `size` rows. */
  lemma {:induction false} SplitPieces<T>(x: seq<T>, size: nat, k: nat)
    requires size > 0 && |x| > 0 && k < CeilDiv(|x|, size)
    ensures |Split(x, size)| == CeilDiv(|x|, size)
    ensures Times(k, size) < |x|
    ensures Split(x, size)[k] == x[Times(k, size)..Min(Times(k, size) + size, |x|)]
    decreases |x|
  {
    SplitCount(x, size);
    hide CeilDiv;
    if |x| > size {
      SplitCount(x[size..], size);
      if k > 0 {
        SplitPieces(x[size..], size, k - 1);
      }
    }
  }

  function ConvPieces<T, U>(conv: T -> U, pieces: seq<seq<T>>): (r: seq<seq<U>>)
    ensures |r| == |pieces|
  {
    seq(|pieces|, i requires 0 <= i < |pieces| => MapRows(conv, pieces[i]))
  }

  /** Convolving the pieces and concatenating is convolving the whole. */
  lemma {:induction false} PiecewiseConv<T, U>(conv: T -> U, x: seq<T>, size: nat)
    requires size > 0
    ensures Flatten(ConvPieces(conv, Split(x, size))) == MapRows(conv, x)
    decreases |x|
  {
    hide MapRows, Flatten;
    if |x| <= size {
      assert ConvPieces(conv, [x]) == [MapRows(conv, x)];
      FlattenSingle(MapRows(conv, x));
    } else {
      var head, rest := x[..size], x[size..];
      PiecewiseConv(conv, rest, size);
      ConvFirst(conv, head, Split(rest, size));
      FlattenConcat([MapRows(conv, head)], ConvPieces(conv, Split(rest, size)));
      FlattenSingle(MapRows(conv, head));
      MapJoins(conv, head, rest);
      assert head + rest == x;
    }
  }

  lemma {:induction false} ConvFirst<T, U>(conv: T -> U, head: seq<T>, tail: seq<seq<T>>)
    ensures ConvPieces(conv, [head] + tail) == [MapRows(conv, head)] + ConvPieces(conv, tail)
  {
  }

  lemma {:induction false} MapJoins<T, U>(conv: T -> U, a: seq<T>, b: seq<T>)
    ensures MapRows(conv, a + b) == MapRows(conv, a) + MapRows(conv, b)
  {
  }

  function Padded<T>(x: seq<T>, zero: T, len: nat): (r: seq<T>)
    ensures |r| == Max(|x|, len)
  {
    if |x| < len then x + Repeat(zero, len - |x|) else x
  }

  /** The method as one rank runs it, the results of its all-reduces given. */
  method ChunkedConv<T, U>(x: seq<T>, zero: T, conv: T -> U, size: nat, distributed: bool, min: nat, max: nat,
                           maxLen: nat)
    returns (out: seq<U>, ghost calls: nat)
    requires size > 0 && |x| > 0
    ensures out == MapRows(conv, x)
    ensures calls == if !distributed || min == max then CeilDiv(|x|, size) else CeilDiv(Max(|x|, maxLen), size)
  {
    hide MapRows, CeilDiv;
    if !distributed || min == max {
      out, calls := ConvAll(x, conv, size);
      return;
    }
    var padded := Padded(x, zero, maxLen);
    out, calls := ConvAll(padded, conv, size);
    out := out[..|x|];
    PrefixConv(conv, x, padded);
  }

  lemma {:induction false} PrefixConv<T, U>(conv: T -> U, x: seq<T>, y: seq<T>)
    requires x <= y
    ensures MapRows(conv, y)[..|x|] == MapRows(conv, x)
  {
  }

  method ConvAll<T, U>(x: seq<T>, conv: T -> U, size: nat) returns (out: seq<U>, ghost calls: nat)
    requires size > 0 && |x| > 0
    ensures out == MapRows(conv, x) && calls == CeilDiv(|x|, size)
  {
    SplitCount(x, size);
    hide CeilDiv;
    out, calls := [], 0;
    var at := 0;
    ghost var pieces := Split(x, size);
    while at < |x|
      invariant 0 <= at <= |x| && out == MapRows(conv, x[..at])
      invariant if at < |x| then calls + |Split(x[at..], size)| == |pieces| else calls == |pieces|
    {
      var end := if |x| - at <= size then |x| else at + size;
      var piece := x[at..end];
      if end < |x| {
        assert x[at..][size..] == x[end..];
      }
      out := out + MapRows(conv, piece);
      assert x[..end] == x[..at] + piece;
      calls := calls + 1;
      at := end;
    }
    assert x[..at] == x;
  }

  // ----- ranks as a step system

  datatype Op = MinChunks(n: nat) | MaxChunks(n: nat) | MaxLength(n: nat) | Conv
  datatype Kind = MinK | MaxK | LenK | ConvK
  datatype Res<U> = Number(n: nat) | Rows(rows: seq<U>)
  function KindOf(op: Op): Kind {
    match op
    case MinChunks(_) => MinK
    case MaxChunks(_) => MaxK
    case MaxLength(_) => LenK
    case Conv => ConvK
  }

  /** A job: the rows of every rank, the chunk size and the row-wise convolution. */
  datatype Job<!T, !U> = Job(inputs: seq<seq<T>>, zero: T, conv: T -> U, size: nat)
  {
    ghost predicate Valid() {
      size > 0 && inputs != [] && forall i :: 0 <= i < |inputs| ==> |inputs[i]| > 0
    }

    function Local(i: nat): nat
      requires size > 0 && i < |inputs|
    {
      CeilNat(|inputs[i]|, size);
      CeilDiv(|inputs[i]|, size)
    }
  }

  lemma {:induction false} CeilNat(a: nat, b: nat)
    requires b > 0
    ensures CeilDiv(a, b) >= 0
  {
  }

  /** The smallest and the largest chunk count came out equal. */
  predicate SameCounts<U>(got: seq<Res<U>>)
    requires |got| >= 2
  {
    got[0].Number? && got[1].Number? && got[0].n == got[1].n
  }

  /** What rank `i` does next, from its own rows and the results it has received so far. */
  function NextOp<T, U>(job: Job<T, U>, i: nat, got: seq<Res<U>>): Option<Op>
    requires job.size > 0 && i < |job.inputs|
  {
    var x, local := job.inputs[i], job.Local(i);
    if |job.inputs| == 1 then
      if |got| < |Split(x, job.size)| then Some(Conv) else None
    else if |got| == 0 then Some(MinChunks(local))
    else if |got| == 1 then Some(MaxChunks(local))
    else if SameCounts(got) then
      if |got| - 2 < |Split(x, job.size)| then Some(Conv) else None
    else if |got| == 2 then Some(MaxLength(|x|))
    else if !got[2].Number? then None
    else if |got| - 3 < |Split(Padded(x, job.zero, got[2].n), job.size)| then Some(Conv)
    else None
  }

  function MinOf(s: seq<nat>): (m: nat)
    requires s != []
    ensures m in s && forall x :: x in s ==> m <= x
  {
    if |s| == 1 then s[0]
    else
      var m := MinOf(s[..|s| - 1]);
      assert forall x :: x in s ==> x in s[..|s| - 1] || x == s[|s| - 1];
      if s[|s| - 1] < m then s[|s| - 1] else m
  }

  /** How many operations each rank has issued, and the results it has received. */
  datatype State<!U> = State(issued: seq<nat>, got: seq<seq<Res<U>>>)

  function Start<T, U>(job: Job<T, U>): State<U> {
    State(Repeat(0, |job.inputs|), Repeat([], |job.inputs|))
  }

  /** The operation rank `j` issued in round `r`. */
  function Issued<T, U>(job: Job<T, U>, s: State<U>, j: nat, r: nat): Option<Op>
    requires job.size > 0 && j < |job.inputs| == |s.got| && r <= |s.got[j]|
  {
    NextOp(job, j, s.got[j][..r])
  }

  ghost predicate Shape<T, U>(job: Job<T, U>, s: State<U>) {
    && |s.issued| == |s.got| == |job.inputs|
    && forall j :: 0 <= j < |s.got| ==> |s.got[j]| <= s.issued[j] <= |s.got[j]| + 1
  }

  ghost predicate CanIssue<T, U>(job: Job<T, U>, s: State<U>, i: nat)
    requires job.size > 0 && Shape(job, s)
  {
    i < |s.got| && s.issued[i] == |s.got[i]| && NextOp(job, i, s.got[i]).Some?
  }

  ghost predicate AllOfKind<T, U>(job: Job<T, U>, s: State<U>, r: nat, k: Kind)
    requires job.size > 0 && Shape(job, s) && forall j :: 0 <= j < |s.got| ==> s.issued[j] > r
  {
    forall j :: 0 <= j < |s.got| ==> Issued(job, s, j, r).Some? && KindOf(Issued(job, s, j, r).value) == k
  }

  /** Round `r` has been reached by all ranks, with one and the same kind of operation. */
  ghost predicate Met<T, U>(job: Job<T, U>, s: State<U>, r: nat)
    requires job.size > 0 && Shape(job, s)
  {
    && (forall j :: 0 <= j < |s.got| ==> s.issued[j] > r)
    && exists k :: AllOfKind(job, s, r, k)
  }

  ghost predicate CanFinish<T, U>(job: Job<T, U>, s: State<U>, i: nat)
    requires job.size > 0 && Shape(job, s)
  {
    i < |s.got| && s.issued[i] == |s.got[i]| + 1 && Met(job, s, |s.got[i]|)
  }

  ghost function Values<T, U>(job: Job<T, U>, s: State<U>, r: nat): (v: seq<nat>)
    requires job.size > 0 && Shape(job, s) && Met(job, s, r)
    ensures |v| == |s.got|
  {
    seq(|s.got|, j requires 0 <= j < |s.got| =>
      var op := Issued(job, s, j, r).value;
      if op.Conv? then 0 else op.n)
  }

  /** Rows that the `k`-th convolution call of rank `i` works on, after the results in `got`. */
  function ConvResult<T, U>(job: Job<T, U>, i: nat, got: seq<Res<U>>): Res<U>
    requires job.size > 0 && i < |job.inputs| && NextOp(job, i, got) == Some(Conv)
  {
    var x := job.inputs[i];
    if |job.inputs| == 1 then Rows(MapRows(job.conv, Split(x, job.size)[|got|]))
    else if SameCounts(got) then Rows(MapRows(job.conv, Split(x, job.size)[|got| - 2]))
    else Rows(MapRows(job.conv, Split(Padded(x, job.zero, got[2].n), job.size)[|got| - 3]))
  }

  /** What rank `i` receives when its pending operation completes. */
  ghost function Received<T, U>(job: Job<T, U>, s: State<U>, i: nat): Res<U>
    requires job.size > 0 && Shape(job, s) && CanFinish(job, s, i)
  {
    var r := |s.got[i]|;
    var v := Values(job, s, r);
    assert s.got[i][..r] == s.got[i];
    assert Issued(job, s, i, r) == NextOp(job, i, s.got[i]);
    match NextOp(job, i, s.got[i]).value
    case MinChunks(_) => Number(MinOf(v))
    case MaxChunks(_) => Number(Largest(v))
    case MaxLength(_) => Number(Largest(v))
    case Conv => ConvResult(job, i, s.got[i])
  }

  ghost function Issue<U>(s: State<U>, i: nat): State<U>
    requires i < |s.issued|
  {
    s.(issued := s.issued[i := s.issued[i] + 1])
  }

  ghost function Finish<T, U>(job: Job<T, U>, s: State<U>, i: nat): State<U>
    requires job.size > 0 && Shape(job, s) && CanFinish(job, s, i)
  {
    s.(got := s.got[i := s.got[i] + [Received(job, s, i)]])
  }

  /** One step of one rank. */
  ghost predicate Next<T, U>(job: Job<T, U>, s: State<U>, s': State<U>)
    requires job.size > 0
  {
    Shape(job, s) &&
    exists i: nat :: i < |s.got| &&
      ((CanIssue(job, s, i) && s' == Issue(s, i)) || (CanFinish(job, s, i) && s' == Finish(job, s, i)))
  }

  ghost predicate Stuck<T, U>(job: Job<T, U>, s: State<U>)
    requires job.size > 0 && Shape(job, s)
  {
    forall i: nat :: i < |s.got| ==> !CanIssue(job, s, i) && !CanFinish(job, s, i)
  }

  // ----- what every rank will have received

  function Locals<T, U>(job: Job<T, U>): (r: seq<nat>)
    requires job.size > 0
    ensures |r| == |job.inputs|
  {
    seq(|job.inputs|, i requires 0 <= i < |job.inputs| => job.Local(i))
  }

  function Lengths<T, U>(job: Job<T, U>): (r: seq<nat>)
    ensures |r| == |job.inputs|
  {
    seq(|job.inputs|, i requires 0 <= i < |job.inputs| => |job.inputs[i]|)
  }

  /** All ranks have the same number of chunks. */
  ghost predicate Even<T, U>(job: Job<T, U>)
    requires job.Valid()
  {
    MinOf(Locals(job)) == Largest(Locals(job))
  }

  /** All-reduces every rank takes part in. */
  ghost function Reduces<T, U>(job: Job<T, U>): nat
    requires job.Valid()
  {
    if |job.inputs| == 1 then 0 else if Even(job) then 2 else 3
  }

  /** Convolution calls every rank makes: the global maximum length, in chunks. */
  ghost function Calls<T, U>(job: Job<T, U>): nat
    requires job.Valid()
  {
    CeilNat(Largest(Lengths(job)), job.size);
    CeilDiv(Largest(Lengths(job)), job.size)
  }

  ghost function Rounds<T, U>(job: Job<T, U>): nat
    requires job.Valid()
  {
    Reduces(job) + Calls(job)
  }

  /** The rows rank `i` feeds to the convolution. */
  ghost function Feed<T, U>(job: Job<T, U>, i: nat): seq<T>
    requires job.Valid() && i < |job.inputs|
  {
    if |job.inputs| == 1 || Even(job) then job.inputs[i] else Padded(job.inputs[i], job.zero, Largest(Lengths(job)))
  }

  function AsRows<U>(pieces: seq<seq<U>>): (r: seq<Res<U>>)
    ensures |r| == |pieces|
  {
    seq(|pieces|, k requires 0 <= k < |pieces| => Rows(pieces[k]))
  }

  ghost function Header<T, U>(job: Job<T, U>): (r: seq<Res<U>>)
    requires job.Valid()
    ensures |r| == Reduces(job)
  {
    var g, m := Number(MinOf(Locals(job))), Number(Largest(Locals(job)));
    if |job.inputs| == 1 then [] else if Even(job) then [g, m] else [g, m, Number(Largest(Lengths(job)))]
  }

  /** Every result rank `i` receives, in order. */
  ghost function Expected<T, U>(job: Job<T, U>, i: nat): seq<Res<U>>
    requires job.Valid() && i < |job.inputs|
  {
    Header(job) + AsRows(ConvPieces(job.conv, Split(Feed(job, i), job.size)))
  }

  lemma {:induction false} CeilMonotone(a: nat, b: nat, d: nat)
    requires d > 0 && a <= b
    ensures CeilDiv(a, d) <= CeilDiv(b, d)
  {
    DivMonotone(a + d - 1, b + d - 1, d);
  }

  lemma {:induction false} DivMonotone(a: nat, b: nat, d: nat)
    requires d > 0 && a <= b
    ensures a / d <= b / d
  {
    var q, q' := a / d, b / d;
    assert a == q * d + a % d && b == q' * d + b % d;
    assert (q - q') * d < d;
    MultipleBelow(q - q', d);
  }

  lemma {:induction false} MultipleBelow(k: int, d: nat)
    requires d > 0 && k * d < d
    ensures k <= 0
  {
  }

  /** Rounding up commutes with taking the maximum over ranks. */
  lemma {:induction false} MaxCount<T, U>(job: Job<T, U>)
    requires job.Valid()
    ensures Largest(Locals(job)) == Calls(job)
  {
    hide CeilDiv;
    var ls, ns := Locals(job), Lengths(job);
    var i :| 0 <= i < |ns| && ns[i] == Largest(ns);
    assert ls[i] in ls;
    var j :| 0 <= j < |ls| && ls[j] == Largest(ls);
    assert ns[j] in ns && ns[j] <= Largest(ns);
    CeilMonotone(ns[j], ns[i], job.size);
  }

  lemma {:induction false} FeedPieces<T, U>(job: Job<T, U>, i: nat)
    requires job.Valid() && i < |job.inputs|
    ensures |Split(Feed(job, i), job.size)| == Calls(job)
    ensures |Expected(job, i)| == Rounds(job)
    ensures job.inputs[i] <= Feed(job, i)
  {
    hide CeilDiv, Split;
    var x, ls, ns := job.inputs[i], Locals(job), Lengths(job);
    MaxCount(job);
    assert ns[i] in ns && ls[i] in ls;
    SplitCount(Feed(job, i), job.size);
    if |job.inputs| == 1 {
      assert Largest(ns) == ns[0];
    } else if Even(job) {
      assert ls[i] == Largest(ls);
    } else {
      assert |Feed(job, i)| == Largest(ns);
    }
  }

  /** The operation rank `i` issues in round `r`. */
  ghost function OpAt<T, U>(job: Job<T, U>, i: nat, r: nat): Op
    requires job.Valid() && i < |job.inputs|
  {
    if r >= Reduces(job) then Conv
    else if r == 0 then MinChunks(job.Local(i))
    else if r == 1 then MaxChunks(job.Local(i))
    else MaxLength(|job.inputs[i]|)
  }

  /** The schedule: the kind of operation in each round, the same for all ranks. */
  ghost function Schedule<T, U>(job: Job<T, U>, r: nat): Kind
    requires job.Valid()
  {
    if r >= Reduces(job) then ConvK else if r == 0 then MinK else if r == 1 then MaxK else LenK
  }

  /** A rank that has received what it should so far issues the scheduled operation next. */
  lemma {:induction false} NextIsScheduled<T, U>(job: Job<T, U>, i: nat, r: nat)
    requires job.Valid() && i < |job.inputs| && r <= Rounds(job)
    ensures |Expected(job, i)| == Rounds(job)
    ensures NextOp(job, i, Expected(job, i)[..r]) == if r < Rounds(job) then Some(OpAt(job, i, r)) else None
    ensures KindOf(OpAt(job, i, r)) == Schedule(job, r)
    ensures Reduces(job) <= r < Rounds(job) ==> ConvResult(job, i, Expected(job, i)[..r]) == Expected(job, i)[r]
  {
    hide Split, MinOf, Largest, CeilDiv, MapRows;
    FeedPieces(job, i);
  }

  // ----- the invariant

  ghost predicate Inv<T, U>(job: Job<T, U>, s: State<U>)
    requires job.Valid()
  {
    && Shape(job, s)
    && (forall j :: 0 <= j < |s.got| ==> s.issued[j] <= Rounds(job) == |Expected(job, j)|)
    && (forall j :: 0 <= j < |s.got| ==> s.got[j] == Expected(job, j)[..|s.got[j]|])
    && (forall i, j :: 0 <= i < |s.got| && 0 <= j < |s.got| ==> |s.got[i]| <= s.issued[j])
  }

  lemma {:induction false} InvStart<T, U>(job: Job<T, U>)
    requires job.Valid()
    ensures Inv(job, Start(job))
  {
    hide Expected, Rounds;
    forall j | 0 <= j < |job.inputs| ensures Rounds(job) == |Expected(job, j)| {
      FeedPieces(job, j);
    }
  }

  /** Under the invariant rank `j` issued the scheduled operation in every round it reached. */
  lemma {:induction false} IssuedAt<T, U>(job: Job<T, U>, s: State<U>, j: nat, r: nat)
    requires job.Valid() && Inv(job, s) && j < |s.got| && r <= |s.got[j]|
    ensures Issued(job, s, j, r) == if r < Rounds(job) then Some(OpAt(job, j, r)) else None
    ensures KindOf(OpAt(job, j, r)) == Schedule(job, r)
  {
    hide NextOp, Expected, Rounds, OpAt, Schedule;
    NextIsScheduled(job, j, r);
    assert s.got[j][..r] == Expected(job, j)[..r];
  }

  lemma {:induction false} ReceivedIsExpected<T, U>(job: Job<T, U>, s: State<U>, i: nat)
    requires job.Valid() && Inv(job, s) && CanFinish(job, s, i)
    ensures |s.got[i]| < Rounds(job)
    ensures Received(job, s, i) == Expected(job, i)[|s.got[i]|]
  {
    hide NextOp, MinOf, Largest, CeilDiv, Split, ConvResult;
    var r := |s.got[i]|;
    assert s.got[i][..r] == s.got[i];
    IssuedAt(job, s, i, r);
    NextIsScheduled(job, i, r);
    if r < Reduces(job) {
      var v := Values(job, s, r);
      forall j | 0 <= j < |v| ensures v[j] == if r < 2 then Locals(job)[j] else Lengths(job)[j] {
        IssuedAt(job, s, j, r);
      }
      assert v == if r < 2 then Locals(job) else Lengths(job);
    }
  }

  lemma {:induction false} InvNext<T, U>(job: Job<T, U>, s: State<U>, s': State<U>)
    requires job.Valid() && Inv(job, s) && Next(job, s, s')
    ensures Inv(job, s')
  {
    hide NextOp, Expected, Rounds, Received, Met, Issued, Schedule, OpAt;
    var i: nat :| i < |s.got| &&
      ((CanIssue(job, s, i) && s' == Issue(s, i)) || (CanFinish(job, s, i) && s' == Finish(job, s, i)));
    var r := |s.got[i]|;
    if CanIssue(job, s, i) && s' == Issue(s, i) {
      IssuedAt(job, s, i, r);
      IssuedNow(job, s, i);
    } else {
      ReceivedIsExpected(job, s, i);
      MetMeansReached(job, s, r);
      assert Expected(job, i)[..r + 1] == Expected(job, i)[..r] + [Expected(job, i)[r]];
    }
  }

  lemma {:induction false} MetMeansReached<T, U>(job: Job<T, U>, s: State<U>, r: nat)
    requires job.size > 0 && Shape(job, s) && Met(job, s, r)
    ensures forall j :: 0 <= j < |s.got| ==> s.issued[j] > r
  {
  }

  // ----- nobody waits for ever

  ghost predicate Done<T, U>(job: Job<T, U>, s: State<U>)
    requires job.Valid()
  {
    |s.got| == |job.inputs| && forall j :: 0 <= j < |s.got| ==> s.got[j] == Expected(job, j)
  }

  lemma {:induction false} Slowest<U>(got: seq<seq<Res<U>>>) returns (i: nat)
    requires got != []
    ensures i < |got| && forall j :: 0 <= j < |got| ==> |got[i]| <= |got[j]|
  {
    i := 0;
    var n := 1;
    while n < |got|
      invariant i < n <= |got| && forall j :: 0 <= j < n ==> |got[i]| <= |got[j]|
    {
      if |got[n]| < |got[i]| {
        i := n;
      }
      n := n + 1;
    }
  }

  /** Until all ranks have finished some rank can take a step: one with nothing pending issues its
      next operation, or else the slowest rank's pending operation has been met by all. */
  lemma {:induction false} Progress<T, U>(job: Job<T, U>, s: State<U>) returns (i: nat)
    requires job.Valid() && Inv(job, s) && !Done(job, s)
    ensures i < |s.got| && (CanIssue(job, s, i) || CanFinish(job, s, i))
  {
    hide NextOp, Expected, Rounds, OpAt, Schedule, Issued;
    i := Slowest(s.got);
    var r := |s.got[i]|;
    if j: nat :| j < |s.got| && CanIssue(job, s, j) {
      i := j;
    } else {
      assert r < Rounds(job) by { SlowestNotDone(job, s, i); }
      forall j | 0 <= j < |s.got|
        ensures s.issued[j] > r && Issued(job, s, j, r).Some?
        ensures KindOf(Issued(job, s, j, r).value) == Schedule(job, r) {
        IssuedAt(job, s, j, |s.got[j]|);
        IssuedNow(job, s, j);
        IssuedAt(job, s, j, r);
        assert !CanIssue(job, s, j);
      }
      assert AllOfKind(job, s, r, Schedule(job, r));
    }
  }

  lemma {:induction false} SlowestNotDone<T, U>(job: Job<T, U>, s: State<U>, i: nat)
    requires job.Valid() && Inv(job, s) && !Done(job, s)
    requires i < |s.got| && forall j :: 0 <= j < |s.got| ==> |s.got[i]| <= |s.got[j]|
    ensures |s.got[i]| < Rounds(job)
  {
    hide Expected, Rounds;
    var j :| 0 <= j < |s.got| && s.got[j] != Expected(job, j);
    assert Expected(job, j)[..|Expected(job, j)|] == Expected(job, j);
  }

  /** A state in which no rank can take a step is one in which all ranks have finished. */
  lemma {:induction false} StuckMeansDone<T, U>(job: Job<T, U>, s: State<U>)
    requires job.Valid() && Inv(job, s) && Stuck(job, s)
    ensures Done(job, s)
  {
    if !Done(job, s) {
      var i := Progress(job, s);
    }
  }

  lemma {:induction false} IssuedNow<T, U>(job: Job<T, U>, s: State<U>, j: nat)
    requires job.size > 0 && Shape(job, s) && j < |s.got|
    ensures Issued(job, s, j, |s.got[j]|) == NextOp(job, j, s.got[j])
  {
    assert s.got[j][..|s.got[j]|] == s.got[j];
  }

  // ----- whole runs

  /** Any interleaving of the ranks. */
  ghost predicate IsRun<T, U>(job: Job<T, U>, run: seq<State<U>>)
    requires job.size > 0
  {
    && run != [] && run[0] == Start(job)
    && forall k :: 0 <= k < |run| - 1 ==> Next(job, run[k], run[k + 1])
  }

  lemma {:induction false} InvRun<T, U>(job: Job<T, U>, run: seq<State<U>>, k: nat)
    requires job.Valid() && IsRun(job, run) && k < |run|
    ensures Inv(job, run[k])
  {
    if k == 0 {
      InvStart(job);
    } else {
      InvRun(job, run, k - 1);
      InvNext(job, run[k - 1], run[k]);
    }
  }

  /** Operations issued and results received by the first `n` ranks. */
  function Work<U>(s: State<U>, n: nat): nat
    requires n <= |s.issued| && n <= |s.got|
  {
    if n == 0 then 0 else Work(s, n - 1) + s.issued[n - 1] + |s.got[n - 1]|
  }

  lemma {:induction false} WorkAddsOne<U>(s: State<U>, s': State<U>, i: nat, n: nat)
    requires |s.issued| == |s.got| == |s'.issued| == |s'.got| && i < |s.got| && n <= |s.got|
    requires forall j :: 0 <= j < |s.got| && j != i ==> s'.issued[j] == s.issued[j] && s'.got[j] == s.got[j]
    requires s'.issued[i] + |s'.got[i]| == s.issued[i] + |s.got[i]| + 1
    ensures Work(s', n) == Work(s, n) + if i < n then 1 else 0
  {
    if n > 0 {
      WorkAddsOne(s, s', i, n - 1);
    }
  }

  lemma {:induction false} WorkBound<U>(s: State<U>, n: nat, rounds: nat)
    requires n <= |s.issued| == |s.got|
    requires forall j :: 0 <= j < |s.got| ==> |s.got[j]| <= s.issued[j] <= rounds
    ensures Work(s, n) <= Times(n, 2 * rounds)
  {
    if n > 0 {
      WorkBound(s, n - 1, rounds);
    }
  }

  lemma {:induction false} WorkZero<U>(s: State<U>, n: nat)
    requires n <= |s.issued| == |s.got|
    requires forall j :: 0 <= j < |s.got| ==> s.issued[j] == 0 && s.got[j] == []
    ensures Work(s, n) == 0
  {
    if n > 0 {
      WorkZero(s, n - 1);
    }
  }

  lemma {:induction false} RunWork<T, U>(job: Job<T, U>, run: seq<State<U>>, k: nat)
    requires job.Valid() && IsRun(job, run) && k < |run|
    ensures Shape(job, run[k]) && Work(run[k], |job.inputs|) == k
  {
    hide NextOp, Received, Met, Work, Inv;
    InvRun(job, run, k);
    assert Shape(job, run[k]) by { InvHasShape(job, run[k]); }
    if k == 0 {
      WorkZero(run[0], |job.inputs|);
    } else {
      RunWork(job, run, k - 1);
      var s := run[k - 1];
      assert Next(job, s, run[k - 1 + 1]);
      var i: nat :| i < |s.got| &&
        ((CanIssue(job, s, i) && run[k] == Issue(s, i)) || (CanFinish(job, s, i) && run[k] == Finish(job, s, i)));
      WorkAddsOne(s, run[k], i, |job.inputs|);
    }
  }

  lemma {:induction false} InvHasShape<T, U>(job: Job<T, U>, s: State<U>)
    requires job.Valid() && Inv(job, s)
    ensures Shape(job, s)
  {
  }

  /** What a rank returns from the results it has received. */
  function RowsIn<U>(got: seq<Res<U>>): seq<seq<U>> {
    if got == [] then []
    else RowsIn(got[..|got| - 1]) + if got[|got| - 1].Rows? then [got[|got| - 1].rows] else []
  }

  function Returned<T, U>(job: Job<T, U>, i: nat, got: seq<Res<U>>): seq<U>
    requires i < |job.inputs|
  {
    var all := Flatten(RowsIn(got));
    if |all| < |job.inputs[i]| then all else all[..|job.inputs[i]|]
  }

  lemma {:induction false} RowsInAsRows<U>(header: seq<Res<U>>, pieces: seq<seq<U>>)
    requires forall k :: 0 <= k < |header| ==> header[k].Number?
    ensures RowsIn(header + AsRows(pieces)) == pieces
    decreases |header| + |pieces|
  {
    var all := header + AsRows(pieces);
    if pieces != [] {
      var init := pieces[..|pieces| - 1];
      assert all[..|all| - 1] == header + AsRows(init);
      RowsInAsRows(header, init);
    } else if header != [] {
      var init := header[..|header| - 1];
      assert all[..|all| - 1] == init + AsRows(pieces);
      RowsInAsRows(init, pieces);
    }
  }

  lemma {:induction false} ReturnsOwnConvolution<T, U>(job: Job<T, U>, i: nat)
    requires job.Valid() && i < |job.inputs|
    ensures Returned(job, i, Expected(job, i)) == MapRows(job.conv, job.inputs[i])
  {
    hide MapRows, Split, Flatten, MinOf, Largest;
    FeedPieces(job, i);
    var feed := Feed(job, i);
    RowsInAsRows(Header(job), ConvPieces(job.conv, Split(feed, job.size)));
    PiecewiseConv(job.conv, feed, job.size);
    PrefixConv(job.conv, job.inputs[i], feed);
  }

  /** For every number of ranks, all positive lengths and every interleaving: in every round all
      ranks issue the same kind of operation, namely the scheduled one (so the same all-reduces and
      the same number of convolution calls, the global maximum length in chunks); the run is
      bounded; and when no step is left every rank returns the convolution of its own rows. */
  lemma {:induction false} Lockstep<T, U>(job: Job<T, U>, run: seq<State<U>>)
    requires job.Valid() && IsRun(job, run)
    ensures |run| - 1 <= Times(|job.inputs|, 2 * Rounds(job))
    ensures forall k, j, r ::
      && 0 <= k < |run| && 0 <= j < |job.inputs| && Shape(job, run[k])
      && 0 <= r <= |run[k].got[j]| && r < Rounds(job) ==>
      Issued(job, run[k], j, r).Some? && KindOf(Issued(job, run[k], j, r).value) == Schedule(job, r)
    ensures Shape(job, run[|run| - 1])
    ensures Stuck(job, run[|run| - 1]) ==> forall j :: 0 <= j < |job.inputs| ==>
      && |run[|run| - 1].got[j]| == Rounds(job)
      && Returned(job, j, run[|run| - 1].got[j]) == MapRows(job.conv, job.inputs[j])
  {
    hide NextOp, Expected, Rounds, OpAt, Schedule, Issued, Returned, MapRows, Next, Stuck;
    var last := run[|run| - 1];
    InvRun(job, run, |run| - 1);
    RunWork(job, run, |run| - 1);
    WorkBound(last, |job.inputs|, Rounds(job));
    forall k, j, r |
      && 0 <= k < |run| && 0 <= j < |job.inputs| && Shape(job, run[k])
      && 0 <= r <= |run[k].got[j]| && r < Rounds(job)
      ensures Issued(job, run[k], j, r).Some? && KindOf(Issued(job, run[k], j, r).value) == Schedule(job, r) {
      InvRun(job, run, k);
      IssuedAt(job, run[k], j, r);
    }
    if Stuck(job, last) {
      StuckMeansDone(job, last);
      forall j | 0 <= j < |job.inputs|
        ensures |last.got[j]| == Rounds(job) && Returned(job, j, last.got[j]) == MapRows(job.conv, job.inputs[j]) {
        ReturnsOwnConvolution(job, j);
        FeedPieces(job, j);
      }
    }
  }
}
