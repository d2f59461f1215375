/** Data-parallel chunked execution: every rank works through the same number of chunks, with dummy
    work of one token once its own tokens are used up. */
module DpChunks {
  import opened Sequences
  import opened Chunking

  /** Tokens per sequence-parallel rank, repeated for every such rank of a data-parallel rank. */
  function SpTokens(tokens: seq<nat>, sp: nat): (r: seq<int>)
    requires sp > 0
  {
    if tokens == [] then []
    else SpTokens(tokens[..|tokens| - 1], sp) + Repeat(CeilDiv(tokens[|tokens| - 1], sp), sp)
  }

  /** Tokens rank with `n` tokens works on in chunk `k` of at most `m`; never less than one. */
  function LocalSize(n: int, m: nat, k: nat): int {
    var s := Min(m, n - m * k);
    if s <= 0 then 1 else s
  }

  /** `_compute_chunked_local_num_tokens`. */
  method LocalSizes(tokens: seq<nat>, sp: nat, m: nat, k: nat) returns (sizes: array<int>)
    requires sp > 0
    ensures fresh(sizes) && sizes.Length == |SpTokens(tokens, sp)|
    ensures forall i :: 0 <= i < sizes.Length ==> sizes[i] == LocalSize(SpTokens(tokens, sp)[i], m, k)
  {
    hide SpTokens;
    var all := SpTokens(tokens, sp);
    sizes := new int[|all|](_ => -1);
    for i := 0 to |all|
      invariant forall j :: 0 <= j < i ==> sizes[j] == LocalSize(all[j], m, k)
    {
      sizes[i] := Min(m, all[i] - m * k);
      if sizes[i] <= 0 {
        sizes[i] := 1;
      }
    }
  }

  /** Every chunk has at least one and at most `m` tokens on every rank. */
  lemma {:induction false} LocalSizeBounds(n: nat, m: nat, k: nat)
    requires m > 0
    ensures 1 <= LocalSize(n, m, k) <= m
  {
  }

  /** Sum of a rank's sizes over the first `chunks` chunks. */
  function Worked(n: nat, m: nat, chunks: nat): int {
    if chunks == 0 then 0 else Worked(n, m, chunks - 1) + LocalSize(n, m, chunks - 1)
  }

  /** Before it is done a rank works on full chunks. */
  lemma {:induction false} WorkedFull(n: nat, m: nat, chunks: nat)
    requires m > 0 && chunks * m <= n
    ensures Worked(n, m, chunks) == chunks * m
  {
    if chunks > 0 {
      assert chunks * m == (chunks - 1) * m + m && m * (chunks - 1) == (chunks - 1) * m;
      WorkedFull(n, m, chunks - 1);
    }
  }

  /** Once it is done, every further chunk is one token of dummy work. */
  lemma {:induction false} WorkedPast(n: nat, m: nat, from: nat, chunks: nat)
    requires m > 0 && from <= chunks && from * m >= n
    ensures Worked(n, m, chunks) == Worked(n, m, from) + (chunks - from)
    decreases chunks
  {
    if from < chunks {
      WorkedPast(n, m, from, chunks - 1);
      TimesMonotone(from, chunks - 1, m);
      assert m * (chunks - 1) == (chunks - 1) * m;
    }
  }

  lemma {:induction false} TimesMonotone(a: nat, b: nat, m: nat)
    requires a <= b
    ensures a * m <= b * m
  {
    assert b * m == a * m + (b - a) * m;
  }

  lemma {:induction false} CeilBounds(n: nat, m: nat)
    requires m > 0
    ensures 0 <= CeilDiv(n, m) && (n == 0 ==> CeilDiv(n, m) == 0)
    ensures CeilDiv(n, m) * m >= n && (n > 0 ==> CeilDiv(n, m) > 0 && (CeilDiv(n, m) - 1) * m < n)
  {
    var x := n + m - 1;
    assert x == x / m * m + x % m;
    if n > 0 {
      DivModShift(n - 1, m);
    } else {
      DivModSmall(m - 1, m);
    }
  }

  /** Over any number of chunks the sizes add up to the tokens the chunks can hold, at most the rank's
      own, plus one for every chunk after it has finished; so every chunk but the last real one is full. */
  lemma {:induction false} RankTotals(n: nat, m: nat, chunks: nat)
    requires m > 0
    ensures Worked(n, m, chunks) == Min(chunks * m, n) + Max(0, chunks - CeilDiv(n, m))
    ensures chunks >= CeilDiv(n, m) ==> Worked(n, m, chunks) == n + (chunks - CeilDiv(n, m))
  {
    hide CeilDiv, LocalSize;
    CeilBounds(n, m);
    var c := CeilDiv(n, m);
    if chunks >= c {
      TimesMonotone(c, chunks, m);
      WorkedPast(n, m, c, chunks);
      if n > 0 {
        WorkedFull(n, m, c - 1);
        LastChunk(n, m, c);
      }
    } else {
      TimesMonotone(chunks, c - 1, m);
      WorkedFull(n, m, chunks);
    }
  }

  /** The last real chunk takes what is left. */
  lemma {:induction false} LastChunk(n: nat, m: nat, c: nat)
    requires c > 0 && (c - 1) * m < n <= c * m
    ensures Worked(n, m, c) == Worked(n, m, c - 1) + (n - (c - 1) * m)
  {
    assert c * m == (c - 1) * m + m && m * (c - 1) == (c - 1) * m;
  }

  /** Lockstep: over the chunks that cover the largest rank every rank, whatever its share, has
      between one and `m` tokens in every chunk, and in all its own tokens plus one dummy token for
      each chunk after it has finished. */
  lemma {:induction false} AllRanksInStep(tokens: seq<nat>, sp: nat, m: nat, chunks: nat, i: nat)
    requires sp > 0 && m > 0 && i < |SpTokens(tokens, sp)|
    requires forall x :: x in SpTokens(tokens, sp) ==> chunks >= CeilDiv(x, m)
    ensures var n := SpTokens(tokens, sp)[i];
      && n >= 0 && Worked(n, m, chunks) == n + (chunks - CeilDiv(n, m))
      && forall k: nat :: k < chunks ==> 1 <= LocalSize(n, m, k) <= m
  {
    hide CeilDiv, LocalSize, SpTokens;
    SpNonNegative(tokens, sp);
    assert SpTokens(tokens, sp)[i] in SpTokens(tokens, sp);
    var n: nat := SpTokens(tokens, sp)[i];
    RankTotals(n, m, chunks);
    forall k: nat | k < chunks ensures 1 <= LocalSize(n, m, k) <= m {
      LocalSizeBounds(n, m, k);
    }
  }

  lemma {:induction false} SpNonNegative(tokens: seq<nat>, sp: nat)
    requires sp > 0
    ensures forall x :: x in SpTokens(tokens, sp) ==> x >= 0
  {
    if tokens != [] {
      SpNonNegative(tokens[..|tokens| - 1], sp);
      CeilBounds(tokens[|tokens| - 1], sp);
    }
  }

  /** All sequence-parallel ranks of one data-parallel rank get the same share: the least one with which
      they hold all of its tokens. */
  lemma {:induction false} ShareOfRank(tokens: seq<nat>, sp: nat, d: nat, j: nat)
    requires sp > 0 && d < |tokens| && j < sp
    ensures d * sp + j < |SpTokens(tokens, sp)|
    ensures var share := SpTokens(tokens, sp)[d * sp + j];
      share * sp >= tokens[d] && (share - 1) * sp < tokens[d]
  {
    hide CeilDiv;
    var init, share := tokens[..|tokens| - 1], CeilDiv(tokens[|tokens| - 1], sp);
    SharesInFront(tokens, sp, |init|);
    assert tokens[..|init|] == init;
    if d == |init| {
      CeilBounds(tokens[d], sp);
      assert SpTokens(tokens, sp)[d * sp + j] == Repeat(share, sp)[j];
    } else {
      ShareOfRank(init, sp, d, j);
    }
  }

  /** The cumulative tensor over all ranks: prefix sums of the same counts. */
  method CuTokens(tokens: seq<nat>, sp: nat) returns (cu: seq<int>)
    requires sp > 0
    ensures |cu| == |SpTokens(tokens, sp)|
    ensures forall i :: 0 <= i < |cu| ==> cu[i] == Sum(SpTokens(tokens, sp)[..i + 1])
  {
    hide SpTokens;
    var all := SpTokens(tokens, sp);
    cu := [];
    var acc := 0;
    for i := 0 to |all|
      invariant acc == Sum(all[..i]) && |cu| == i
      invariant forall j :: 0 <= j < i ==> cu[j] == Sum(all[..j + 1])
    {
      SumStep(all, i);
      acc := acc + all[i];
      cu := cu + [acc];
    }
  }

  /** One data-parallel rank more: its share is rounded up to a multiple of `sp`. */
  lemma {:induction false} ShareExcess(n: nat, sp: nat)
    requires sp > 0
    ensures var share := Repeat(CeilDiv(n, sp), sp);
      |share| == sp && n <= Sum(share) <= n + sp - 1
  {
    var c := CeilDiv(n, sp);
    CeilBounds(n, sp);
    hide CeilDiv;
    SumRepeat(c, sp);
    assert sp * c == c * sp && c * sp == (c - 1) * sp + sp;
  }

  /** Up to the ranks of data-parallel rank `d` the tensor exceeds the real tokens by less than `sp`
      for each data-parallel rank. */
  lemma {:induction false} CumulativeExcess(tokens: seq<nat>, sp: nat, d: nat)
    requires sp > 0 && d <= |tokens|
    ensures |SpTokens(tokens[..d], sp)| == d * sp
    ensures 0 <= Sum(SpTokens(tokens[..d], sp)) - Sum(tokens[..d]) <= d * (sp - 1)
  {
    hide CeilDiv;
    if d > 0 {
      assert tokens[..d][..d - 1] == tokens[..d - 1];
      CumulativeExcess(tokens, sp, d - 1);
      var share := Repeat(CeilDiv(tokens[d - 1], sp), sp);
      ShareExcess(tokens[d - 1], sp);
      assert SpTokens(tokens[..d], sp) == SpTokens(tokens[..d - 1], sp) + share;
      hide SpTokens, Sum;
      SumConcat(SpTokens(tokens[..d - 1], sp), share);
      SumStep(tokens, d - 1);
      OneMore(d, sp);
      OneMore(d, sp - 1);
    }
  }

  lemma {:induction false} OneMore(d: nat, x: nat)
    requires d > 0
    ensures d * x == (d - 1) * x + x
  {
  }

  /** The tensor's entry for a whole data-parallel rank is the sum of `CumulativeExcess`: ranks behind
      it do not change what is summed in front. */
  lemma {:induction false} SharesInFront(tokens: seq<nat>, sp: nat, d: nat)
    requires sp > 0 && d <= |tokens|
    ensures d * sp <= |SpTokens(tokens, sp)|
    ensures SpTokens(tokens, sp)[..d * sp] == SpTokens(tokens[..d], sp)
    decreases |tokens|
  {
    hide CeilDiv;
    if d == |tokens| {
      assert tokens[..d] == tokens;
      CumulativeExcess(tokens, sp, d);
    } else {
      var init := tokens[..|tokens| - 1];
      SharesInFront(init, sp, d);
      assert init[..d] == tokens[..d];
    }
  }

  // ----- the context managers

  type Pos = n: nat | n > 0 witness 1

  /** What a context sets: the sizes of one chunk, or those without chunking. */
  datatype Choice = Chunk(sp: Pos, m: nat, k: nat) | Whole(sp: Pos)

  function Sizes(tokens: seq<nat>, c: Choice): seq<int> {
    var all := SpTokens(tokens, c.sp);
    if c.Whole? then all else seq(|all|, i requires 0 <= i < |all| => LocalSize(all[i], c.m, c.k))
  }

  /** What a body gets for one sequence-parallel rank: the least share with which all of them hold the
      tokens of their data-parallel rank, or that chunk's part of it, never less than one. */
  lemma {:induction false} WhatReadersGet(tokens: seq<nat>, c: Choice, d: nat, j: nat) returns (share: int)
    requires d < |tokens| && j < c.sp
    ensures share * c.sp >= tokens[d] && (share - 1) * c.sp < tokens[d]
    ensures d * c.sp + j < |Sizes(tokens, c)|
    ensures Sizes(tokens, c)[d * c.sp + j] ==
      match c
      case Whole(_) => share
      case Chunk(_, m, k) => Max(1, Min(m, share - m * k))
  {
    hide SpTokens;
    ShareOfRank(tokens, c.sp, d, j);
    share := SpTokens(tokens, c.sp)[d * c.sp + j];
  }

  /** What a body does: ask for the sizes, raise, or open a context with a body of its own. */
  datatype Stmt = Read | Raise | With(choice: Choice, body: seq<Stmt>)

  /** The field afterwards, the sizes every `Read` got, and whether an exception is on its way. */
  datatype Ran = Ran(sizes: Option<seq<int>>, seen: seq<seq<int>>, raised: bool)

  /** Asking without sizes is an assertion error. */
  function RunBody(tokens: seq<nat>, sizes: Option<seq<int>>, body: seq<Stmt>): Ran
    decreases body, 0
  {
    if body == [] then Ran(sizes, [], false)
    else
      match body[0]
      case Raise => Ran(sizes, [], true)
      case Read =>
        if sizes == None then Ran(sizes, [], true)
        else
          var r := RunBody(tokens, sizes, body[1..]);
          r.(seen := [sizes.value] + r.seen)
      case With(c, b) =>
        var r := RunWith(tokens, c, b);
        if r.raised then r
        else
          var q := RunBody(tokens, r.sizes, body[1..]);
          q.(seen := r.seen + q.seen)
  }

  /** `with metadata.chunked_sizes(...)` or `sp_local_sizes`, cleared on both ways out. */
  function RunWith(tokens: seq<nat>, c: Choice, b: seq<Stmt>): Ran
    decreases b, 1
  {
    RunBody(tokens, Some(Sizes(tokens, c)), b).(sizes := None)
  }

  /** Nothing raises and, at every level, nobody asks once a context inside has been closed; `open`
      says whether none has been closed yet at this level. */
  predicate Fine(body: seq<Stmt>, open: bool)
    decreases body
  {
    body == []
    || match body[0]
       case Raise => false
       case Read => open && Fine(body[1..], open)
       case With(_, b) => Fine(b, true) && Fine(body[1..], false)
  }

  /** Every `Read` gets the sizes of the context it is written in. */
  function OwnReads(tokens: seq<nat>, c: Choice, body: seq<Stmt>): seq<seq<int>>
    decreases body
  {
    if body == [] then []
    else
      var rest := OwnReads(tokens, c, body[1..]);
      match body[0]
      case Raise => rest
      case Read => [Sizes(tokens, c)] + rest
      case With(c', b) => OwnReads(tokens, c', b) + rest
  }

  lemma {:induction false} BodyExact(tokens: seq<nat>, c: Choice, body: seq<Stmt>, open: bool)
    ensures var r := RunBody(tokens, if open then Some(Sizes(tokens, c)) else None, body);
      (!r.raised <==> Fine(body, open)) && (!r.raised ==> r.seen == OwnReads(tokens, c, body))
    decreases body
  {
    hide Sizes;
    if body != [] {
      match body[0] {
        case Raise =>
        case Read => if open { BodyExact(tokens, c, body[1..], open); }
        case With(c', b) =>
          BodyExact(tokens, c', b, true);
          BodyExact(tokens, c, body[1..], false);
      }
    }
  }

  /** A context whose body may raise and may open further contexts: it ends without an exception
      exactly when nothing in it raises and nobody asks for sizes behind a context closed inside; then
      everybody got the sizes of the context they were in. The sizes do not outlive it in any case. */
  lemma {:induction false} WithExact(tokens: seq<nat>, c: Choice, body: seq<Stmt>)
    ensures var r := RunWith(tokens, c, body);
      && (!r.raised <==> Fine(body, true))
      && (!r.raised ==> r.seen == OwnReads(tokens, c, body))
      && r.sizes == None
  {
    BodyExact(tokens, c, body, true);
  }

  /** Closing an inner context takes the sizes of the outer one away. */
  lemma {:induction false} InnerContextClears(tokens: seq<nat>, c: Choice, inner: Choice)
    ensures RunWith(tokens, c, [With(inner, []), Read]).raised
  {
    var body := [With(inner, []), Read];
    assert body[1..] == [Read] && body[0].body == [];
    assert !Fine([Read], false);
    WithExact(tokens, c, body);
  }

  class DPMetadata {
    const tokens: seq<nat>
    var localSizes: Option<seq<int>>

    constructor (tokens: seq<nat>)
      ensures this.tokens == tokens && localSizes == None
    {
      this.tokens, localSizes := tokens, None;
    }

    /** Entering a context. */
    method Enter(c: Choice)
      modifies this
      ensures localSizes == Some(Sizes(tokens, c))
    {
      match c {
        case Chunk(sp, m, k) =>
          var sizes := LocalSizes(tokens, sp, m, k);
          assert sizes[..] == Sizes(tokens, c);
          localSizes := Some(sizes[..]);
        case Whole(sp) =>
          localSizes := Some(SpTokens(tokens, sp));
      }
    }

    /** The `with` statement. */
    method Within(c: Choice, body: seq<Stmt>) returns (seen: seq<seq<int>>, raised: bool)
      modifies this
      ensures Ran(localSizes, seen, raised) == RunWith(tokens, c, body)
      decreases body, 1
    {
      Enter(c);
      seen, raised := Execute(body);
      localSizes := None;
    }

    method Execute(body: seq<Stmt>) returns (seen: seq<seq<int>>, raised: bool)
      modifies this
      ensures Ran(localSizes, seen, raised) == RunBody(tokens, old(localSizes), body)
      decreases body, 0
    {
      hide Sizes;
      if body == [] {
        return [], false;
      }
      match body[0] {
        case Raise =>
          return [], true;
        case Read =>
          if localSizes == None {
            return [], true;
          }
          var first := localSizes.value;
          seen, raised := Execute(body[1..]);
          seen := [first] + seen;
        case With(c, b) =>
          seen, raised := Within(c, b);
          if !raised {
            var more;
            more, raised := Execute(body[1..]);
            seen := seen + more;
          }
      }
    }
  }
}
