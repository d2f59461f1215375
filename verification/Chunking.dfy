/** Cutting a length into full chunks and a remainder. */
module Chunking {
  import opened Sequences

  // ----- division facts

  lemma {:induction false} SmallMultiple(k: int, d: nat)
    requires 0 - d < k * d < d
    ensures k == 0
  {
  }

  lemma {:induction false} DivModShift(x: nat, d: nat)
    requires d > 0
    ensures (x + d) / d == x / d + 1 && (x + d) % d == x % d
  {
    var q, r := x / d, x % d;
    var q', r' := (x + d) / d, (x + d) % d;
    assert x == q * d + r && x + d == q' * d + r';
    assert (q + 1 - q') * d == r' - r;
    SmallMultiple(q + 1 - q', d);
  }

  lemma {:induction false} DivModSmall(x: nat, d: nat)
    requires x < d
    ensures x / d == 0 && x % d == x
  {
    var q, r := x / d, x % d;
    assert x == q * d + r;
    assert q * d == x - r;
    SmallMultiple(q, d);
  }

  // ----- cutting into pieces of bounded size

  /** Cut off full chunks until the rest fits. */
  function ChunksOf(len: nat, w: nat): seq<nat>
    requires w > 0
  {
    if len <= w then [len] else [w] + ChunksOf(len - w, w)
  }

  /** Shape of the chunks in the source's terms: their number is the rounded-up quotient, all but
      the last are full, and the last is the remainder, or full when there is none. */
  lemma {:induction false} ChunkShape(len: nat, w: nat)
    requires w > 0 && len > 0
    ensures var c := ChunksOf(len, w);
      && |c| == CeilDiv(len, w) > 0
      && (forall j :: 0 <= j < |c| - 1 ==> c[j] == w)
      && c[|c| - 1] == if len % w == 0 then w else len % w
    decreases len
  {
    if len <= w {
      if len < w {
        DivModSmall(len, w);
      } else {
        DivModShift(0, w);
      }
      DivModSmall(len - 1, w);
      DivModShift(len - 1, w);
    } else {
      ChunkShape(len - w, w);
      DivModShift(len - w, w);
      DivModShift(len - w + w - 1, w);
      var rest := ChunksOf(len - w, w);
      assert forall j :: 1 <= j < |rest| + 1 ==> ([w] + rest)[j] == rest[j - 1];
    }
  }

  /** The chunks tile the whole exactly, each between 1 and the chunk width. */
  lemma {:induction false} ChunksTile(len: nat, w: nat)
    requires w > 0 && len > 0
    ensures Sum(ChunksOf(len, w)) == len
    ensures forall c :: c in ChunksOf(len, w) ==> 1 <= c <= w
    decreases len
  {
    if len <= w {
      SumSingle(len);
    } else {
      ChunksTile(len - w, w);
      SumConcat([w], ChunksOf(len - w, w));
      SumSingle(w);
    }
  }
}
