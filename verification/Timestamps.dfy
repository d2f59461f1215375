/** `_calculate_timestamps`: the sampled frame indices of a video, one timestamp per temporal patch.
    The list of indices is stretched in place to whole patches. */
module Timestamps {
  import opened Sequences
  import opened Chunking

  /** Repeat the last index until the number of indices is a multiple of `m`. */
  function Stretched(idx: seq<nat>, m: nat): seq<nat>
    requires m > 0
  {
    if |idx| % m == 0 then idx else idx + Repeat(idx[|idx| - 1], m - |idx| % m)
  }

  /** Index `k` of a list whose last entry goes on for ever. */
  function Held(idx: seq<nat>, k: nat): nat
    requires idx != []
  {
    idx[Min(k, |idx| - 1)]
  }

  /** Rounding up to whole groups of `m`. */
  lemma {:induction false} RoundedUp(n: nat, m: nat)
    requires m > 0
    ensures CeilDiv(n, m) >= 0 && (n > 0 ==> CeilDiv(n, m) > 0)
    ensures n + (if n % m == 0 then 0 else m - n % m) == Times(CeilDiv(n, m), m)
  {
    var q, r := n / m, n % m;
    assert n == q * m + r;
    if r == 0 {
      QuotientOf(n + m - 1, q, m - 1, m);
      TimesIsProduct(q, m);
    } else {
      assert (q + 1) * m == q * m + m;
      QuotientOf(n + m - 1, q + 1, r - 1, m);
      TimesIsProduct(q + 1, m);
    }
  }

  lemma {:induction false} QuotientOf(x: nat, q: int, r: nat, m: nat)
    requires m > 0 && x == q * m + r && r < m
    ensures x / m == q && x % m == r
  {
    var q', r' := x / m, x % m;
    assert x == q' * m + r';
    assert (q' - q) * m == r - r';
    SmallMultiple(q' - q, m);
  }

  /** Whole groups need no rounding. */
  lemma {:induction false} WholeGroups(k: nat, m: nat)
    requires m > 0
    ensures Times(k, m) % m == 0 && CeilDiv(Times(k, m), m) == k
  {
    TimesIsProduct(k, m);
    QuotientOf(Times(k, m), k, 0, m);
    QuotientOf(Times(k, m) + m - 1, k, m - 1, m);
  }

  lemma {:induction false} GroupsInOrder(a: nat, b: nat, m: nat)
    requires a < b
    ensures 0 <= Times(a, m) && Times(a, m) + m <= Times(b, m)
  {
    if a < b - 1 {
      GroupsInOrder(a, b - 1, m);
    }
  }

  /** The stretched list has one group of `m` per patch, holds the last index to the end, and is
      not stretched again. */
  lemma {:induction false} StretchedShape(idx: seq<nat>, m: nat)
    requires m > 0
    ensures CeilDiv(|idx|, m) >= 0 && |Stretched(idx, m)| == Times(CeilDiv(|idx|, m), m)
    ensures forall k :: 0 <= k < |Stretched(idx, m)| ==> idx != [] && Stretched(idx, m)[k] == Held(idx, k)
    ensures Stretched(Stretched(idx, m), m) == Stretched(idx, m)
    ensures idx == [] ==> Stretched(idx, m) == []
  {
    RoundedUp(|idx|, m);
    WholeGroups(CeilDiv(|idx|, m), m);
    hide CeilDiv, Times;
  }

  /** Midpoint between the first and the last frame of patch `g`. */
  function Midpoint(idx: seq<nat>, fps: real, m: nat, g: nat): real
    requires m > 0 && fps > 0.0 && idx != []
  {
    Middle(Held(idx, Times(g, m)), Held(idx, Times(g, m) + m - 1), fps)
  }

  function Middle(a: nat, b: nat, fps: real): real
    requires fps > 0.0
  {
    (a as real / fps + b as real / fps) / 2.0
  }

  lemma {:induction false} MiddleMonotone(a: nat, b: nat, c: nat, d: nat, fps: real)
    requires fps > 0.0 && a <= c && b <= d
    ensures Middle(a, b, fps) <= Middle(c, d, fps)
  {
    QuotientMonotone(a as real, c as real, fps);
    QuotientMonotone(b as real, d as real, fps);
  }

  lemma {:induction false} QuotientMonotone(a: real, b: real, d: real)
    requires d > 0.0 && a <= b
    ensures a / d <= b / d
  {
    var p, q := a / d, b / d;
    assert p * d == a && q * d == b;
    if p > q {
      PositiveProduct(p - q, d);
    }
  }

  lemma {:induction false} PositiveProduct(x: real, d: real)
    requires x > 0.0 && d > 0.0
    ensures x * d > 0.0
  {
  }

  /** The frame indices a video's metadata carries. */
  class Frames {
    var indices: seq<nat>

    constructor (indices: seq<nat>)
      ensures this.indices == indices
    {
      this.indices := indices;
    }

    /** One timestamp per patch, whatever the number of frames; `inSeconds` gives patch offsets instead. */
    method Calculate(fps: real, m: nat, inSeconds: bool) returns (times: seq<real>)
      requires fps > 0.0 && m > 0
      modifies this
      ensures indices == Stretched(old(indices), m)
      ensures |times| == CeilDiv(|old(indices)|, m)
      ensures times != [] ==> old(indices) != []
      ensures forall g :: 0 <= g < |times| ==> times[g] == TimeOf(old(indices), fps, m, inSeconds, g)
    {
      hide CeilDiv, Stretched, TimeOf;
      ghost var was := indices;
      StretchedShape(was, m);
      Stretch(m);
      ghost var n := CeilDiv(|was|, m);
      NoGroups(m);
      times := [];
      var i := 0;
      while i < |indices|
        invariant i == Times(|times|, m) && |times| <= n
        invariant indices == Stretched(was, m)
        invariant times != [] ==> was != []
        invariant forall g :: 0 <= g < |times| ==> times[g] == TimeOf(was, fps, m, inSeconds, g)
        decreases |indices| - i
      {
        GroupsInOrder(|times|, n, m);
        OneGroupMore(|times|, m);
        var time := if inSeconds then i as real else Middle(indices[i], indices[i + m - 1], fps);
        assert time == TimeOf(was, fps, m, inSeconds, |times|) by { TimeAt(was, fps, m, inSeconds, |times|); }
        times := times + [time];
        i := i + m;
      }
      if |times| < n {
        GroupsInOrder(|times|, n, m);
      }
    }

    method Stretch(m: nat)
      requires m > 0
      modifies this
      ensures indices == Stretched(old(indices), m)
    {
      if |indices| % m != 0 {
        indices := indices + Repeat(indices[|indices| - 1], m - |indices| % m);
      }
    }
  }

  function TimeOf(idx: seq<nat>, fps: real, m: nat, inSeconds: bool, g: nat): real
    requires m > 0 && fps > 0.0 && idx != []
  {
    if inSeconds then Times(g, m) as real else Midpoint(idx, fps, m, g)
  }

  lemma {:induction false} TimeAt(idx: seq<nat>, fps: real, m: nat, inSeconds: bool, g: nat)
    requires m > 0 && fps > 0.0 && idx != [] && Times(g, m) + m <= |Stretched(idx, m)|
    ensures var i, s := Times(g, m), Stretched(idx, m);
      0 <= i && TimeOf(idx, fps, m, inSeconds, g) == if inSeconds then i as real else Middle(s[i], s[i + m - 1], fps)
  {
    hide Stretched, Middle, Held, Times;
    StretchedShape(idx, m);
  }

  lemma {:induction false} NoGroups(m: nat)
    ensures Times(0, m) == 0
  {
  }

  lemma {:induction false} OneGroupMore(g: nat, m: nat)
    ensures Times(g + 1, m) == Times(g, m) + m
  {
  }

  /** Asking again, on the list that the first call stretched, gives the same timestamps. */
  lemma {:induction false} StretchingIsHarmless(idx: seq<nat>, fps: real, m: nat, g: nat)
    requires m > 0 && fps > 0.0 && g < CeilDiv(|idx|, m) && idx != []
    ensures Stretched(idx, m) != [] && Midpoint(Stretched(idx, m), fps, m, g) == Midpoint(idx, fps, m, g)
    ensures CeilDiv(|Stretched(idx, m)|, m) == CeilDiv(|idx|, m)
  {
    hide CeilDiv, Stretched, Middle, Times;
    StretchedShape(idx, m);
    WholeGroups(CeilDiv(|idx|, m), m);
    GroupsInOrder(g, CeilDiv(|idx|, m), m);
  }

  /** Frames in order give timestamps in order. */
  lemma {:induction false} TimestampsInOrder(idx: seq<nat>, fps: real, m: nat, g: nat)
    requires m > 0 && fps > 0.0 && idx != [] && forall i, j :: 0 <= i <= j < |idx| ==> idx[i] <= idx[j]
    ensures Midpoint(idx, fps, m, g) <= Midpoint(idx, fps, m, g + 1)
  {
    hide Middle;
    var a := Times(g, m);
    MiddleMonotone(Held(idx, a), Held(idx, a + m - 1), Held(idx, a + m), Held(idx, a + m + m - 1), fps);
  }

  /** What is returned for patch `g` when seconds are asked for is its offset in frames. That is its
      time exactly when the middle of the patch, in frames, is the offset times the frame rate. */
  lemma {:induction false} OffsetIsTimeIff(idx: seq<nat>, fps: real, m: nat, g: nat)
    requires m > 0 && fps > 0.0 && idx != []
    ensures var a := Times(g, m);
      TimeOf(idx, fps, m, true, g) == Midpoint(idx, fps, m, g)
      <==> (Held(idx, a) + Held(idx, a + m - 1)) as real == 2.0 * fps * a as real
  {
    hide Held, Times;
    var a := Times(g, m);
    MiddleIs(Held(idx, a), Held(idx, a + m - 1), fps, a as real);
  }

  lemma {:induction false} MiddleIs(a: nat, b: nat, fps: real, t: real)
    requires fps > 0.0
    ensures t == Middle(a, b, fps) <==> (a + b) as real == 2.0 * fps * t
  {
    var p, q := a as real / fps, b as real / fps;
    assert p * fps == a as real && q * fps == b as real;
    assert (p + q) * fps == (a + b) as real;
    var mid := (p + q) / 2.0;
    assert 2.0 * fps * mid == (p + q) * fps;
    assert 2.0 * fps * t - 2.0 * fps * mid == (t - mid) * (2.0 * fps);
    if t > mid {
      PositiveProduct(t - mid, 2.0 * fps);
    } else if t < mid {
      PositiveProduct(mid - t, 2.0 * fps);
      assert (mid - t) * (2.0 * fps) == -((t - mid) * (2.0 * fps));
    }
  }

  /** Two frames a second, two frames a patch: the second patch, frames 2 and 3, lies at 1.25 seconds
      and is returned as 2. */
  lemma {:induction false} OffsetIsNoTime()
    ensures TimeOf([0, 1, 2, 3], 2.0, 2, true, 1) == 2.0 && Midpoint([0, 1, 2, 3], 2.0, 2, 1) == 1.25
  {
    assert Times(1, 2) == Times(0, 2) + 2;
  }
}
