/** Length arithmetic of the audio front end: mel frames in, encoder rows out. */
module FeatureLengths {

  /** The three stride-2 convolutions on the last partial hundred, 13 rows per full hundred.
      Python's floor division by a positive number is Dafny's `/`. */
  function OutLen(frames: nat): nat {
    var leave := frames % 100;
    var feat := (leave - 1) / 2 + 1;
    ((feat - 1) / 2 + 1 - 1) / 2 + 1 + (frames / 100) * 13
  }

  /** Closed form: one row per started group of eight frames, 13 per full hundred. */
  lemma {:induction false} OutLenClosed(frames: nat)
    ensures OutLen(frames) == (frames % 100 + 7) / 8 + 13 * (frames / 100)
  {
  }

  /** Full hundreds can be split off; what is left is encoded on its own. */
  lemma {:induction false} OutLenSplit(hundreds: nat, rest: nat)
    ensures OutLen(100 * hundreds + rest) == 13 * hundreds + OutLen(rest)
  {
    assert (100 * hundreds + rest) / 100 == hundreds + rest / 100;
    assert (100 * hundreds + rest) % 100 == rest % 100;
  }

  lemma {:induction false} OutLenMonotone(a: nat, b: nat)
    requires a <= b
    ensures OutLen(a) <= OutLen(b)
  {
    var (qa, ra, qb, rb) := (a / 100, a % 100, b / 100, b % 100);
    OutLenClosed(a);
    OutLenClosed(b);
    EighthsMonotone(qa, ra, qb, rb);
  }

  lemma {:induction false} EighthsMonotone(qa: nat, ra: nat, qb: nat, rb: nat)
    requires ra < 100 && rb < 100 && 100 * qa + ra <= 100 * qb + rb
    ensures (ra + 7) / 8 + 13 * qa <= (rb + 7) / 8 + 13 * qb
  {
    if qa < qb {
      assert (ra + 7) / 8 <= 13;
    }
  }

  /** Only an empty track has no rows. */
  lemma {:induction false} OutLenPositive(frames: nat)
    ensures OutLen(frames) > 0 <==> frames > 0
  {
    OutLenClosed(frames);
  }
}
