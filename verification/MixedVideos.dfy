/** When a bare video token stands in front of a wrapped one, the replace-first loop is not the
    expansion it is meant to be: the first video lands on the wrapped token. */
module MixedVideos {
  import opened Sequences
  import opened Layout
  import opened RopeIndexer
  import opened VideoLayout
  import opened Processor

  /** Settings under which a video's timestamp text names the video. */
  const CFG: Settings := Settings(1, 13, false, (t: real) => [if t < 0.0 then 0 else t.Floor as nat])

  function Clip(k: nat): VideoIn {
    VideoIn(Grid(1, 1, 1), 1.0, [k as real])
  }

  /** `n` of everything, the videos told apart by their timestamp. */
  function Supply(n: nat): Inputs {
    Inputs(Repeat(1, n), Repeat(Grid(1, 1, 1), n), seq(n, k requires 0 <= k => Clip(k)))
  }

  lemma {:induction false} SupplyValid(n: nat)
    ensures ValidInputs(CFG, Supply(n))
  {
    assert Whole(Grid(1, 1, 1), 1);
  }

  predicate Within(cur: Cursors, more: nat, n: nat) {
    cur.image + more <= n && cur.video + more <= n && cur.audio + more <= n
  }

  /** With supplies left a media token is replaced by something that does not start with a vision
      end; a video's text starts with its own name. */
  lemma {:induction false} HoldStart(n: nat, pad: Token, cur: Cursors, more: nat)
    requires IsPad(pad) && Within(cur, more + 1, n)
    ensures ValidInputs(CFG, Supply(n))
    ensures var r := Hold(CFG, Supply(n), pad, cur);
      && r.Ok? && r.value.tokens != [] && r.value.tokens[0] != VisionEnd
      && (pad == VideoPad ==> r.value.tokens[0] == Text(cur.video) && r.value.cur.video == cur.video + 1)
      && r.value.cur.video >= cur.video && Within(r.value.cur, more, n)
  {
    SupplyValid(n);
    if pad == ImagePad {
      MergedPads(Grid(1, 1, 1), 1);
    } else if pad == VideoPad {
      var v := Clip(cur.video);
      assert Supply(n).videos[cur.video] == v;
      assert (cur.video as real).Floor == cur.video;
      assert Stamp(CFG, v, 0) == [cur.video];
      assert VideoHolds(CFG, v, 0, 1) == VideoHolds(CFG, v, 0, 0) + GridHold(CFG, v, 0, 0);
      assert GridHold(CFG, v, 0, 0)[0] == Texts(Stamp(CFG, v, 0))[0];
    }
  }

  /** The token at `|a|` is not the name of video `k`, and if it is a video token it is bare. */
  ghost predicate Misplaced(a: seq<Token>, x: Token, c: seq<Token>, k: nat) {
    && NoPads(a)
    && (x == VideoPad || (x.Text? && x.id > k))
    && (x == VideoPad && a != [] && c != [] && a[|a| - 1] == VisionStart ==> c[0] != VisionEnd)
  }

  /** A replacement behind the wrong token leaves it misplaced. */
  lemma {:induction false} ReplacedBehind(a: seq<Token>, x: Token, c: seq<Token>, k: nat, pat: seq<Token>, r: nat,
                                          h: seq<Token>)
    returns (c': seq<Token>)
    requires Misplaced(a, x, c, k) && h != [] && h[0] != VisionEnd && pat != []
    requires |a| < r && r + |pat| <= |a + [x] + c|
    ensures Misplaced(a, x, c', k)
    ensures var s := a + [x] + c; s[..r] + h + s[r + |pat|..] == a + [x] + c'
  {
    hide NoPads;
    var s, i := a + [x] + c, r - |a| - 1;
    c' := c[..i] + h + c[i + |pat|..];
    assert s[..r] == a + [x] + c[..i] && s[r + |pat|..] == c[i + |pat|..];
  }

  /** One further replacement keeps it so. */
  lemma {:induction false} StaysMisplaced(a: seq<Token>, x: Token, c: seq<Token>, k: nat, pad: Token, h: seq<Token>)
    returns (x': Token, c': seq<Token>)
    requires Misplaced(a, x, c, k) && IsPad(pad) && h != [] && h[0] != VisionEnd
    requires pad == VideoPad ==> h[0].Text? && h[0].id > k
    ensures Misplaced(a, x', c', k)
    ensures var s := a + [x] + c; ReplaceFirst(s, Pattern(s, pad), h) == a + [x'] + c'
  {
    hide FindSub, NoPads;
    var s := a + [x] + c;
    var pat := Pattern(s, pad);
    var r := FindSub(s, pat, 0);
    x', c' := x, c;
    if r <= |s| {
      NotBefore(a, x, c, k, pat, r);
      if r == |a| {
        x', c' := h[0], h[1..] + c;
        assert s[..r] + h + s[r + 1..] == a + [x'] + c';
      } else {
        c' := ReplacedBehind(a, x, c, k, pat, r, h);
      }
    }
  }

  lemma {:induction false} NotBefore(a: seq<Token>, x: Token, c: seq<Token>, k: nat, pat: seq<Token>, r: nat)
    requires Misplaced(a, x, c, k) && Occurs(a + [x] + c, pat, r)
    requires pat == WRAPPED || (|pat| == 1 && IsPad(pat[0]))
    ensures r >= |a|
    ensures r == |a| ==> |pat| == 1 && pat[0] == x
  {
    var s := a + [x] + c;
    assert s[r + 0] == pat[0];
    if pat == WRAPPED {
      assert WRAPPED[1] == VideoPad && WRAPPED[2] == VisionEnd;
      assert s[r + 1] == VideoPad && s[r + 2] == VisionEnd;
    }
  }

  /** Whatever is still replaced, the wrong token stays in place. */
  lemma {:induction false} WrongForGood(n: nat, a: seq<Token>, x: Token, c: seq<Token>, k: nat, specials: seq<Token>,
                                        cur: Cursors)
    requires Misplaced(a, x, c, k) && cur.video > k && Within(cur, |specials|, n)
    requires forall t :: t in specials ==> IsPad(t)
    ensures ValidInputs(CFG, Supply(n))
    ensures var r := Loop(CFG, Supply(n), a + [x] + c, specials, cur);
      r.Ok? && |r.value.tokens| > |a| && r.value.tokens[|a|] != Text(k)
    decreases |specials|
  {
    hide Hold, ReplaceFirst, Pattern, Supply;
    SupplyValid(n);
    if specials != [] {
      HoldStart(n, specials[0], cur, |specials| - 1);
      var h := Hold(CFG, Supply(n), specials[0], cur).value;
      var x', c' := StaysMisplaced(a, x, c, k, specials[0], h.tokens);
      WrongForGood(n, a, x', c', k, specials[1..], h.cur);
    }
  }

  lemma {:induction false} HasWrapped(us: seq<Unit>, j: nat) returns (i: nat)
    requires j < |us| && us[j].Wrapped?
    ensures Occurs(Render(us), WRAPPED, i)
  {
    if us[0].Wrapped? {
      i := 0;
    } else {
      i := HasWrapped(us[1..], j - 1);
      OccursShift(RenderUnit(us[0]), Render(us[1..]), i);
      i := |RenderUnit(us[0])| + i;
    }
  }

  lemma {:induction false} OccursShift(a: seq<Token>, s: seq<Token>, i: nat)
    requires Occurs(s, WRAPPED, i)
    ensures Occurs(a + s, WRAPPED, |a| + i)
  {
    var t := a + s;
    forall k | 0 <= k < 3 ensures t[|a| + i + k] == WRAPPED[k] {
      assert t[|a| + i + k] == s[i + k];
    }
  }

  /** The step at a bare video with a wrapped one behind it: the wrapped one is replaced. */
  lemma {:induction false} BareSkipped(a: seq<Token>, us: seq<Unit>, start: bool, k: nat, h: seq<Token>)
    returns (c': seq<Token>)
    requires NoPads(a) && (a != [] && a[|a| - 1] == VisionStart ==> start)
    requires us != [] && Bare(us[0]) && Canonical(start, us) && !NoWrapped(us[1..])
    requires h != [] && h[0] != VisionEnd
    ensures var s := a + Render(us); ReplaceFirst(s, Pattern(s, VideoPad), h) == a + [VideoPad] + c'
    ensures Misplaced(a, VideoPad, c', k)
  {
    hide FindSub, NoPads, Canonical, Occurs, ReplaceFirst, Pattern, Misplaced;
    var c := Render(us[1..]);
    assert a + Render(us) == a + [VideoPad] + c;
    var j :| 0 <= j < |us[1..]| && us[1..][j].Wrapped?;
    var i := HasWrapped(us[1..], j);
    BareIsMisplaced(a, us, start, k);
    c' := LaterIsReplaced(a, c, k, i, h);
  }

  lemma {:induction false} LaterIsReplaced(a: seq<Token>, c: seq<Token>, k: nat, i: nat, h: seq<Token>)
    returns (c': seq<Token>)
    requires Misplaced(a, VideoPad, c, k) && Occurs(c, WRAPPED, i) && h != [] && h[0] != VisionEnd
    ensures Misplaced(a, VideoPad, c', k)
    ensures var s := a + [VideoPad] + c; ReplaceFirst(s, Pattern(s, VideoPad), h) == a + [VideoPad] + c'
  {
    hide FindSub, Occurs, Misplaced;
    var s := a + [VideoPad] + c;
    OccursShift(a + [VideoPad], c, i);
    OccursInside(s, |a| + 1 + i);
    var r := FindSub(s, WRAPPED, 0);
    assert r <= |a| + 1 + i;
    NotBefore(a, VideoPad, c, k, WRAPPED, r);
    OccursInside(s, r);
    c' := ReplacedBehind(a, VideoPad, c, k, WRAPPED, r, h);
  }

  lemma {:induction false} OccursInside(s: seq<Token>, r: nat)
    requires Occurs(s, WRAPPED, r)
    ensures r + 3 <= |s|
  {
  }

  lemma {:induction false} BareIsMisplaced(a: seq<Token>, us: seq<Unit>, start: bool, k: nat)
    requires NoPads(a) && (a != [] && a[|a| - 1] == VisionStart ==> start)
    requires us != [] && Bare(us[0]) && Canonical(start, us)
    ensures Misplaced(a, VideoPad, Render(us[1..]), k)
  {
    if |us| > 1 {
      FirstOfRender(us[1..]);
      CanonicalUnits(start, us);
    }
  }

  lemma {:induction false} FirstOfRender(us: seq<Unit>)
    requires us != []
    ensures Render(us) != [] && Render(us)[0] == RenderUnit(us[0])[0]
  {
  }

  lemma {:induction false} FirstVideoLost(n: nat, a: seq<Token>, us: seq<Unit>, start: bool, cur: Cursors,
                                          later: seq<Token>, h: Held)
    requires ValidInputs(CFG, Supply(n)) && NoPads(a) && (a != [] && a[|a| - 1] == VisionStart ==> start)
    requires us != [] && Bare(us[0]) && Canonical(start, us) && !NoWrapped(us[1..])
    requires forall i :: 0 <= i < |us| ==> UnitOk(us[i])
    requires (forall t :: t in later ==> IsPad(t)) && Within(cur, |later| + 1, n)
    requires Hold(CFG, Supply(n), VideoPad, cur) == Ok(h)
    ensures Loop(CFG, Supply(n), a + Render(us), [VideoPad] + later, cur) != Prepend(a, Expand(CFG, Supply(n), us, cur))
  {
    hide Hold, ReplaceFirst, Pattern, Supply, ValidInputs, Canonical, NoPads;
    HoldStart(n, VideoPad, cur, |later|);
    var c' := BareSkipped(a, us, start, cur.video, h.tokens);
    WrongForGood(n, a, VideoPad, c', cur.video, later, h.cur);
    assert ([VideoPad] + later)[1..] == later;
    var r := Expand(CFG, Supply(n), us[1..], h.cur);
    if r.Ok? {
      assert (a + (h.tokens + r.value.tokens))[|a|] == h.tokens[0];
    }
  }

  lemma {:induction false} Diverges(n: nat, a: seq<Token>, us: seq<Unit>, start: bool, cur: Cursors)
    requires ValidInputs(CFG, Supply(n)) && NoPads(a) && (a != [] && a[|a| - 1] == VisionStart ==> start)
    requires Canonical(start, us) && !WrappedFirst(us) && forall i :: 0 <= i < |us| ==> UnitOk(us[i])
    requires Within(cur, |Specials(Render(us))|, n)
    ensures Loop(CFG, Supply(n), a + Render(us), Specials(Render(us)), cur)
         != Prepend(a, Expand(CFG, Supply(n), us, cur))
    decreases |us|
  {
    hide Hold, ReplaceFirst, Pattern, Specials, Supply, ValidInputs, Within;
    var m := Supply(n);
    var rest, first, start' := Render(us[1..]), RenderUnit(us[0]), us[0] == Plain(VisionStart);
    SpecialsOfUnit(us[0], rest);
    if us[0].Plain? {
      assert a + Render(us) == (a + first) + rest && Specials(Render(us)) == Specials(rest);
      Diverges(n, a + first, us[1..], start', cur);
      assert Expand(CFG, m, us, cur) == Prepend(first, Expand(CFG, m, us[1..], cur));
      PrependTwice(a, first, Expand(CFG, m, us[1..], cur));
    } else {
      var pad := PadOf(us[0]);
      var later := Specials(rest);
      assert Specials(Render(us)) == [pad] + later && ([pad] + later)[1..] == later;
      HoldStart(n, pad, cur, |later|);
      var h := Hold(CFG, m, pad, cur).value;
      if Bare(us[0]) && !NoWrapped(us[1..]) {
        FirstVideoLost(n, a, us, start, cur, later, h);
      } else {
        HoldShape(CFG, m, pad, cur);
        ReplacesFront(a, us, start, h.tokens);
        Diverges(n, a + h.tokens, us[1..], start', h.cur);
        PrependTwice(a, h.tokens, Expand(CFG, m, us[1..], h.cur));
      }
    }
  }

  /** The loop computes the expansion for all media exactly when no wrapped video token follows a
      bare one; otherwise these media tell the two apart. */
  lemma {:induction false} ExpansionIffWrappedFirst(sample: seq<Token>)
    requires NoHolds(sample)
    ensures ValidInputs(CFG, Supply(|sample|))
    ensures forall i :: 0 <= i < |Units(sample)| ==> UnitOk(Units(sample)[i])
    ensures WrappedFirst(Units(sample))
       <==> Loop(CFG, Supply(|sample|), sample, Specials(sample), Cursors(0, 0, 0))
            == Expand(CFG, Supply(|sample|), Units(sample), Cursors(0, 0, 0))
  {
    hide Loop, Expand, Units, Supply, Specials;
    var n, us := |sample|, Units(sample);
    SupplyValid(n);
    UnitsCanonical(false, sample);
    CanonicalUnits(false, us);
    if WrappedFirst(us) {
      SampleExpansion(CFG, Supply(n), sample, Cursors(0, 0, 0));
    } else {
      SpecialsFew(sample);
      Diverges(n, [], us, false, Cursors(0, 0, 0));
      assert [] + sample == sample;
      var r := Expand(CFG, Supply(n), us, Cursors(0, 0, 0));
      if r.Ok? {
        assert [] + r.value.tokens == r.value.tokens;
      }
    }
  }

  /** Such samples exist: one bare video token followed by a wrapped one. */
  lemma {:induction false} MixedSample()
    ensures var s := [VideoPad] + WRAPPED;
      && NoHolds(s) && Units(s) == [Pad(VideoPad), Wrapped] && !WrappedFirst(Units(s))
      && Loop(CFG, Supply(|s|), s, Specials(s), Cursors(0, 0, 0))
         != Expand(CFG, Supply(|s|), Units(s), Cursors(0, 0, 0))
  {
    hide Loop, Expand, Supply;
    var s := [VideoPad] + WRAPPED;
    assert s == [VideoPad, VisionStart, VideoPad, VisionEnd];
    assert s[1..] == WRAPPED;
    assert Occurs(WRAPPED, WRAPPED, 0) && WRAPPED[3..] == [];
    assert Units(WRAPPED) == [Wrapped] + Units(WRAPPED[3..]);
    assert Units(s) == [Pad(VideoPad)] + Units(s[1..]);
    var us := Units(s);
    assert us[0] == Pad(VideoPad) && us[1] == Wrapped;
    ExpansionIffWrappedFirst(s);
  }

  lemma {:induction false} SpecialsFew(s: seq<Token>)
    ensures |Specials(s)| <= |s|
  {
    if s != [] {
      SpecialsFew(s[1..]);
    }
  }
}
