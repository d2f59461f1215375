/** `replace_multimodal_special_tokens`: media tokens of a prompt are replaced one at a time, always
    the first remaining occurrence, and the temporary placeholders are renamed at the end. */
module Processor {
  import opened Sequences
  import opened Layout
  import opened RopeIndexer
  import opened VideoLayout

  datatype ProcError =
    | TooFewAudios | TooFewImages | TooFewVideos | NoTrack | VisionUnbalanced | AudioUnbalanced | MediaLeft

  /** Media of a batch: encoder rows of every audio track, image grids, decoded videos. */
  datatype Inputs = Inputs(audios: seq<nat>, images: seq<Grid>, videos: seq<VideoIn>)

  predicate ValidInputs(cfg: Settings, m: Inputs) {
    && cfg.merge > 0
    && (forall n :: n in m.audios ==> n > 0)
    && (forall g :: g in m.images ==> Whole(g, cfg.merge))
    && (forall i :: 0 <= i < |m.videos| ==> ValidVideo(cfg, m.videos[i]))
  }

  predicate IsPad(t: Token) {
    t == ImagePad || t == VideoPad || t == AudioPad
  }

  predicate IsHold(t: Token) {
    t == ImageHold || t == VideoHold || t == AudioHold
  }

  // ----- the loop as the source runs it

  predicate Occurs(s: seq<Token>, pat: seq<Token>, i: nat) {
    i + |pat| <= |s| && forall k :: 0 <= k < |pat| ==> s[i + k] == pat[k]
  }

  /** First occurrence of `pat` from `from` on, `|s| + 1` when there is none. */
  function FindSub(s: seq<Token>, pat: seq<Token>, from: nat): (r: nat)
    ensures r <= |s| ==> from <= r && Occurs(s, pat, r)
    ensures forall i :: from <= i < r ==> !Occurs(s, pat, i)
    ensures r > |s| ==> r == |s| + 1
    decreases |s| - from
  {
    if from > |s| then |s| + 1
    else if Occurs(s, pat, from) then from
    else if from == |s| then |s| + 1
    else FindSub(s, pat, from + 1)
  }

  /** `s.replace(pat, with, 1)`. */
  function ReplaceFirst(s: seq<Token>, pat: seq<Token>, with_: seq<Token>): seq<Token> {
    var i := FindSub(s, pat, 0);
    if i > |s| then s else s[..i] + with_ + s[i + |pat|..]
  }

  const WRAPPED: seq<Token> := [VisionStart, VideoPad, VisionEnd]

  /** The text a media token stands for, as placeholders, and the cursors after it. */
  datatype Held = Held(tokens: seq<Token>, cur: Cursors)

  /** No cursor is past the media. */
  predicate InRange(m: Inputs, cur: Cursors) {
    cur.image <= |m.images| && cur.video <= |m.videos| && cur.audio <= |m.audios|
  }

  function Hold(cfg: Settings, m: Inputs, pad: Token, cur: Cursors): Result<Held, ProcError>
    requires ValidInputs(cfg, m) && IsPad(pad)
  {
    if pad == AudioPad then
      if cur.audio >= |m.audios| then Err(TooFewAudios)
      else Ok(Held(Repeat(AudioHold, m.audios[cur.audio]), cur.(audio := cur.audio + 1)))
    else if pad == ImagePad then
      if cur.image >= |m.images| then Err(TooFewImages)
      else Ok(Held(Repeat(ImageHold, GridPads(m.images[cur.image], cfg.merge)), cur.(image := cur.image + 1)))
    else
      if cur.video >= |m.videos| then Err(TooFewVideos)
      else if cfg.vocal && cur.audio >= |m.audios| then Err(NoTrack)
      else
        var v := m.videos[cur.video];
        var len := if cfg.vocal then m.audios[cur.audio] else 0;
        Ok(Held(VideoHolds(cfg, v, len, v.grid.t),
                cur.(video := cur.video + 1, audio := if cfg.vocal then cur.audio + 1 else cur.audio)))
  }

  /** What is replaced for one media token: a video goes with its markers wherever a wrapped one is left. */
  function Pattern(sample: seq<Token>, pad: Token): seq<Token> {
    if pad == VideoPad && FindSub(sample, WRAPPED, 0) <= |sample| then WRAPPED else [pad]
  }

  /** The media tokens of a sample in order. */
  function Specials(s: seq<Token>): (r: seq<Token>)
    ensures forall t :: t in r ==> IsPad(t)
  {
    if s == [] then [] else (if IsPad(s[0]) then [s[0]] else []) + Specials(s[1..])
  }

  /** One replacement per media token found up front, then whatever the sample has become. */
  function Loop(cfg: Settings, m: Inputs, sample: seq<Token>, specials: seq<Token>,
                cur: Cursors): Result<Held, ProcError>
    requires ValidInputs(cfg, m) && forall t :: t in specials ==> IsPad(t)
    decreases |specials|
  {
    if specials == [] then Ok(Held(sample, cur))
    else
      match Hold(cfg, m, specials[0], cur)
      case Err(e) => Err(e)
      case Ok(h) =>
        Loop(cfg, m, ReplaceFirst(sample, Pattern(sample, specials[0]), h.tokens), specials[1..], h.cur)
  }

  // ----- the expansion it is meant to be

  /** A sample cut into plain tokens and media tokens; `Wrapped` is a video token with its markers. */
  datatype Unit = Plain(tok: Token) | Pad(tok: Token) | Wrapped

  function RenderUnit(u: Unit): seq<Token> {
    match u
    case Plain(t) => [t]
    case Pad(t) => [t]
    case Wrapped => WRAPPED
  }

  function Render(us: seq<Unit>): seq<Token> {
    if us == [] then [] else RenderUnit(us[0]) + Render(us[1..])
  }

  /** Every sample has exactly this cut: video tokens with both markers are wrapped, all others bare. */
  function Units(s: seq<Token>): (us: seq<Unit>)
    ensures Render(us) == s
  {
    if s == [] then []
    else if Occurs(s, WRAPPED, 0) then
      var us := [Wrapped] + Units(s[3..]);
      assert us[1..] == Units(s[3..]);
      assert s == s[0..3] + s[3..];
      us
    else
      var us := [if IsPad(s[0]) then Pad(s[0]) else Plain(s[0])] + Units(s[1..]);
      assert us[1..] == Units(s[1..]);
      us
  }

  function PadOf(u: Unit): Token
    requires !u.Plain?
  {
    if u.Wrapped? then VideoPad else u.tok
  }

  predicate UnitOk(u: Unit) {
    match u
    case Plain(t) => !IsPad(t) && !IsHold(t)
    case Pad(t) => IsPad(t)
    case Wrapped => true
  }

  predicate Bare(u: Unit) {
    u == Pad(VideoPad)
  }

  /** No bare video token stands between a vision start and a vision end; `start` says whether a
      vision start directly precedes. */
  predicate Canonical(start: bool, us: seq<Unit>)
    decreases |us|
  {
    if us == [] then true
    else
      && UnitOk(us[0])
      && (Bare(us[0]) && start ==> |us| == 1 || us[1] != Plain(VisionEnd))
      && Canonical(us[0] == Plain(VisionStart), us[1..])
  }

  predicate NoWrapped(us: seq<Unit>) {
    forall i :: 0 <= i < |us| ==> !us[i].Wrapped?
  }

  /** Once a bare video token has been seen, no wrapped one follows. Uniformly wrapped and
      uniformly bare samples are special cases. */
  predicate WrappedFirst(us: seq<Unit>) {
    if us == [] then true else (Bare(us[0]) ==> NoWrapped(us[1..])) && WrappedFirst(us[1..])
  }

  function HoldUnit(cfg: Settings, m: Inputs, u: Unit, cur: Cursors): Result<Held, ProcError>
    requires ValidInputs(cfg, m) && UnitOk(u)
  {
    if u.Plain? then Ok(Held([u.tok], cur)) else Hold(cfg, m, PadOf(u), cur)
  }

  /** Left-to-right expansion of all units at once. */
  function Expand(cfg: Settings, m: Inputs, us: seq<Unit>, cur: Cursors): Result<Held, ProcError>
    requires ValidInputs(cfg, m) && forall i :: 0 <= i < |us| ==> UnitOk(us[i])
    decreases |us|
  {
    if us == [] then Ok(Held([], cur))
    else
      match HoldUnit(cfg, m, us[0], cur)
      case Err(e) => Err(e)
      case Ok(h) =>
        match Expand(cfg, m, us[1..], h.cur)
        case Err(e) => Err(e)
        case Ok(rest) => Ok(Held(h.tokens + rest.tokens, rest.cur))
  }

  // ----- they agree

  lemma {:induction false} SpecialsConcat(a: seq<Token>, b: seq<Token>)
    ensures Specials(a + b) == Specials(a) + Specials(b)
  {
    hide Specials, IsPad;
    if a == [] {
      NoSpecials();
      assert a + b == b;
    } else {
      SpecialsConcat(a[1..], b);
      SpecialsCons(a);
      SpecialsCons(a + b);
      assert (a + b)[1..] == a[1..] + b;
    }
  }

  lemma {:induction false} SpecialsCons(s: seq<Token>)
    requires s != []
    ensures Specials(s) == if IsPad(s[0]) then [s[0]] + Specials(s[1..]) else Specials(s[1..])
  {
  }

  lemma {:induction false} NoSpecials()
    ensures Specials([]) == []
  {
  }

  function UnitSpecials(u: Unit): seq<Token> {
    if u.Plain? then [] else [PadOf(u)]
  }

  lemma {:induction false} SpecialsOfUnit(u: Unit, rest: seq<Token>)
    requires UnitOk(u)
    ensures Specials(RenderUnit(u) + rest) == UnitSpecials(u) + Specials(rest)
  {
    SpecialsConcat(RenderUnit(u), rest);
    if u.Wrapped? {
      assert WRAPPED[1..] == [VideoPad, VisionEnd] && WRAPPED[1..][1..] == [VisionEnd] && WRAPPED[1..][1..][1..] == [];
      assert Specials([VisionEnd]) == [];
      assert Specials([VideoPad, VisionEnd]) == [VideoPad];
    } else {
      assert RenderUnit(u)[1..] == [];
    }
  }

  lemma {:induction false} CanonicalUnits(start: bool, us: seq<Unit>)
    requires Canonical(start, us)
    ensures forall i :: 0 <= i < |us| ==> UnitOk(us[i])
    decreases |us|
  {
    if us != [] {
      CanonicalUnits(us[0] == Plain(VisionStart), us[1..]);
      assert forall i :: 1 <= i < |us| ==> us[i] == us[1..][i - 1];
    }
  }

  /** Nothing shorter than the whole pattern sits in front of it. */
  lemma {:induction false} ReplaceAt(a: seq<Token>, pat: seq<Token>, c: seq<Token>, with_: seq<Token>)
    requires forall i :: 0 <= i < |a| ==> !Occurs(a + pat + c, pat, i)
    ensures ReplaceFirst(a + pat + c, pat, with_) == a + with_ + c
  {
    var s := a + pat + c;
    assert Occurs(s, pat, |a|);
    assert FindSub(s, pat, 0) == |a|;
    assert s[..|a|] == a && s[|a| + |pat|..] == c;
  }

  predicate NoPads(a: seq<Token>) {
    forall i :: 0 <= i < |a| ==> !IsPad(a[i])
  }

  lemma {:induction false} NoPadBefore(a: seq<Token>, pad: Token, c: seq<Token>)
    requires NoPads(a) && IsPad(pad)
    ensures forall i :: 0 <= i < |a| ==> !Occurs(a + [pad] + c, [pad], i)
  {
    var s := a + [pad] + c;
    forall i | 0 <= i < |a| ensures !Occurs(s, [pad], i) {
      assert s[i + 0] == a[i] && [pad][0] == pad;
    }
  }

  lemma {:induction false} NoWrappedBefore(a: seq<Token>, c: seq<Token>)
    requires NoPads(a)
    ensures forall i :: 0 <= i < |a| ==> !Occurs(a + WRAPPED + c, WRAPPED, i)
  {
    var s := a + WRAPPED + c;
    forall i | 0 <= i < |a| ensures !Occurs(s, WRAPPED, i) {
      assert s[i + 1] == (if i + 1 < |a| then a[i + 1] else VisionStart) && WRAPPED[1] == VideoPad;
    }
  }

  /** Without wrapped units every unit is one token. */
  lemma {:induction false} RenderPlain(us: seq<Unit>)
    requires NoWrapped(us)
    ensures |Render(us)| == |us|
    ensures forall i :: 0 <= i < |us| ==> Render(us)[i] == us[i].tok
  {
    if us != [] {
      RenderPlain(us[1..]);
      assert forall i :: 1 <= i < |us| ==> us[i] == us[1..][i - 1];
    }
  }

  lemma {:induction false} CanonicalAt(start: bool, us: seq<Unit>, i: nat)
    requires Canonical(start, us) && i + 2 < |us|
    requires us[i] == Plain(VisionStart) && Bare(us[i + 1])
    ensures us[i + 2] != Plain(VisionEnd)
    decreases |us|
  {
    if i == 0 {
      assert us[1..][0] == us[1] && us[1..][1] == us[2];
    } else {
      CanonicalAt(us[0] == Plain(VisionStart), us[1..], i - 1);
    }
  }

  /** A bare video token in a canonical sample is not found as a wrapped one, and no later one is. */
  lemma {:induction false} NoWrappedLeft(a: seq<Token>, us: seq<Unit>, start: bool)
    requires NoPads(a) && (a != [] && a[|a| - 1] == VisionStart ==> start)
    requires us != [] && Bare(us[0]) && NoWrapped(us[1..]) && Canonical(start, us)
    ensures FindSub(a + Render(us), WRAPPED, 0) > |a + Render(us)|
  {
    assert NoWrapped(us) by {
      assert forall i :: 1 <= i < |us| ==> us[i] == us[1..][i - 1];
    }
    RenderPlain(us);
    CanonicalUnits(start, us);
    var s := a + Render(us);
    forall i | 0 <= i < |s| ensures !Occurs(s, WRAPPED, i) {
      assert WRAPPED[0] == VisionStart && WRAPPED[1] == VideoPad && WRAPPED[2] == VisionEnd;
      if i + 2 < |s| {
        if i + 1 < |a| {
          assert s[i + 1] == a[i + 1];
        } else if i + 1 == |a| {
          assert s[i + 0] == a[|a| - 1] && s[i + 2] == us[1].tok;
        } else {
          var k := i - |a|;
          assert s[i + 0] == us[k].tok && s[i + 1] == us[k + 1].tok && s[i + 2] == us[k + 2].tok;
          if us[k] == Plain(VisionStart) && Bare(us[k + 1]) {
            CanonicalAt(start, us, k);
          }
        }
      }
    }
  }

  lemma {:induction false} GridHoldShape(cfg: Settings, v: VideoIn, len: nat, g: nat)
    requires ValidVideo(cfg, v) && g < v.grid.t
    ensures var r := GridHold(cfg, v, len, g); NoPads(r) && r != [] && r[|r| - 1] == VisionEnd
  {
    hide Slice, Stamp, GridPads, VocalPads, Divides;
  }

  lemma {:induction false} VideoHoldsShape(cfg: Settings, v: VideoIn, len: nat, n: nat)
    requires ValidVideo(cfg, v) && n <= v.grid.t
    ensures var r := VideoHolds(cfg, v, len, n);
      NoPads(r) && (n > 0 ==> r != [] && r[|r| - 1] == VisionEnd)
  {
    hide GridHold, ValidVideo;
    if n > 0 {
      VideoHoldsShape(cfg, v, len, n - 1);
      GridHoldShape(cfg, v, len, n - 1);
    }
  }

  /** A replacement is never empty, holds no pad and does not end in a vision start. */
  lemma {:induction false} HoldShape(cfg: Settings, m: Inputs, pad: Token, cur: Cursors)
    requires ValidInputs(cfg, m) && IsPad(pad) && Hold(cfg, m, pad, cur).Ok?
    ensures var r := Hold(cfg, m, pad, cur).value.tokens;
      r != [] && NoPads(r) && r[|r| - 1] != VisionStart
  {
    hide GridPads, Divides, VideoHolds;
    if pad == ImagePad {
      MergedPads(m.images[cur.image], cfg.merge);
    } else if pad == VideoPad {
      var v := m.videos[cur.video];
      VideoHoldsShape(cfg, v, if cfg.vocal then m.audios[cur.audio] else 0, v.grid.t);
    } else {
      assert m.audios[cur.audio] in m.audios;
    }
  }

  function Prepend(a: seq<Token>, r: Result<Held, ProcError>): Result<Held, ProcError> {
    match r
    case Err(e) => Err(e)
    case Ok(h) => Ok(Held(a + h.tokens, h.cur))
  }

  lemma {:induction false} ReplacesWrapped(a: seq<Token>, rest: seq<Token>, with_: seq<Token>)
    requires NoPads(a)
    ensures var s := a + WRAPPED + rest; ReplaceFirst(s, Pattern(s, VideoPad), with_) == a + with_ + rest
  {
    hide ReplaceFirst;
    NoWrappedBefore(a, rest);
    ReplaceAt(a, WRAPPED, rest, with_);
    assert Occurs(a + WRAPPED + rest, WRAPPED, |a|);
  }

  lemma {:induction false} ReplacesPad(a: seq<Token>, pad: Token, rest: seq<Token>, with_: seq<Token>)
    requires NoPads(a) && IsPad(pad)
    requires pad == VideoPad ==> FindSub(a + [pad] + rest, WRAPPED, 0) > |a + [pad] + rest|
    ensures var s := a + [pad] + rest; ReplaceFirst(s, Pattern(s, pad), with_) == a + with_ + rest
  {
    hide ReplaceFirst, FindSub, Occurs;
    NoPadBefore(a, pad, rest);
    ReplaceAt(a, [pad], rest, with_);
  }

  /** One replacement hits the unit at the front, unless it is a bare video with a wrapped one behind it. */
  lemma {:induction false} ReplacesFront(a: seq<Token>, us: seq<Unit>, start: bool, with_: seq<Token>)
    requires NoPads(a) && (a != [] && a[|a| - 1] == VisionStart ==> start)
    requires us != [] && !us[0].Plain? && Canonical(start, us) && (Bare(us[0]) ==> NoWrapped(us[1..]))
    ensures ReplaceFirst(a + Render(us), Pattern(a + Render(us), PadOf(us[0])), with_) == a + with_ + Render(us[1..])
  {
    hide FindSub, ReplaceFirst, Pattern, NoPads;
    var rest := Render(us[1..]);
    if us[0].Wrapped? {
      assert a + Render(us) == a + WRAPPED + rest;
      ReplacesWrapped(a, rest, with_);
    } else {
      assert a + Render(us) == a + [us[0].tok] + rest;
      if Bare(us[0]) {
        NoWrappedLeft(a, us, start);
      }
      ReplacesPad(a, us[0].tok, rest, with_);
    }
  }

  /** The replace-first loop is the simultaneous expansion, errors included. */
  lemma {:induction false} LoopIsExpansion(cfg: Settings, m: Inputs, a: seq<Token>, us: seq<Unit>, start: bool,
                                           cur: Cursors)
    requires ValidInputs(cfg, m) && NoPads(a) && (a != [] && a[|a| - 1] == VisionStart ==> start)
    requires Canonical(start, us) && WrappedFirst(us) && forall i :: 0 <= i < |us| ==> UnitOk(us[i])
    ensures Loop(cfg, m, a + Render(us), Specials(Render(us)), cur) == Prepend(a, Expand(cfg, m, us, cur))
    decreases |us|
  {
    hide Hold, ReplaceFirst, Specials, Pattern;
    if us == [] {
      NoSpecials();
      assert a + [] == a;
    } else {
      var rest, first := Render(us[1..]), RenderUnit(us[0]);
      SpecialsOfUnit(us[0], rest);
      var start' := us[0] == Plain(VisionStart);
      if us[0].Plain? {
        assert a + Render(us) == (a + first) + rest;
        assert Specials(Render(us)) == Specials(rest);
        LoopIsExpansion(cfg, m, a + first, us[1..], start', cur);
        assert Expand(cfg, m, us, cur) == Prepend(first, Expand(cfg, m, us[1..], cur));
        PrependTwice(a, first, Expand(cfg, m, us[1..], cur));
      } else {
        var pad := PadOf(us[0]);
        assert Specials(Render(us))[0] == pad && Specials(Render(us))[1..] == Specials(rest);
        if Hold(cfg, m, pad, cur).Ok? {
          var h := Hold(cfg, m, pad, cur).value;
          HoldShape(cfg, m, pad, cur);
          ReplacesFront(a, us, start, h.tokens);
          LoopIsExpansion(cfg, m, a + h.tokens, us[1..], start', h.cur);
          PrependTwice(a, h.tokens, Expand(cfg, m, us[1..], h.cur));
        }
      }
    }
  }

  lemma {:induction false} PrependTwice(a: seq<Token>, b: seq<Token>, r: Result<Held, ProcError>)
    ensures Prepend(a + b, r) == Prepend(a, Prepend(b, r))
  {
    if r.Ok? {
      assert a + b + r.value.tokens == a + (b + r.value.tokens);
    }
  }

  predicate NoHolds(s: seq<Token>) {
    forall i :: 0 <= i < |s| ==> !IsHold(s[i])
  }

  /** The cut of a sample is canonical. */
  lemma {:induction false} UnitsCanonical(start: bool, s: seq<Token>)
    requires NoHolds(s) && (start ==> !Occurs([VisionStart] + s, WRAPPED, 0))
    ensures Canonical(start, Units(s))
    decreases |s|
  {
    if s != [] {
      var us := Units(s);
      if Occurs(s, WRAPPED, 0) {
        UnitsCanonical(false, s[3..]);
        assert us[1..] == Units(s[3..]);
      } else {
        var start' := s[0] == VisionStart;
        if start' {
          assert [VisionStart] + s[1..] == s;
        }
        UnitsCanonical(start', s[1..]);
        assert us[1..] == Units(s[1..]);
        if start && s[0] == VideoPad && |s| > 1 {
          BareNeedsNoEnd(s);
        }
      }
    }
  }

  lemma {:induction false} BareNeedsNoEnd(s: seq<Token>)
    requires |s| > 1 && s[0] == VideoPad && !Occurs([VisionStart] + s, WRAPPED, 0)
    ensures s[1] != VisionEnd
  {
    var t := [VisionStart] + s;
    assert t[0] == VisionStart && t[1] == VideoPad && t[2] == s[1];
  }

  /** For every sample in which no wrapped video follows a bare one. */
  lemma {:induction false} SampleExpansion(cfg: Settings, m: Inputs, sample: seq<Token>, cur: Cursors)
    requires ValidInputs(cfg, m) && NoHolds(sample) && WrappedFirst(Units(sample))
    ensures forall i :: 0 <= i < |Units(sample)| ==> UnitOk(Units(sample)[i])
    ensures Loop(cfg, m, sample, Specials(sample), cur) == Expand(cfg, m, Units(sample), cur)
  {
    hide Loop, Expand, Units;
    UnitsCanonical(false, sample);
    CanonicalUnits(false, Units(sample));
    LoopIsExpansion(cfg, m, [], Units(sample), false, cur);
    assert [] + sample == sample;
    var r := Expand(cfg, m, Units(sample), cur);
    if r.Ok? {
      assert [] + r.value.tokens == r.value.tokens;
    }
  }

  // ----- samples and batches

  /** One sample: the loop, the renaming, and in vocal mode the check that markers balance. */
  function ProcessSample(cfg: Settings, m: Inputs, sample: seq<Token>, cur: Cursors): Result<Held, ProcError>
    requires ValidInputs(cfg, m)
  {
    match Loop(cfg, m, sample, Specials(sample), cur)
    case Err(e) => Err(e)
    case Ok(h) =>
      var out := Rename(h.tokens);
      var checked := cfg.vocal && VideoPad in Specials(sample);
      if checked && Count(out, VisionStart) != Count(out, VisionEnd) then Err(VisionUnbalanced)
      else if checked && Count(out, AudioStart) != Count(out, AudioEnd) then Err(AudioUnbalanced)
      else Ok(Held(out, h.cur))
  }

  datatype Processed = Processed(rows: seq<seq<Token>>, cur: Cursors)

  /** The first `k` samples, media cursors running through. */
  function ProcessPrefix(cfg: Settings, m: Inputs, texts: seq<seq<Token>>, k: nat): (r: Result<Processed, ProcError>)
    requires ValidInputs(cfg, m) && k <= |texts|
    ensures r.Ok? ==> |r.value.rows| == k
  {
    if k == 0 then Ok(Processed([], Cursors(0, 0, 0)))
    else
      match ProcessPrefix(cfg, m, texts, k - 1)
      case Err(e) => Err(e)
      case Ok(p) =>
        match ProcessSample(cfg, m, texts[k - 1], p.cur)
        case Err(e) => Err(e)
        case Ok(h) => Ok(Processed(p.rows + [h.tokens], h.cur))
  }

  function AllUsed(m: Inputs): Cursors {
    Cursors(|m.images|, |m.videos|, |m.audios|)
  }

  /** Leftover media are an error unless every text is empty. */
  function ProcessBatch(cfg: Settings, m: Inputs, texts: seq<seq<Token>>): Result<seq<seq<Token>>, ProcError>
    requires ValidInputs(cfg, m)
  {
    match ProcessPrefix(cfg, m, texts, |texts|)
    case Err(e) => Err(e)
    case Ok(p) =>
      if p.cur != AllUsed(m) && !(forall i :: 0 <= i < |texts| ==> texts[i] == []) then Err(MediaLeft)
      else Ok(p.rows)
  }

  lemma {:induction false} PrefixErrorsStick(cfg: Settings, m: Inputs, texts: seq<seq<Token>>, k: nat, n: nat)
    requires ValidInputs(cfg, m) && k <= n <= |texts| && ProcessPrefix(cfg, m, texts, k).Err?
    ensures ProcessPrefix(cfg, m, texts, n) == ProcessPrefix(cfg, m, texts, k)
    decreases n
  {
    if k < n {
      PrefixErrorsStick(cfg, m, texts, k, n - 1);
    }
  }

  method FindSpecials(s: seq<Token>) returns (r: seq<Token>)
    ensures r == Specials(s)
  {
    r := [];
    var i := |s|;
    while i > 0
      invariant 0 <= i <= |s| && r == Specials(s[i..])
    {
      i := i - 1;
      assert s[i..][1..] == s[i + 1..];
      if IsPad(s[i]) {
        r := [s[i]] + r;
      }
    }
  }

  /** The branch for one media token: what it is replaced by and the cursors after it. */
  method Replacement(cfg: Settings, m: Inputs, pad: Token, cur: Cursors) returns (r: Result<Held, ProcError>)
    requires ValidInputs(cfg, m) && IsPad(pad)
    ensures r == Hold(cfg, m, pad, cur)
  {
    hide VideoHolds, GridPads, Divides;
    if pad == AudioPad {
      if cur.audio >= |m.audios| {
        return Err(TooFewAudios);
      }
      return Ok(Held(Repeat(AudioHold, m.audios[cur.audio]), cur.(audio := cur.audio + 1)));
    }
    if pad == ImagePad {
      if cur.image >= |m.images| {
        return Err(TooFewImages);
      }
      var n := GridPads(m.images[cur.image], cfg.merge);
      return Ok(Held(Repeat(ImageHold, n), cur.(image := cur.image + 1)));
    }
    if cur.video >= |m.videos| {
      return Err(TooFewVideos);
    }
    if cfg.vocal && cur.audio >= |m.audios| {
      return Err(NoTrack);
    }
    var placeholder := GenerateVideo(cfg, m.videos[cur.video], if cfg.vocal then m.audios[cur.audio] else 0);
    var next := cur.(video := cur.video + 1);
    if cfg.vocal {
      next := next.(audio := next.audio + 1);
    }
    r := Ok(Held(placeholder, next));
  }

  lemma {:induction false} LoopNext(cfg: Settings, m: Inputs, sample: seq<Token>, specials: seq<Token>, i: nat,
                                    cur: Cursors)
    requires ValidInputs(cfg, m) && i < |specials| && forall t :: t in specials ==> IsPad(t)
    ensures IsPad(specials[i])
    ensures Loop(cfg, m, sample, specials[i..], cur) ==
      match Hold(cfg, m, specials[i], cur)
      case Err(e) => Err(e)
      case Ok(h) => Loop(cfg, m, ReplaceFirst(sample, Pattern(sample, specials[i]), h.tokens), specials[i + 1..], h.cur)
  {
    hide Hold, ReplaceFirst, Pattern, IsPad, ValidInputs;
    assert specials[i..][0] == specials[i] && specials[i..][1..] == specials[i + 1..];
  }

  lemma {:induction false} LoopEnds(cfg: Settings, m: Inputs, sample: seq<Token>, cur: Cursors)
    requires ValidInputs(cfg, m)
    ensures Loop(cfg, m, sample, [], cur) == Ok(Held(sample, cur))
  {
  }

  /** The inner loop and what follows it for one sample. */
  method ReplaceSample(cfg: Settings, m: Inputs, text: seq<Token>, cursors: Cursors)
    returns (r: Result<Held, ProcError>)
    requires ValidInputs(cfg, m)
    ensures r == ProcessSample(cfg, m, text, cursors)
  {
    hide Loop, FindSub, ReplaceFirst, Hold, Specials, Rename, Count, ValidVideo, ValidInputs, IsPad;
    var specials := FindSpecials(text);
    var sample, cur, videos := text, cursors, 0;
    var i := 0;
    assert specials[0..] == specials;
    while i < |specials|
      invariant 0 <= i <= |specials|
      invariant videos > 0 <==> VideoPad in specials[..i]
      invariant Loop(cfg, m, sample, specials[i..], cur) == Loop(cfg, m, text, specials, cursors)
    {
      var pad := specials[i];
      LoopNext(cfg, m, sample, specials, i, cur);
      assert specials[..i + 1] == specials[..i] + [pad];
      var with_ := Replacement(cfg, m, pad, cur);
      if with_.Err? {
        return Err(with_.error);
      }
      if pad == VideoPad {
        if FindSub(sample, WRAPPED, 0) <= |sample| {
          sample := ReplaceFirst(sample, WRAPPED, with_.value.tokens);
        } else {
          sample := ReplaceFirst(sample, [pad], with_.value.tokens);
        }
        videos := videos + 1;
      } else {
        sample := ReplaceFirst(sample, [pad], with_.value.tokens);
      }
      cur := with_.value.cur;
      i := i + 1;
    }
    assert specials[..i] == specials;
    LoopEnds(cfg, m, sample, cur);
    sample := Rename(sample);
    if cfg.vocal && videos > 0 {
      if Count(sample, VisionStart) != Count(sample, VisionEnd) {
        return Err(VisionUnbalanced);
      }
      if Count(sample, AudioStart) != Count(sample, AudioEnd) {
        return Err(AudioUnbalanced);
      }
    }
    r := Ok(Held(sample, cur));
  }

  /** `replace_multimodal_special_tokens`. */
  method ReplaceMultimodal(cfg: Settings, m: Inputs, texts: seq<seq<Token>>)
    returns (r: Result<seq<seq<Token>>, ProcError>)
    requires ValidInputs(cfg, m)
    ensures r == ProcessBatch(cfg, m, texts)
  {
    hide ProcessSample;
    var rows, cur := [], Cursors(0, 0, 0);
    var blank := true;
    for i := 0 to |texts|
      invariant ProcessPrefix(cfg, m, texts, i) == Ok(Processed(rows, cur))
      invariant blank <==> forall j :: 0 <= j < i ==> texts[j] == []
    {
      var out := ReplaceSample(cfg, m, texts[i], cur);
      if out.Err? {
        PrefixErrorsStick(cfg, m, texts, i + 1, |texts|);
        return Err(out.error);
      }
      rows, cur := rows + [out.value.tokens], out.value.cur;
      blank := blank && texts[i] == [];
    }
    if (cur.audio != |m.audios| || cur.image != |m.images| || cur.video != |m.videos|) && !blank {
      return Err(MediaLeft);
    }
    r := Ok(rows);
  }
}
