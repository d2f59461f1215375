/** Which prompts `replace_multimodal_special_tokens` accepts, told from the prompts and the numbers of
    media alone. */
module Acceptance {
  import opened Sequences
  import opened Layout
  import opened RopeIndexer
  import opened VideoLayout
  import opened Processor

  // ----- media

  /** Media cursors behind tokens `s`: in vocal mode every video takes an audio track as well. */
  function Uses(cfg: Settings, s: seq<Token>, cur: Cursors): Cursors {
    Cursors(cur.image + Count(s, ImagePad), cur.video + Count(s, VideoPad),
            cur.audio + Count(s, AudioPad) + if cfg.vocal then Count(s, VideoPad) else 0)
  }

  lemma {:induction false} UsesConcat(cfg: Settings, a: seq<Token>, b: seq<Token>, cur: Cursors)
    ensures Uses(cfg, a + b, cur) == Uses(cfg, b, Uses(cfg, a, cur))
  {
    CountConcat(a, b, ImagePad);
    CountConcat(a, b, VideoPad);
    CountConcat(a, b, AudioPad);
  }

  lemma {:induction false} HoldUses(cfg: Settings, m: Inputs, pad: Token, cur: Cursors)
    requires ValidInputs(cfg, m) && IsPad(pad) && InRange(m, cur)
    ensures var r := Hold(cfg, m, pad, cur);
      (r.Ok? <==> InRange(m, Uses(cfg, [pad], cur))) && (r.Ok? ==> r.value.cur == Uses(cfg, [pad], cur))
    ensures var r := Hold(cfg, m, pad, cur);
      var e := if pad == ImagePad then TooFewImages
        else if pad == AudioPad then TooFewAudios
        else if cur.video == |m.videos| then TooFewVideos else NoTrack;
      r.Err? ==> r.error == e
  {
    hide VideoHolds, GridPads;
    CountOne(pad, ImagePad);
    CountOne(pad, VideoPad);
    CountOne(pad, AudioPad);
  }

  /** The loop ends without an error exactly when there are media for all tokens found up front. */
  lemma {:induction false} LoopUses(cfg: Settings, m: Inputs, sample: seq<Token>, specials: seq<Token>, cur: Cursors)
    requires ValidInputs(cfg, m) && InRange(m, cur) && forall t :: t in specials ==> IsPad(t)
    ensures var r := Loop(cfg, m, sample, specials, cur);
      (r.Ok? <==> InRange(m, Uses(cfg, specials, cur))) && (r.Ok? ==> r.value.cur == Uses(cfg, specials, cur))
    decreases |specials|
  {
    hide Hold, ReplaceFirst, Pattern, IsPad, ValidInputs;
    if specials != [] {
      var first := Hold(cfg, m, specials[0], cur);
      HoldUses(cfg, m, specials[0], cur);
      assert specials == [specials[0]] + specials[1..];
      UsesConcat(cfg, [specials[0]], specials[1..], cur);
      if first.Ok? {
        var rest := ReplaceFirst(sample, Pattern(sample, specials[0]), first.value.tokens);
        LoopUses(cfg, m, rest, specials[1..], first.value.cur);
      }
    }
  }

  lemma {:induction false} SpecialsCount(s: seq<Token>, pad: Token)
    requires IsPad(pad)
    ensures Count(Specials(s), pad) == Count(s, pad)
    ensures pad in Specials(s) <==> pad in s
  {
    if s != [] {
      SpecialsCount(s[1..], pad);
      SpecialsCons(s);
      assert s == [s[0]] + s[1..];
      CountConcat([s[0]], s[1..], pad);
      CountConcat([s[0]], Specials(s[1..]), pad);
      CountOne(s[0], pad);
    }
  }

  lemma {:induction false} SpecialsUse(cfg: Settings, s: seq<Token>, cur: Cursors)
    ensures Uses(cfg, Specials(s), cur) == Uses(cfg, s, cur)
  {
    SpecialsCount(s, ImagePad);
    SpecialsCount(s, VideoPad);
    SpecialsCount(s, AudioPad);
  }

  // ----- markers

  /** As many of the one as of the other. */
  predicate Even(s: seq<Token>, a: Token, b: Token) {
    Count(s, a) == Count(s, b)
  }

  /** Start and end markers of one modality. */
  predicate Markers(a: Token, b: Token) {
    (a == VisionStart && b == VisionEnd) || (a == AudioStart && b == AudioEnd)
  }

  lemma {:induction false} EvenConcat(s: seq<Token>, t: seq<Token>, a: Token, b: Token)
    requires Even(t, a, b)
    ensures Even(s + t, a, b) <==> Even(s, a, b)
    ensures Even(t + s, a, b) <==> Even(s, a, b)
  {
    CountConcat(s, t, a);
    CountConcat(s, t, b);
    CountConcat(t, s, a);
    CountConcat(t, s, b);
  }

  lemma {:induction false} EvenWithout(s: seq<Token>, a: Token, b: Token)
    requires a !in s && b !in s
    ensures Even(s, a, b)
  {
    CountNone(s, a);
    CountNone(s, b);
  }

  lemma {:induction false} CountNone(s: seq<Token>, a: Token)
    requires a !in s
    ensures Count(s, a) == 0
  {
    if s != [] {
      CountNone(s[..|s| - 1], a);
    }
  }

  lemma {:induction false} GridEven(cfg: Settings, v: VideoIn, len: nat, g: nat, a: Token, b: Token)
    requires ValidVideo(cfg, v) && g < v.grid.t && Markers(a, b)
    ensures Even(GridHold(cfg, v, len, g), a, b)
  {
    hide Stamp, GridPads, VocalPads, Slice, Even, Divides;
    var stamp := Texts(Stamp(cfg, v, g));
    EvenWithout(stamp, a, b);
    if cfg.vocal {
      var pixels, audio := Repeat(VideoHold, VocalPads(v.grid, cfg.merge)), Repeat(AudioHold, Slice(cfg, v, len, g));
      EvenWithout(pixels, a, b);
      EvenWithout(audio, a, b);
      EvenPair(a, b);
      Enclosed([VisionStart, AudioStart], pixels + audio, [AudioEnd, VisionEnd], a, b);
      EvenConcat(pixels, audio, a, b);
      var span := [VisionStart, AudioStart] + (pixels + audio) + [AudioEnd, VisionEnd];
      EvenConcat(span, stamp, a, b);
      assert GridHold(cfg, v, len, g) == stamp + span;
    } else {
      var pixels := Repeat(VideoHold, GridPads(v.grid, cfg.merge));
      EvenWithout(pixels, a, b);
      EvenPair(a, b);
      Enclosed([VisionStart], pixels, [VisionEnd], a, b);
      var span := [VisionStart] + pixels + [VisionEnd];
      EvenConcat(span, stamp, a, b);
      assert GridHold(cfg, v, len, g) == stamp + span;
    }
  }

  lemma {:induction false} EvenPair(a: Token, b: Token)
    requires Markers(a, b)
    ensures Even([VisionStart, AudioStart] + [AudioEnd, VisionEnd], a, b) && Even([VisionStart] + [VisionEnd], a, b)
  {
    forall t | t == a || t == b
      ensures Count([VisionStart, AudioStart] + [AudioEnd, VisionEnd], t) == 1
      ensures Count([VisionStart] + [VisionEnd], t) == Count([VisionStart], t) + Count([VisionEnd], t)
    {
      CountConcat([VisionStart, AudioStart], [AudioEnd, VisionEnd], t);
      CountConcat([VisionStart], [VisionEnd], t);
      CountPair(VisionStart, AudioStart, t);
      CountPair(AudioEnd, VisionEnd, t);
    }
    CountOne(VisionStart, a);
    CountOne(VisionStart, b);
    CountOne(VisionEnd, a);
    CountOne(VisionEnd, b);
  }

  /** What stands between an opening and a closing decides nothing if it is even itself. */
  lemma {:induction false} Enclosed(p: seq<Token>, s: seq<Token>, q: seq<Token>, a: Token, b: Token)
    requires Even(p + q, a, b)
    ensures Even(p + s + q, a, b) <==> Even(s, a, b)
  {
    CountConcat(p, q, a);
    CountConcat(p, q, b);
    CountConcat(p, s, a);
    CountConcat(p, s, b);
    CountConcat(p + s, q, a);
    CountConcat(p + s, q, b);
  }

  lemma {:induction false} VideoEven(cfg: Settings, v: VideoIn, len: nat, n: nat, a: Token, b: Token)
    requires ValidVideo(cfg, v) && n <= v.grid.t && Markers(a, b)
    ensures Even(VideoHolds(cfg, v, len, n), a, b)
  {
    hide GridHold, ValidVideo;
    if n > 0 {
      VideoEven(cfg, v, len, n - 1, a, b);
      GridEven(cfg, v, len, n - 1, a, b);
      EvenConcat(VideoHolds(cfg, v, len, n - 1), GridHold(cfg, v, len, n - 1), a, b);
    }
  }

  /** Every replacement is even in the markers of both modalities. */
  lemma {:induction false} HoldEven(cfg: Settings, m: Inputs, pad: Token, cur: Cursors, a: Token, b: Token)
    requires ValidInputs(cfg, m) && IsPad(pad) && Markers(a, b) && Hold(cfg, m, pad, cur).Ok?
    ensures Even(Hold(cfg, m, pad, cur).value.tokens, a, b)
  {
    hide VideoHolds, GridPads, Even;
    var tokens := Hold(cfg, m, pad, cur).value.tokens;
    if pad == VideoPad {
      var v := m.videos[cur.video];
      VideoEven(cfg, v, if cfg.vocal then m.audios[cur.audio] else 0, v.grid.t, a, b);
    } else {
      EvenWithout(tokens, a, b);
    }
  }

  /** What is replaced is even too, so a replacement changes nothing about the markers. */
  lemma {:induction false} ReplacedEven(s: seq<Token>, pat: seq<Token>, with_: seq<Token>, a: Token, b: Token)
    requires Even(pat, a, b) && Even(with_, a, b)
    ensures Even(ReplaceFirst(s, pat, with_), a, b) <==> Even(s, a, b)
  {
    var i := FindSub(s, pat, 0);
    if i <= |s| {
      var front, back := s[..i], s[i + |pat|..];
      assert s == front + pat + back by {
        assert s[i..i + |pat|] == pat;
      }
      hide Even, FindSub;
      Around(front, pat, back, a, b);
      Around(front, with_, back, a, b);
    }
  }

  lemma {:induction false} Around(front: seq<Token>, mid: seq<Token>, back: seq<Token>, a: Token, b: Token)
    requires Even(mid, a, b)
    ensures Even(front + mid + back, a, b) <==> Even(front + back, a, b)
  {
    CountConcat(front, mid, a);
    CountConcat(front, mid, b);
    CountConcat(front + mid, back, a);
    CountConcat(front + mid, back, b);
    CountConcat(front, back, a);
    CountConcat(front, back, b);
  }

  lemma {:induction false} PatternEven(sample: seq<Token>, pad: Token, a: Token, b: Token)
    requires IsPad(pad) && Markers(a, b)
    ensures Even(Pattern(sample, pad), a, b)
  {
    hide FindSub;
    EvenWithout([pad], a, b);
    EvenPair(a, b);
    EvenWithout([VideoPad], a, b);
    Enclosed([VisionStart], [VideoPad], [VisionEnd], a, b);
    assert WRAPPED == [VisionStart] + [VideoPad] + [VisionEnd];
  }

  lemma {:induction false} LoopEven(cfg: Settings, m: Inputs, sample: seq<Token>, specials: seq<Token>, cur: Cursors,
                                    a: Token, b: Token)
    requires ValidInputs(cfg, m) && (forall t :: t in specials ==> IsPad(t)) && Markers(a, b)
    requires Loop(cfg, m, sample, specials, cur).Ok?
    ensures Even(Loop(cfg, m, sample, specials, cur).value.tokens, a, b) <==> Even(sample, a, b)
    decreases |specials|
  {
    hide Hold, ReplaceFirst, Pattern, IsPad, ValidInputs, Even, Markers;
    if specials != [] {
      var h := Hold(cfg, m, specials[0], cur).value;
      var pat := Pattern(sample, specials[0]);
      HoldEven(cfg, m, specials[0], cur, a, b);
      PatternEven(sample, specials[0], a, b);
      ReplacedEven(sample, pat, h.tokens, a, b);
      LoopEven(cfg, m, ReplaceFirst(sample, pat, h.tokens), specials[1..], h.cur, a, b);
    }
  }

  lemma {:induction false} RenameEven(s: seq<Token>, a: Token, b: Token)
    requires Markers(a, b)
    ensures Count(Rename(s), a) == Count(s, a) && Count(Rename(s), b) == Count(s, b)
  {
    if s != [] {
      RenameEven(s[..|s| - 1], a, b);
      assert Rename(s)[..|s| - 1] == Rename(s[..|s| - 1]);
    }
  }

  // ----- what is accepted

  /** In vocal mode a prompt with a video must have as many start as end markers of each modality. */
  predicate Balanced(cfg: Settings, sample: seq<Token>) {
    cfg.vocal && VideoPad in sample ==>
      Even(sample, VisionStart, VisionEnd) && Even(sample, AudioStart, AudioEnd)
  }

  /** For every sample and any media cursors: it is accepted if and only if there are media for all its
      tokens and its own markers balance, and then the cursors move by what it uses. */
  lemma {:induction false} SampleAccepted(cfg: Settings, m: Inputs, sample: seq<Token>, cur: Cursors)
    requires ValidInputs(cfg, m) && InRange(m, cur)
    ensures var r := ProcessSample(cfg, m, sample, cur);
      && (r.Ok? <==> InRange(m, Uses(cfg, sample, cur)) && Balanced(cfg, sample))
      && (r.Ok? ==> r.value.cur == Uses(cfg, sample, cur))
      && (InRange(m, Uses(cfg, sample, cur)) && !Balanced(cfg, sample) ==>
            r == Err(if Even(sample, VisionStart, VisionEnd) then AudioUnbalanced else VisionUnbalanced))
  {
    hide Loop, Specials, Rename, Count, ValidInputs, IsPad;
    var specials := Specials(sample);
    LoopUses(cfg, m, sample, specials, cur);
    SpecialsUse(cfg, sample, cur);
    SpecialVideo(sample);
    var r := Loop(cfg, m, sample, specials, cur);
    if r.Ok? {
      LoopEven(cfg, m, sample, specials, cur, VisionStart, VisionEnd);
      LoopEven(cfg, m, sample, specials, cur, AudioStart, AudioEnd);
      RenameEven(r.value.tokens, VisionStart, VisionEnd);
      RenameEven(r.value.tokens, AudioStart, AudioEnd);
    }
  }

  lemma {:induction false} SpecialVideo(s: seq<Token>)
    ensures VideoPad in Specials(s) <==> VideoPad in s
  {
    SpecialsCount(s, VideoPad);
  }

  lemma {:induction false} PrefixAccepted(cfg: Settings, m: Inputs, texts: seq<seq<Token>>, k: nat)
    requires ValidInputs(cfg, m) && k <= |texts|
    ensures var r, cur := ProcessPrefix(cfg, m, texts, k), Uses(cfg, Flatten(texts[..k]), Cursors(0, 0, 0));
      && (r.Ok? <==> InRange(m, cur) && forall i :: 0 <= i < k ==> Balanced(cfg, texts[i]))
      && (r.Ok? ==> r.value.cur == cur)
  {
    hide ProcessSample, Balanced, ValidInputs, Count;
    if k == 0 {
      NothingUsed(cfg);
    } else {
      PrefixAccepted(cfg, m, texts, k - 1);
      assert texts[..k][..k - 1] == texts[..k - 1];
      var before := Flatten(texts[..k - 1]);
      UsesConcat(cfg, before, texts[k - 1], Cursors(0, 0, 0));
      if ProcessPrefix(cfg, m, texts, k - 1).Ok? {
        SampleAccepted(cfg, m, texts[k - 1], Uses(cfg, before, Cursors(0, 0, 0)));
      }
    }
  }

  lemma {:induction false} NothingUsed(cfg: Settings)
    ensures Uses(cfg, Flatten([]), Cursors(0, 0, 0)) == Cursors(0, 0, 0)
  {
  }

  lemma {:induction false} BlankUses(cfg: Settings, texts: seq<seq<Token>>)
    requires forall i :: 0 <= i < |texts| ==> texts[i] == []
    ensures Flatten(texts) == []
  {
    if texts != [] {
      BlankUses(cfg, texts[..|texts| - 1]);
    }
  }

  /** For every batch: it is accepted if and only if the markers of every vocal prompt with a video
      balance and the prompts together use up all media exactly, or are all empty. */
  lemma {:induction false} BatchAccepted(cfg: Settings, m: Inputs, texts: seq<seq<Token>>)
    requires ValidInputs(cfg, m)
    ensures ProcessBatch(cfg, m, texts).Ok?
      <==> && (forall i :: 0 <= i < |texts| ==> Balanced(cfg, texts[i]))
           && (Uses(cfg, Flatten(texts), Cursors(0, 0, 0)) == AllUsed(m)
               || forall i :: 0 <= i < |texts| ==> texts[i] == [])
  {
    hide ProcessPrefix, Balanced, ValidInputs, Flatten;
    PrefixAccepted(cfg, m, texts, |texts|);
    assert texts[..|texts|] == texts;
    if forall i :: 0 <= i < |texts| ==> texts[i] == [] {
      BlankUses(cfg, texts);
      NothingUsed(cfg);
      BlankUses(cfg, []);
    }
  }
}
