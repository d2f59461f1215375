/** Reading a printed row gives back what was printed: the indexer run on `Tokens(ps)` recognises
    exactly the spans of `ps`, uses up the media they stand for and nothing else. */
module RopeParse {
  import opened Sequences
  import opened Layout
  import opened Positions
  import opened FeatureLengths
  import opened RopeIndexer

  datatype Kind = ImageKind | VideoKind | VocalKind | AudioKind

  function KindOf(s: Span): Kind {
    match s
    case Image(_, _) => ImageKind
    case Video(_, _) => VideoKind
    case Vocal(_, _, _) => VocalKind
    case Audio(_) => AudioKind
  }

  /** Spans of one kind. */
  function Num(ps: seq<Piece>, k: Kind): nat {
    if ps == [] then 0
    else (if ps[0].Media? && KindOf(ps[0].span) == k then 1 else 0) + Num(ps[1..], k)
  }

  function NumSpans(ps: seq<Piece>): nat {
    Num(ps, ImageKind) + Num(ps, VideoKind) + Num(ps, VocalKind) + Num(ps, AudioKind)
  }

  /** A batch is processed in one mode: vocal batches have no silent video spans and silent
      batches no vocal ones. */
  predicate ModeOk(vocal: bool, ps: seq<Piece>) {
    if vocal then Num(ps, VideoKind) == 0 else Num(ps, VocalKind) == 0
  }

  /** The medium at the cursor is the one the span was printed from. */
  predicate SpanMatches(x: Context, cur: Cursors, s: Span)
    requires x.merge > 0
  {
    match s
    case Audio(len) => cur.audio < |x.mels| && len > 0 && OutLen(x.mels[cur.audio]) == len
    case Image(h, w) =>
      && cur.image < |x.images|
      && Merged(x.images[cur.image].h, x.merge) == h && Merged(x.images[cur.image].w, x.merge) == w
    case Video(h, w) =>
      cur.video < |x.grids| && Merged(x.grids[cur.video].h, x.merge) == h && Merged(x.grids[cur.video].w, x.merge) == w
    case Vocal(h, w, _) =>
      cur.video < |x.grids| && Merged(x.grids[cur.video].h, x.merge) == h && Merged(x.grids[cur.video].w, x.merge) == w
  }

  predicate Matches(x: Context, cur: Cursors, ps: seq<Piece>)
    requires x.merge > 0
    decreases |ps|
  {
    if ps == [] then true
    else if ps[0].Word? then Matches(x, cur, ps[1..])
    else SpanMatches(x, cur, ps[0].span) && Matches(x, Advance(x, cur, ps[0].span), ps[1..])
  }

  function AdvanceAll(x: Context, cur: Cursors, ps: seq<Piece>): Cursors
    decreases |ps|
  {
    if ps == [] then cur
    else if ps[0].Word? then AdvanceAll(x, cur, ps[1..])
    else AdvanceAll(x, Advance(x, cur, ps[0].span), ps[1..])
  }

  // ----- one span

  /** At `b` the row continues with `span`; from `st` up to there it is text. */
  ghost predicate At(row: seq<Token>, st: nat, b: nat, span: Span) {
    && st <= b && b + |SpanTokens(span)| <= |row|
    && (forall k :: st <= k < b ==> row[k].Text?)
    && row[b..b + |SpanTokens(span)|] == SpanTokens(span)
  }

  lemma {:induction false} AtSpan(row: seq<Token>, st: nat, b: nat, ps: seq<Piece>)
    requires st <= b <= |row| && (forall k :: st <= k < b ==> row[k].Text?)
    requires row[b..] == Tokens(ps) && ps != [] && ps[0].Media?
    ensures At(row, st, b, ps[0].span)
    ensures row[b + |SpanTokens(ps[0].span)|..] == Tokens(ps[1..])
  {
    hide SpanTokens;
    var t := SpanTokens(ps[0].span);
    assert row[b..] == t + Tokens(ps[1..]);
    assert row[b..b + |t|] == row[b..][..|t|];
    assert row[b + |t|..] == row[b..][|t|..];
  }

  /** The `i`-th token of a printed span. */
  function TokenOf(s: Span, i: nat): Token
    requires i < |SpanTokens(s)|
  {
    var n := |SpanTokens(s)|;
    match s
    case Audio(_) => if i == 0 then AudioStart else if i == n - 1 then AudioEnd else AudioPad
    case Image(_, _) => if i == 0 then VisionStart else if i == n - 1 then VisionEnd else ImagePad
    case Video(_, _) => if i == 0 then VisionStart else if i == n - 1 then VisionEnd else VideoPad
    case Vocal(h, w, _) =>
      if i == 0 then VisionStart else if i == 1 then AudioStart
      else if i == n - 1 then VisionEnd else if i == n - 2 then AudioEnd
      else if i < 2 + Times(h, w) then VideoPad else AudioPad
  }

  lemma {:induction false} TokenOfIsToken(s: Span, i: nat)
    requires i < |SpanTokens(s)|
    ensures SpanTokens(s)[i] == TokenOf(s, i)
  {
  }

  lemma {:induction false} SpanSize(s: Span)
    requires s.Positive()
    ensures |SpanTokens(s)| == 2 * Lead(s) + (match s
      case Audio(len) => len
      case Image(h, w) => Times(h, w)
      case Video(h, w) => Times(h, w)
      case Vocal(h, w, audio) => Times(h, w) + audio)
    ensures s.Vision() ==> Times(s.h, s.w) > 0
  {
    if s.Vision() {
      TimesBounds(s.h, s.w);
    }
  }

  lemma {:induction false} RowTokens(row: seq<Token>, st: nat, b: nat, span: Span)
    requires At(row, st, b, span)
    ensures forall k :: b <= k < b + |SpanTokens(span)| ==> row[k] == TokenOf(span, k - b)
  {
    forall k | b <= k < b + |SpanTokens(span)| ensures row[k] == TokenOf(span, k - b) {
      hide SpanTokens;
      TokenAt(row, st, b, span, k - b);
      TokenOfIsToken(span, k - b);
    }
  }

  lemma {:induction false} TokenAt(row: seq<Token>, st: nat, b: nat, span: Span, i: nat)
    requires At(row, st, b, span) && i < |SpanTokens(span)|
    ensures row[b + i] == SpanTokens(span)[i]
  {
    hide SpanTokens;
    assert row[b..b + |SpanTokens(span)|][i] == row[b + i];
  }

  /** Vision spans still to come have their markers and pads in the row. */
  lemma {:induction false} VisionAhead(row: seq<Token>, b: nat, ps: seq<Piece>)
    requires b <= |row| && row[b..] == Tokens(ps) && Positive(ps)
    requires Num(ps, ImageKind) + Num(ps, VideoKind) + Num(ps, VocalKind) > 0
    ensures exists k :: b <= k < |row| && row[k] == VisionStart
    ensures exists k :: b <= k < |row| && row[k] == VisionEnd
    ensures ImagePad in row || VideoPad in row
    decreases |ps|
  {
    if ps[0].Media? {
      var span, t := ps[0].span, SpanTokens(ps[0].span);
      AtSpan(row, b, b, ps);
      if span.Vision() {
        SpanSize(span);
        RowTokens(row, b, b, span);
        hide SpanTokens, Tokens;
        assert row[b] == VisionStart && row[b + |t| - 1] == VisionEnd;
        assert row[b + Lead(span)] == if span.Image? then ImagePad else VideoPad;
      } else {
        VisionAhead(row, b + |t|, ps[1..]);
      }
    } else {
      assert row[b + 1..] == row[b..][1..];
      VisionAhead(row, b + 1, ps[1..]);
    }
  }

  lemma {:induction false} LocateAudio(x: Context, row: seq<Token>, s: RowState, b: nat, len: nat)
    requires x.Valid() && At(row, s.st, b, Audio(len)) && SpanMatches(x, s.cur, Audio(len)) && s.audios > 0
    requires s.videos > 0 || s.images > 0 ==>
      && (exists k :: b <= k < |row| && row[k] == VisionStart)
      && (exists k :: b <= k < |row| && row[k] == VisionEnd)
      && (ImagePad in row || VideoPad in row)
    ensures Locate(x, row, s) == Ok(Found(b - s.st, Audio(len), len))
  {
    hide GridPads, Merged, Divides, LocateVocal;
    TokenAt(row, s.st, b, Audio(len), 0);
    assert row[b] == AudioStart;
    assert Find(row, AudioStart, s.st) == b;
    assert Find(row, VisionStart, s.st) > b;
  }

  lemma {:induction false} VisionMarkers(row: seq<Token>, st: nat, b: nat, span: Span)
    requires At(row, st, b, span) && span.Vision() && span.Positive()
    ensures Find(row, VisionStart, st) == b
    ensures Find(row, VisionEnd, st) == b + |SpanTokens(span)| - 1
    ensures b + Lead(span) < |row| && row[b + Lead(span)] == if span.Image? then ImagePad else VideoPad
    ensures var start := Find(row, AudioStart, st);
      if span.Vocal? then start == b + 1 else start >= b + |SpanTokens(span)|
  {
    hide SpanTokens, Times;
    SpanSize(span);
    RowTokens(row, st, b, span);
    assert row[b] == VisionStart;
    assert row[b + |SpanTokens(span)| - 1] == VisionEnd;
    if span.Vocal? {
      assert row[b + 1] == AudioStart;
    }
  }

  lemma {:induction false} LocateSilent(x: Context, row: seq<Token>, s: RowState, b: nat, span: Span)
    requires x.Valid() && At(row, s.st, b, span) && SpanMatches(x, s.cur, span)
    requires span.Image? || span.Video?
    requires s.videos > 0 || s.images > 0
    ensures Locate(x, row, s) == Ok(Found(b - s.st, span, Times(span.h, span.w)))
  {
    hide GridPads, Merged, Divides, SpanTokens, LocateVocal;
    var g := if span.Image? then x.images[s.cur.image] else x.grids[s.cur.video];
    MergedPads(g, x.merge);
    VisionMarkers(row, s.st, b, span);
  }

  lemma {:induction false} LocateOverlay(x: Context, row: seq<Token>, s: RowState, b: nat, span: Span)
    requires x.Valid() && x.vocal && At(row, s.st, b, span) && SpanMatches(x, s.cur, span)
    requires span.Vocal?
    requires s.videos > 0
    ensures Locate(x, row, s) == Ok(Found(b - s.st, span, span.audio + Times(span.h, span.w)))
  {
    hide GridPads, Merged, Divides, SpanTokens, LocateVocal;
    var g := x.grids[s.cur.video];
    MergedPads(g, x.merge);
    VisionMarkers(row, s.st, b, span);
    OverlayChecks(x, row, s.st, b, span, s.cur.video, b - s.st);
  }

  lemma {:induction false} OverlayChecks(x: Context, row: seq<Token>, st: nat, b: nat, span: Span, video: nat,
                                         text: nat)
    requires x.Valid() && At(row, st, b, span) && span.Vocal? && video < |x.grids|
    requires Merged(x.grids[video].h, x.merge) == span.h && Merged(x.grids[video].w, x.merge) == span.w
    ensures LocateVocal(x, row, video, text, b, b + 1, b + |SpanTokens(span)| - 1)
         == Ok(Found(text, span, span.audio + Times(span.h, span.w)))
  {
    hide GridPads, Merged, Divides, SpanTokens, Times;
    var area := Times(span.h, span.w);
    MergedPads(x.grids[video], x.merge);
    SpanSize(span);
    RowTokens(row, st, b, span);
    var ae := b + 2 + area + span.audio;
    assert row[ae] == AudioEnd;
    assert Find(row, AudioEnd, b + 2) == ae;
    var run := RunEnd(row, VideoPad, b + 2, ae);
    assert row[b + 2 + area] != VideoPad;
    assert row[b + 2] == VideoPad;
    assert run == b + 2 + area;
    assert area % area == 0 && area / area == 1;
  }

  lemma {:induction false} WholeOnce(actual: nat, pads: nat)
    requires pads > 0 && actual % pads == 0 && actual / pads == 1
    ensures actual == pads
  {
  }

  /** What the vocal branch accepts has been printed so. */
  lemma {:induction false} AcceptedIsPrinted(x: Context, row: seq<Token>, video: nat, text: nat, vs: nat, ve: nat)
    requires x.Valid() && vs + 1 < ve < |row|
    requires row[vs] == VisionStart && row[vs + 1] == AudioStart && row[ve] == VisionEnd
    requires LocateVocal(x, row, video, text, vs, vs + 1, ve).Ok?
    ensures var f := LocateVocal(x, row, video, text, vs, vs + 1, ve).value;
      video < |x.grids| &&
      var h, w := Merged(x.grids[video].h, x.merge), Merged(x.grids[video].w, x.merge);
      f.span.Vocal? && f.span == Vocal(h, w, f.span.audio) && row[vs..ve + 1] == SpanTokens(f.span)
  {
    hide GridPads, Merged, Divides, Times;
    var g := x.grids[video];
    MergedPads(g, x.merge);
    var pads := GridPads(g, x.merge);
    var ae := Find(row, AudioEnd, vs + 2);
    var run := RunEnd(row, VideoPad, vs + 2, ae);
    WholeOnce(run - (vs + 2), pads);
    var span := LocateVocal(x, row, video, text, vs, vs + 1, ve).value.span;
    assert run == vs + 2 + Times(span.h, span.w) && span.audio == ae - run && ae == ve - 1;
    assert forall k :: run <= k < ae ==> row[k] == AudioPad;
    assert row[vs..ve + 1] == [VisionStart, AudioStart] + row[vs + 2..run] + row[run..ae] + [AudioEnd, VisionEnd];
    assert row[vs + 2..run] == Repeat(VideoPad, Times(span.h, span.w));
    assert row[run..ae] == Repeat(AudioPad, span.audio);
  }

  /** For any row, well-formed or not, the vocal branch accepts the tokens between its markers if and
      only if they are exactly a printed vocal span of the next grid; foreign tokens, missing or
      additional pads and misplaced audio markers are all rejected. */
  lemma {:induction false} VocalIffPrinted(x: Context, row: seq<Token>, video: nat, text: nat, vs: nat, start: nat,
                                           ve: nat)
    requires x.Valid() && vs < start < ve < |row|
    requires row[vs] == VisionStart && row[start] == AudioStart && row[ve] == VisionEnd
    requires forall k :: vs < k < start ==> row[k] != AudioStart
    ensures LocateVocal(x, row, video, text, vs, start, ve).Ok?
      <==> video < |x.grids| && exists audio: nat ::
             row[vs..ve + 1] == SpanTokens(
               Vocal(Merged(x.grids[video].h, x.merge), Merged(x.grids[video].w, x.merge), audio))
  {
    hide LocateVocal, Merged, GridPads, Divides, SpanTokens;
    if LocateVocal(x, row, video, text, vs, start, ve).Ok? {
      StartsInFront(x, row, video, text, vs, start, ve);
      AcceptedIsPrinted(x, row, video, text, vs, ve);
    }
    if video < |x.grids| {
      var h, w := Merged(x.grids[video].h, x.merge), Merged(x.grids[video].w, x.merge);
      if audio: nat :| row[vs..ve + 1] == SpanTokens(Vocal(h, w, audio)) {
        PrintedStart(row, vs, start, ve, Vocal(h, w, audio));
        OverlayChecks(x, row, vs, vs, Vocal(h, w, audio), video, text);
      }
    }
  }

  lemma {:induction false} PrintedStart(row: seq<Token>, vs: nat, start: nat, ve: nat, span: Span)
    requires vs < start < ve < |row| && span.Vocal? && row[vs..ve + 1] == SpanTokens(span)
    requires forall k :: vs < k < start ==> row[k] != AudioStart
    ensures start == vs + 1 && At(row, vs, vs, span) && ve == vs + |SpanTokens(span)| - 1
  {
    assert SpanTokens(span)[1] == AudioStart;
    assert row[vs..ve + 1][1] == row[vs + 1];
  }

  lemma {:induction false} StartsInFront(x: Context, row: seq<Token>, video: nat, text: nat, vs: nat, start: nat,
                                         ve: nat)
    requires x.Valid() && start < ve < |row| && LocateVocal(x, row, video, text, vs, start, ve).Ok?
    ensures start == vs + 1
  {
  }

  /** Whatever row is read, a recognised span starts at its marker, behind the given text, and has the
      size of the medium at the cursor: merged sides times the merge size are the sides in patches, and a
      track has the rows its frames give. */
  lemma {:induction false} LocateMeans(x: Context, row: seq<Token>, s: RowState)
    requires x.Valid() && Locate(x, row, s).Ok?
    ensures var f := Locate(x, row, s).value;
      && (s.st + f.text < |row| ==> row[s.st + f.text] == if f.span.Audio? then AudioStart else VisionStart)
      && match f.span
         case Audio(len) => s.cur.audio < |x.mels| && len == OutLen(x.mels[s.cur.audio])
         case Image(h, w) =>
           && s.cur.image < |x.images|
           && h * x.merge == x.images[s.cur.image].h && w * x.merge == x.images[s.cur.image].w
         case Video(h, w) =>
           && s.cur.video < |x.grids|
           && h * x.merge == x.grids[s.cur.video].h && w * x.merge == x.grids[s.cur.video].w
         case Vocal(h, w, _) =>
           && s.cur.video < |x.grids|
           && h * x.merge == x.grids[s.cur.video].h && w * x.merge == x.grids[s.cur.video].w
  {
    hide Merged, GridPads, Divides, LocateVocal, OutLen;
    if s.cur.image < |x.images| {
      WholeSides(x.images[s.cur.image], x.merge);
    }
    if s.cur.video < |x.grids| {
      WholeSides(x.grids[s.cur.video], x.merge);
    }
    forall text: nat, vs: nat, start: nat, ve: nat
      | start < ve < |row| && LocateVocal(x, row, s.cur.video, text, vs, start, ve).Ok?
      ensures VocalOf(x, s.cur.video, text, LocateVocal(x, row, s.cur.video, text, vs, start, ve).value)
    {
      VocalSize(x, row, s.cur.video, text, vs, start, ve);
    }
  }

  predicate VocalOf(x: Context, video: nat, text: nat, f: Found)
    requires x.merge > 0
  {
    && video < |x.grids| && f.text == text && f.span.Vocal?
    && f.span.h == Merged(x.grids[video].h, x.merge) && f.span.w == Merged(x.grids[video].w, x.merge)
  }

  lemma {:induction false} VocalSize(x: Context, row: seq<Token>, video: nat, text: nat, vs: nat, start: nat, ve: nat)
    requires x.Valid() && start < ve < |row| && LocateVocal(x, row, video, text, vs, start, ve).Ok?
    ensures VocalOf(x, video, text, LocateVocal(x, row, video, text, vs, start, ve).value)
  {
    hide Merged, GridPads, Divides, RunEnd, Find;
  }

  /** Nothing from `from` up to `to` is `tok`. */
  predicate Without(row: seq<Token>, tok: Token, from: nat, to: int) {
    forall k :: from <= k < to && k < |row| ==> row[k] != tok
  }

  /** What each branch needs, whatever row is read, for a span that starts at `b` inside it. Audio alone:
      audio spans are left, and no audio start stands in front. A vision span: vision spans are left, no
      vision start in front and a vision end behind; an image has its pad behind the start; the next audio
      start does not stand inside a silent video if it counts, and a vocal one has an audio start that
      counts, because of the mode or because audio spans are left. */
  lemma {:induction false} LocateNeeds(x: Context, row: seq<Token>, s: RowState)
    requires x.Valid() && Locate(x, row, s).Ok? && s.st + Locate(x, row, s).value.text < |row|
    ensures var f := Locate(x, row, s).value;
      var b := s.st + f.text;
      if f.span.Audio? then s.audios > 0 && Without(row, AudioStart, s.st, b)
      else
        && (ImagePad in row || VideoPad in row) && (s.videos > 0 || s.images > 0)
        && Without(row, VisionStart, s.st, b) && b + 1 < |row|
        && (s.audios > 0 ==> Without(row, AudioStart, s.st, b))
        && exists ve :: s.st <= ve < |row| && row[ve] == VisionEnd && Without(row, VisionEnd, s.st, ve)
             && match f.span
                case Image(_, _) => row[b + 1] == ImagePad
                case Video(_, _) =>
                  && row[b + 1] != ImagePad
                  && ((x.vocal || s.audios > 0) && Without(row, AudioStart, s.st, b) ==>
                        Without(row, AudioStart, b, ve))
                case Vocal(_, _, _) => row[b + 1] == AudioStart && b + 1 < ve && (x.vocal || s.audios > 0)
                case Audio(_) => false
  {
    hide Merged, GridPads, Divides, LocateVocal, OutLen;
    forall text: nat, vs: nat, start: nat, ve: nat
      | start < ve < |row| && LocateVocal(x, row, s.cur.video, text, vs, start, ve).Ok?
      ensures VocalOf(x, s.cur.video, text, LocateVocal(x, row, s.cur.video, text, vs, start, ve).value)
      ensures start == vs + 1
    {
      VocalSize(x, row, s.cur.video, text, vs, start, ve);
      StartsInFront(x, row, s.cur.video, text, vs, start, ve);
    }
    var f, ve := Locate(x, row, s).value, Find(row, VisionEnd, s.st);
    if !f.span.Audio? {
      assert s.st <= ve < |row| && row[ve] == VisionEnd && Without(row, VisionEnd, s.st, ve);
    }
  }

  lemma {:induction false} WholeSides(g: Grid, merge: nat)
    requires Whole(g, merge)
    ensures Merged(g.h, merge) * merge == g.h && Merged(g.w, merge) * merge == g.w
  {
  }

  // ----- one row

  /** The next span of a printed row is found, whatever its kind. */
  lemma {:induction false} LocateNext(x: Context, row: seq<Token>, s: RowState, b: nat, ps: seq<Piece>)
    requires x.Valid() && s.st <= b <= |row| && (forall k :: s.st <= k < b ==> row[k].Text?)
    requires row[b..] == Tokens(ps) && Positive(ps) && ps != [] && ps[0].Media?
    requires SpanMatches(x, s.cur, ps[0].span) && (ps[0].span.Vocal? ==> x.vocal)
    requires s.images == Num(ps, ImageKind) && s.videos == Num(ps, VideoKind) + Num(ps, VocalKind)
    requires s.audios == Num(ps, AudioKind)
    ensures Locate(x, row, s) == Ok(Found(b - s.st, ps[0].span, |SpanTokens(ps[0].span)| - 2 * Lead(ps[0].span)))
  {
    hide Locate, SpanTokens, Tokens;
    var span := ps[0].span;
    AtSpan(row, s.st, b, ps);
    SpanSize(span);
    match span {
      case Audio(len) =>
        if s.videos > 0 || s.images > 0 {
          VisionAhead(row, b, ps);
        }
        LocateAudio(x, row, s, b, len);
      case Vocal(_, _, _) => LocateOverlay(x, row, s, b, span);
      case _ => LocateSilent(x, row, s, b, span);
    }
  }

  /** From `b` on the row is `ps`; between the read position and `b` there is only text. The loop
      consumes every span of `ps`, ends with no span left over and with the media used up. */
  lemma {:induction false} ParseRun(x: Context, row: seq<Token>, s: RowState, b: nat, ps: seq<Piece>)
    requires x.Valid() && s.st <= b <= |row| && (forall k :: s.st <= k < b ==> row[k].Text?)
    requires row[b..] == Tokens(ps) && Positive(ps) && Matches(x, s.cur, ps) && (Num(ps, VocalKind) > 0 ==> x.vocal)
    requires s.images == Num(ps, ImageKind) && s.videos == Num(ps, VideoKind) + Num(ps, VocalKind)
    requires s.audios == Num(ps, AudioKind)
    ensures Run(x, row, s, NumSpans(ps)).Ok?
    ensures var e := Run(x, row, s, NumSpans(ps)).value;
      && e.st <= |row| && Tail(row, e).trace == s.trace + Repeat(Plain, b - s.st) + Shape(ps)
      && e.cur == AdvanceAll(x, s.cur, ps) && e.images == e.videos == e.audios == 0
    decreases |ps|
  {
    hide Locate, SpanTokens, SpanCols, SpanNext, Line, Advance, Divides, Merged;
    if ps == [] {
    } else if ps[0].Word? {
      assert row[b] == row[b..][0];
      assert row[b + 1..] == row[b..][1..];
      ParseRun(x, row, s, b + 1, ps[1..]);
      assert Repeat(Plain, b + 1 - s.st) + Shape(ps[1..]) == Repeat(Plain, b - s.st) + Shape(ps);
      TraceAssoc(s.trace, Repeat(Plain, b + 1 - s.st), Shape(ps[1..]), Repeat(Plain, b - s.st), Shape(ps));
    } else {
      ParseSpan(x, row, s, b, ps);
    }
  }

  lemma {:induction false} TraceAssoc<T>(a: seq<T>, b: seq<T>, c: seq<T>, d: seq<T>, e: seq<T>)
    requires b + c == d + e
    ensures a + b + c == a + d + e
  {
    assert a + b + c == a + (b + c);
    assert a + d + e == a + (d + e);
  }

  lemma {:induction false} ParseSpan(x: Context, row: seq<Token>, s: RowState, b: nat, ps: seq<Piece>)
    requires x.Valid() && s.st <= b <= |row| && (forall k :: s.st <= k < b ==> row[k].Text?)
    requires row[b..] == Tokens(ps) && Positive(ps) && Matches(x, s.cur, ps) && (Num(ps, VocalKind) > 0 ==> x.vocal)
    requires s.images == Num(ps, ImageKind) && s.videos == Num(ps, VideoKind) + Num(ps, VocalKind)
    requires s.audios == Num(ps, AudioKind)
    requires ps != [] && ps[0].Media?
    ensures Run(x, row, s, NumSpans(ps)).Ok?
    ensures var e := Run(x, row, s, NumSpans(ps)).value;
      && e.st <= |row| && Tail(row, e).trace == s.trace + Repeat(Plain, b - s.st) + Shape(ps)
      && e.cur == AdvanceAll(x, s.cur, ps) && e.images == e.videos == e.audios == 0
    decreases |ps|, 0
  {
    hide Locate, SpanTokens, SpanCols, SpanNext, Line, Advance, Tokens, Tail, Divides, Merged;
    var span, size := ps[0].span, |SpanTokens(ps[0].span)|;
    LocateNext(x, row, s, b, ps);
    AtSpan(row, s.st, b, ps);
    SpanSize(span);
    var s1 := Emit(x, s, Locate(x, row, s).value);
    ParseRun(x, row, s1, b + size, ps[1..]);
    assert NumSpans(ps) == NumSpans(ps[1..]) + 1;
    assert Run(x, row, s, NumSpans(ps)) == Run(x, row, s1, NumSpans(ps[1..]));
    var words := s.trace + Repeat(Plain, b - s.st);
    assert s1.trace + Repeat(Plain, 0) == words + [Block(span)];
    assert Shape(ps) == [Block(span)] + Shape(ps[1..]);
    assert words + [Block(span)] + Shape(ps[1..]) == words + ([Block(span)] + Shape(ps[1..]));
  }

  // ----- counting up front

  lemma {:induction false} EndsSkip(row: seq<Token>, tok: Token, a: nat, b: nat)
    requires a <= b <= |row| && forall k :: a <= k < b ==> row[k] != VisionEnd
    ensures EndsAfter(row, tok, b) == EndsAfter(row, tok, a)
    decreases b
  {
    if a < b {
      EndsSkip(row, tok, a, b - 1);
    }
  }

  /** The token that directly precedes a span's vision end. */
  function Signature(k: Kind): Token {
    match k
    case ImageKind => ImagePad
    case VideoKind => VideoPad
    case VocalKind => AudioEnd
    case AudioKind => AudioPad
  }

  lemma {:induction false} EndsCountSpans(row: seq<Token>, b: nat, ps: seq<Piece>, k: Kind)
    requires b <= |row| && row[b..] == Tokens(ps) && Positive(ps) && k != AudioKind
    ensures EndsAfter(row, Signature(k), |row|) == EndsAfter(row, Signature(k), b) + Num(ps, k)
    decreases |ps|
  {
    hide SpanTokens, EndsAfter, At, Signature;
    if ps != [] {
      if ps[0].Word? {
        assert row[b] == row[b..][0];
        assert row[b + 1..] == row[b..][1..];
        EndsSkip(row, Signature(k), b, b + 1);
        EndsCountSpans(row, b + 1, ps[1..], k);
      } else {
        var e := b + |SpanTokens(ps[0].span)|;
        AtSpan(row, b, b, ps);
        EndsOfSpan(row, b, ps[0].span, k);
        EndsCountSpans(row, e, ps[1..], k);
      }
    }
  }

  lemma {:induction false} EndsOfSpan(row: seq<Token>, b: nat, span: Span, k: Kind)
    requires At(row, b, b, span) && span.Positive() && k != AudioKind
    ensures EndsAfter(row, Signature(k), b + |SpanTokens(span)|)
         == EndsAfter(row, Signature(k), b) + if KindOf(span) == k then 1 else 0
  {
    hide SpanTokens, Times;
    SpanSize(span);
    RowTokens(row, b, b, span);
    var e := b + |SpanTokens(span)|;
    EndsSkip(row, Signature(k), b, e - 1);
    assert row[e - 2] == TokenOf(span, e - 2 - b);
    if span.Audio? {
      assert row[e - 1] == AudioEnd;
    }
  }

  lemma {:induction false} StartsAreTallied(ps: seq<Piece>)
    ensures TallyAll(ps, AudioStart) == Num(ps, AudioKind) + Num(ps, VocalKind)
  {
    if ps != [] {
      StartsAreTallied(ps[1..]);
    }
  }

  lemma {:induction false} BeginCounts(x: Context, cur: Cursors, ps: seq<Piece>)
    requires Positive(ps) && ModeOk(x.vocal, ps)
    ensures var s := Begin(x, Tokens(ps), cur);
      && s.images == Num(ps, ImageKind) && s.videos == Num(ps, VideoKind) + Num(ps, VocalKind)
      && s.audios == Num(ps, AudioKind)
  {
    var row := Tokens(ps);
    assert row[0..] == row;
    EndsCountSpans(row, 0, ps, ImageKind);
    EndsCountSpans(row, 0, ps, VideoKind);
    EndsCountSpans(row, 0, ps, VocalKind);
    CountTokens(ps, AudioStart);
    StartsAreTallied(ps);
  }

  /** Round trip of one row: printing `ps` and indexing the tokens recognises the spans of `ps` in
      order, each as the kind it was printed as, leaves no span over, and moves the media cursors
      by exactly the media of `ps`. The only row that fails is the empty one. */
  lemma {:induction false} RowRoundTrip(x: Context, cur: Cursors, ps: seq<Piece>)
    requires x.Valid() && Positive(ps) && ModeOk(x.vocal, ps) && Matches(x, cur, ps)
    ensures RunRow(x, Tokens(ps), cur).Ok? <==> ps != []
    ensures ps != [] ==>
      var s := RunRow(x, Tokens(ps), cur).value;
      && s.trace == Shape(ps) && s.cols == Lay(Shape(ps)).cols
      && s.cur == AdvanceAll(x, cur, ps)
      && s.images == 0 && s.videos == 0 && s.audios == 0
  {
    hide Run, Lay, Tokens, EndsAfter, Line, AdvanceAll, Matches, Num, Count;
    var row := Tokens(ps);
    assert row[0..] == row;
    BeginCounts(x, cur, ps);
    var s0 := Begin(x, row, cur);
    ParseRun(x, row, s0, 0, ps);
    var e := Run(x, row, s0, NumSpans(ps)).value;
    assert s0.trace + Repeat(Plain, 0) + Shape(ps) == Shape(ps);
    BeginConsistent(x, row, cur);
    RunConsistent(x, row, s0, NumSpans(ps));
    TailConsistent(row, e);
    if ps != [] {
      RowNotEmpty(ps);
    }
  }

  lemma {:induction false} RowNotEmpty(ps: seq<Piece>)
    requires ps != []
    ensures Tokens(ps) != []
  {
    assert PieceTokens(ps[0]) != [];
  }
}
