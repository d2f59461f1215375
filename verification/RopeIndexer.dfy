/** `get_rope_index`: re-reads a finished token row and assigns every token its three positions.
    `Step`, `RunRow` and `RunBatch` say what each loop computes on any input, malformed rows and
    exhausted media included; the methods below run the loops and are proved equal to them. */
module RopeIndexer {
  import opened Sequences
  import opened Layout
  import opened Positions
  import opened FeatureLengths
  import Chunking

  /** Where the source raises. */
  datatype RopeError =
    | MissingVisionToken | NegativeLength | MediaExhausted | EmptyBlock | PastEnd
    | AudioStartMisplaced | AudioEndMissing | AudioEndMisplaced | NotWholeGrids | NotOneGrid | NotAudioPads
    | EmptyRow | ShapeMismatch

  datatype Cursors = Cursors(image: nat, video: nat, audio: nat)

  predicate Whole(g: Grid, merge: nat) {
    merge > 0 && g.t == 1 && g.h > 0 && g.w > 0 && Divides(merge, g.h) && Divides(merge, g.w)
  }

  predicate Divides(d: nat, n: nat) {
    d > 0 && n % d == 0
  }

  /** What a batch is indexed against: one grid per image, one per temporal grid of every video,
      the running totals at which a video ends, and the mel length of every audio track. */
  datatype Context = Context(merge: nat, images: seq<Grid>, grids: seq<Grid>, ends: set<nat>,
                             mels: seq<nat>, vocal: bool)
  {
    predicate Valid() {
      && merge > 0
      && (forall g :: g in images ==> Whole(g, merge))
      && (forall g :: g in grids ==> Whole(g, merge))
    }
  }

  /** State of the loop over one row's spans. `trace` is bookkeeping for the proofs. */
  datatype RowState = RowState(st: nat, cols: seq<Pos>, next: nat, cur: Cursors,
                               images: int, videos: int, audios: int, trace: seq<Cell>)

  /** The span the next iteration handles, the text in front of it and its number of pads. */
  datatype Found = Found(text: nat, span: Span, pads: nat)

  /** `list.index(tok, from)`, with the source's stand-in `len + 1` when there is none. */
  function Find(row: seq<Token>, tok: Token, from: nat): (r: nat)
    ensures r < |row| ==> from <= r && row[r] == tok
    ensures r < |row| ==> forall k :: from <= k < r ==> row[k] != tok
    ensures r >= |row| ==> r == |row| + 1 && forall k :: from <= k < |row| ==> row[k] != tok
    decreases |row| - from
  {
    if from >= |row| then |row| + 1
    else if row[from] == tok then from
    else Find(row, tok, from + 1)
  }

  /** End of the run of `tok` that starts at `from`, cut off at `limit`. */
  function RunEnd(row: seq<Token>, tok: Token, from: nat, limit: nat): (r: nat)
    requires from <= limit <= |row|
    ensures from <= r <= limit
    ensures forall k :: from <= k < r ==> row[k] == tok
    ensures r < limit ==> row[r] != tok
    decreases limit - from
  {
    if from < limit && row[from] == tok then RunEnd(row, tok, from + 1, limit) else from
  }

  /** One side of a grid after spatial merging. */
  function Merged(side: nat, merge: nat): nat
    requires merge > 0
  {
    side / merge
  }

  function GridPads(g: Grid, merge: nat): nat
    requires merge > 0
  {
    ProductPositive(merge, merge);
    g.h * g.w / (merge * merge)
  }

  lemma {:induction false} ProductPositive(a: nat, b: nat)
    requires a > 0 && b > 0
    ensures a * b > 0
  {
  }

  /** Merging divides both sides, so it divides the patch count by the square. */
  lemma {:induction false} MergedPads(g: Grid, merge: nat)
    requires Whole(g, merge)
    ensures GridPads(g, merge) == Times(Merged(g.h, merge), Merged(g.w, merge))
    ensures Merged(g.h, merge) > 0 && Merged(g.w, merge) > 0 && GridPads(g, merge) > 0
  {
    var a, b := Merged(g.h, merge), Merged(g.w, merge);
    assert g.h == a * merge && g.w == b * merge;
    ProductPositive(merge, merge);
    assert g.h * g.w == (a * b) * (merge * merge) by {
      assert (a * merge) * (b * merge) == (a * b) * (merge * merge);
    }
    DivExact(a * b, merge * merge);
    TimesIsProduct(a, b);
    ProductPositive(a, b);
  }

  lemma {:induction false} DivExact(q: nat, d: nat)
    requires d > 0
    ensures q * d / d == q
  {
    var n := q * d;
    var k := q - n / d;
    assert n == (n / d) * d + n % d;
    assert k * d == n % d;
    Chunking.SmallMultiple(k, d);
  }

  /** The checks on an audio-in-video span whose markers are at `vs`, `audioStart` and `ve`. */
  function LocateVocal(x: Context, row: seq<Token>, video: nat, text: nat, vs: nat, audioStart: nat,
                       ve: nat): Result<Found, RopeError>
    requires x.Valid() && audioStart < ve < |row|
  {
    if audioStart != vs + 1 then Err(AudioStartMisplaced)
    else if video >= |x.grids| then Err(MediaExhausted)
    else
      var g := x.grids[video];
      var pads := GridPads(g, x.merge);
      var ae := Find(row, AudioEnd, audioStart + 1);
      if ae >= |row| then Err(AudioEndMissing)
      else if ae != ve - 1 then Err(AudioEndMisplaced)
      else
        var run := RunEnd(row, VideoPad, audioStart + 1, ae);
        var actual := run - (audioStart + 1);
        MergedPads(g, x.merge);
        if actual % pads != 0 then Err(NotWholeGrids)
        else if actual / pads != 1 then Err(NotOneGrid)
        else if exists k :: run <= k < ae && row[k] != AudioPad then Err(NotAudioPads)
        else Ok(Found(text, Vocal(Merged(g.h, x.merge), Merged(g.w, x.merge), ae - run), ae - run + pads))
  }

  /** Which span comes next after `s.st`. */
  function Locate(x: Context, row: seq<Token>, s: RowState): Result<Found, RopeError>
    requires x.Valid()
  {
    var n := |row|;
    var seek := (ImagePad in row || VideoPad in row) && (s.videos > 0 || s.images > 0);
    var vs := if seek then Find(row, VisionStart, s.st) else n + 1;
    var ve := if seek then Find(row, VisionEnd, s.st) else n + 1;
    var na := Find(row, AudioStart, s.st);
    var audioStart := if x.vocal && vs < na < ve then na else if s.audios > 0 then na else n + 1;
    var ed := if vs < audioStart then vs else audioStart;
    if seek && (vs > n || ve > n) then Err(MissingVisionToken)
    else if ed < s.st then Err(NegativeLength)
    else if ed == audioStart then
      if s.cur.audio >= |x.mels| then Err(MediaExhausted)
      else if OutLen(x.mels[s.cur.audio]) <= 0 then Err(EmptyBlock)
      else
        var len: nat := OutLen(x.mels[s.cur.audio]);
        Ok(Found(ed - s.st, Audio(len), len))
    else if vs + 1 >= n then Err(PastEnd)
    else if row[vs + 1] == ImagePad then
      if s.cur.image >= |x.images| then Err(MediaExhausted)
      else
        var g := x.images[s.cur.image];
        Ok(Found(ed - s.st, Image(Merged(g.h, x.merge), Merged(g.w, x.merge)), GridPads(g, x.merge)))
    else if ve < audioStart then
      if s.cur.video >= |x.grids| then Err(MediaExhausted)
      else
        var g := x.grids[s.cur.video];
        Ok(Found(ed - s.st, Video(Merged(g.h, x.merge), Merged(g.w, x.merge)), GridPads(g, x.merge)))
    else if audioStart < ve then LocateVocal(x, row, s.cur.video, ed - s.st, vs, audioStart, ve)
    else assert row[ve] == VisionEnd && row[ve] == AudioStart; Err(PastEnd)
  }

  /** The media cursors after a span; an audio track ends with the last grid of its video. */
  function Advance(x: Context, cur: Cursors, span: Span): Cursors {
    match span
    case Audio(_) => cur.(audio := cur.audio + 1)
    case Image(_, _) => cur.(image := cur.image + 1)
    case Video(_, _) => cur.(video := cur.video + 1)
    case Vocal(_, _, _) =>
      cur.(video := cur.video + 1, audio := if cur.video + 1 in x.ends then cur.audio + 1 else cur.audio)
  }

  /** Consume text and span: the columns come from the reference geometry, the new read position
      from the source's own length formulas. */
  function Emit(x: Context, s: RowState, f: Found): RowState {
    var base := s.next + f.text;
    RowState(
      s.st + f.text + Lead(f.span) + f.pads + Lead(f.span),
      s.cols + Line(s.next, f.text) + SpanCols(base, f.span),
      SpanNext(base, f.span),
      Advance(x, s.cur, f.span),
      s.images - (if f.span.Image? then 1 else 0),
      s.videos - (if f.span.Video? || f.span.Vocal? then 1 else 0),
      s.audios - (if f.span.Audio? then 1 else 0),
      s.trace + Repeat(Plain, f.text) + [Block(f.span)])
  }

  function Step(x: Context, row: seq<Token>, s: RowState): Result<RowState, RopeError>
    requires x.Valid()
  {
    match Locate(x, row, s)
    case Err(e) => Err(e)
    case Ok(f) => Ok(Emit(x, s, f))
  }

  function Run(x: Context, row: seq<Token>, s: RowState, n: int): Result<RowState, RopeError>
    requires x.Valid()
    decreases n
  {
    if n <= 0 then Ok(s)
    else
      match Step(x, row, s)
      case Err(e) => Err(e)
      case Ok(s') => Run(x, row, s', n - 1)
  }

  // ----- counting the spans of a row

  /** Python's `row[i - 1]`: index -1 is the last token. */
  function Before(row: seq<Token>, i: nat): Token
    requires i < |row|
  {
    if i == 0 then row[|row| - 1] else row[i - 1]
  }

  /** Vision ends among the first `n` tokens that directly follow `tok`. */
  function EndsAfter(row: seq<Token>, tok: Token, n: nat): nat
    requires n <= |row|
  {
    if n == 0 then 0
    else EndsAfter(row, tok, n - 1) + if row[n - 1] == VisionEnd && Before(row, n - 1) == tok then 1 else 0
  }

  function Begin(x: Context, row: seq<Token>, cur: Cursors): RowState {
    var vocals := EndsAfter(row, AudioEnd, |row|);
    RowState(0, [], 0, cur,
             EndsAfter(row, ImagePad, |row|),
             if x.vocal && vocals > 0 then vocals else EndsAfter(row, VideoPad, |row|),
             Count(row, AudioStart) - vocals,
             [])
  }

  /** A vision end whose neighbour in front is `tok`; the first token's neighbour is the last one. */
  predicate EndBehind(row: seq<Token>, tok: Token, i: nat) {
    i < |row| && row[i] == VisionEnd && (if i == 0 then row[|row| - 1] == tok else row[i - 1] == tok)
  }

  function EndsBehind(row: seq<Token>, tok: Token, n: nat): set<nat>
    requires n <= |row|
  {
    set i: nat | i < n && EndBehind(row, tok, i)
  }

  lemma {:induction false} EndsAreCounted(row: seq<Token>, tok: Token, n: nat)
    requires n <= |row|
    ensures EndsAfter(row, tok, n) == |EndsBehind(row, tok, n)|
  {
    if n == 0 {
      assert EndsBehind(row, tok, 0) == {};
    } else {
      EndsAreCounted(row, tok, n - 1);
      OneEndMore(row, tok, n - 1);
    }
  }

  lemma {:induction false} OneEndMore(row: seq<Token>, tok: Token, n: nat)
    requires n < |row|
    ensures |EndsBehind(row, tok, n + 1)|
         == |EndsBehind(row, tok, n)| + if row[n] == VisionEnd && Before(row, n) == tok then 1 else 0
  {
    assert EndBehind(row, tok, n) <==> row[n] == VisionEnd && Before(row, n) == tok;
    hide EndBehind, Before;
    var before := EndsBehind(row, tok, n);
    assert n !in before;
    if EndBehind(row, tok, n) {
      assert EndsBehind(row, tok, n + 1) == before + {n};
    } else {
      assert EndsBehind(row, tok, n + 1) == before;
    }
  }

  /** The counters any row starts with. Vision ends behind an audio end count as videos in vocal mode, if
      there are any, and otherwise those behind a video pad do; the former are subtracted from the audio
      starts in either mode. */
  lemma {:induction false} BeginOnAnyRow(x: Context, row: seq<Token>, cur: Cursors)
    ensures var s, vocals := Begin(x, row, cur), EndsBehind(row, AudioEnd, |row|);
      && s.images == |EndsBehind(row, ImagePad, |row|)|
      && s.videos == (if x.vocal && vocals != {} then |vocals| else |EndsBehind(row, VideoPad, |row|)|)
      && s.audios + |vocals| == Count(row, AudioStart)
      && s.st == 0 && s.cols == [] && s.cur == cur
  {
    hide EndsAfter;
    EndsAreCounted(row, ImagePad, |row|);
    EndsAreCounted(row, AudioEnd, |row|);
    EndsAreCounted(row, VideoPad, |row|);
  }

  /** Text after the last span. */
  function Tail(row: seq<Token>, s: RowState): RowState {
    if s.st < |row| then
      var text := |row| - s.st;
      s.(st := |row|, cols := s.cols + Line(s.next, text), next := s.next + text,
         trace := s.trace + Repeat(Plain, text))
    else s
  }

  function Finish(row: seq<Token>, s: RowState): Result<RowState, RopeError> {
    var t := Tail(row, s);
    if t.cols == [] then Err(EmptyRow)
    else if |t.cols| != |row| then Err(ShapeMismatch)
    else Ok(t)
  }

  function RunRow(x: Context, row: seq<Token>, cur: Cursors): Result<RowState, RopeError>
    requires x.Valid()
  {
    var s := Begin(x, row, cur);
    match Run(x, row, s, s.images + s.videos + s.audios)
    case Err(e) => Err(e)
    case Ok(t) => Finish(row, t)
  }

  // ----- every successful run is laid out as its trace says

  ghost predicate Consistent(s: RowState) {
    && Lay(s.trace) == Laid(s.cols, s.next)
    && |s.cols| == s.st
    && PositiveCells(s.trace)
  }

  lemma {:induction false} BeginConsistent(x: Context, row: seq<Token>, cur: Cursors)
    ensures Consistent(Begin(x, row, cur))
  {
  }

  lemma {:induction false} LocatePositive(x: Context, row: seq<Token>, s: RowState)
    requires x.Valid() && Locate(x, row, s).Ok?
    ensures var f := Locate(x, row, s).value;
      f.span.Positive() && |SpanTokens(f.span)| == f.pads + 2 * Lead(f.span)
  {
    hide Find, RunEnd;
    var span := Locate(x, row, s).value.span;
    if span.Image? {
      MergedPads(x.images[s.cur.image], x.merge);
    } else if !span.Audio? {
      MergedPads(x.grids[s.cur.video], x.merge);
    }
  }

  lemma {:induction false} EmitConsistent(x: Context, s: RowState, f: Found)
    requires Consistent(s) && f.span.Positive() && |SpanTokens(f.span)| == f.pads + 2 * Lead(f.span)
    ensures Consistent(Emit(x, s, f))
  {
    hide Lay, SpanTokens, SpanCols, SpanNext;
    var t, c := s.trace + Repeat(Plain, f.text), Block(f.span);
    LayText(s.trace, f.text);
    LayPush(t, c);
    CellFollows(s.next + f.text, c);
    PositivePush(s.trace, f.text, c);
  }

  lemma {:induction false} PositivePush(cells: seq<Cell>, n: nat, c: Cell)
    requires PositiveCells(cells) && (c.Block? ==> c.span.Positive())
    ensures PositiveCells(cells + Repeat(Plain, n) + [c])
  {
  }

  lemma {:induction false} StepConsistent(x: Context, row: seq<Token>, s: RowState)
    requires x.Valid() && Consistent(s) && Step(x, row, s).Ok?
    ensures Consistent(Step(x, row, s).value)
  {
    hide Lay, Locate;
    LocatePositive(x, row, s);
    EmitConsistent(x, s, Locate(x, row, s).value);
  }

  lemma {:induction false} RunConsistent(x: Context, row: seq<Token>, s: RowState, n: int)
    requires x.Valid() && Consistent(s) && Run(x, row, s, n).Ok?
    ensures Consistent(Run(x, row, s, n).value)
    decreases n
  {
    hide Locate, Lay;
    if n > 0 {
      StepConsistent(x, row, s);
      RunConsistent(x, row, Step(x, row, s).value, n - 1);
    }
  }

  lemma {:induction false} TailConsistent(row: seq<Token>, s: RowState)
    requires Consistent(s)
    ensures Consistent(Tail(row, s))
  {
    hide Lay;
    if s.st < |row| {
      LayText(s.trace, |row| - s.st);
      assert PositiveCells(s.trace + Repeat(Plain, |row| - s.st));
    }
  }

  /** Any row that is indexed without an error, well-formed or not, gets exactly the columns of
      the spans that were recognised: one per token, time never going back, no coordinate beyond
      the token's index, and a delta that is never positive. */
  lemma {:induction false} IndexedRowsAreSound(x: Context, row: seq<Token>, cur: Cursors)
    requires x.Valid() && RunRow(x, row, cur).Ok?
    ensures var s := RunRow(x, row, cur).value;
      && s.cols == Lay(s.trace).cols && |s.cols| == |row| && Sound(Laid(s.cols, s.next))
      && PositiveCells(s.trace) && Delta(s.cols) <= 0
  {
    hide Lay, Run, EndsAfter;
    var s0 := Begin(x, row, cur);
    assert Consistent(s0) by { BeginConsistent(x, row, cur); }
    var n := s0.images + s0.videos + s0.audios;
    RunConsistent(x, row, s0, n);
    TailConsistent(row, Run(x, row, s0, n).value);
    var s := RunRow(x, row, cur).value;
    LayIsSound(s.trace);
    DeltaNeverPositive(s.trace);
  }

  /** At every loop boundary the number of columns emitted is the read position, so the final
      write can only be misshapen when spans claim more tokens than the row has. */
  lemma {:induction false} CoverageInvariant(x: Context, row: seq<Token>, cur: Cursors, k: int)
    requires x.Valid() && Run(x, row, Begin(x, row, cur), k).Ok?
    ensures var s := Run(x, row, Begin(x, row, cur), k).value;
      && |s.cols| == s.st
      && (row != [] ==> (Finish(row, s).Ok? <==> s.st <= |row|))
  {
    hide Lay, Run, EndsAfter;
    BeginConsistent(x, row, cur);
    RunConsistent(x, row, Begin(x, row, cur), k);
  }
}
