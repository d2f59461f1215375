/** The loops of `get_rope_index` as the source runs them, and the batch around them. */
module RopeIndex {
  import opened Sequences
  import opened Layout
  import opened Positions
  import opened FeatureLengths
  import opened RopeIndexer

  // ----- searching and counting

  method IndexOf(row: seq<Token>, tok: Token, from: nat) returns (r: nat)
    ensures r == Find(row, tok, from)
  {
    r := from;
    while r < |row| && row[r] != tok
      invariant Find(row, tok, r) == Find(row, tok, from)
      invariant from < |row| ==> r <= |row|
    {
      r := r + 1;
    }
    if r >= |row| {
      r := |row| + 1;
    }
  }

  method EndOfRun(row: seq<Token>, tok: Token, from: nat, limit: nat) returns (r: nat)
    requires from <= limit <= |row|
    ensures r == RunEnd(row, tok, from, limit)
  {
    r := from;
    while r < limit && row[r] == tok
      invariant from <= r <= limit
      invariant RunEnd(row, tok, r, limit) == RunEnd(row, tok, from, limit)
    {
      r := r + 1;
    }
  }

  method CountSpans(row: seq<Token>) returns (images: nat, vocals: nat, videos: nat, starts: nat)
    ensures images == EndsAfter(row, ImagePad, |row|)
    ensures vocals == EndsAfter(row, AudioEnd, |row|)
    ensures videos == EndsAfter(row, VideoPad, |row|)
    ensures starts == Count(row, AudioStart)
  {
    images, vocals, videos, starts := 0, 0, 0, 0;
    for i := 0 to |row|
      invariant images == EndsAfter(row, ImagePad, i)
      invariant vocals == EndsAfter(row, AudioEnd, i)
      invariant videos == EndsAfter(row, VideoPad, i)
      invariant starts == Count(row[..i], AudioStart)
    {
      assert row[..i + 1][..i] == row[..i];
      if row[i] == VisionEnd {
        var before := if i == 0 then row[|row| - 1] else row[i - 1];
        if before == ImagePad {
          images := images + 1;
        } else if before == AudioEnd {
          vocals := vocals + 1;
        } else if before == VideoPad {
          videos := videos + 1;
        }
      } else if row[i] == AudioStart {
        starts := starts + 1;
      }
    }
    assert row[..|row|] == row;
  }

  /** `tensor.max()` of one block. */
  method BlockMax(block: seq<Pos>) returns (m: nat)
    requires block != []
    ensures m == MaxCoord(block)
  {
    m := MaxOf(block[0]);
    for i := 1 to |block|
      invariant m == MaxCoord(block[..i])
    {
      assert block[..i + 1][..i] == block[..i];
      m := Max(m, MaxOf(block[i]));
    }
    assert block[..|block|] == block;
  }

  // ----- one row

  /** The branch an iteration takes. */
  method LocateSpan(x: Context, row: seq<Token>, st: nat, cur: Cursors, images: int, videos: int, audios: int,
                    ghost s: RowState)
    returns (r: Result<Found, RopeError>)
    requires x.Valid()
    requires st == s.st && cur == s.cur && images == s.images && videos == s.videos && audios == s.audios
    ensures r == Locate(x, row, s)
  {
    hide GridPads, Merged, Divides, LocateVocal, Find;
    var n := |row|;
    var vs, ve := n + 1, n + 1;
    if (ImagePad in row || VideoPad in row) && (videos > 0 || images > 0) {
      vs := IndexOf(row, VisionStart, st);
      ve := IndexOf(row, VisionEnd, st);
      if vs > n || ve > n {
        return Err(MissingVisionToken);
      }
    }
    var na := IndexOf(row, AudioStart, st);
    var audioStart := n + 1;
    if x.vocal && vs < na < ve {
      audioStart := na;
    } else if audios > 0 {
      audioStart := na;
    }
    var ed := if vs < audioStart then vs else audioStart;
    if ed < st {
      return Err(NegativeLength);
    }
    if ed == audioStart {
      if cur.audio >= |x.mels| {
        return Err(MediaExhausted);
      }
      var len := OutLen(x.mels[cur.audio]);
      if len <= 0 {
        return Err(EmptyBlock);
      }
      return Ok(Found(ed - st, Audio(len), len));
    }
    if vs + 1 >= n {
      return Err(PastEnd);
    }
    if row[vs + 1] == ImagePad {
      if cur.image >= |x.images| {
        return Err(MediaExhausted);
      }
      var g := x.images[cur.image];
      return Ok(Found(ed - st, Image(Merged(g.h, x.merge), Merged(g.w, x.merge)), GridPads(g, x.merge)));
    }
    if ve < audioStart {
      if cur.video >= |x.grids| {
        return Err(MediaExhausted);
      }
      var g := x.grids[cur.video];
      return Ok(Found(ed - st, Video(Merged(g.h, x.merge), Merged(g.w, x.merge)), GridPads(g, x.merge)));
    }
    r := LocateVocalSpan(x, row, cur.video, ed - st, vs, audioStart, ve);
  }

  /** The audio-in-video branch and its checks. */
  method LocateVocalSpan(x: Context, row: seq<Token>, video: nat, text: nat, vs: nat, audioStart: nat, ve: nat)
    returns (r: Result<Found, RopeError>)
    requires x.Valid() && audioStart < ve < |row|
    ensures r == LocateVocal(x, row, video, text, vs, audioStart, ve)
  {
    hide GridPads, Merged, Divides, Find, RunEnd;
    if audioStart != vs + 1 {
      return Err(AudioStartMisplaced);
    }
    if video >= |x.grids| {
      return Err(MediaExhausted);
    }
    var g := x.grids[video];
    var pads := GridPads(g, x.merge);
    MergedPads(g, x.merge);
    var ae := IndexOf(row, AudioEnd, audioStart + 1);
    if ae >= |row| {
      return Err(AudioEndMissing);
    }
    if ae != ve - 1 {
      return Err(AudioEndMisplaced);
    }
    var run := EndOfRun(row, VideoPad, audioStart + 1, ae);
    var actual := run - (audioStart + 1);
    if actual % pads != 0 {
      return Err(NotWholeGrids);
    }
    if actual / pads != 1 {
      return Err(NotOneGrid);
    }
    var rest := EndOfRun(row, AudioPad, run, ae);
    if rest < ae {
      return Err(NotAudioPads);
    }
    r := Ok(Found(text, Vocal(Merged(g.h, x.merge), Merged(g.w, x.merge), ae - run), ae - run + pads));
  }

  /** Columns of one span after its first token at `base`: every block is appended, and the
      closing tokens restart one past the maximum of the last block only. */
  method EmitSpan(base: nat, span: Span) returns (cols: seq<Pos>, last: seq<Pos>)
    requires span.Positive()
    ensures cols == SpanCols(base, span) && Numbered(base, span, cols)
    ensures last != [] && MaxCoord(last) + 1 == SpanNext(base, span)
  {
    hide GridCols, MaxCoord, Line, Numbered;
    SpanIsNumbered(base, span);
    cols := Line(base, 1);
    var stIdx, eosLen := base + 1, 1;
    match span {
      case Audio(len) =>
        last := Line(stIdx, len);
        LineMax(stIdx, len);
      case Image(h, w) =>
        last := GridCols(stIdx, h, w);
        GridMax(stIdx, h, w);
      case Video(h, w) =>
        last := GridCols(stIdx, h, w);
        GridMax(stIdx, h, w);
      case Vocal(h, w, audio) =>
        eosLen := 2;
        cols := cols + Line(stIdx, 1);
        LineSplit(base, 1, 1);
        stIdx := stIdx + 1;
        last := GridCols(stIdx, h, w);
        GridMax(stIdx, h, w);
        if audio > 0 {
          cols := cols + last;
          last := Line(stIdx, audio);
          LineMax(stIdx, audio);
        } else {
          assert Line(stIdx, audio) == [];
        }
    }
    cols := cols + last;
    assert cols == Line(base, Lead(span)) + Content(base + Lead(span), span);
    var m := BlockMax(last);
    last := Line(m + 1, eosLen);
    LineMax(m + 1, eosLen);
    cols := cols + last;
  }

  method AppendText(cols: seq<Pos>, next: nat, text: nat) returns (r: seq<Pos>)
    ensures r == cols + Line(next, text)
  {
    r := cols;
    if text != 0 {
      r := r + Line(next, text);
    }
  }

  /** One row's columns, its position delta and the media cursors after it. */
  datatype RowOut = RowOut(cols: seq<Pos>, delta: int, cur: Cursors)

  function Output(r: Result<RowState, RopeError>): Result<RowOut, RopeError> {
    match r
    case Err(e) => Err(e)
    case Ok(s) => if s.cols == [] then Err(EmptyRow) else Ok(RowOut(s.cols, Delta(s.cols), s.cur))
  }

  method IndexRow(x: Context, row: seq<Token>, cursors: Cursors) returns (r: Result<RowOut, RopeError>)
    requires x.Valid()
    ensures r == Output(RunRow(x, row, cursors))
  {
    hide Locate, Advance, SpanCols, SpanNext, EndsAfter, Find, Line, MaxCoord, Divides;
    var images, vocals, videos, audioStarts := CountSpans(row);
    if x.vocal && vocals > 0 {
      videos := vocals;
    }
    var audios := audioStarts as int - vocals as int;
    var leftImages: int, leftVideos: int, leftAudios: int := images, videos, audios;
    var st: nat, cur, cols, last := 0, cursors, [], [];
    ghost var s := Begin(x, row, cursors);
    var left := images + videos + audios;
    ghost var whole := Run(x, row, s, left);
    while left > 0
      invariant s == RowState(st, cols, s.next, cur, leftImages, leftVideos, leftAudios, s.trace)
      invariant s.next == if last == [] then 0 else MaxCoord(last) + 1
      invariant Run(x, row, s, left) == whole
    {
      var next := 0;
      if last != [] {
        next := BlockMax(last);
        next := next + 1;
      }
      var found := LocateSpan(x, row, st, cur, leftImages, leftVideos, leftAudios, s);
      if found.Err? {
        return Err(found.error);
      }
      var f := found.value;
      LocatePositive(x, row, s);
      cols := AppendText(cols, next, f.text);
      var block;
      block, last := EmitSpan(next + f.text, f.span);
      cols := cols + block;
      s := Emit(x, s, f);
      st := st + f.text + Lead(f.span) + f.pads + Lead(f.span);
      cur := Advance(x, cur, f.span);
      match f.span {
        case Audio(_) => leftAudios := leftAudios - 1;
        case Image(_, _) => leftImages := leftImages - 1;
        case _ => leftVideos := leftVideos - 1;
      }
      left := left - 1;
    }
    if st < |row| {
      var next := 0;
      if last != [] {
        next := BlockMax(last);
        next := next + 1;
      }
      cols := AppendText(cols, next, |row| - st);
    }
    if cols == [] {
      return Err(EmptyRow);
    }
    if |cols| != |row| {
      return Err(ShapeMismatch);
    }
    var m := BlockMax(cols);
    r := Ok(RowOut(cols, m + 1 - |row|, cur));
  }

  // ----- masks

  /** Attended tokens among the first `k`. */
  function Rank(mask: seq<bool>, k: nat): (r: nat)
    requires k <= |mask|
    ensures r <= k
  {
    if k == 0 then 0 else Rank(mask, k - 1) + if mask[k - 1] then 1 else 0
  }

  lemma {:induction false} RankMonotone(mask: seq<bool>, i: nat, j: nat)
    requires i <= j <= |mask|
    ensures Rank(mask, i) <= Rank(mask, j)
    decreases j
  {
    if i < j {
      RankMonotone(mask, i, j - 1);
    }
  }

  /** `row[mask]` on the first `k` entries. */
  function Select<T>(row: seq<T>, mask: seq<bool>, k: nat): (r: seq<T>)
    requires k <= |mask| == |row|
    ensures |r| == Rank(mask, k)
  {
    if k == 0 then [] else Select(row, mask, k - 1) + if mask[k - 1] then [row[k - 1]] else []
  }

  function Attended<T>(row: seq<T>, mask: seq<bool>): seq<T>
    requires |mask| == |row|
  {
    Select(row, mask, |mask|)
  }

  /** Masked write into a row of zeros: attended entries receive `cols` in order. */
  function Written(mask: seq<bool>, cols: seq<Pos>): (r: seq<Pos>)
    requires |cols| == Rank(mask, |mask|)
    ensures |r| == |mask|
  {
    seq(|mask|, i requires 0 <= i < |mask| =>
      if mask[i] then (RankMonotone(mask, i + 1, |mask|); cols[Rank(mask, i)]) else Pos(0, 0, 0))
  }

  /** Reading back what was written gives the columns, and nothing else was written. */
  lemma {:induction false} WrittenThenAttended(mask: seq<bool>, cols: seq<Pos>, k: nat)
    requires |cols| == Rank(mask, |mask|) && k <= |mask|
    ensures forall i :: 0 <= i < |mask| && !mask[i] ==> Written(mask, cols)[i] == Pos(0, 0, 0)
    ensures Rank(mask, k) <= |cols|
    ensures Select(Written(mask, cols), mask, k) == cols[..Rank(mask, k)]
  {
    RankMonotone(mask, k, |mask|);
    if k > 0 {
      WrittenThenAttended(mask, cols, k - 1);
    }
  }

  // ----- the batch

  /** One single-grid entry per temporal grid of every video, in order. */
  function SplitGrids(videos: seq<Grid>): seq<Grid> {
    if videos == [] then []
    else
      var v := videos[|videos| - 1];
      SplitGrids(videos[..|videos| - 1]) + Repeat(Grid(1, v.h, v.w), v.t)
  }

  /** Temporal grids of the first `k` videos. */
  function GridsBefore(videos: seq<Grid>, k: nat): nat
    requires k <= |videos|
  {
    |SplitGrids(videos[..k])|
  }

  function VideoEnds(videos: seq<Grid>): set<nat> {
    set k | 1 <= k <= |videos| :: GridsBefore(videos, k)
  }

  function Prepare(merge: nat, images: seq<Grid>, videos: seq<Grid>, mels: seq<nat>, vocal: bool): Context {
    Context(merge, images, SplitGrids(videos), VideoEnds(videos), mels, vocal)
  }

  /** Grids come from processors that merge whole blocks; an image has one temporal grid. */
  predicate ValidMedia(merge: nat, images: seq<Grid>, videos: seq<Grid>) {
    && merge > 0
    && (forall g :: g in images ==> Whole(g, merge))
    && (forall g :: g in videos ==> Whole(g.(t := 1), merge))
  }

  lemma {:induction false} SplitGridsWhole(merge: nat, videos: seq<Grid>)
    requires forall g :: g in videos ==> Whole(g.(t := 1), merge)
    ensures forall g :: g in SplitGrids(videos) ==> Whole(g, merge)
  {
    if videos != [] {
      SplitGridsWhole(merge, videos[..|videos| - 1]);
    }
  }

  lemma {:induction false} PreparedIsValid(merge: nat, images: seq<Grid>, videos: seq<Grid>, mels: seq<nat>,
                                           vocal: bool)
    requires ValidMedia(merge, images, videos)
    ensures Prepare(merge, images, videos, mels, vocal).Valid()
  {
    SplitGridsWhole(merge, videos);
  }

  /** Finished rows, with the cursors that the next row starts from. */
  datatype Batch = Batch(rows: seq<RowState>, cur: Cursors)

  /** The first `k` rows, media cursors running through. */
  function RunBatch(x: Context, rows: seq<seq<Token>>, k: nat): (r: Result<Batch, RopeError>)
    requires x.Valid() && k <= |rows|
    ensures r.Ok? ==> |r.value.rows| == k
    ensures r.Ok? ==> forall i :: 0 <= i < k ==> |r.value.rows[i].cols| == |rows[i]| && r.value.rows[i].cols != []
  {
    if k == 0 then Ok(Batch([], Cursors(0, 0, 0)))
    else
      match RunBatch(x, rows, k - 1)
      case Err(e) => Err(e)
      case Ok(b) =>
        match RunRow(x, rows[k - 1], b.cur)
        case Err(e) => Err(e)
        case Ok(s) => Ok(Batch(b.rows + [s], s.cur))
  }

  lemma {:induction false} NoRows(x: Context, rows: seq<seq<Token>>)
    requires x.Valid()
    ensures RunBatch(x, rows, 0) == Ok(Batch([], Cursors(0, 0, 0)))
  {
  }

  /** One more row, as the loop sees its outcome. */
  lemma {:induction false} BatchStep(x: Context, rows: seq<seq<Token>>, k: nat, b: Batch)
    requires x.Valid() && k < |rows| && RunBatch(x, rows, k) == Ok(b)
    ensures match Output(RunRow(x, rows[k], b.cur))
      case Err(e) => RunBatch(x, rows, k + 1) == Err(e)
      case Ok(o) =>
        RunRow(x, rows[k], b.cur).Ok? &&
        var s := RunRow(x, rows[k], b.cur).value;
        && RunBatch(x, rows, k + 1) == Ok(Batch(b.rows + [s], o.cur))
        && s.cols == o.cols && |o.cols| == |rows[k]| && o.cols != [] && o.delta == Delta(o.cols)
  {
    hide Run, Begin;
  }

  lemma {:induction false} ErrorsStick(x: Context, rows: seq<seq<Token>>, k: nat, n: nat)
    requires x.Valid() && k <= n <= |rows| && RunBatch(x, rows, k).Err?
    ensures RunBatch(x, rows, n) == RunBatch(x, rows, k)
    decreases n
  {
    if k < n {
      ErrorsStick(x, rows, k, n - 1);
    }
  }

  function AttendedRows(ids: seq<seq<Token>>, masks: seq<seq<bool>>): (r: seq<seq<Token>>)
    requires |ids| == |masks| && forall i :: 0 <= i < |ids| ==> |ids[i]| == |masks[i]|
    ensures |r| == |ids|
    ensures forall i :: 0 <= i < |r| ==> |r[i]| == Rank(masks[i], |masks[i]|)
  {
    seq(|ids|, i requires 0 <= i < |ids| => Attended(ids[i], masks[i]))
  }

  datatype RopeOut = RopeOut(positions: seq<seq<Pos>>, deltas: seq<int>)

  /** What the multimodal branch returns for a batch. */
  function VisionIndex(x: Context, ids: seq<seq<Token>>, masks: seq<seq<bool>>): Result<RopeOut, RopeError>
    requires x.Valid()
    requires |ids| == |masks| && forall i :: 0 <= i < |ids| ==> |ids[i]| == |masks[i]|
  {
    match RunBatch(x, AttendedRows(ids, masks), |ids|)
    case Err(e) => Err(e)
    case Ok(b) =>
      Ok(RopeOut(
        seq(|ids|, i requires 0 <= i < |ids| => Written(masks[i], b.rows[i].cols)),
        seq(|ids|, i requires 0 <= i < |ids| => Delta(b.rows[i].cols))))
  }

  // ----- the branch without vision

  /** Running count of attended tokens minus one; masked entries are filled with 1. */
  function TextRow(mask: seq<bool>): (r: seq<Pos>)
    ensures |r| == |mask|
  {
    seq(|mask|, i requires 0 <= i < |mask| =>
      var p: nat := if mask[i] then Rank(mask, i) else 1;
      Pos(p, p, p))
  }

  function TextIndex(masks: seq<seq<bool>>): Result<RopeOut, RopeError> {
    if exists i :: 0 <= i < |masks| && masks[i] == [] then Err(EmptyRow)
    else
      Ok(RopeOut(
        seq(|masks|, i requires 0 <= i < |masks| => TextRow(masks[i])),
        seq(|masks|, i requires 0 <= i < |masks| =>
          assert masks[i] != [];
          MaxCoord(TextRow(masks[i])) + 1 - Rank(masks[i], |masks[i]|))))
  }

  /** `get_rope_index`; without image and video grids it is the cumulative-sum branch, which reads the
      masks only. */
  function Index(merge: nat, images: seq<Grid>, videos: seq<Grid>, mels: seq<nat>, vocal: bool, vision: bool,
                 ids: seq<seq<Token>>, masks: seq<seq<bool>>): Result<RopeOut, RopeError>
    requires ValidMedia(merge, images, videos)
    requires vision ==> |ids| == |masks| && forall i :: 0 <= i < |ids| ==> |ids[i]| == |masks[i]|
  {
    if vision then
      PreparedIsValid(merge, images, videos, mels, vocal);
      VisionIndex(Prepare(merge, images, videos, mels, vocal), ids, masks)
    else TextIndex(masks)
  }

  method SelectRow(row: seq<Token>, mask: seq<bool>) returns (r: seq<Token>)
    requires |mask| == |row|
    ensures r == Attended(row, mask)
  {
    r := [];
    for i := 0 to |mask|
      invariant r == Select(row, mask, i)
    {
      if mask[i] {
        r := r + [row[i]];
      }
    }
  }

  /** The masked assignment, one entry after the other. */
  method WriteRow(mask: seq<bool>, cols: seq<Pos>) returns (r: seq<Pos>)
    requires |cols| == Rank(mask, |mask|)
    ensures r == Written(mask, cols)
  {
    r := [];
    var used := 0;
    for i := 0 to |mask|
      invariant used == Rank(mask, i)
      invariant r == Written(mask, cols)[..i]
    {
      if mask[i] {
        RankMonotone(mask, i + 1, |mask|);
        r := r + [cols[used]];
        used := used + 1;
      } else {
        r := r + [Pos(0, 0, 0)];
      }
    }
  }

  method IndexVisionBatch(x: Context, ids: seq<seq<Token>>, masks: seq<seq<bool>>)
    returns (r: Result<RopeOut, RopeError>)
    requires x.Valid()
    requires |ids| == |masks| && forall i :: 0 <= i < |ids| ==> |ids[i]| == |masks[i]|
    ensures r == VisionIndex(x, ids, masks)
  {
    hide RunRow, RunBatch, Written, Rank, Delta, Select, Output;
    assert RunBatch(x, AttendedRows(ids, masks), 0) == Ok(Batch([], Cursors(0, 0, 0))) by {
      NoRows(x, AttendedRows(ids, masks));
    }
    var positions, deltas := [], [];
    var cur := Cursors(0, 0, 0);
    ghost var rows, done := AttendedRows(ids, masks), [];
    for i := 0 to |ids|
      invariant RunBatch(x, rows, i) == Ok(Batch(done, cur))
      invariant |positions| == |deltas| == |done| == i
      invariant forall j :: 0 <= j < i ==> |done[j].cols| == |rows[j]| && done[j].cols != []
      invariant forall j :: 0 <= j < i ==> positions[j] == Written(masks[j], done[j].cols)
      invariant forall j :: 0 <= j < i ==> deltas[j] == Delta(done[j].cols)
    {
      var row := SelectRow(ids[i], masks[i]);
      var out := IndexRow(x, row, cur);
      BatchStep(x, rows, i, Batch(done, cur));
      if out.Err? {
        ErrorsStick(x, rows, i + 1, |ids|);
        return Err(out.error);
      }
      done := done + [RunRow(x, row, cur).value];
      var written := WriteRow(masks[i], out.value.cols);
      positions, deltas, cur := positions + [written], deltas + [out.value.delta], out.value.cur;
    }
    ghost var spec := VisionIndex(x, ids, masks);
    assert spec.Ok? && positions == spec.value.positions && deltas == spec.value.deltas;
    r := Ok(RopeOut(positions, deltas));
  }
}
