/** Processor and indexer together: every batch the processor accepts is indexed without error,
    span by span as it was generated, and both sides use up the same media. */
module RoundTrip {
  import opened Layout
  import opened Positions
  import opened FeatureLengths
  import opened RopeIndexer
  import opened RopeIndex
  import opened RopeParse
  import opened VideoLayout
  import opened Processor
  import opened Template

  function VideoGrids(videos: seq<VideoIn>): (r: seq<Grid>)
    ensures |r| == |videos|
  {
    seq(|videos|, i requires 0 <= i < |videos| => videos[i].grid)
  }

  /** The processor counts audio rows with the encoder's length formula. */
  predicate Linked(m: Inputs, mels: seq<nat>) {
    |mels| == |m.audios| && forall i :: 0 <= i < |mels| ==> OutLen(mels[i]) == m.audios[i]
  }

  /** The context the model builds from the same media. */
  function ModelContext(cfg: Settings, m: Inputs, mels: seq<nat>): Context {
    Prepare(cfg.merge, m.images, VideoGrids(m.videos), mels, cfg.vocal)
  }

  /** The model's cursors: it counts temporal grids where the processor counts videos. */
  function ModelCursors(m: Inputs, cur: Cursors): Cursors
    requires cur.video <= |m.videos|
  {
    Cursors(cur.image, GridsBefore(VideoGrids(m.videos), cur.video), cur.audio)
  }

  lemma {:induction false} ModelContextValid(cfg: Settings, m: Inputs, mels: seq<nat>)
    requires ValidInputs(cfg, m)
    ensures ModelContext(cfg, m, mels).Valid()
  {
    hide Divides;
    var gs := VideoGrids(m.videos);
    forall g | g in gs ensures Whole(g.(t := 1), cfg.merge) {
      var i :| 0 <= i < |gs| && gs[i] == g;
      assert ValidVideo(cfg, m.videos[i]);
    }
    PreparedIsValid(cfg.merge, m.images, gs, mels, cfg.vocal);
  }

  // ----- grids of one video

  lemma {:induction false} GridsBeforeStep(videos: seq<Grid>, k: nat)
    requires k < |videos|
    ensures GridsBefore(videos, k + 1) == GridsBefore(videos, k) + videos[k].t
  {
    assert videos[..k + 1][..k] == videos[..k];
  }

  lemma {:induction false} GridsBeforeMonotone(videos: seq<Grid>, i: nat, j: nat)
    requires i <= j <= |videos|
    ensures GridsBefore(videos, i) <= GridsBefore(videos, j)
    decreases j
  {
    if i < j {
      GridsBeforeStep(videos, j - 1);
      GridsBeforeMonotone(videos, i, j - 1);
    }
  }

  lemma {:induction false} SplitGridAt(videos: seq<Grid>, k: nat, g: nat)
    requires k < |videos| && g < videos[k].t
    ensures GridsBefore(videos, k) + g < |SplitGrids(videos)|
    ensures SplitGrids(videos)[GridsBefore(videos, k) + g] == Grid(1, videos[k].h, videos[k].w)
    decreases |videos|
  {
    var init := videos[..|videos| - 1];
    if k < |init| {
      SplitGridAt(init, k, g);
      assert init[..k] == videos[..k];
    } else {
      assert videos[..k] == init;
    }
  }

  /** A video ends exactly after its last grid. */
  lemma {:induction false} EndsAtLastGrid(videos: seq<Grid>, k: nat, n: nat)
    requires k < |videos| && 0 < n <= videos[k].t
    ensures GridsBefore(videos, k) + n in VideoEnds(videos) <==> n == videos[k].t
  {
    hide SplitGrids, GridsBefore;
    GridsBeforeStep(videos, k);
    var at := GridsBefore(videos, k) + n;
    if n == videos[k].t {
      assert at == GridsBefore(videos, k + 1);
    } else {
      forall j | 1 <= j <= |videos| ensures GridsBefore(videos, j) != at {
        if j <= k {
          GridsBeforeMonotone(videos, j, k);
        } else {
          GridsBeforeMonotone(videos, k + 1, j);
        }
      }
    }
  }

  // ----- the media match

  lemma {:induction false} MatchesConcat(x: Context, cur: Cursors, a: seq<Piece>, b: seq<Piece>)
    requires x.merge > 0
    ensures Matches(x, cur, a + b) <==> Matches(x, cur, a) && Matches(x, AdvanceAll(x, cur, a), b)
    ensures AdvanceAll(x, cur, a + b) == AdvanceAll(x, AdvanceAll(x, cur, a), b)
    decreases |a|
  {
    hide SpanMatches, Advance;
    if a == [] {
      assert a + b == b;
    } else {
      assert (a + b)[1..] == a[1..] + b;
      if a[0].Word? {
        MatchesConcat(x, cur, a[1..], b);
      } else {
        MatchesConcat(x, Advance(x, cur, a[0].span), a[1..], b);
      }
    }
  }

  lemma {:induction false} WordsMatch(x: Context, cur: Cursors, ids: seq<nat>)
    requires x.merge > 0
    ensures Matches(x, cur, Words(ids)) && AdvanceAll(x, cur, Words(ids)) == cur
    decreases |ids|
  {
    if ids != [] {
      assert Words(ids)[1..] == Words(ids[1..]);
      WordsMatch(x, cur, ids[1..]);
    }
  }

  lemma {:induction false} OneMatches(x: Context, cur: Cursors, s: Span)
    requires x.merge > 0
    ensures Matches(x, cur, [Media(s)]) <==> SpanMatches(x, cur, s)
    ensures AdvanceAll(x, cur, [Media(s)]) == Advance(x, cur, s)
  {
    assert [Media(s)][1..] == [];
  }

  /** The model's cursors after the first `n` grids of the current video. */
  function AfterGrids(cfg: Settings, m: Inputs, cur: Cursors, n: nat): Cursors
    requires cur.video < |m.videos|
  {
    var c := ModelCursors(m, cur);
    Cursors(c.image, c.video + n, if cfg.vocal && n == m.videos[cur.video].grid.t then c.audio + 1 else c.audio)
  }

  lemma {:induction false} VideoMatches(cfg: Settings, m: Inputs, mels: seq<nat>, cur: Cursors, len: nat, n: nat)
    requires ValidInputs(cfg, m) && cur.video < |m.videos| && n <= m.videos[cur.video].grid.t
    ensures var x, c := ModelContext(cfg, m, mels), ModelCursors(m, cur);
      var ps := VideoPieces(cfg, m.videos[cur.video], len, n);
      Matches(x, c, ps) && AdvanceAll(x, c, ps) == AfterGrids(cfg, m, cur, n)
  {
    hide SplitGrids, VideoEnds, Matches, AdvanceAll, Slice, Stamp, Divides, Merged, GridsBefore;
    var v, x, c := m.videos[cur.video], ModelContext(cfg, m, mels), ModelCursors(m, cur);
    if n == 0 {
      NothingMatches(x, c);
    } else {
      VideoMatches(cfg, m, mels, cur, len, n - 1);
      var before, ids, span := VideoPieces(cfg, v, len, n - 1), Stamp(cfg, v, n - 1), GridSpan(cfg, v, len, n - 1);
      var mid := AfterGrids(cfg, m, cur, n - 1);
      MatchesConcat(x, c, before + Words(ids), [Media(span)]);
      MatchesConcat(x, c, before, Words(ids));
      WordsMatch(x, mid, ids);
      OneMatches(x, mid, span);
      SplitGridAt(VideoGrids(m.videos), cur.video, n - 1);
      EndsAtLastGrid(VideoGrids(m.videos), cur.video, n);
    }
  }

  lemma {:induction false} NothingMatches(x: Context, cur: Cursors)
    requires x.merge > 0
    ensures Matches(x, cur, []) && AdvanceAll(x, cur, []) == cur
  {
  }

  lemma {:induction false} ItemMatches(cfg: Settings, m: Inputs, mels: seq<nat>, it: Item, cur: Cursors)
    requires ValidInputs(cfg, m) && Linked(m, mels) && cur.video <= |m.videos| && Available(cfg, m, it, cur)
    ensures var x, ps := ModelContext(cfg, m, mels), ItemPieces(cfg, m, it, cur);
      && Matches(x, ModelCursors(m, cur), ps)
      && AdvanceAll(x, ModelCursors(m, cur), ps) == ModelCursors(m, ItemNext(cfg, it, cur))
  {
    hide SplitGrids, VideoEnds, Matches, AdvanceAll, Merged, Divides, VideoPieces, OutLen;
    var x, c := ModelContext(cfg, m, mels), ModelCursors(m, cur);
    match it {
      case TextItem(id) =>
        WordsMatch(x, c, [id]);
        assert Words([id]) == [Word(id)];
      case ImageItem =>
        OneMatches(x, c, ItemPieces(cfg, m, it, cur)[0].span);
      case AudioItem =>
        OneMatches(x, c, Audio(m.audios[cur.audio]));
        assert m.audios[cur.audio] in m.audios;
      case VideoItem(_) =>
        var v := m.videos[cur.video];
        VideoMatches(cfg, m, mels, cur, Track(cfg, m, cur), v.grid.t);
        GridsBeforeStep(VideoGrids(m.videos), cur.video);
    }
  }

  lemma {:induction false} TemplateMatches(cfg: Settings, m: Inputs, mels: seq<nat>, items: seq<Item>, cur: Cursors)
    requires ValidInputs(cfg, m) && Linked(m, mels) && cur.video <= |m.videos| && Enough(cfg, m, items, cur)
    ensures AllNext(cfg, items, cur).video <= |m.videos|
    ensures var x, ps := ModelContext(cfg, m, mels), AllPieces(cfg, m, items, cur);
      && Matches(x, ModelCursors(m, cur), ps)
      && AdvanceAll(x, ModelCursors(m, cur), ps) == ModelCursors(m, AllNext(cfg, items, cur))
    decreases |items|
  {
    hide Matches, AdvanceAll, ModelContext, ModelCursors, ItemPieces;
    var x := ModelContext(cfg, m, mels);
    ModelContextValid(cfg, m, mels);
    if items == [] {
      NothingMatches(x, ModelCursors(m, cur));
    } else {
      var next := ItemNext(cfg, items[0], cur);
      ItemMatches(cfg, m, mels, items[0], cur);
      TemplateMatches(cfg, m, mels, items[1..], next);
      MatchesConcat(x, ModelCursors(m, cur), ItemPieces(cfg, m, items[0], cur), AllPieces(cfg, m, items[1..], next));
    }
  }

  // ----- the pieces are positive and in one mode

  predicate GoodPiece(cfg: Settings, p: Piece) {
    p.Media? ==> p.span.Positive() && (if cfg.vocal then !p.span.Video? else !p.span.Vocal?)
  }

  lemma {:induction false} VideoPiecesGood(cfg: Settings, v: VideoIn, len: nat, n: nat)
    requires ValidVideo(cfg, v) && n <= v.grid.t
    ensures forall p :: p in VideoPieces(cfg, v, len, n) ==> GoodPiece(cfg, p)
    ensures n > 0 ==> VideoPieces(cfg, v, len, n) != []
  {
    hide Slice, Stamp, Merged;
    if n > 0 {
      VideoPiecesGood(cfg, v, len, n - 1);
      MergedPads(v.grid.(t := 1), cfg.merge);
    }
  }

  lemma {:induction false} ItemPiecesGood(cfg: Settings, m: Inputs, it: Item, cur: Cursors)
    requires ValidInputs(cfg, m) && Available(cfg, m, it, cur)
    ensures forall p :: p in ItemPieces(cfg, m, it, cur) ==> GoodPiece(cfg, p)
    ensures ItemPieces(cfg, m, it, cur) != []
  {
    hide VideoPieces, Merged, Divides;
    match it {
      case TextItem(_) =>
      case ImageItem => MergedPads(m.images[cur.image], cfg.merge);
      case AudioItem => assert m.audios[cur.audio] in m.audios;
      case VideoItem(_) =>
        var v := m.videos[cur.video];
        VideoPiecesGood(cfg, v, Track(cfg, m, cur), v.grid.t);
    }
  }

  lemma {:induction false} PiecesGood(cfg: Settings, m: Inputs, items: seq<Item>, cur: Cursors)
    requires ValidInputs(cfg, m) && Enough(cfg, m, items, cur)
    ensures forall p :: p in AllPieces(cfg, m, items, cur) ==> GoodPiece(cfg, p)
    ensures AllPieces(cfg, m, items, cur) == [] <==> items == []
    decreases |items|
  {
    hide ItemPieces, GoodPiece;
    if items != [] {
      ItemPiecesGood(cfg, m, items[0], cur);
      PiecesGood(cfg, m, items[1..], ItemNext(cfg, items[0], cur));
    }
  }

  lemma {:induction false} NoneOfKind(ps: seq<Piece>, k: Kind)
    requires forall p :: p in ps && p.Media? ==> KindOf(p.span) != k
    ensures Num(ps, k) == 0
  {
    if ps != [] {
      NoneOfKind(ps[1..], k);
    }
  }

  lemma {:induction false} GoodPiecesAreReadable(cfg: Settings, ps: seq<Piece>)
    requires forall p :: p in ps ==> GoodPiece(cfg, p)
    ensures Positive(ps) && ModeOk(cfg.vocal, ps)
  {
    NoneOfKind(ps, if cfg.vocal then VideoKind else VocalKind);
  }

  /** One row: the indexer recovers the pieces the processor wrote. */
  lemma {:induction false} RowRecovered(cfg: Settings, m: Inputs, mels: seq<nat>, items: seq<Item>, cur: Cursors)
    requires ValidInputs(cfg, m) && Linked(m, mels) && cur.video <= |m.videos|
    requires Enough(cfg, m, items, cur) && items != []
    ensures ModelContext(cfg, m, mels).Valid() && AllNext(cfg, items, cur).video <= |m.videos|
    ensures var x, ps := ModelContext(cfg, m, mels), AllPieces(cfg, m, items, cur);
      var r := RunRow(x, Tokens(ps), ModelCursors(m, cur));
      && r.Ok? && r.value.trace == Shape(ps) && r.value.cols == Lay(Shape(ps)).cols
      && r.value.cur == ModelCursors(m, AllNext(cfg, items, cur))
      && r.value.images == 0 && r.value.videos == 0 && r.value.audios == 0
  {
    hide RunRow, AllPieces, ModelContext, ModelCursors, Tokens, Lay;
    ModelContextValid(cfg, m, mels);
    TemplateMatches(cfg, m, mels, items, cur);
    PiecesGood(cfg, m, items, cur);
    var ps := AllPieces(cfg, m, items, cur);
    GoodPiecesAreReadable(cfg, ps);
    assert ModelContext(cfg, m, mels).vocal == cfg.vocal by { ContextMode(cfg, m, mels); }
    RowRoundTrip(ModelContext(cfg, m, mels), ModelCursors(m, cur), ps);
  }

  lemma {:induction false} ContextMode(cfg: Settings, m: Inputs, mels: seq<nat>)
    ensures ModelContext(cfg, m, mels).vocal == cfg.vocal
  {
  }

  // ----- the batch

  function Prompts(batch: seq<seq<Item>>): (r: seq<seq<Token>>)
    ensures |r| == |batch|
  {
    seq(|batch|, i requires 0 <= i < |batch| => Prompt(batch[i]))
  }

  predicate Templates(batch: seq<seq<Item>>) {
    forall i :: 0 <= i < |batch| ==> batch[i] != [] && Ordered(batch[i])
  }

  /** Processor cursors in front of row `k`. */
  function CursorsAt(cfg: Settings, m: Inputs, batch: seq<seq<Item>>, k: nat): Cursors
    requires ValidInputs(cfg, m) && k <= |batch| && ProcessPrefix(cfg, m, Prompts(batch), k).Ok?
  {
    ProcessPrefix(cfg, m, Prompts(batch), k).value.cur
  }

  /** Row `i` of the indexed batch is what the processor generated for it. */
  ghost predicate Recovered(cfg: Settings, m: Inputs, items: seq<Item>, cur: Cursors, s: RowState)
    requires ValidInputs(cfg, m)
  {
    && Enough(cfg, m, items, cur)
    && s.trace == Shape(AllPieces(cfg, m, items, cur)) && s.cols == Lay(s.trace).cols
    && s.images == 0 && s.videos == 0 && s.audios == 0
  }

  lemma {:induction false} PrefixRecovered(cfg: Settings, m: Inputs, mels: seq<nat>, batch: seq<seq<Item>>,
                                           rows: seq<seq<Token>>, k: nat)
    requires ValidInputs(cfg, m) && Linked(m, mels) && Templates(batch) && k <= |batch| == |rows|
    requires ProcessPrefix(cfg, m, Prompts(batch), k).Ok?
    requires ProcessPrefix(cfg, m, Prompts(batch), k).value.rows == rows[..k]
    ensures ModelContext(cfg, m, mels).Valid() && CursorsAt(cfg, m, batch, k).video <= |m.videos|
    ensures var x := ModelContext(cfg, m, mels);
      && RunBatch(x, rows, k).Ok?
      && RunBatch(x, rows, k).value.cur == ModelCursors(m, CursorsAt(cfg, m, batch, k))
    ensures forall i :: 0 <= i < k ==>
      && ProcessPrefix(cfg, m, Prompts(batch), i).Ok?
      && Recovered(cfg, m, batch[i], CursorsAt(cfg, m, batch, i),
                   RunBatch(ModelContext(cfg, m, mels), rows, k).value.rows[i])
  {
    hide ProcessSample, RunRow, ModelContext, AllPieces, Lay, ModelCursors, Recovered, Prompt, Tokens;
    hide AllNext, Shape, ValidInputs, Linked, Enough, Ordered;
    ModelContextValid(cfg, m, mels);
    if k == 0 {
      StartTogether(m);
    } else {
      var p := ProcessPrefix(cfg, m, Prompts(batch), k - 1).value;
      var items := batch[k - 1];
      assert rows[..k][..k - 1] == rows[..k - 1];
      PrefixRecovered(cfg, m, mels, batch, rows, k - 1);
      ProcessTemplate(cfg, m, items, p.cur);
      assert rows[k - 1] == rows[..k][k - 1];
      RowRecovered(cfg, m, mels, items, p.cur);
      var s := RunRow(ModelContext(cfg, m, mels), rows[k - 1], ModelCursors(m, p.cur)).value;
      assert Recovered(cfg, m, items, p.cur, s) by { IsRecovered(cfg, m, items, p.cur, s); }
    }
  }

  lemma {:induction false} StartTogether(m: Inputs)
    ensures ModelCursors(m, Cursors(0, 0, 0)) == Cursors(0, 0, 0)
  {
    assert VideoGrids(m.videos)[..0] == [];
  }

  lemma {:induction false} IsRecovered(cfg: Settings, m: Inputs, items: seq<Item>, cur: Cursors, s: RowState)
    requires ValidInputs(cfg, m) && Enough(cfg, m, items, cur)
    requires s.trace == Shape(AllPieces(cfg, m, items, cur)) && s.cols == Lay(Shape(AllPieces(cfg, m, items, cur))).cols
    requires s.images == 0 && s.videos == 0 && s.audios == 0
    ensures Recovered(cfg, m, items, cur, s)
  {
  }

  /** For every batch of template rows the processor accepts, in vocal or silent mode: the indexer
      raises nothing, recognises every span as the kind that was generated, leaves no span over
      in any row, and ends with all image, grid and audio cursors at the end of the media. */
  lemma {:induction false} BatchRoundTrip(cfg: Settings, m: Inputs, mels: seq<nat>, batch: seq<seq<Item>>)
    requires ValidInputs(cfg, m) && Linked(m, mels) && Templates(batch) && batch != []
    requires ProcessBatch(cfg, m, Prompts(batch)).Ok?
    ensures ModelContext(cfg, m, mels).Valid() && |ProcessBatch(cfg, m, Prompts(batch)).value| == |batch|
    ensures var r := RunBatch(ModelContext(cfg, m, mels), ProcessBatch(cfg, m, Prompts(batch)).value, |batch|);
      && r.Ok?
      && r.value.cur == Cursors(|m.images|, |SplitGrids(VideoGrids(m.videos))|, |m.audios|)
      && forall i :: 0 <= i < |batch| ==>
           && ProcessPrefix(cfg, m, Prompts(batch), i).Ok?
           && Recovered(cfg, m, batch[i], CursorsAt(cfg, m, batch, i), r.value.rows[i])
  {
    hide ProcessPrefix, RunBatch, ModelContext, Recovered;
    var rows := ProcessBatch(cfg, m, Prompts(batch)).value;
    assert rows[..|batch|] == rows;
    PrefixRecovered(cfg, m, mels, batch, rows, |batch|);
    NotBlank(batch);
    assert VideoGrids(m.videos)[..|m.videos|] == VideoGrids(m.videos);
  }

  lemma {:induction false} NotBlank(batch: seq<seq<Item>>)
    requires Templates(batch) && batch != []
    ensures Prompts(batch)[0] != []
  {
    var us := AllUnits(batch[0]);
    assert us[0] == ItemUnits(batch[0][0])[0];
    assert RenderUnit(us[0]) != [];
  }
}
