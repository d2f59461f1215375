/** Pads in the text number exactly the rows of the media behind them, and filling pads in order
    puts every row of a vocal video's audio track into the grid it was sliced for. */
module Conservation {
  import opened Sequences
  import opened Layout
  import opened RopeIndexer
  import opened VideoLayout
  import opened Processor
  import opened Template
  import opened RoundTrip
  import AudioEncoder

  function ImageRows(cfg: Settings, m: Inputs, k: nat): nat
    requires cfg.merge > 0 && k <= |m.images|
  {
    if k == 0 then 0 else ImageRows(cfg, m, k - 1) + GridPads(m.images[k - 1], cfg.merge)
  }

  function VideoRows(cfg: Settings, m: Inputs, k: nat): nat
    requires cfg.merge > 0 && k <= |m.videos|
  {
    if k == 0 then 0
    else VideoRows(cfg, m, k - 1) + Times(m.videos[k - 1].grid.t, GridPads(m.videos[k - 1].grid, cfg.merge))
  }

  function AudioRows(m: Inputs, k: nat): int
    requires k <= |m.audios|
  {
    Sum(m.audios[..k])
  }

  /** Encoder rows of one modality behind the media in front of the cursors. */
  function Used(cfg: Settings, m: Inputs, cur: Cursors, pad: Token): int
    requires cfg.merge > 0 && InRange(m, cur)
  {
    match pad
    case ImagePad => ImageRows(cfg, m, cur.image)
    case VideoPad => VideoRows(cfg, m, cur.video)
    case AudioPad => AudioRows(m, cur.audio)
    case _ => 0
  }

  lemma {:induction false} TallyConcat(a: seq<Piece>, b: seq<Piece>, tok: Token)
    ensures TallyAll(a + b, tok) == TallyAll(a, tok) + TallyAll(b, tok)
  {
    if a == [] {
      assert a + b == b;
    } else {
      hide Tally;
      assert (a + b)[1..] == a[1..] + b;
      TallyConcat(a[1..], b, tok);
    }
  }

  lemma {:induction false} TallyWords(ids: seq<nat>, tok: Token)
    ensures TallyAll(Words(ids), tok) == 0
  {
    if ids != [] {
      assert Words(ids)[1..] == Words(ids[1..]);
      TallyWords(ids[1..], tok);
    }
  }

  lemma {:induction false} TallyOne(s: Span, tok: Token)
    ensures TallyAll([Media(s)], tok) == Tally(s, tok)
  {
    assert [Media(s)][1..] == [];
  }

  /** The first `n` grids of a video carry `n` grids of video pads and, in vocal mode, the track
      rows up to boundary `n`. */
  lemma {:induction false} VideoTally(cfg: Settings, v: VideoIn, len: nat, n: nat)
    requires ValidVideo(cfg, v) && n <= v.grid.t
    ensures TallyAll(VideoPieces(cfg, v, len, n), VideoPad) == Times(n, GridPads(v.grid, cfg.merge))
    ensures TallyAll(VideoPieces(cfg, v, len, n), AudioPad)
         == if cfg.vocal then Boundary(n, v.grid.t, v.seconds, cfg.rate, len) else 0
    ensures TallyAll(VideoPieces(cfg, v, len, n), ImagePad) == 0
  {
    hide TallyAll, GridPads, Merged, Divides, Stamp, RawBoundary;
    if n == 0 {
      NoTally(VideoPad);
      NoTally(AudioPad);
      NoTally(ImagePad);
    } else {
      VideoTally(cfg, v, len, n - 1);
      GridTally(cfg, v, len, n, VideoPad);
      GridTally(cfg, v, len, n, AudioPad);
      GridTally(cfg, v, len, n, ImagePad);
      MergedPads(v.grid.(t := 1), cfg.merge);
      SamePads(v.grid, cfg.merge);
    }
  }

  lemma {:induction false} NoTally(tok: Token)
    ensures TallyAll([], tok) == 0
  {
  }

  lemma {:induction false} SamePads(g: Grid, merge: nat)
    requires merge > 0
    ensures GridPads(g.(t := 1), merge) == GridPads(g, merge)
  {
  }

  lemma {:induction false} GridTally(cfg: Settings, v: VideoIn, len: nat, n: nat, tok: Token)
    requires ValidVideo(cfg, v) && 0 < n <= v.grid.t
    ensures TallyAll(VideoPieces(cfg, v, len, n), tok)
         == TallyAll(VideoPieces(cfg, v, len, n - 1), tok) + Tally(GridSpan(cfg, v, len, n - 1), tok)
  {
    hide TallyAll, Tally, GridSpan, Stamp;
    var before, ids, span := VideoPieces(cfg, v, len, n - 1), Stamp(cfg, v, n - 1), GridSpan(cfg, v, len, n - 1);
    TallyConcat(before + Words(ids), [Media(span)], tok);
    TallyConcat(before, Words(ids), tok);
    TallyWords(ids, tok);
    TallyOne(span, tok);
  }

  /** An item writes as many pads of each modality as the media it uses have rows. */
  lemma {:induction false} ItemTally(cfg: Settings, m: Inputs, it: Item, cur: Cursors, pad: Token)
    requires ValidInputs(cfg, m) && InRange(m, cur) && Available(cfg, m, it, cur) && IsPad(pad)
    ensures InRange(m, ItemNext(cfg, it, cur))
    ensures Used(cfg, m, ItemNext(cfg, it, cur), pad)
         == Used(cfg, m, cur, pad) + TallyAll(ItemPieces(cfg, m, it, cur), pad)
  {
    hide TallyAll, GridPads, Merged, Divides, VideoPieces;
    match it {
      case TextItem(id) =>
        TallyWords([id], pad);
        assert Words([id]) == [Word(id)];
      case ImageItem =>
        TallyOne(ItemPieces(cfg, m, it, cur)[0].span, pad);
        MergedPads(m.images[cur.image], cfg.merge);
      case AudioItem =>
        TallyOne(Audio(m.audios[cur.audio]), pad);
        SumStep(m.audios, cur.audio);
      case VideoItem(_) =>
        var v := m.videos[cur.video];
        VideoTally(cfg, v, Track(cfg, m, cur), v.grid.t);
        if cfg.vocal {
          SumStep(m.audios, cur.audio);
        }
    }
  }

  lemma {:induction false} TemplateTally(cfg: Settings, m: Inputs, items: seq<Item>, cur: Cursors, pad: Token)
    requires ValidInputs(cfg, m) && InRange(m, cur) && Enough(cfg, m, items, cur) && IsPad(pad)
    ensures InRange(m, AllNext(cfg, items, cur))
    ensures Used(cfg, m, AllNext(cfg, items, cur), pad)
         == Used(cfg, m, cur, pad) + TallyAll(AllPieces(cfg, m, items, cur), pad)
    decreases |items|
  {
    hide TallyAll, ItemPieces, Used;
    if items == [] {
      NoTally(pad);
    } else {
      var next := ItemNext(cfg, items[0], cur);
      ItemTally(cfg, m, items[0], cur, pad);
      TemplateTally(cfg, m, items[1..], next, pad);
      TallyConcat(ItemPieces(cfg, m, items[0], cur), AllPieces(cfg, m, items[1..], next), pad);
    }
  }

  /** Pads of one modality in the first `k` rows. */
  lemma {:induction false} PrefixPads(cfg: Settings, m: Inputs, batch: seq<seq<Item>>, k: nat, pad: Token)
    requires ValidInputs(cfg, m) && Templates(batch) && k <= |batch| && IsPad(pad)
    requires ProcessPrefix(cfg, m, Prompts(batch), k).Ok?
    ensures InRange(m, CursorsAt(cfg, m, batch, k))
    ensures Count(Flatten(ProcessPrefix(cfg, m, Prompts(batch), k).value.rows), pad)
         == Used(cfg, m, CursorsAt(cfg, m, batch, k), pad)
  {
    hide ProcessSample, AllPieces, TallyAll, Count, Tokens, Enough, AllNext, Prompt, Divides;
    if k == 0 {
      NothingUsed(cfg, m, pad);
    } else {
      PrefixPads(cfg, m, batch, k - 1, pad);
      var p := ProcessPrefix(cfg, m, Prompts(batch), k - 1).value;
      ProcessTemplate(cfg, m, batch[k - 1], p.cur);
      var row := Tokens(AllPieces(cfg, m, batch[k - 1], p.cur));
      TemplateTally(cfg, m, batch[k - 1], p.cur, pad);
      CountTokens(AllPieces(cfg, m, batch[k - 1], p.cur), pad);
      FlattenConcat(p.rows, [row]);
      FlattenSingle(row);
      CountConcat(Flatten(p.rows), row, pad);
    }
  }

  lemma {:induction false} NothingUsed(cfg: Settings, m: Inputs, pad: Token)
    requires cfg.merge > 0
    ensures Used(cfg, m, Cursors(0, 0, 0), pad) == 0
    ensures Count(Flatten<Token>([]), pad) == 0
  {
    assert m.audios[..0] == [];
  }

  /** For every accepted batch the pads of each modality number exactly the rows of all its media. */
  lemma {:induction false} PadsAreMediaRows(cfg: Settings, m: Inputs, batch: seq<seq<Item>>, pad: Token)
    requires ValidInputs(cfg, m) && Templates(batch) && batch != [] && IsPad(pad)
    requires ProcessBatch(cfg, m, Prompts(batch)).Ok?
    ensures InRange(m, AllUsed(m))
    ensures Count(Flatten(ProcessBatch(cfg, m, Prompts(batch)).value), pad) == Used(cfg, m, AllUsed(m), pad)
  {
    hide ProcessPrefix, Count, Used, Flatten;
    PrefixPads(cfg, m, batch, |batch|, pad);
    NotBlank(batch);
  }

  /** The audio pads of an accepted batch number exactly the rows the encoder produces, chunk by
      chunk, from the mel features of its tracks. */
  lemma {:induction false} EncoderRowsArePads(cfg: Settings, m: Inputs, mels: seq<nat>, batch: seq<seq<Item>>, w: nat)
    requires ValidInputs(cfg, m) && Linked(m, mels) && Templates(batch) && batch != []
    requires ProcessBatch(cfg, m, Prompts(batch)).Ok?
    requires AudioEncoder.Hundreds(w) && forall i :: 0 <= i < |mels| ==> mels[i] > 0
    ensures Count(Flatten(ProcessBatch(cfg, m, Prompts(batch)).value), AudioPad)
         == Sum(AudioEncoder.Outs(AudioEncoder.AllChunks(mels, w)))
  {
    hide ProcessPrefix, Count, Flatten, Sum, AudioEncoder.AllChunks;
    PadsAreMediaRows(cfg, m, batch, AudioPad);
    AudioEncoder.AudiosTile(mels, w);
    assert m.audios[..|m.audios|] == m.audios;
    assert AudioEncoder.Outs(mels) == m.audios;
  }

  // ----- filling pads in order

  datatype Slot<F> = Free | Filled(row: F)

  /** `masked_scatter`: the `i`-th audio pad receives the `i`-th feature row. */
  function Scattered<F>(tokens: seq<Token>, rows: seq<F>): (r: seq<Slot<F>>)
    requires Count(tokens, AudioPad) <= |rows|
    ensures |r| == |tokens|
  {
    seq(|tokens|, i requires 0 <= i < |tokens| =>
      if tokens[i] == AudioPad then (RankBound(tokens, i); Filled(rows[Count(tokens[..i], AudioPad)])) else Free)
  }

  lemma {:induction false} RankBound(tokens: seq<Token>, i: nat)
    requires i < |tokens| && tokens[i] == AudioPad
    ensures Count(tokens[..i], AudioPad) < Count(tokens, AudioPad)
  {
    assert tokens == tokens[..i] + [AudioPad] + tokens[i + 1..];
    CountConcat(tokens[..i] + [AudioPad], tokens[i + 1..], AudioPad);
    CountConcat(tokens[..i], [AudioPad], AudioPad);
    CountOne(AudioPad, AudioPad);
  }

  method Scatter<F>(tokens: seq<Token>, rows: seq<F>) returns (r: seq<Slot<F>>)
    requires Count(tokens, AudioPad) <= |rows|
    ensures r == Scattered(tokens, rows)
  {
    r := [];
    var used := 0;
    for i := 0 to |tokens|
      invariant used == Count(tokens[..i], AudioPad)
      invariant r == Scattered(tokens, rows)[..i]
    {
      assert tokens[..i + 1][..i] == tokens[..i];
      if tokens[i] == AudioPad {
        RankBound(tokens, i);
        r := r + [Filled(rows[used])];
        used := used + 1;
      } else {
        r := r + [Free];
      }
    }
  }

  /** Tokens of a vocal grid up to and excluding its `j`-th audio pad. */
  function GridPrefix(cfg: Settings, v: VideoIn, g: nat, j: nat): seq<Token>
    requires cfg.merge > 0
  {
    Texts(Stamp(cfg, v, g)) + [VisionStart, AudioStart]
    + Repeat(VideoPad, Times(Merged(v.grid.h, cfg.merge), Merged(v.grid.w, cfg.merge))) + Repeat(AudioPad, j)
  }

  /** Everything in the batch in front of audio pad `j` of grid `g` of the video after `a` in row `i`. */
  function Ahead(cfg: Settings, m: Inputs, rows: seq<seq<Token>>, a: seq<Item>, cur: Cursors, g: nat,
                 j: nat): seq<Token>
    requires ValidInputs(cfg, m) && Enough(cfg, m, a, cur) && cfg.vocal
    requires AllNext(cfg, a, cur).video < |m.videos| && AllNext(cfg, a, cur).audio < |m.audios|
    requires g < m.videos[AllNext(cfg, a, cur).video].grid.t
  {
    var c := AllNext(cfg, a, cur);
    var v := m.videos[c.video];
    Flatten(rows) + Tokens(AllPieces(cfg, m, a, cur)) + Tokens(VideoPieces(cfg, v, m.audios[c.audio], g))
    + GridPrefix(cfg, v, g, j)
  }

  lemma {:induction false} CountTexts(ids: seq<nat>)
    ensures Count(Texts(ids), AudioPad) == 0
  {
    if ids != [] {
      assert Texts(ids)[..|ids| - 1] == Texts(ids[..|ids| - 1]);
      CountTexts(ids[..|ids| - 1]);
    }
  }

  lemma {:induction false} GridPrefixPads(cfg: Settings, v: VideoIn, g: nat, j: nat)
    requires cfg.merge > 0
    ensures Count(GridPrefix(cfg, v, g, j), AudioPad) == j
  {
    hide Times, Merged, Repeat, Count;
    var t, n := Texts(Stamp(cfg, v, g)), Times(Merged(v.grid.h, cfg.merge), Merged(v.grid.w, cfg.merge));
    var o: seq<Token> := [VisionStart, AudioStart];
    CountTexts(Stamp(cfg, v, g));
    CountPair(VisionStart, AudioStart, AudioPad);
    CountRepeat(VideoPad, n, AudioPad);
    CountRepeat(AudioPad, j, AudioPad);
    CountConcat(t, o, AudioPad);
    CountConcat(t + o, Repeat(VideoPad, n), AudioPad);
    CountConcat(t + o + Repeat(VideoPad, n), Repeat(AudioPad, j), AudioPad);
  }

  /** The `j`-th audio pad of grid `g` of a vocal video has, counted over the whole batch, the rank
      of row `Boundary(g) + j` of that video's own track. */
  lemma {:induction false} TrackRowRank(cfg: Settings, m: Inputs, batch: seq<seq<Item>>, i: nat, a: seq<Item>, g: nat,
                                        j: nat)
    requires ValidInputs(cfg, m) && Templates(batch) && i < |batch| && cfg.vocal
    requires ProcessPrefix(cfg, m, Prompts(batch), i).Ok?
    requires Enough(cfg, m, a, CursorsAt(cfg, m, batch, i))
    requires var c := AllNext(cfg, a, CursorsAt(cfg, m, batch, i));
      c.video < |m.videos| && c.audio < |m.audios| && g < m.videos[c.video].grid.t
    ensures var c := AllNext(cfg, a, CursorsAt(cfg, m, batch, i));
      var v := m.videos[c.video];
      var rows := ProcessPrefix(cfg, m, Prompts(batch), i).value.rows;
      Count(Ahead(cfg, m, rows, a, CursorsAt(cfg, m, batch, i), g, j), AudioPad)
      == AudioRows(m, c.audio) + Boundary(g, v.grid.t, v.seconds, cfg.rate, m.audios[c.audio]) + j
  {
    hide ProcessPrefix, AllPieces, Tokens, VideoPieces, GridPrefix, Boundary, Flatten, TallyAll, Count, Enough, AllNext;
    var cur, rows := CursorsAt(cfg, m, batch, i), ProcessPrefix(cfg, m, Prompts(batch), i).value.rows;
    var c := AllNext(cfg, a, cur);
    var v, len := m.videos[c.video], m.audios[c.audio];
    var ps, vs := AllPieces(cfg, m, a, cur), VideoPieces(cfg, v, len, g);
    PrefixPads(cfg, m, batch, i, AudioPad);
    TemplateTally(cfg, m, a, cur, AudioPad);
    VideoTally(cfg, v, len, g);
    GridPrefixPads(cfg, v, g, j);
    CountTokens(ps, AudioPad);
    CountTokens(vs, AudioPad);
    CountConcat(Flatten(rows), Tokens(ps), AudioPad);
    CountConcat(Flatten(rows) + Tokens(ps), Tokens(vs), AudioPad);
    CountConcat(Flatten(rows) + Tokens(ps) + Tokens(vs), GridPrefix(cfg, v, g, j), AudioPad);
  }

  // ----- that pad is in the batch

  lemma {:induction false} PiecesConcat(cfg: Settings, m: Inputs, a: seq<Item>, b: seq<Item>, cur: Cursors)
    requires ValidInputs(cfg, m) && Enough(cfg, m, a + b, cur)
    ensures Enough(cfg, m, a, cur) && Enough(cfg, m, b, AllNext(cfg, a, cur))
    ensures AllPieces(cfg, m, a + b, cur) == AllPieces(cfg, m, a, cur) + AllPieces(cfg, m, b, AllNext(cfg, a, cur))
    decreases |a|
  {
    hide ItemPieces, ValidInputs, Available, ItemNext;
    if a == [] {
      assert a + b == b;
    } else {
      assert (a + b)[1..] == a[1..] + b;
      PiecesConcat(cfg, m, a[1..], b, ItemNext(cfg, a[0], cur));
    }
  }

  lemma {:induction false} VideoPrefix(cfg: Settings, v: VideoIn, len: nat, g: nat, n: nat)
    requires ValidVideo(cfg, v) && g <= n <= v.grid.t
    ensures VideoPieces(cfg, v, len, g) <= VideoPieces(cfg, v, len, n)
    decreases n
  {
    hide ValidVideo, GridSpan, Stamp;
    if g < n {
      VideoPrefix(cfg, v, len, g, n - 1);
    }
  }

  lemma {:induction false} TokensPrefix(a: seq<Piece>, b: seq<Piece>)
    requires a <= b
    ensures Tokens(a) <= Tokens(b)
  {
    hide Tokens;
    assert b == a + b[|a|..];
    TokensConcat(a, b[|a|..]);
  }

  lemma {:induction false} GridPrefixAt(cfg: Settings, v: VideoIn, len: nat, g: nat, j: nat)
    requires ValidVideo(cfg, v) && cfg.vocal && g < v.grid.t && j < Slice(cfg, v, len, g)
    ensures GridPrefix(cfg, v, g, j) + [AudioPad] <= Texts(Stamp(cfg, v, g)) + SpanTokens(GridSpan(cfg, v, len, g))
  {
    hide Slice, Stamp, Times, Merged, Divides, Texts;
    var t, l := Texts(Stamp(cfg, v, g)), Slice(cfg, v, len, g);
    var n := Times(Merged(v.grid.h, cfg.merge), Merged(v.grid.w, cfg.merge));
    var o: seq<Token>, close: seq<Token> := [VisionStart, AudioStart], [AudioEnd, VisionEnd];
    var rest := Repeat(AudioPad, l - j - 1) + close;
    assert Repeat(AudioPad, l) == Repeat(AudioPad, j) + [AudioPad] + Repeat(AudioPad, l - j - 1);
    assert SpanTokens(GridSpan(cfg, v, len, g)) == o + Repeat(VideoPad, n) + Repeat(AudioPad, l) + close;
    assert t + (o + Repeat(VideoPad, n) + Repeat(AudioPad, l) + close)
        == GridPrefix(cfg, v, g, j) + [AudioPad] + rest;
  }

  /** Within the video's tokens the pad is where `GridPrefix` ends. */
  lemma {:induction false} PadInVideo(cfg: Settings, v: VideoIn, len: nat, g: nat, j: nat)
    requires ValidVideo(cfg, v) && cfg.vocal && g < v.grid.t && j < Slice(cfg, v, len, g)
    ensures Tokens(VideoPieces(cfg, v, len, g)) + GridPrefix(cfg, v, g, j) + [AudioPad]
         <= Tokens(VideoPieces(cfg, v, len, v.grid.t))
  {
    hide Slice, Stamp, Divides, Tokens, Words, SpanTokens, GridPrefix, Texts, GridSpan;
    var before, ids, span := VideoPieces(cfg, v, len, g), Stamp(cfg, v, g), GridSpan(cfg, v, len, g);
    VideoPrefix(cfg, v, len, g + 1, v.grid.t);
    TokensPrefix(VideoPieces(cfg, v, len, g + 1), VideoPieces(cfg, v, len, v.grid.t));
    GridPrefixAt(cfg, v, len, g, j);
    WordsTokens(ids);
    TokensSingle(Media(span));
    TokensConcat(before, Words(ids));
    TokensConcat(before + Words(ids), [Media(span)]);
    PrefixAssoc(Tokens(before), GridPrefix(cfg, v, g, j) + [AudioPad], Texts(ids) + SpanTokens(span));
    assert Tokens(before) + (Texts(ids) + SpanTokens(span)) == Tokens(before) + Texts(ids) + SpanTokens(span);
    assert Tokens(before) + (GridPrefix(cfg, v, g, j) + [AudioPad])
        == Tokens(before) + GridPrefix(cfg, v, g, j) + [AudioPad];
  }

  lemma {:induction false} PrefixAssoc<T>(a: seq<T>, b: seq<T>, c: seq<T>)
    requires b <= c
    ensures a + b <= a + c
  {
    assert c == b + c[|b|..];
    assert a + c == a + b + c[|b|..];
  }

  lemma {:induction false} PadInRow(cfg: Settings, m: Inputs, a: seq<Item>, wrapped: bool, b: seq<Item>, cur: Cursors,
                                    g: nat, j: nat)
    requires ValidInputs(cfg, m) && cfg.vocal && Enough(cfg, m, a + [VideoItem(wrapped)] + b, cur)
    ensures Enough(cfg, m, a, cur)
    ensures var c := AllNext(cfg, a, cur); c.video < |m.videos| && c.audio < |m.audios|
    ensures var c := AllNext(cfg, a, cur);
      var v, len := m.videos[c.video], m.audios[c.audio];
      (g < v.grid.t && j < Slice(cfg, v, len, g) ==>
        Tokens(AllPieces(cfg, m, a, cur)) + Tokens(VideoPieces(cfg, v, len, g)) + GridPrefix(cfg, v, g, j) + [AudioPad]
        <= Tokens(AllPieces(cfg, m, a + [VideoItem(wrapped)] + b, cur)))
  {
    hide Tokens, VideoPieces, GridPrefix, Slice;
    var it := VideoItem(wrapped);
    assert a + [it] + b == a + ([it] + b);
    PiecesConcat(cfg, m, a, [it] + b, cur);
    var c := AllNext(cfg, a, cur);
    PiecesConcat(cfg, m, [it], b, c);
    assert [it][1..] == [] && AllPieces(cfg, m, [it], c) == ItemPieces(cfg, m, it, c);
    var v, len := m.videos[c.video], m.audios[c.audio];
    if g < v.grid.t && j < Slice(cfg, v, len, g) {
      var pa, pv := AllPieces(cfg, m, a, cur), VideoPieces(cfg, v, len, v.grid.t);
      var pb := AllPieces(cfg, m, b, AllNext(cfg, [it], c));
      PadInVideo(cfg, v, len, g, j);
      TokensConcat(pa, pv + pb);
      TokensConcat(pv, pb);
      var inner := Tokens(VideoPieces(cfg, v, len, g)) + GridPrefix(cfg, v, g, j) + [AudioPad];
      PrefixAssoc(Tokens(pa), inner, Tokens(pv) + Tokens(pb));
      assert Tokens(pa) + inner
          == Tokens(pa) + Tokens(VideoPieces(cfg, v, len, g)) + GridPrefix(cfg, v, g, j) + [AudioPad];
    }
  }

  /** Earlier rows of a processed batch, and the row itself, as the prefix functions give them. */
  lemma {:induction false} RowsOf(cfg: Settings, m: Inputs, batch: seq<seq<Item>>, i: nat, n: nat)
    requires ValidInputs(cfg, m) && Templates(batch) && i < n <= |batch| && ProcessPrefix(cfg, m, Prompts(batch), n).Ok?
    ensures ProcessPrefix(cfg, m, Prompts(batch), i).Ok?
    ensures var rows, cur := ProcessPrefix(cfg, m, Prompts(batch), n).value.rows, CursorsAt(cfg, m, batch, i);
      && rows[..i] == ProcessPrefix(cfg, m, Prompts(batch), i).value.rows
      && Enough(cfg, m, batch[i], cur) && rows[i] == Tokens(AllPieces(cfg, m, batch[i], cur))
    decreases n
  {
    hide ProcessSample, AllPieces, Tokens, Enough, AllNext, Prompt, Divides;
    if i < n - 1 {
      RowsOf(cfg, m, batch, i, n - 1);
    } else {
      ProcessTemplate(cfg, m, batch[i], CursorsAt(cfg, m, batch, i));
    }
  }

  lemma {:induction false} FlattenPrefix<T>(rows: seq<seq<T>>, i: nat, head: seq<T>)
    requires i < |rows| && head <= rows[i]
    ensures Flatten(rows[..i]) + head <= Flatten(rows)
  {
    hide Flatten;
    assert rows == rows[..i] + ([rows[i]] + rows[i + 1..]);
    FlattenConcat(rows[..i], [rows[i]] + rows[i + 1..]);
    FlattenConcat([rows[i]], rows[i + 1..]);
    FlattenSingle(rows[i]);
    PrefixAssoc(Flatten(rows[..i]), head, rows[i] + Flatten(rows[i + 1..]));
  }

  /** End-to-end placement, for every accepted batch in vocal mode: in-order filling puts row
      `Boundary(g) + j` of a video's track on the `j`-th audio pad of that video's grid `g`. Since
      `j` ranges over `0 .. Boundary(g + 1) - Boundary(g)`, row `k` lands in the grid with
      `Boundary(g) <= k < Boundary(g + 1)`. */
  lemma {:induction false} TrackRowPlacement<F>(cfg: Settings, m: Inputs, batch: seq<seq<Item>>, i: nat, a: seq<Item>,
                                                wrapped: bool, b: seq<Item>,
                             g: nat, j: nat, features: seq<F>)
    requires ValidInputs(cfg, m) && Templates(batch) && i < |batch| && cfg.vocal
    requires ProcessBatch(cfg, m, Prompts(batch)).Ok? && batch[i] == a + [VideoItem(wrapped)] + b
    requires |features| == AudioRows(m, |m.audios|)
    ensures ProcessPrefix(cfg, m, Prompts(batch), i).Ok? && Enough(cfg, m, a, CursorsAt(cfg, m, batch, i))
    ensures var c := AllNext(cfg, a, CursorsAt(cfg, m, batch, i)); c.video < |m.videos| && c.audio < |m.audios|
    ensures var flat := Flatten(ProcessBatch(cfg, m, Prompts(batch)).value);
      var cur := CursorsAt(cfg, m, batch, i);
      var c := AllNext(cfg, a, cur);
      var v, len := m.videos[c.video], m.audios[c.audio];
      Count(flat, AudioPad) == |features| &&
      (g < v.grid.t && j < Slice(cfg, v, len, g) ==>
        var at := |Ahead(cfg, m, ProcessPrefix(cfg, m, Prompts(batch), i).value.rows, a, cur, g, j)|;
        var k := AudioRows(m, c.audio) + Boundary(g, v.grid.t, v.seconds, cfg.rate, len) + j;
        at < |flat| && 0 <= k < |features| && Scattered(flat, features)[at] == Filled(features[k]))
  {
    hide ProcessPrefix, AllPieces, Tokens, VideoPieces, GridPrefix, Boundary, Flatten, TallyAll, Count, Enough;
    hide AllNext, Slice, Sum;
    RowsOf(cfg, m, batch, i, |batch|);
    PadsAreMediaRows(cfg, m, batch, AudioPad);
    var rows, cur := ProcessBatch(cfg, m, Prompts(batch)).value, CursorsAt(cfg, m, batch, i);
    PadInRow(cfg, m, a, wrapped, b, cur, g, j);
    var c := AllNext(cfg, a, cur);
    var v, len := m.videos[c.video], m.audios[c.audio];
    if g < v.grid.t && j < Slice(cfg, v, len, g) {
      TrackRowRank(cfg, m, batch, i, a, g, j);
      var head := Tokens(AllPieces(cfg, m, a, cur)) + Tokens(VideoPieces(cfg, v, len, g)) + GridPrefix(cfg, v, g, j);
      FlattenPrefix(rows, i, head + [AudioPad]);
      var ahead := Ahead(cfg, m, rows[..i], a, cur, g, j);
      assert ahead == Flatten(rows[..i]) + head;
      assert ahead + [AudioPad] == Flatten(rows[..i]) + (head + [AudioPad]);
      assert Flatten(rows)[..|ahead|] == ahead && Flatten(rows)[|ahead|] == AudioPad;
      RankBound(Flatten(rows), |ahead|);
    }
  }
}
