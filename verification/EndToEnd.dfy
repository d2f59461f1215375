/** From the prompt to the last generated token: processor, padding, indexer and decode steps. */
module EndToEnd {
  import opened Sequences
  import opened Layout
  import opened Positions
  import opened RopeIndexer
  import opened RopeIndex
  import opened VideoLayout
  import opened Processor
  import opened Template
  import opened RoundTrip
  import opened Decode

  /** Model input for a processed batch: rows padded in any way whose attended tokens are the
      processed rows. */
  predicate Padded(rows: seq<seq<Token>>, ids: seq<seq<Token>>, masks: seq<seq<bool>>) {
    && |ids| == |masks| && (forall i :: 0 <= i < |ids| ==> |ids[i]| == |masks[i]|)
    && AttendedRows(ids, masks) == rows
  }

  /** Reference columns of row `i`: the geometry of the pieces the processor wrote. */
  function RowColumns(cfg: Settings, m: Inputs, batch: seq<seq<Item>>, i: nat): seq<Pos>
    requires ValidInputs(cfg, m) && i < |batch| && ProcessPrefix(cfg, m, Prompts(batch), i).Ok?
    requires Enough(cfg, m, batch[i], CursorsAt(cfg, m, batch, i))
  {
    Lay(Shape(AllPieces(cfg, m, batch[i], CursorsAt(cfg, m, batch, i)))).cols
  }

  /** Row `i` of the indexer's answer: the reference columns on the attended tokens, zero elsewhere,
      and the delta that belongs to those columns. */
  predicate RowPlaced(cfg: Settings, m: Inputs, batch: seq<seq<Item>>, mask: seq<bool>, i: nat, positions: seq<Pos>,
                      delta: int)
    requires ValidInputs(cfg, m) && i < |batch|
  {
    && ProcessPrefix(cfg, m, Prompts(batch), i).Ok?
    && Enough(cfg, m, batch[i], CursorsAt(cfg, m, batch, i))
    && var cols := RowColumns(cfg, m, batch, i);
       cols != [] && |cols| == Rank(mask, |mask|) && positions == Written(mask, cols) && delta == Delta(cols)
  }

  /** For every batch the processor accepts, padded in any way: `get_rope_index` raises nothing and
      gives every row the columns and the delta of what was generated. */
  lemma {:induction false} PaddedRoundTrip(cfg: Settings, m: Inputs, mels: seq<nat>, batch: seq<seq<Item>>,
                                           ids: seq<seq<Token>>, masks: seq<seq<bool>>)
    requires ValidInputs(cfg, m) && Linked(m, mels) && Templates(batch) && batch != []
    requires ProcessBatch(cfg, m, Prompts(batch)).Ok? && Padded(ProcessBatch(cfg, m, Prompts(batch)).value, ids, masks)
    ensures ModelContext(cfg, m, mels).Valid() && |ids| == |batch|
    ensures var out := VisionIndex(ModelContext(cfg, m, mels), ids, masks);
      && out.Ok? && |out.value.positions| == |out.value.deltas| == |batch|
      && forall i :: 0 <= i < |batch| ==>
        RowPlaced(cfg, m, batch, masks[i], i, out.value.positions[i], out.value.deltas[i])
  {
    hide ProcessBatch, ProcessPrefix, RunBatch, ModelContext, Enough, AllPieces, Lay, Delta, Written, Rank, Shape;
    hide AttendedRows;
    BatchRoundTrip(cfg, m, mels, batch);
    var x, rows := ModelContext(cfg, m, mels), ProcessBatch(cfg, m, Prompts(batch)).value;
    assert |AttendedRows(ids, masks)| == |ids|;
    var b := RunBatch(x, rows, |batch|).value;
    forall i | 0 <= i < |batch|
      ensures var out := VisionIndex(x, ids, masks).value;
        RowPlaced(cfg, m, batch, masks[i], i, out.positions[i], out.deltas[i])
    {
      assert Recovered(cfg, m, batch[i], CursorsAt(cfg, m, batch, i), b.rows[i]);
      assert |b.rows[i].cols| == |rows[i]| && b.rows[i].cols != [];
    }
  }

  /** The processor hands over grids, so that the multimodal branch is taken. */
  predicate HasGrids(m: Inputs) {
    m.images != [] || m.videos != []
  }

  /** A prefill on exactly the media the processor was given. */
  predicate Feeds(cfg: Settings, m: Inputs, mels: seq<nat>, start: Call) {
    && start.Starts() && start.vision == HasGrids(m)
    && start.merge == cfg.merge && start.images == m.images && start.videos == VideoGrids(m.videos)
    && start.mels == mels && start.vocal == cfg.vocal
  }

  // ----- batches of text and audio

  /** Without images and videos only text and audio spans are written. */
  lemma {:induction false} NoGridsNoVision(cfg: Settings, m: Inputs, items: seq<Item>, cur: Cursors)
    requires ValidInputs(cfg, m) && Enough(cfg, m, items, cur) && !HasGrids(m)
    ensures forall p :: p in AllPieces(cfg, m, items, cur) && p.Media? ==> p.span.Audio?
    decreases |items|
  {
    if items != [] {
      NoGridsNoVision(cfg, m, items[1..], ItemNext(cfg, items[0], cur));
    }
  }

  /** Their rows are numbered consecutively. */
  lemma {:induction false} PlainRow(cfg: Settings, m: Inputs, batch: seq<seq<Item>>, i: nat)
    requires ValidInputs(cfg, m) && i < |batch| && ProcessPrefix(cfg, m, Prompts(batch), i).Ok? && !HasGrids(m)
    requires Enough(cfg, m, batch[i], CursorsAt(cfg, m, batch, i)) && RowColumns(cfg, m, batch, i) != []
    ensures MaxCoord(RowColumns(cfg, m, batch, i)) + 1 == |RowColumns(cfg, m, batch, i)|
  {
    hide ProcessPrefix, Enough, AllPieces, MaxCoord, Lay, Line;
    var cur := CursorsAt(cfg, m, batch, i);
    NoGridsNoVision(cfg, m, batch[i], cur);
    var ps := AllPieces(cfg, m, batch[i], cur);
    forall k | 0 <= k < |ps| && ps[k].Media? ensures ps[k].span.Audio? {
      assert ps[k] in ps;
    }
    LinearColumns(Shape(ps));
    TextAndAudioAreLinear(Shape(ps));
  }

  // ----- the whole chain

  /** A batch is processed, padded to a common length and prefilled, any later steps run, and then a
      token is decoded at some cache position of row `i`. It gets the largest coordinate of what was
      generated for that row, plus one, plus its distance from the end of the prompt: always if the
      batch has images or videos, and otherwise exactly when the row is not padded or has at least two
      tokens. */
  lemma {:induction false} GenerationContinuesPrompt(
      cfg: Settings, m: Inputs, mels: seq<nat>, batch: seq<seq<Item>>, kept: Option<seq<int>>,
      start: Call, steps: seq<Call>, c: Call, len: nat, i: nat, j: nat)
    requires ValidInputs(cfg, m) && Linked(m, mels) && Templates(batch) && batch != []
    requires ProcessBatch(cfg, m, Prompts(batch)).Ok? && Feeds(cfg, m, mels, start)
    requires Padded(ProcessBatch(cfg, m, Prompts(batch)).value, start.ids, start.masks)
    requires forall k :: 0 <= k < |start.masks| ==> |start.masks[k]| == len
    requires forall k :: 0 <= k < |steps| ==> Later(steps[k])
    requires Later(c) && |c.ids| == |start.ids| && i < |c.ids| && j < |c.ids[i]|
    ensures start.Valid() && i < |batch| && ProcessPrefix(cfg, m, Prompts(batch), i).Ok?
    ensures Enough(cfg, m, batch[i], CursorsAt(cfg, m, batch, i)) && RowColumns(cfg, m, batch, i) != []
    ensures var after, row := Decoding(kept, start, steps, c), RowColumns(cfg, m, batch, i);
      && after.Ok? && after.value.Decoded? && |after.value.steps| == |c.ids| && |after.value.steps[i]| == |c.ids[i]|
      && (after.value.steps[i][j] == MaxCoord(row) + 1 + ((c.cache.value + j) - len)
          <==> HasGrids(m) || |row| == len || |row| >= 2)
  {
    hide ProcessBatch, ProcessPrefix, VisionIndex, TextIndex, Enough, RowColumns, MaxCoord, Written, Rank, Select;
    hide Later;
    MediaValid(cfg, m);
    PaddedRoundTrip(cfg, m, mels, batch, start.ids, start.masks);
    var out := VisionIndex(ModelContext(cfg, m, mels), start.ids, start.masks).value;
    assert RowPlaced(cfg, m, batch, start.masks[i], i, out.positions[i], out.deltas[i]);
    var cols, mask := RowColumns(cfg, m, batch, i), start.masks[i];
    if HasGrids(m) {
      assert start.Rope() == Ok(out);
      DecodeSafety(kept, start, steps, c, len, i, j);
      WrittenThenAttended(mask, cols, |mask|);
      assert cols[..|cols|] == cols;
      assert Attended(out.positions[i], mask) == cols;
    } else {
      forall k | 0 <= k < |batch| ensures start.masks[k] != [] {
        assert RowPlaced(cfg, m, batch, start.masks[k], k, out.positions[k], out.deltas[k]);
      }
      TextDeltaZero(start.masks, i);
      PlainRow(cfg, m, batch, i);
      TextDecode(kept, start, steps, c, len, i, j);
    }
  }

  lemma {:induction false} MediaValid(cfg: Settings, m: Inputs)
    requires ValidInputs(cfg, m)
    ensures ValidMedia(cfg.merge, m.images, VideoGrids(m.videos))
  {
    hide Divides;
    var gs := VideoGrids(m.videos);
    forall g | g in gs ensures Whole(g.(t := 1), cfg.merge) {
      var i :| 0 <= i < |gs| && gs[i] == g;
      assert ValidVideo(cfg, m.videos[i]);
    }
  }
}
