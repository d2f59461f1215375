/** Position bookkeeping of `forward`: a prefill stores one delta per row, every later step turns
    its cache position into rotary positions with it. */
module Decode {
  import opened Sequences
  import opened Layout
  import opened Positions
  import opened RopeIndexer
  import opened RopeIndex

  /** What one call of `forward` is given; `cache` is the first cache position. The masks of a decode
      step cover the whole past, so they may be longer than the new ids. */
  datatype Call = Call(ids: seq<seq<Token>>, masks: seq<seq<bool>>, cache: Option<nat>,
                       merge: nat, images: seq<Grid>, videos: seq<Grid>, mels: seq<nat>, vocal: bool, vision: bool)
  {
    predicate Valid() {
      ValidMedia(merge, images, videos)
    }

    /** A run starts without a cache or at its first position. */
    predicate Starts() {
      cache == None || cache == Some(0)
    }

    /** Every row has a mask of its own length; indexing a row by any other mask raises. */
    predicate Shaped() {
      |ids| == |masks| && forall i :: 0 <= i < |ids| ==> |ids[i]| == |masks[i]|
    }

    function Rope(): Result<RopeOut, ForwardError>
      requires Valid()
    {
      if vision && !Shaped() then Err(MaskMismatch)
      else
        match Index(merge, images, videos, mels, vocal, vision, ids, masks)
        case Err(e) => Err(IndexFailed(e))
        case Ok(out) => Ok(out)
    }
  }

  datatype ForwardError = IndexFailed(error: RopeError) | MaskMismatch | BatchMismatch

  /** Positions handed to the text model: per axis after a prefill, one value for all three axes
      after a decode step. */
  datatype Placed = Prefilled(rows: seq<seq<Pos>>) | Decoded(steps: seq<seq<int>>)

  function Padding(mask: seq<bool>): int {
    |mask| - Rank(mask, |mask|)
  }

  /** The stored delta: the indexer's minus the padding of the row. */
  function Stored(out: RopeOut, masks: seq<seq<bool>>): (r: seq<int>)
    requires |out.deltas| == |masks|
    ensures |r| == |masks|
  {
    seq(|masks|, i requires 0 <= i < |masks| => out.deltas[i] - Padding(masks[i]))
  }

  function DecodeRow(len: nat, at: nat, delta: int): (r: seq<int>)
    ensures |r| == len
  {
    seq(len, j requires 0 <= j => j + (at + delta))
  }

  lemma {:induction false} IndexShape(c: Call)
    requires c.Valid() && c.Rope().Ok?
    ensures |c.Rope().value.deltas| == |c.masks| && |c.Rope().value.positions| == |c.masks|
    ensures c.vision ==> c.Shaped()
  {
    hide VisionIndex;
    if c.vision {
      PreparedIsValid(c.merge, c.images, c.videos, c.mels, c.vocal);
      VisionShape(Prepare(c.merge, c.images, c.videos, c.mels, c.vocal), c.ids, c.masks);
    }
  }

  lemma {:induction false} VisionShape(x: Context, ids: seq<seq<Token>>, masks: seq<seq<bool>>)
    requires x.Valid() && |ids| == |masks| && (forall i :: 0 <= i < |ids| ==> |ids[i]| == |masks[i]|)
    requires VisionIndex(x, ids, masks).Ok?
    ensures |VisionIndex(x, ids, masks).value.deltas| == |ids| && |VisionIndex(x, ids, masks).value.positions| == |ids|
  {
    hide RunBatch, Written, Delta;
  }

  function DecodeRows(ids: seq<seq<Token>>, at: nat, deltas: seq<int>): (r: seq<seq<int>>)
    requires |ids| == |deltas|
    ensures |r| == |ids|
  {
    seq(|ids|, i requires 0 <= i < |ids| => DecodeRow(|ids[i]|, at, deltas[i]))
  }

  /** The outcome of a call and the delta kept after it, given the delta kept before it. */
  function ForwardStep(kept: Option<seq<int>>, c: Call): (Result<Placed, ForwardError>, Option<seq<int>>)
    requires c.Valid()
  {
    if c.Starts() || kept == None then
      match c.Rope()
      case Err(e) => (Err(e), kept)
      case Ok(out) => IndexShape(c); (Ok(Prefilled(out.positions)), Some(Stored(out, c.masks)))
    else if |c.ids| != |kept.value| then (Err(BatchMismatch), kept)
    else (Ok(Decoded(DecodeRows(c.ids, c.cache.value, kept.value))), kept)
  }

  class Model {
    var ropeDeltas: Option<seq<int>>

    constructor ()
      ensures ropeDeltas == None
    {
      ropeDeltas := None;
    }

    /** The position part of `forward`. */
    method Forward(c: Call) returns (r: Result<Placed, ForwardError>)
      requires c.Valid()
      modifies this
      ensures (r, ropeDeltas) == ForwardStep(old(ropeDeltas), c)
    {
      hide VisionIndex, TextIndex;
      if c.Starts() || ropeDeltas == None {
        var out;
        if c.vision {
          if !c.Shaped() {
            return Err(MaskMismatch);
          }
          PreparedIsValid(c.merge, c.images, c.videos, c.mels, c.vocal);
          out := IndexVisionBatch(Prepare(c.merge, c.images, c.videos, c.mels, c.vocal), c.ids, c.masks);
        } else {
          out := TextIndex(c.masks);
        }
        if out.Err? {
          return Err(IndexFailed(out.error));
        }
        IndexShape(c);
        ropeDeltas := Some(Stored(out.value, c.masks));
        return Ok(Prefilled(out.value.positions));
      }
      if |c.ids| != |ropeDeltas.value| {
        return Err(BatchMismatch);
      }
      var rows, deltas := [], ropeDeltas.value;
      for i := 0 to |c.ids|
        invariant ropeDeltas == old(ropeDeltas)
        invariant rows == DecodeRows(c.ids, c.cache.value, deltas)[..i]
      {
        rows := rows + [DecodeRow(|c.ids[i]|, c.cache.value, deltas[i])];
      }
      assert rows == DecodeRows(c.ids, c.cache.value, deltas);
      r := Ok(Decoded(rows));
    }
  }

  // ----- a whole run

  /** Largest coordinate any attended token of row `i` received at prefill. */
  function Peak(p: RopeOut, masks: seq<seq<bool>>, i: nat): nat
    requires i < |p.positions| && i < |masks| && |p.positions[i]| == |masks[i]|
    requires Attended(p.positions[i], masks[i]) != []
  {
    MaxCoord(Attended(p.positions[i], masks[i]))
  }

  /** In the multimodal branch the delta of a row is its largest coordinate plus one minus its
      attended length. */
  lemma {:induction false} VisionDelta(x: Context, ids: seq<seq<Token>>, masks: seq<seq<bool>>, i: nat)
    requires x.Valid() && |ids| == |masks| && (forall k :: 0 <= k < |ids| ==> |ids[k]| == |masks[k]|)
    requires VisionIndex(x, ids, masks).Ok? && i < |ids|
    ensures var out := VisionIndex(x, ids, masks).value;
      && |out.positions| == |out.deltas| == |ids| && |out.positions[i]| == |masks[i]|
      && Attended(out.positions[i], masks[i]) != []
      && out.deltas[i] == Peak(out, masks, i) + 1 - Rank(masks[i], |masks[i]|)
  {
    hide RunBatch, Written, MaxCoord, Rank;
    var b := RunBatch(x, AttendedRows(ids, masks), |ids|).value;
    var cols := b.rows[i].cols;
    WrittenThenAttended(masks[i], cols, |masks[i]|);
    assert cols[..|cols|] == cols;
  }

  /** A call inside a run, at a later cache position. */
  predicate Later(c: Call) {
    c.Valid() && !c.Starts()
  }

  /** State after calls of a run. */
  function After(kept: Option<seq<int>>, calls: seq<Call>): Option<seq<int>>
    requires forall k :: 0 <= k < |calls| ==> Later(calls[k])
  {
    if calls == [] then kept
    else
      assert Later(calls[|calls| - 1]);
      ForwardStep(After(kept, calls[..|calls| - 1]), calls[|calls| - 1]).1
  }

  /** Positions are indexed anew, and the delta with them, exactly without a cache, at the first cache
      position or when no delta is kept; every other call leaves the delta alone and is decoded with it
      if the batch size is the one it was made for. */
  lemma {:induction false} WhenIndexed(kept: Option<seq<int>>, c: Call)
    requires c.Valid()
    ensures var (r, after) := ForwardStep(kept, c);
      if c.cache == None || c.cache == Some(0) || kept == None then
        && (r.Ok? ==> r.value.Prefilled? && after.Some? && ForwardStep(None, c) == (r, after))
        && (r.Err? ==> after == kept && ForwardStep(None, c).0 == r)
      else
        && after == kept && (r.Ok? <==> |c.ids| == |kept.value|) && (r.Ok? ==> r.value.Decoded?)
  {
    hide VisionIndex, TextIndex;
  }

  /** No earlier run shows through: once a call starts a run successfully, all later calls of that
      run see the same delta, whatever they are given and whether or not they fail, and it does not
      depend on what was kept before. */
  lemma {:induction false} RunsAreIndependent(kept: Option<seq<int>>, other: Option<seq<int>>, start: Call,
                                              steps: seq<Call>)
    requires start.Valid() && start.Starts() && start.Rope().Ok?
    requires forall k :: 0 <= k < |steps| ==> Later(steps[k])
    ensures After(ForwardStep(kept, start).1, steps) == ForwardStep(kept, start).1 == ForwardStep(other, start).1
    decreases |steps|
  {
    IndexShape(start);
    if steps != [] {
      var init := steps[..|steps| - 1];
      RunsAreIndependent(kept, other, start, init);
    }
  }

  /** The decode step `c` of a run: the prefill `start`, any later calls `steps`, then `c`. */
  function Decoding(kept: Option<seq<int>>, start: Call, steps: seq<Call>, c: Call): Result<Placed, ForwardError>
    requires start.Valid() && Later(c) && forall k :: 0 <= k < |steps| ==> Later(steps[k])
  {
    ForwardStep(After(ForwardStep(kept, start).1, steps), c).0
  }

  /** `pos` is `n` places behind the largest coordinate of row `i` plus one. */
  predicate FollowsPeak(out: RopeOut, masks: seq<seq<bool>>, i: nat, pos: int, n: int) {
    && i < |out.positions| == |masks| && |out.positions[i]| == |masks[i]|
    && Attended(out.positions[i], masks[i]) != []
    && pos == Peak(out, masks, i) + 1 + n
  }

  /** Over a whole run that starts with a multimodal prefill over rows padded to a common length,
      whatever delta an earlier run left behind and whatever steps came in between: a token decoded
      at cache position `p` gets, on every axis, its row's largest prefill coordinate plus one plus
      its distance from the end of the prompt. */
  lemma {:induction false} DecodeSafety(kept: Option<seq<int>>, start: Call, steps: seq<Call>, c: Call, len: nat,
                                        i: nat, j: nat)
    requires start.Valid() && start.Starts() && start.vision && start.Rope().Ok?
    requires forall k :: 0 <= k < |start.masks| ==> |start.masks[k]| == len
    requires forall k :: 0 <= k < |steps| ==> Later(steps[k])
    requires Later(c) && |c.ids| == |start.ids| && i < |c.ids| && j < |c.ids[i]|
    ensures ForwardStep(kept, start).0 == Ok(Prefilled(start.Rope().value.positions))
    ensures var after := Decoding(kept, start, steps, c);
      && after.Ok? && after.value.Decoded? && |after.value.steps| == |c.ids| && |after.value.steps[i]| == |c.ids[i]|
      && FollowsPeak(start.Rope().value, start.masks, i, after.value.steps[i][j], (c.cache.value + j) - len)
  {
    hide VisionIndex, Peak, Attended, After;
    IndexShape(start);
    PreparedIsValid(start.merge, start.images, start.videos, start.mels, start.vocal);
    VisionDelta(Prepare(start.merge, start.images, start.videos, start.mels, start.vocal), start.ids, start.masks, i);
    RunsAreIndependent(kept, kept, start, steps);
  }

  // ----- rows without vision

  /** Attended tokens are numbered 0, 1, 2, ... on every axis, whatever the padding, and every masked
      entry holds 1. */
  lemma {:induction false} TextRowCounts(mask: seq<bool>, k: nat)
    requires k <= |mask|
    ensures Select(TextRow(mask), mask, k) == Line(0, Rank(mask, k))
    ensures forall i :: 0 <= i < |mask| && !mask[i] ==> TextRow(mask)[i] == Pos(1, 1, 1)
  {
    if k > 0 {
      TextRowCounts(mask, k - 1);
      LineSplit(0, Rank(mask, k - 1), 1);
    }
  }

  lemma {:induction false} TextRowUnpadded(mask: seq<bool>, k: nat)
    requires (forall i :: 0 <= i < |mask| ==> mask[i]) && k <= |mask|
    ensures Rank(mask, k) == k
  {
    if k > 0 {
      TextRowUnpadded(mask, k - 1);
    }
  }

  /** A row without vision pads: whatever is recognised in it is text or audio. */
  predicate NoVisionPads(row: seq<Token>) {
    ImagePad !in row && VideoPad !in row
  }

  lemma {:induction false} RunWithoutVision(x: Context, row: seq<Token>, s: RowState, n: int)
    requires x.Valid() && NoVisionPads(row) && NoVision(s.trace) && Run(x, row, s, n).Ok?
    ensures NoVision(Run(x, row, s, n).value.trace)
    decreases n
  {
    hide Find, LocateVocal;
    if n > 0 {
      assert Locate(x, row, s).Ok? ==> Locate(x, row, s).value.span.Audio?;
      RunWithoutVision(x, row, Step(x, row, s).value, n - 1);
    }
  }

  lemma {:induction false} RowWithoutVision(x: Context, row: seq<Token>, cur: Cursors)
    requires x.Valid() && NoVisionPads(row) && RunRow(x, row, cur).Ok?
    ensures NoVision(RunRow(x, row, cur).value.trace)
  {
    hide EndsAfter, Run;
    var s := Begin(x, row, cur);
    RunWithoutVision(x, row, s, s.images + s.videos + s.audios);
  }

  /** On an unpadded row without vision pads the multimodal branch assigns what the text branch does. */
  lemma {:induction false} RowsAgree(x: Context, row: seq<Token>, cur: Cursors)
    requires x.Valid() && RunRow(x, row, cur).Ok? && NoVisionPads(row)
    ensures var s, mask := RunRow(x, row, cur).value, Repeat(true, |row|);
      && s.cols == TextRow(mask) && s.cols != []
      && Delta(s.cols) == 0 && MaxCoord(TextRow(mask)) + 1 - Rank(mask, |mask|) == 0
  {
    hide RunRow, Lay, MaxCoord;
    RowWithoutVision(x, row, cur);
    var s, mask := RunRow(x, row, cur).value, Repeat(true, |row|);
    IndexedRowsAreSound(x, row, cur);
    LayIsSound(s.trace);
    assert s.cols != [] by { NotEmptyRow(x, row, cur); }
    TextAndAudioAreLinear(s.trace);
    forall i | 0 <= i <= |row| ensures Rank(mask, i) == i {
      TextRowUnpadded(mask, i);
    }
    assert TextRow(mask) == Line(0, |row|);
  }

  predicate Unpadded(masks: seq<seq<bool>>) {
    forall i :: 0 <= i < |masks| ==> masks[i] == Repeat(true, |masks[i]|)
  }

  lemma {:induction false} SelectAll<T>(row: seq<T>, k: nat)
    requires k <= |row|
    ensures Select(row, Repeat(true, |row|), k) == row[..k]
  {
    if k > 0 {
      SelectAll(row, k - 1);
    }
  }

  lemma {:induction false} WrittenToAll(cols: seq<Pos>)
    ensures Rank(Repeat(true, |cols|), |cols|) == |cols|
    ensures Written(Repeat(true, |cols|), cols) == cols
  {
    var mask := Repeat(true, |cols|);
    forall i | 0 <= i <= |cols| ensures Rank(mask, i) == i {
      TextRowUnpadded(mask, i);
    }
  }

  /** The `i`-th finished row of a batch is some row's run. */
  lemma {:induction false} BatchRow(x: Context, rows: seq<seq<Token>>, k: nat, i: nat) returns (cur: Cursors)
    requires x.Valid() && i < k <= |rows| && RunBatch(x, rows, k).Ok?
    ensures RunRow(x, rows[i], cur) == Ok(RunBatch(x, rows, k).value.rows[i])
  {
    hide RunRow;
    if i == k - 1 {
      cur := RunBatch(x, rows, k - 1).value.cur;
    } else {
      cur := BatchRow(x, rows, k - 1, i);
    }
  }

  lemma {:induction false} UnpaddedRow(ids: seq<seq<Token>>, masks: seq<seq<bool>>, i: nat)
    requires |ids| == |masks| && (forall k :: 0 <= k < |ids| ==> |ids[k]| == |masks[k]|)
    requires Unpadded(masks) && i < |ids|
    ensures AttendedRows(ids, masks)[i] == ids[i] && masks[i] == Repeat(true, |ids[i]|)
  {
    hide Select, Rank;
    assert masks[i] == Repeat(true, |masks[i]|);
    SelectAll(ids[i], |ids[i]|);
  }

  lemma {:induction false} WrittenRowAgrees(x: Context, row: seq<Token>, cur: Cursors)
    requires x.Valid() && RunRow(x, row, cur).Ok? && NoVisionPads(row)
    ensures var cols, mask := RunRow(x, row, cur).value.cols, Repeat(true, |row|);
      && cols != [] && |cols| == Rank(mask, |mask|)
      && Written(mask, cols) == TextRow(mask) && Delta(cols) == MaxCoord(TextRow(mask)) + 1 - Rank(mask, |mask|)
  {
    hide RunRow, Written, Delta, MaxCoord, Rank, NoVisionPads;
    RowsAgree(x, row, cur);
    var cols := RunRow(x, row, cur).value.cols;
    assert |TextRow(Repeat(true, |row|))| == |row|;
    WrittenToAll(cols);
  }

  lemma {:induction false} BatchRowAgrees(x: Context, ids: seq<seq<Token>>, masks: seq<seq<bool>>, i: nat)
    requires x.Valid() && |ids| == |masks| && (forall k :: 0 <= k < |ids| ==> |ids[k]| == |masks[k]|)
    requires Unpadded(masks) && i < |ids| && NoVisionPads(ids[i])
    requires RunBatch(x, AttendedRows(ids, masks), |ids|).Ok?
    ensures var cols := RunBatch(x, AttendedRows(ids, masks), |ids|).value.rows[i].cols;
      && masks[i] != [] && cols != [] && |cols| == Rank(masks[i], |masks[i]|)
      && Written(masks[i], cols) == TextRow(masks[i])
      && Delta(cols) == MaxCoord(TextRow(masks[i])) + 1 - Rank(masks[i], |masks[i]|)
  {
    hide RunRow, RunBatch, Written, Delta, MaxCoord, Rank, TextRow, AttendedRows, NoVisionPads, Unpadded, Repeat;
    UnpaddedRow(ids, masks, i);
    var cur := BatchRow(x, AttendedRows(ids, masks), |ids|, i);
    WrittenRowAgrees(x, ids[i], cur);
  }

  /** The two branches agree: an unpadded batch without vision pads that the multimodal branch
      indexes gets exactly the positions and deltas of the text branch. */
  lemma {:induction false} BranchesAgree(x: Context, ids: seq<seq<Token>>, masks: seq<seq<bool>>)
    requires x.Valid() && |ids| == |masks| && (forall i :: 0 <= i < |ids| ==> |ids[i]| == |masks[i]|)
    requires Unpadded(masks) && forall i :: 0 <= i < |ids| ==> NoVisionPads(ids[i])
    requires VisionIndex(x, ids, masks).Ok?
    ensures VisionIndex(x, ids, masks) == TextIndex(masks)
  {
    hide RunBatch, Written, Delta, MaxCoord, Rank, TextRow, AttendedRows, NoVisionPads, Unpadded;
    forall i | 0 <= i < |ids|
      ensures masks[i] != []
      ensures VisionIndex(x, ids, masks).value.positions[i] == TextRow(masks[i])
      ensures VisionIndex(x, ids, masks).value.deltas[i] == MaxCoord(TextRow(masks[i])) + 1 - Rank(masks[i], |masks[i]|)
    {
      BatchRowAgrees(x, ids, masks, i);
    }
    var out, text := VisionIndex(x, ids, masks).value, TextIndex(masks).value;
    assert out.positions == text.positions && out.deltas == text.deltas;
  }

  lemma {:induction false} NotEmptyRow(x: Context, row: seq<Token>, cur: Cursors)
    requires x.Valid() && RunRow(x, row, cur).Ok?
    ensures RunRow(x, row, cur).value.cols != []
  {
    hide Run, Begin;
  }

  /** Padded entries are filled with 1, which is the row's maximum if nothing attended reaches it. */
  lemma {:induction false} TextRowDelta(mask: seq<bool>)
    requires mask != []
    ensures MaxCoord(TextRow(mask)) + 1 - Rank(mask, |mask|) == 0
       <==> Rank(mask, |mask|) == |mask| || Rank(mask, |mask|) >= 2
  {
    hide MaxCoord;
    var r, n := TextRow(mask), Rank(mask, |mask|);
    MaxCoordIsMax(r);
    forall i | 0 <= i < |mask| && mask[i] ensures r[i].t < n {
      RankMonotone(mask, i + 1, |mask|);
    }
    if n > 0 {
      var last := LastAttended(mask, |mask|);
      assert MaxOf(r[last]) == n - 1;
    }
    if n < |mask| {
      var p := FirstPadded(mask, |mask|);
      assert MaxOf(r[p]) == 1;
    } else {
      AllAttended(mask, |mask|);
    }
  }

  lemma {:induction false} LastAttended(mask: seq<bool>, k: nat) returns (i: nat)
    requires k <= |mask| && Rank(mask, k) > 0
    ensures i < k && mask[i] && Rank(mask, i) == Rank(mask, k) - 1
  {
    if mask[k - 1] {
      i := k - 1;
    } else {
      i := LastAttended(mask, k - 1);
    }
  }

  lemma {:induction false} FirstPadded(mask: seq<bool>, k: nat) returns (i: nat)
    requires k <= |mask| && Rank(mask, k) < k
    ensures i < k && !mask[i]
  {
    if !mask[k - 1] {
      i := k - 1;
    } else {
      i := FirstPadded(mask, k - 1);
    }
  }

  lemma {:induction false} AllAttended(mask: seq<bool>, k: nat)
    requires k <= |mask| && Rank(mask, k) == k
    ensures forall i :: 0 <= i < k ==> mask[i]
  {
    if k > 0 {
      AllAttended(mask, k - 1);
    }
  }

  /** In the branch without vision a row's delta is zero exactly when it has no padding or at least
      two attended tokens; the branch fails exactly when some row is empty. */
  lemma {:induction false} TextDeltaZero(masks: seq<seq<bool>>, i: nat)
    requires i < |masks|
    ensures TextIndex(masks).Ok? <==> forall k :: 0 <= k < |masks| ==> masks[k] != []
    ensures TextIndex(masks).Ok? ==>
      && i < |TextIndex(masks).value.deltas|
      && var rank := Rank(masks[i], |masks[i]|);
         (TextIndex(masks).value.deltas[i] == 0 <==> rank == |masks[i]| || rank >= 2)
  {
    hide Rank, MaxCoord, TextRow;
    if masks[i] != [] {
      TextRowDelta(masks[i]);
    }
  }

  /** Over a whole run that starts with a text prefill a decoded token continues the count of its
      row's attended tokens exactly under the same condition. */
  lemma {:induction false} TextDecode(kept: Option<seq<int>>, start: Call, steps: seq<Call>, c: Call, len: nat,
                                      i: nat, j: nat)
    requires start.Valid() && start.Starts() && !start.vision && start.Rope().Ok?
    requires forall k :: 0 <= k < |start.masks| ==> |start.masks[k]| == len
    requires forall k :: 0 <= k < |steps| ==> Later(steps[k])
    requires Later(c) && |c.ids| == |start.masks| && i < |c.ids| && j < |c.ids[i]|
    ensures var after := Decoding(kept, start, steps, c);
      && after.Ok? && after.value.Decoded? && |after.value.steps| == |c.ids| && |after.value.steps[i]| == |c.ids[i]|
      && var rank := Rank(start.masks[i], len);
         (after.value.steps[i][j] == rank + ((c.cache.value + j) - len) <==> rank == len || rank >= 2)
  {
    hide TextIndex, Rank, After;
    TextDeltaZero(start.masks, i);
    IndexShape(start);
    RunsAreIndependent(kept, kept, start, steps);
  }
}
