/** Chunking and attention windows of the audio encoder. */
module AudioEncoder {
  import opened Sequences
  import opened FeatureLengths
  import opened Chunking

  // ----- chunks

  /** Encoder rows of every length in a list. */
  function Outs(lens: seq<nat>): (r: seq<nat>)
    ensures |r| == |lens|
    ensures forall i :: 0 <= i < |lens| ==> r[i] == OutLen(lens[i])
  {
    seq(|lens|, i requires 0 <= i < |lens| => OutLen(lens[i]))
  }

  predicate Hundreds(w: nat) {
    w > 0 && w % 100 == 0
  }

  lemma {:induction false} FullChunk(w: nat, len: nat)
    requires Hundreds(w) && len >= w
    ensures OutLen(len) == OutLen(w) + OutLen(len - w)
  {
    hide OutLen;
    var h := w / 100;
    assert w == 100 * h;
    OutLenSplit(h, len - w);
    OutLenSplit(h, 0);
    NoFrames();
  }

  lemma {:induction false} NoFrames()
    ensures OutLen(0) == 0
  {
  }

  /** Encoding the chunks one by one gives as many rows as encoding the audio at once. */
  lemma {:induction false} ChunkRowsSum(len: nat, w: nat)
    requires Hundreds(w) && len > 0
    ensures Sum(Outs(ChunksOf(len, w))) == OutLen(len)
    decreases len
  {
    hide OutLen;
    if len <= w {
      assert Outs([len]) == [OutLen(len)];
      SumSingle(OutLen(len));
    } else {
      var rest := ChunksOf(len - w, w);
      ChunkRowsSum(len - w, w);
      FullChunk(w, len);
      assert Outs([w] + rest) == [OutLen(w)] + Outs(rest);
      SumConcat([OutLen(w)], Outs(rest));
      SumSingle(OutLen(w));
    }
  }

  function AllChunks(lens: seq<nat>, w: nat): seq<nat>
    requires w > 0
  {
    if lens == [] then [] else AllChunks(lens[..|lens| - 1], w) + ChunksOf(lens[|lens| - 1], w)
  }

  /** A chunk boundary: a number of rows that some whole number of chunks produces. */
  ghost predicate ChunkBoundary(chunks: seq<nat>, rows: int) {
    exists j :: 0 <= j <= |chunks| && Sum(Outs(chunks)[..j]) == rows
  }

  lemma {:induction false} OutsConcat(a: seq<nat>, b: seq<nat>)
    ensures Outs(a + b) == Outs(a) + Outs(b)
  {
  }

  /** No chunk crosses two audios: each audio's chunks tile it, in frames and in rows. */
  lemma {:induction false} AudiosTile(lens: seq<nat>, w: nat)
    requires Hundreds(w) && forall i :: 0 <= i < |lens| ==> lens[i] > 0
    ensures Sum(AllChunks(lens, w)) == Sum(lens)
    ensures Sum(Outs(AllChunks(lens, w))) == Sum(Outs(lens))
    ensures forall c :: c in AllChunks(lens, w) ==> 1 <= c <= w
  {
    hide OutLen;
    if lens != [] {
      var init, len := lens[..|lens| - 1], lens[|lens| - 1];
      AudiosTile(init, w);
      ChunksTile(len, w);
      ChunkRowsSum(len, w);
      SumConcat(AllChunks(init, w), ChunksOf(len, w));
      OutsConcat(AllChunks(init, w), ChunksOf(len, w));
      SumConcat(Outs(AllChunks(init, w)), Outs(ChunksOf(len, w)));
      assert Outs(lens)[..|init|] == Outs(init);
    }
  }

  lemma {:induction false} ChunkCount(lens: seq<nat>, w: nat, i: nat)
    requires w > 0 && (forall k :: 0 <= k < |lens| ==> lens[k] > 0) && i < |lens|
    ensures |AllChunks(lens[..i + 1], w)| == |AllChunks(lens[..i], w)| + CeilDiv(lens[i], w)
    ensures CeilDiv(lens[i], w) > 0
    ensures AllChunks(lens[..i + 1], w) == AllChunks(lens[..i], w) + ChunksOf(lens[i], w)
  {
    hide CeilDiv;
    assert lens[..i + 1][..i] == lens[..i];
    ChunkShape(lens[i], w);
  }

  /** The source fills all chunks with the full width, overwrites each audio's last one with the
      remainder, and turns zero remainders back into full chunks. */
  method ChunkLengths(lens: seq<nat>, w: nat) returns (chunks: array<nat>)
    requires w > 0 && forall i :: 0 <= i < |lens| ==> lens[i] > 0
    ensures fresh(chunks) && chunks[..] == AllChunks(lens, w)
  {
    hide AllChunks, ChunksOf, CeilDiv;
    NoChunks(w);
    assert lens[..0] == [];
    var total := 0;
    for i := 0 to |lens|
      invariant total == |AllChunks(lens[..i], w)|
    {
      ChunkCount(lens, w, i);
      total := total + CeilDiv(lens[i], w);
    }
    assert lens[..|lens|] == lens;
    chunks := new nat[total](_ => w);
    var tail := -1;
    for i := 0 to |lens|
      invariant tail + 1 == |AllChunks(lens[..i], w)| <= total
      invariant forall j :: 0 <= j <= tail ==>
        || (chunks[j] == AllChunks(lens[..i], w)[j] && chunks[j] != 0)
        || (chunks[j] == 0 && AllChunks(lens[..i], w)[j] == w)
      invariant forall j :: tail < j < total ==> chunks[j] == w
    {
      ChunkCount(lens, w, i);
      ChunksGrow(lens, w, i + 1, |lens|);
      ChunkShape(lens[i], w);
      ghost var before := AllChunks(lens[..i], w);
      tail := tail + CeilDiv(lens[i], w);
      chunks[tail] := lens[i] % w;
    }
    for j := 0 to total
      invariant forall k :: 0 <= k < j ==> chunks[k] == AllChunks(lens, w)[k]
      invariant forall k :: j <= k < total ==>
        || (chunks[k] == AllChunks(lens, w)[k] && chunks[k] != 0)
        || (chunks[k] == 0 && AllChunks(lens, w)[k] == w)
    {
      if chunks[j] == 0 {
        chunks[j] := w;
      }
    }
  }

  lemma {:induction false} NoChunks(w: nat)
    requires w > 0
    ensures AllChunks([], w) == []
  {
  }

  lemma {:induction false} ChunksGrow(lens: seq<nat>, w: nat, i: nat, n: nat)
    requires w > 0 && (forall k :: 0 <= k < |lens| ==> lens[k] > 0) && i <= n <= |lens|
    ensures |AllChunks(lens[..i], w)| <= |AllChunks(lens[..n], w)|
    decreases n
  {
    hide AllChunks, CeilDiv;
    if i < n {
      ChunkCount(lens, w, n - 1);
      ChunksGrow(lens, w, i, n - 1);
    }
  }

  // ----- attention windows

  /** Cut off full windows until the rest fits; an empty rest gives no window. */
  function WindowsOf(rows: nat, win: nat): seq<nat>
    requires win > 0
  {
    if rows == 0 then [] else if rows <= win then [rows] else [win] + WindowsOf(rows - win, win)
  }

  /** In the source's terms: as many full windows as fit, then the remainder if there is one. */
  lemma {:induction false} WindowShape(rows: nat, win: nat)
    requires win > 0
    ensures WindowsOf(rows, win) == Repeat(win, rows / win) + if rows % win != 0 then [rows % win] else []
    decreases rows
  {
    if rows < win {
      DivModSmall(rows, win);
    } else {
      WindowShape(rows - win, win);
      DivModShift(rows - win, win);
      assert rows / win == (rows - win) / win + 1;
      assert [win] + Repeat(win, (rows - win) / win) == Repeat(win, rows / win);
    }
  }

  lemma {:induction false} WindowsTile(rows: nat, win: nat)
    requires win > 0
    ensures Sum(WindowsOf(rows, win)) == rows
    ensures forall x :: x in WindowsOf(rows, win) ==> x > 0
    decreases rows
  {
    if rows > win {
      WindowsTile(rows - win, win);
      SumConcat([win], WindowsOf(rows - win, win));
      SumSingle(win);
    } else if rows > 0 {
      SumSingle(rows);
    }
  }

  function AllWindows(totals: seq<nat>, win: nat): seq<nat>
    requires win > 0
  {
    if totals == [] then [] else AllWindows(totals[..|totals| - 1], win) + WindowsOf(totals[|totals| - 1], win)
  }

  /** The window list with a leading zero, and its running sum. */
  method CuSeqlens(totals: seq<nat>, win: nat) returns (cu: seq<int>)
    requires win > 0
    ensures |cu| == |AllWindows(totals, win)| + 1
    ensures forall k :: 0 <= k < |cu| ==> cu[k] == Sum(AllWindows(totals, win)[..k])
  {
    var lens: seq<nat> := [0];
    for i := 0 to |totals|
      invariant lens == [0] + AllWindows(totals[..i], win)
    {
      assert totals[..i + 1][..i] == totals[..i];
      WindowShape(totals[i], win);
      lens := lens + Repeat(win, totals[i] / win);
      var remainder := totals[i] % win;
      if remainder != 0 {
        lens := lens + [remainder];
      }
    }
    assert totals[..|totals|] == totals;
    var all := lens[1..];
    cu := [];
    var acc := 0;
    for k := 0 to |lens|
      invariant |cu| == k
      invariant acc == if k == 0 then 0 else Sum(all[..k - 1])
      invariant forall j :: 0 <= j < k ==> cu[j] == Sum(all[..j])
    {
      if k > 0 {
        SumStep(all, k - 1);
      }
      acc := acc + lens[k];
      cu := cu + [acc];
    }
  }

  /** Rows of the first `i` audios. */
  function RowsBefore(lens: seq<nat>, i: nat): int
    requires i <= |lens|
  {
    Sum(Outs(lens)[..i])
  }

  /** Every window is positive, the windows of the first `i` audios are a prefix, and they sum to
      the rows of those audios: so the running sum strictly increases, ends at the total and has a
      cut at every audio boundary. */
  lemma {:induction false} WindowsCutAudios(totals: seq<nat>, win: nat, i: nat)
    requires win > 0 && i <= |totals|
    ensures forall x :: x in AllWindows(totals, win) ==> x > 0
    ensures AllWindows(totals[..i], win) <= AllWindows(totals, win)
    ensures Sum(AllWindows(totals[..i], win)) == Sum(totals[..i])
    decreases |totals|
  {
    if totals == [] {
      assert totals[..i] == totals;
    } else {
      var init, last := totals[..|totals| - 1], totals[|totals| - 1];
      WindowsTile(last, win);
      if i < |totals| {
        WindowsCutAudios(init, win, i);
        assert init[..i] == totals[..i];
      } else {
        WindowsCutAudios(init, win, |init|);
        assert totals[..i] == totals && init[..|init|] == init;
        SumConcat(AllWindows(init, win), WindowsOf(last, win));
      }
    }
  }

  lemma {:induction false} CutsIncrease(all: seq<nat>, k: nat)
    requires k < |all| && forall x :: x in all ==> x > 0
    ensures Sum(all[..k]) < Sum(all[..k + 1])
  {
    assert all[k] in all;
    SumStep(all, k);
  }

  // ----- windows end only where chunks end

  /** More rows than `k` full chunks give means at least `k` full chunks in front. */
  lemma {:induction false} SkipChunks(len: nat, w: nat, k: nat)
    requires Hundreds(w) && len > 0 && OutLen(len) > Times(k, OutLen(w))
    ensures len > Times(k, w)
    ensures ChunksOf(len, w) == Repeat(w, k) + ChunksOf(len - Times(k, w), w)
    ensures OutLen(len) == Times(k, OutLen(w)) + OutLen(len - Times(k, w))
    decreases k
  {
    hide OutLen;
    if k == 0 {
      assert Repeat(w, 0) + ChunksOf(len, w) == ChunksOf(len, w);
    } else {
      OutLenPositive(w);
      if len <= w {
        OutLenMonotone(len, w);
      }
      FullChunk(w, len);
      SkipChunks(len - w, w, k - 1);
      assert Repeat(w, k) == [w] + Repeat(w, k - 1);
      var rest := ChunksOf(len - Times(k, w), w);
      assert [w] + (Repeat(w, k - 1) + rest) == [w] + Repeat(w, k - 1) + rest;
    }
  }

  lemma {:induction false} OutsOfFull(w: nat, k: nat, rest: seq<nat>, j: nat)
    requires j <= |rest|
    ensures Sum(Outs(Repeat(w, k) + rest)[..k + j]) == Times(k, OutLen(w)) + Sum(Outs(rest)[..j])
  {
    hide OutLen;
    OutsConcat(Repeat(w, k), rest);
    var full := Repeat<int>(OutLen(w), k);
    assert Outs(Repeat(w, k)) == full;
    SumRepeat(OutLen(w), k);
    TimesIsProduct(k, OutLen(w));
    SumConcat(full, Outs(rest)[..j]);
    assert Outs(Repeat(w, k) + rest)[..k + j] == full + Outs(rest)[..j];
  }

  /** Within one audio, every window ends where a chunk ends. */
  lemma {:induction false} WindowEndsAtChunk(len: nat, w: nat, k: nat, win: nat, t: nat) returns (j: nat)
    requires Hundreds(w) && len > 0 && k > 0 && win > 0 && OutLen(len) > 0
    requires OutLen(len) <= win || win == Times(k, OutLen(w))
    requires t <= |WindowsOf(OutLen(len), win)|
    ensures j <= |ChunksOf(len, w)| && Sum(WindowsOf(OutLen(len), win)[..t]) == Sum(Outs(ChunksOf(len, w))[..j])
    decreases len
  {
    hide OutLen, ChunksOf;
    var ws, cs := WindowsOf(OutLen(len), win), ChunksOf(len, w);
    if t == 0 {
      j := 0;
    } else if OutLen(len) <= win {
      j := |cs|;
      ChunkRowsSum(len, w);
      assert ws[..t] == [OutLen(len)] && Outs(cs)[..j] == Outs(cs);
      SumSingle(OutLen(len));
    } else {
      SkipChunks(len, w, k);
      var rest := len - Times(k, w);
      OutLenPositive(rest);
      TimesIsProduct(k, w);
      var i := WindowEndsAtChunk(rest, w, k, win, t - 1);
      j := k + i;
      OutsOfFull(w, k, ChunksOf(rest, w), i);
      var tail := WindowsOf(OutLen(rest), win);
      assert ws[..t] == [win] + tail[..t - 1];
      SumConcat([win], tail[..t - 1]);
      SumSingle(win);
    }
  }

  /** The window suits an audio: it holds all of it, or is a whole number of full chunks. */
  ghost predicate Suits(len: nat, w: nat, k: nat, win: nat) {
    OutLen(len) <= win || win == Times(k, OutLen(w))
  }

  lemma {:induction false} WindowsEndAtChunks(lens: seq<nat>, w: nat, k: nat, win: nat, t: nat) returns (j: nat)
    requires Hundreds(w) && k > 0 && win > 0
    requires forall i :: 0 <= i < |lens| ==> lens[i] > 0 && Suits(lens[i], w, k, win)
    requires t <= |AllWindows(Outs(lens), win)|
    ensures j <= |AllChunks(lens, w)|
    ensures Sum(AllWindows(Outs(lens), win)[..t]) == Sum(Outs(AllChunks(lens, w))[..j])
    decreases |lens|
  {
    hide OutLen, ChunksOf, WindowsOf, Outs;
    if lens == [] {
      j := 0;
    } else {
      var init, len := lens[..|lens| - 1], lens[|lens| - 1];
      assert Outs(lens)[..|init|] == Outs(init);
      var ws, cs := AllWindows(Outs(init), win), AllChunks(init, w);
      var w1, c1 := WindowsOf(Outs(lens)[|init|], win), ChunksOf(len, w);
      OutsConcat(cs, c1);
      if t <= |ws| {
        j := WindowsEndAtChunks(init, w, k, win, t);
        assert (ws + w1)[..t] == ws[..t] && (Outs(cs) + Outs(c1))[..j] == Outs(cs)[..j];
      } else {
        OutLenPositive(len);
        var i := WindowEndsAtChunk(len, w, k, win, t - |ws|);
        j := |cs| + i;
        assert (ws + w1)[..t] == ws + w1[..t - |ws|] && (Outs(cs) + Outs(c1))[..j] == Outs(cs) + Outs(c1)[..i];
        SumConcat(ws, w1[..t - |ws|]);
        SumConcat(Outs(cs), Outs(c1)[..i]);
        WindowsSumToRows(init, w, win);
      }
    }
  }

  lemma {:induction false} WindowsSumToRows(lens: seq<nat>, w: nat, win: nat)
    requires Hundreds(w) && win > 0 && forall i :: 0 <= i < |lens| ==> lens[i] > 0
    ensures Sum(AllWindows(Outs(lens), win)) == Sum(Outs(AllChunks(lens, w))) == Sum(Outs(lens))
  {
    hide OutLen;
    WindowsCutAudios(Outs(lens), win, |lens|);
    assert Outs(lens)[..|lens|] == Outs(lens);
    AudiosTile(lens, w);
  }

  /** The attention window: the padded chunk output times the chunks per inference window.
      The width of the padded output is the longest chunk's. */
  function Window(lens: seq<nat>, w: nat, infer: nat): int
    requires w > 0 && lens != []
  {
    ChunksExist(lens, w);
    Largest(Outs(AllChunks(lens, w))) * (infer / w)
  }

  lemma {:induction false} ChunksExist(lens: seq<nat>, w: nat)
    requires w > 0 && lens != []
    ensures AllChunks(lens, w) != []
  {
  }

  lemma {:induction false} ChunkPresent(lens: seq<nat>, w: nat, i: nat, c: nat)
    requires w > 0 && i < |lens| && c in ChunksOf(lens[i], w)
    ensures c in AllChunks(lens, w)
    decreases |lens|
  {
    if i < |lens| - 1 {
      ChunkPresent(lens[..|lens| - 1], w, i, c);
    }
  }

  lemma {:induction false} WindowSuits(lens: seq<nat>, w: nat, infer: nat, i: nat)
    requires Hundreds(w) && infer >= w && i < |lens| && forall k :: 0 <= k < |lens| ==> lens[k] > 0
    ensures infer / w > 0 && Window(lens, w, infer) > 0
    ensures Suits(lens[i], w, infer / w, Window(lens, w, infer))
  {
    hide OutLen, AllChunks;
    ChunksExist(lens, w);
    var chunks, k, len := AllChunks(lens, w), infer / w, lens[i];
    var outs := Outs(chunks);
    var m := Largest(outs);
    AudiosTile(lens, w);
    DivModShift(infer - w, w);
    assert k > 0;
    var c := if len <= w then len else w;
    ChunkPresent(lens, w, i, c);
    var at :| 0 <= at < |chunks| && chunks[at] == c;
    assert outs[at] == OutLen(c) && outs[at] in outs;
    OutLenPositive(c);
    TimesIsProduct(k, m);
    TimesIsProduct(k, OutLen(w));
    if len >= w {
      var b :| 0 <= b < |outs| && outs[b] == m;
      assert chunks[b] in chunks;
      OutLenMonotone(chunks[b], w);
      assert m == OutLen(w);
    }
  }

  lemma {:induction false} ChunksFit(lens: seq<nat>, w: nat, longest: nat)
    requires w > 0 && forall k :: 0 <= k < |lens| ==> 0 < lens[k] <= longest
    ensures forall c :: c in AllChunks(lens, w) ==> c <= Min(w, longest)
  {
    if lens != [] {
      var len := lens[|lens| - 1];
      ChunksFit(lens[..|lens| - 1], w, longest);
      ChunksTile(len, w);
      if len <= w {
        assert ChunksOf(len, w) == [len];
      }
    }
  }

  /** The window is as many rows as the longest chunk of the longest audio gives, times the chunks of
      an inference window: no audio longer than a chunk widens it. */
  lemma {:induction false} WindowWidth(lens: seq<nat>, w: nat, infer: nat)
    requires Hundreds(w) && lens != [] && forall k :: 0 <= k < |lens| ==> lens[k] > 0
    ensures Window(lens, w, infer) == OutLen(Min(w, Largest(lens))) * (infer / w)
  {
    hide OutLen, AllChunks;
    ChunksExist(lens, w);
    var longest := Largest(lens);
    var chunks, c := AllChunks(lens, w), Min(w, longest);
    assert forall k :: 0 <= k < |lens| ==> lens[k] in lens;
    ChunksFit(lens, w, longest);
    var i :| 0 <= i < |lens| && lens[i] == longest;
    ChunkPresent(lens, w, i, c);
    var outs := Outs(chunks);
    var at :| 0 <= at < |chunks| && chunks[at] == c;
    assert outs[at] in outs;
    var b :| 0 <= b < |outs| && outs[b] == Largest(outs);
    assert chunks[b] in chunks;
    OutLenMonotone(chunks[b], c);
  }

  /** For every list of non-empty audios: with windows of the stated width the cumulative window list
      strictly increases, ends at the total row count, has a cut at every audio boundary, and cuts only
      at chunk boundaries. */
  lemma {:induction false} WindowTheorem(lens: seq<nat>, w: nat, infer: nat)
    requires Hundreds(w) && infer >= w && lens != [] && forall k :: 0 <= k < |lens| ==> lens[k] > 0
    ensures Window(lens, w, infer) == OutLen(Min(w, Largest(lens))) * (infer / w) > 0
    ensures var all := AllWindows(Outs(lens), Window(lens, w, infer));
      && (forall t :: 0 <= t < |all| ==> Sum(all[..t]) < Sum(all[..t + 1]))
      && Sum(all[..|all|]) == Sum(Outs(AllChunks(lens, w))) == Sum(Outs(lens))
      && (forall i :: 0 <= i <= |lens| ==> exists t :: 0 <= t <= |all| && Sum(all[..t]) == RowsBefore(lens, i))
      && (forall t :: 0 <= t <= |all| ==> ChunkBoundary(AllChunks(lens, w), Sum(all[..t])))
  {
    hide OutLen, AllChunks, AllWindows, Window, Largest;
    WindowSuits(lens, w, infer, 0);
    WindowWidth(lens, w, infer);
    var win: nat := Window(lens, w, infer);
    forall i | 0 <= i < |lens| ensures Suits(lens[i], w, infer / w, win) {
      WindowSuits(lens, w, infer, i);
    }
    var all := AllWindows(Outs(lens), win);
    WindowsCutAudios(Outs(lens), win, 0);
    forall t | 0 <= t < |all| ensures Sum(all[..t]) < Sum(all[..t + 1]) {
      CutsIncrease(all, t);
    }
    WindowsSumToRows(lens, w, win);
    assert all[..|all|] == all;
    forall i | 0 <= i <= |lens| ensures exists t :: 0 <= t <= |all| && Sum(all[..t]) == RowsBefore(lens, i) {
      WindowsCutAudios(Outs(lens), win, i);
      var t := |AllWindows(Outs(lens)[..i], win)|;
      assert all[..t] == AllWindows(Outs(lens)[..i], win);
    }
    forall t | 0 <= t <= |all| ensures ChunkBoundary(AllChunks(lens, w), Sum(all[..t])) {
      var j := WindowsEndAtChunks(lens, w, infer / w, win, t);
    }
  }
}
