/** How one video is written into the prompt: one timestamped span per temporal grid, with the
    audio track of a vocal video cut into one slice per grid. */
module VideoLayout {
  import opened Sequences
  import opened Layout
  import opened Positions
  import opened RopeIndexer

  /** A decoded video: its grid, the seconds one temporal grid covers and the sampled timestamps. */
  datatype VideoIn = VideoIn(grid: Grid, seconds: real, times: seq<real>)

  /** Processor settings. `format` renders a timestamp as (opaque) text tokens. */
  datatype Settings = Settings(merge: nat, rate: nat, vocal: bool, format: real -> seq<nat>)

  predicate ValidVideo(cfg: Settings, v: VideoIn) {
    v.grid.t > 0 && Whole(v.grid.(t := 1), cfg.merge) && v.seconds >= 0.0
  }

  // ----- slicing an audio track

  /** The track row at which grid `g` starts, before clamping; 1e-6 is the source's nudge. */
  function RawBoundary(g: nat, seconds: real, rate: nat): int {
    (g as real * seconds * rate as real + 0.000001).Floor
  }

  /** First track row of grid `g` out of `t`, for a track of `len` rows. */
  function Boundary(g: nat, t: nat, seconds: real, rate: nat, len: nat): int {
    if g == 0 then 0
    else if g < t then Min(len, RawBoundary(g, seconds, rate))
    else len
  }

  lemma {:induction false} RawBoundaryMonotone(g: nat, seconds: real, rate: nat)
    requires seconds >= 0.0
    ensures 0 <= RawBoundary(g, seconds, rate) <= RawBoundary(g + 1, seconds, rate)
  {
    var step := seconds * rate as real;
    assert step >= 0.0;
    assert g as real * seconds * rate as real == g as real * step;
    assert (g + 1) as real * seconds * rate as real == g as real * step + step;
    assert g as real * step >= 0.0;
    FloorMonotone(g as real * step + 0.000001, g as real * step + step + 0.000001);
    FloorMonotone(0.0, g as real * step + 0.000001);
    assert 0.0.Floor == 0;
  }

  lemma {:induction false} FloorMonotone(a: real, b: real)
    requires a <= b
    ensures a.Floor <= b.Floor
  {
  }

  /** The boundaries partition `0..len`: they start at 0, never decrease and end at `len`. */
  lemma {:induction false} BoundaryPartition(t: nat, seconds: real, rate: nat, len: nat, g: nat)
    requires seconds >= 0.0 && g < t
    ensures Boundary(0, t, seconds, rate, len) == 0 && Boundary(t, t, seconds, rate, len) == len
    ensures 0 <= Boundary(g, t, seconds, rate, len) <= Boundary(g + 1, t, seconds, rate, len) <= len
  {
    RawBoundaryMonotone(g, seconds, rate);
  }

  lemma {:induction false} BoundaryOrdered(t: nat, seconds: real, rate: nat, len: nat, i: nat, j: nat)
    requires seconds >= 0.0 && t > 0 && i <= j <= t
    ensures 0 <= Boundary(i, t, seconds, rate, len) <= Boundary(j, t, seconds, rate, len) <= len
    decreases j
  {
    if i < j {
      BoundaryPartition(t, seconds, rate, len, j - 1);
      BoundaryOrdered(t, seconds, rate, len, i, j - 1);
    } else if i < t {
      BoundaryPartition(t, seconds, rate, len, i);
    }
  }

  /** A track row goes to the grid in whose time its end lies, up to the nudge; what lies before or
      behind the grids goes to the first or the last one. */
  lemma {:induction false} TrackRowGrid(t: nat, seconds: real, rate: nat, len: nat, g: nat, k: nat)
    requires seconds >= 0.0 && g < t && k < len
    ensures Boundary(g, t, seconds, rate, len) <= k < Boundary(g + 1, t, seconds, rate, len)
       <==> && (g == 0 || g as real * seconds * rate as real + 0.000001 < (k + 1) as real)
            && (g + 1 == t || (k + 1) as real <= (g + 1) as real * seconds * rate as real + 0.000001)
  {
    FloorBelow(g as real * seconds * rate as real + 0.000001, k);
    FloorBelow((g + 1) as real * seconds * rate as real + 0.000001, k);
  }

  lemma {:induction false} FloorBelow(x: real, k: int)
    ensures x.Floor <= k <==> x < (k + 1) as real
  {
  }

  /** The boundary loop: every new boundary is clamped between the previous one and the length.
      The clamp from below never acts. */
  method AudioBoundaries(t: nat, seconds: real, rate: nat, len: nat) returns (bounds: seq<nat>)
    requires t > 0 && seconds >= 0.0
    ensures |bounds| == t + 1
    ensures forall g :: 0 <= g <= t ==> bounds[g] == Boundary(g, t, seconds, rate, len)
  {
    bounds := [0];
    var g := 1;
    while g < t
      invariant 1 <= g <= t && |bounds| == g
      invariant forall i :: 0 <= i < g ==> bounds[i] == Boundary(i, t, seconds, rate, len)
    {
      RawBoundaryMonotone(g, seconds, rate);
      BoundaryOrdered(t, seconds, rate, len, g - 1, g);
      var b := RawBoundary(g, seconds, rate);
      b := Min(len, Max(b, bounds[g - 1]));
      bounds := bounds + [b];
      g := g + 1;
    }
    bounds := bounds + [len];
  }

  // ----- the spans of a video

  function Slice(cfg: Settings, v: VideoIn, len: nat, g: nat): nat
    requires ValidVideo(cfg, v) && g < v.grid.t
  {
    BoundaryPartition(v.grid.t, v.seconds, cfg.rate, len, g);
    Boundary(g + 1, v.grid.t, v.seconds, cfg.rate, len) - Boundary(g, v.grid.t, v.seconds, cfg.rate, len)
  }

  function StampTime(cfg: Settings, v: VideoIn, g: nat): real {
    if cfg.vocal then
      if v.times == [] then g as real else v.times[Min(g, |v.times| - 1)]
    else
      if g < |v.times| then v.times[g] else g as real
  }

  function Stamp(cfg: Settings, v: VideoIn, g: nat): seq<nat> {
    cfg.format(StampTime(cfg, v, g))
  }

  function Texts(ids: seq<nat>): (r: seq<Token>)
    ensures |r| == |ids|
  {
    seq(|ids|, i requires 0 <= i < |ids| => Text(ids[i]))
  }

  /** Video pads of one vocal grid: merged height times merged width. */
  function VocalPads(g: Grid, merge: nat): nat
    requires merge > 0
  {
    Merged(g.h, merge) * Merged(g.w, merge)
  }

  /** Placeholder tokens of grid `g`. */
  function GridHold(cfg: Settings, v: VideoIn, len: nat, g: nat): seq<Token>
    requires ValidVideo(cfg, v) && g < v.grid.t
  {
    var pads := if cfg.vocal then VocalPads(v.grid, cfg.merge) else GridPads(v.grid, cfg.merge);
    if cfg.vocal then
      Texts(Stamp(cfg, v, g)) + [VisionStart, AudioStart] + Repeat(VideoHold, pads)
      + Repeat(AudioHold, Slice(cfg, v, len, g)) + [AudioEnd, VisionEnd]
    else
      Texts(Stamp(cfg, v, g)) + [VisionStart] + Repeat(VideoHold, pads) + [VisionEnd]
  }

  /** Placeholder tokens of the first `n` grids. */
  function VideoHolds(cfg: Settings, v: VideoIn, len: nat, n: nat): seq<Token>
    requires ValidVideo(cfg, v) && n <= v.grid.t
  {
    if n == 0 then [] else VideoHolds(cfg, v, len, n - 1) + GridHold(cfg, v, len, n - 1)
  }

  /** The span that grid `g` is meant to be. */
  function GridSpan(cfg: Settings, v: VideoIn, len: nat, g: nat): Span
    requires ValidVideo(cfg, v) && g < v.grid.t
  {
    var h, w := Merged(v.grid.h, cfg.merge), Merged(v.grid.w, cfg.merge);
    if cfg.vocal then Vocal(h, w, Slice(cfg, v, len, g)) else Video(h, w)
  }

  function VideoPieces(cfg: Settings, v: VideoIn, len: nat, n: nat): seq<Piece>
    requires ValidVideo(cfg, v) && n <= v.grid.t
  {
    if n == 0 then []
    else VideoPieces(cfg, v, len, n - 1) + Words(Stamp(cfg, v, n - 1)) + [Media(GridSpan(cfg, v, len, n - 1))]
  }

  // ----- renaming placeholders

  function RenameToken(t: Token): Token {
    match t
    case ImageHold => ImagePad
    case VideoHold => VideoPad
    case AudioHold => AudioPad
    case _ => t
  }

  function Rename(s: seq<Token>): (r: seq<Token>)
    ensures |r| == |s|
  {
    seq(|s|, i requires 0 <= i < |s| => RenameToken(s[i]))
  }

  lemma {:induction false} RenameConcat(a: seq<Token>, b: seq<Token>)
    ensures Rename(a + b) == Rename(a) + Rename(b)
  {
  }

  lemma {:induction false} RenameRepeat(t: Token, n: nat)
    ensures Rename(Repeat(t, n)) == Repeat(RenameToken(t), n)
  {
  }

  lemma {:induction false} WordsTokens(ids: seq<nat>)
    ensures Tokens(Words(ids)) == Texts(ids)
  {
    if ids != [] {
      assert Words(ids)[1..] == Words(ids[1..]);
      WordsTokens(ids[1..]);
      assert Texts(ids) == [Text(ids[0])] + Texts(ids[1..]);
    }
  }

  /** A renamed grid placeholder is the printed stamp and span. */
  lemma {:induction false} GridIsPrinted(cfg: Settings, v: VideoIn, len: nat, g: nat)
    requires ValidVideo(cfg, v) && g < v.grid.t
    ensures Rename(GridHold(cfg, v, len, g)) == Texts(Stamp(cfg, v, g)) + SpanTokens(GridSpan(cfg, v, len, g))
  {
    var h, w := Merged(v.grid.h, cfg.merge), Merged(v.grid.w, cfg.merge);
    MergedPads(v.grid.(t := 1), cfg.merge);
    assert GridPads(v.grid, cfg.merge) == GridPads(v.grid.(t := 1), cfg.merge);
    TimesIsProduct(h, w);
    assert VocalPads(v.grid, cfg.merge) == Times(h, w);
    hide GridPads, Slice, Times, Stamp, Divides, Merged, VocalPads;
    var stamp, slice := Texts(Stamp(cfg, v, g)), Slice(cfg, v, len, g);
    assert Rename(stamp) == stamp;
    RenameRepeat(VideoHold, Times(h, w));
    RenameRepeat(AudioHold, slice);
  }

  lemma {:induction false} PrintOneMore(before: seq<Token>, ps: seq<Piece>, hold: seq<Token>, ids: seq<nat>, span: Span)
    requires Rename(before) == Tokens(ps) && Rename(hold) == Texts(ids) + SpanTokens(span)
    ensures Rename(before + hold) == Tokens(ps + Words(ids) + [Media(span)])
  {
    hide Rename, Texts, Words, Tokens, SpanTokens;
    RenameConcat(before, hold);
    WordsTokens(ids);
    TokensSingle(Media(span));
    TokensConcat(ps, Words(ids));
    TokensConcat(ps + Words(ids), [Media(span)]);
    assert Tokens(ps) + (Texts(ids) + SpanTokens(span)) == Tokens(ps) + Texts(ids) + SpanTokens(span);
  }

  /** A renamed video placeholder is the printed sequence of its timestamped spans. */
  lemma {:induction false} VideoIsPrinted(cfg: Settings, v: VideoIn, len: nat, n: nat)
    requires ValidVideo(cfg, v) && n <= v.grid.t
    ensures Rename(VideoHolds(cfg, v, len, n)) == Tokens(VideoPieces(cfg, v, len, n))
  {
    hide GridHold, GridSpan, Slice, Stamp, SpanTokens, Words, ValidVideo;
    if n > 0 {
      VideoIsPrinted(cfg, v, len, n - 1);
      GridIsPrinted(cfg, v, len, n - 1);
      PrintOneMore(VideoHolds(cfg, v, len, n - 1), VideoPieces(cfg, v, len, n - 1), GridHold(cfg, v, len, n - 1),
                   Stamp(cfg, v, n - 1), GridSpan(cfg, v, len, n - 1));
    }
  }

  /** `_generate_video_placeholder`. */
  method GenerateVideo(cfg: Settings, v: VideoIn, len: nat) returns (r: seq<Token>)
    requires ValidVideo(cfg, v)
    ensures r == VideoHolds(cfg, v, len, v.grid.t)
  {
    hide GridPads, Divides, VocalPads, Stamp, Boundary;
    r := [];
    var bounds := [];
    if cfg.vocal {
      bounds := AudioBoundaries(v.grid.t, v.seconds, cfg.rate, len);
    }
    for g := 0 to v.grid.t
      invariant r == VideoHolds(cfg, v, len, g)
    {
      var part := Texts(Stamp(cfg, v, g));
      if cfg.vocal {
        BoundaryPartition(v.grid.t, v.seconds, cfg.rate, len, g);
        var slice := bounds[g + 1] - bounds[g];
        part := part + [VisionStart, AudioStart]
          + Repeat(VideoHold, VocalPads(v.grid, cfg.merge))
          + Repeat(AudioHold, slice) + [AudioEnd, VisionEnd];
      } else {
        part := part + [VisionStart] + Repeat(VideoHold, GridPads(v.grid, cfg.merge)) + [VisionEnd];
      }
      r := r + part;
    }
  }
}
