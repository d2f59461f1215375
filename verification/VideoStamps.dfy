/** The timestamps written in front of a video's grids, from the frame indices of its metadata. */
module VideoStamps {
  import opened Sequences
  import opened Layout
  import opened VideoLayout
  import opened Timestamps

  /** The video's timestamps are those calculated from frame indices `idx`, `m` frames a grid. */
  predicate Stamped(v: VideoIn, idx: seq<nat>, fps: real, m: nat)
    requires fps > 0.0 && m > 0
  {
    && |v.times| == CeilDiv(|idx|, m) && (v.times != [] ==> idx != [])
    && forall g :: 0 <= g < |v.times| ==> v.times[g] == TimeOf(idx, fps, m, false, g)
  }

  /** Grid `g` gets the midpoint of its own frames while there are frames for it. Past them a vocal
      video repeats its last timestamp, and a silent one, or one without any, counts grids. */
  lemma {:induction false} StampOfGrid(cfg: Settings, v: VideoIn, idx: seq<nat>, fps: real, m: nat, g: nat)
    requires fps > 0.0 && m > 0 && Stamped(v, idx, fps, m)
    ensures var n := CeilDiv(|idx|, m);
      && n >= 0 && (n > 0 <==> idx != [])
      && StampTime(cfg, v, g) ==
           if g < n then Midpoint(idx, fps, m, g)
           else if cfg.vocal && n > 0 then Midpoint(idx, fps, m, n - 1)
           else g as real
  {
    RoundedUp(|idx|, m);
    hide CeilDiv, Midpoint;
  }

  /** Spans in a list of pieces. */
  function Spans(ps: seq<Piece>): nat {
    if ps == [] then 0 else Spans(ps[..|ps| - 1]) + if ps[|ps| - 1].Media? then 1 else 0
  }

  lemma {:induction false} SpansConcat(a: seq<Piece>, b: seq<Piece>)
    ensures Spans(a + b) == Spans(a) + Spans(b)
    decreases |b|
  {
    if b == [] {
      assert a + b == a;
    } else {
      assert (a + b)[..|a + b| - 1] == a + b[..|b| - 1];
      SpansConcat(a, b[..|b| - 1]);
    }
  }

  lemma {:induction false} WordsNoSpan(ids: seq<nat>)
    ensures Spans(Words(ids)) == 0
  {
    if ids != [] {
      assert Words(ids)[..|ids| - 1] == Words(ids[..|ids| - 1]);
      WordsNoSpan(ids[..|ids| - 1]);
    }
  }

  /** The first `g` grids are written as `g` spans, the last of them at the end. */
  lemma {:induction false} GridsWritten(cfg: Settings, v: VideoIn, len: nat, g: nat)
    requires ValidVideo(cfg, v) && g <= v.grid.t
    ensures var ps := VideoPieces(cfg, v, len, g); Spans(ps) == g && (g > 0 ==> ps != [] && ps[|ps| - 1].Media?)
  {
    hide ValidVideo, Stamp, GridSpan, Spans, Words;
    if g > 0 {
      GridsWritten(cfg, v, len, g - 1);
      OneSpanMore(VideoPieces(cfg, v, len, g - 1), Stamp(cfg, v, g - 1), GridSpan(cfg, v, len, g - 1));
    } else {
      NoSpans();
    }
  }

  lemma {:induction false} NoSpans()
    ensures Spans([]) == 0
  {
  }

  lemma {:induction false} OneSpanMore(before: seq<Piece>, ids: seq<nat>, span: Span)
    ensures Spans(before + Words(ids) + [Media(span)]) == Spans(before) + 1
  {
    var ps := before + Words(ids) + [Media(span)];
    assert ps[..|ps| - 1] == before + Words(ids);
    hide Words;
    WordsNoSpan(ids);
    SpansConcat(before, Words(ids));
  }

  lemma {:induction false} GridsInFront(cfg: Settings, v: VideoIn, len: nat, g: nat, n: nat) returns (after: seq<Piece>)
    requires ValidVideo(cfg, v) && g <= n <= v.grid.t
    ensures VideoPieces(cfg, v, len, n) == VideoPieces(cfg, v, len, g) + after
    decreases n
  {
    hide ValidVideo, Stamp, GridSpan;
    if g == n {
      after := [];
    } else {
      var rest := GridsInFront(cfg, v, len, g, n - 1);
      after := rest + Words(Stamp(cfg, v, n - 1)) + [Media(GridSpan(cfg, v, len, n - 1))];
    }
  }

  /** What is written between the spans `before` and grid `g`: exactly the rendered midpoint of that
      grid's own frames, or the fallback of the mode where there are no frames for it. */
  lemma {:induction false} StampWritten(cfg: Settings, v: VideoIn, len: nat, idx: seq<nat>, fps: real, m: nat, g: nat)
    returns (before: seq<Piece>, after: seq<Piece>)
    requires fps > 0.0 && m > 0 && Stamped(v, idx, fps, m) && ValidVideo(cfg, v) && g < v.grid.t
    ensures CeilDiv(|idx|, m) >= 0 && (CeilDiv(|idx|, m) > 0 <==> idx != [])
    ensures var n := CeilDiv(|idx|, m);
      var time := if g < n then Midpoint(idx, fps, m, g)
        else if cfg.vocal && n > 0 then Midpoint(idx, fps, m, n - 1)
        else g as real;
      VideoPieces(cfg, v, len, v.grid.t)
        == before + Words(cfg.format(time)) + [Media(GridSpan(cfg, v, len, g))] + after
    ensures Spans(before) == g && (before == [] || before[|before| - 1].Media?)
  {
    StampOfGrid(cfg, v, idx, fps, m, g);
    hide CeilDiv, Midpoint, ValidVideo, GridSpan, StampTime, Stamped;
    before := VideoPieces(cfg, v, len, g);
    after := GridsInFront(cfg, v, len, g + 1, v.grid.t);
    GridsWritten(cfg, v, len, g);
    NothingWritten(cfg, v, len);
  }

  lemma {:induction false} NothingWritten(cfg: Settings, v: VideoIn, len: nat)
    requires ValidVideo(cfg, v)
    ensures VideoPieces(cfg, v, len, 0) == []
  {
  }

  /** When a frame is shown. */
  function FrameTime(frame: nat, fps: real): real
    requires fps > 0.0
  {
    frame as real / fps
  }

  lemma {:induction false} MiddleOfSame(a: nat, b: nat, c: nat, fps: real)
    requires fps > 0.0
    ensures Middle(a, c, fps) == Middle(b, c, fps) <==> a == b
    ensures Middle(c, c, fps) == FrameTime(c, fps)
  {
    var p, q := a as real / fps, b as real / fps;
    assert p * fps == a as real && q * fps == b as real;
  }

  /** Past the frames there is only the last one, and the last patch ends with it. */
  lemma {:induction false} PastFrames(idx: seq<nat>, fps: real, m: nat, g: nat)
    requires fps > 0.0 && m > 0 && idx != []
    ensures var n, last := CeilDiv(|idx|, m), idx[|idx| - 1];
      && n > 0 && Held(idx, Times(n - 1, m) + m - 1) == last
      && (g >= n ==> Midpoint(idx, fps, m, g) == FrameTime(last, fps))
  {
    RoundedUp(|idx|, m);
    var n, last := CeilDiv(|idx|, m), idx[|idx| - 1];
    hide CeilDiv, Middle, FrameTime;
    assert Times(n, m) == Times(n - 1, m) + m;
    MiddleOfSame(last, last, last, fps);
    if g > n {
      GroupsInOrder(n, g, m);
    }
  }

  /** The stamp of one grid is the midpoint of its frames, the last one held to the end, exactly when
      there are frames for it or the fallback happens to agree. */
  lemma {:induction false} StampIsMidpoint(cfg: Settings, v: VideoIn, idx: seq<nat>, fps: real, m: nat, g: nat)
    requires fps > 0.0 && m > 0 && idx != [] && Stamped(v, idx, fps, m)
    ensures var n, last := CeilDiv(|idx|, m), idx[|idx| - 1];
      n > 0 && (StampTime(cfg, v, g) == Midpoint(idx, fps, m, g)
        <==> g < n || if cfg.vocal then Held(idx, Times(n - 1, m)) == last else FrameTime(last, fps) == g as real)
  {
    hide CeilDiv, StampTime, Stamped, Middle, Held, Times, FrameTime;
    var n, last := CeilDiv(|idx|, m), idx[|idx| - 1];
    StampOfGrid(cfg, v, idx, fps, m, g);
    PastFrames(idx, fps, m, g);
    MiddleOfSame(Held(idx, Times(n - 1, m)), last, last, fps);
  }

  /** All grids carry the midpoint of their own frames exactly when there are frames for every grid;
      or, in a vocal video, the last patch is one frame repeated; or, in a silent one, a single grid is
      past the frames and the last frame is shown at that grid's number of seconds. */
  lemma {:induction false} StampsAreMidpoints(cfg: Settings, v: VideoIn, idx: seq<nat>, fps: real, m: nat)
    requires fps > 0.0 && m > 0 && idx != [] && Stamped(v, idx, fps, m)
    ensures var n, t, last := CeilDiv(|idx|, m), v.grid.t, idx[|idx| - 1];
      n > 0 && ((forall g: nat :: g < t ==> StampTime(cfg, v, g) == Midpoint(idx, fps, m, g))
        <==> n >= t
             || (if cfg.vocal then Held(idx, Times(n - 1, m)) == last
                 else t == n + 1 && FrameTime(last, fps) == n as real))
  {
    PastFrames(idx, fps, m, 0);
    hide CeilDiv, StampTime, Stamped, Midpoint, Held, Times, FrameTime;
    var n, t, last := CeilDiv(|idx|, m), v.grid.t, idx[|idx| - 1];
    forall g: nat | g < t
      ensures StampTime(cfg, v, g) == Midpoint(idx, fps, m, g)
        <==> g < n || if cfg.vocal then Held(idx, Times(n - 1, m)) == last else FrameTime(last, fps) == g as real
    {
      StampIsMidpoint(cfg, v, idx, fps, m, g);
    }
    StampIsMidpoint(cfg, v, idx, fps, m, n);
    if n + 1 < t {
      StampIsMidpoint(cfg, v, idx, fps, m, n + 1);
    }
  }
}
