/** Reference geometry of the three-axis rotary positions: what columns a row of text cells and
    media spans receives, and the laws those columns obey. Nothing here looks at tokens. */
module Positions {
  import opened Sequences
  import opened Layout

  datatype Pos = Pos(t: nat, h: nat, w: nat)

  /** One text position, or one whole media span. */
  datatype Cell = Plain | Block(span: Span)

  /** Columns emitted so far and the start of the next block. */
  datatype Laid = Laid(cols: seq<Pos>, next: nat)

  function Shape(ps: seq<Piece>): (cells: seq<Cell>)
    ensures |cells| == |ps|
  {
    seq(|ps|, i requires 0 <= i < |ps| => if ps[i].Word? then Plain else Block(ps[i].span))
  }

  predicate PositiveCells(cells: seq<Cell>) {
    forall i :: 0 <= i < |cells| && cells[i].Block? ==> cells[i].span.Positive()
  }

  function Line(start: nat, n: nat): (cols: seq<Pos>)
    ensures |cols| == n
  {
    seq(n, k requires 0 <= k => Pos(start + k, start + k, start + k))
  }

  /** Row `i` of a grid whose content starts at `c`. */
  function GridRow(c: nat, i: nat, w: nat): (cols: seq<Pos>)
    ensures |cols| == w
  {
    seq(w, j requires 0 <= j => Pos(c, c + i, c + j))
  }

  /** All `h * w` positions of one temporal grid, row by row. */
  function GridCols(c: nat, h: nat, w: nat): seq<Pos> {
    if h == 0 then [] else GridCols(c, h - 1, w) + GridRow(c, h - 1, w)
  }

  /** Where the closing tokens of an audio-in-video span start. */
  function Closing(c: nat, h: nat, w: nat, audio: nat): nat {
    if audio > 0 then c + audio else c + Max(h, w)
  }

  /** Opening tokens of a span; it has as many closing tokens. */
  function Lead(s: Span): nat {
    if s.Vocal? then 2 else 1
  }

  /** Columns of a span's pads: audio in a vocal span restarts where the grid starts. */
  function Content(c: nat, s: Span): seq<Pos> {
    match s
    case Audio(len) => Line(c, len)
    case Image(h, w) => GridCols(c, h, w)
    case Video(h, w) => GridCols(c, h, w)
    case Vocal(h, w, audio) => GridCols(c, h, w) + Line(c, audio)
  }

  function ContentEnd(c: nat, s: Span): nat {
    match s
    case Audio(len) => c + len
    case Image(h, w) => c + Max(h, w)
    case Video(h, w) => c + Max(h, w)
    case Vocal(h, w, audio) => Closing(c, h, w, audio)
  }

  function SpanCols(start: nat, s: Span): seq<Pos> {
    var c := start + Lead(s);
    Line(start, Lead(s)) + Content(c, s) + Line(ContentEnd(c, s), Lead(s))
  }

  function SpanNext(start: nat, s: Span): nat {
    ContentEnd(start + Lead(s), s) + Lead(s)
  }

  function CellCols(start: nat, c: Cell): seq<Pos> {
    if c.Plain? then Line(start, 1) else SpanCols(start, c.span)
  }

  function CellNext(start: nat, c: Cell): nat {
    if c.Plain? then start + 1 else SpanNext(start, c.span)
  }

  function Lay(cells: seq<Cell>): Laid {
    if cells == [] then Laid([], 0)
    else
      var p := Lay(cells[..|cells| - 1]);
      var c := cells[|cells| - 1];
      Laid(p.cols + CellCols(p.next, c), CellNext(p.next, c))
  }

  lemma {:induction false} LayPush(cells: seq<Cell>, c: Cell)
    ensures Lay(cells + [c])
         == Laid(Lay(cells).cols + CellCols(Lay(cells).next, c), CellNext(Lay(cells).next, c))
  {
    assert (cells + [c])[..|cells|] == cells;
  }

  lemma {:induction false} LineSplit(start: nat, a: nat, b: nat)
    ensures Line(start, a) + Line(start + a, b) == Line(start, a + b)
  {
  }

  lemma {:induction false} LineGrow(cols: seq<Pos>, start: nat, n: nat)
    ensures cols + Line(start, n) + Line(start + n, 1) == cols + Line(start, n + 1)
  {
    LineSplit(start, n, 1);
  }

  /** `cells` followed by `n` text cells; their columns are one run of consecutive positions. */
  lemma {:induction false} LayText(cells: seq<Cell>, n: nat)
    ensures Lay(cells + Repeat(Plain, n))
         == Laid(Lay(cells).cols + Line(Lay(cells).next, n), Lay(cells).next + n)
  {
    if n == 0 {
      assert cells + Repeat(Plain, 0) == cells;
      assert Lay(cells).cols + Line(Lay(cells).next, 0) == Lay(cells).cols;
    } else {
      LayText(cells, n - 1);
      LayOneMore(cells + Repeat(Plain, n - 1), Lay(cells), n - 1);
      assert cells + Repeat(Plain, n - 1) + [Plain] == cells + Repeat(Plain, n);
    }
  }

  lemma {:induction false} LayOneMore(before: seq<Cell>, p: Laid, n: nat)
    requires Lay(before) == Laid(p.cols + Line(p.next, n), p.next + n)
    ensures Lay(before + [Plain]) == Laid(p.cols + Line(p.next, n + 1), p.next + n + 1)
  {
    LayPush(before, Plain);
    LineGrow(p.cols, p.next, n);
  }

  // ----- blocks

  function MaxOf(p: Pos): nat {
    Max(p.t, Max(p.h, p.w))
  }

  /** Largest coordinate of a non-empty block. */
  function MaxCoord(cols: seq<Pos>): nat
    requires cols != []
  {
    if |cols| == 1 then MaxOf(cols[0])
    else Max(MaxCoord(cols[..|cols| - 1]), MaxOf(cols[|cols| - 1]))
  }

  predicate Attained(cols: seq<Pos>, m: nat) {
    exists k :: 0 <= k < |cols| && MaxOf(cols[k]) == m
  }

  predicate Bounded(cols: seq<Pos>, m: int) {
    forall k :: 0 <= k < |cols| ==> MaxOf(cols[k]) <= m
  }

  /** `MaxCoord` is the least upper bound, so it is the only attained bound. */
  lemma {:induction false} MaxCoordIsMax(cols: seq<Pos>)
    requires cols != []
    ensures Bounded(cols, MaxCoord(cols)) && Attained(cols, MaxCoord(cols))
  {
    if |cols| > 1 {
      var init := cols[..|cols| - 1];
      MaxCoordIsMax(init);
      var k :| 0 <= k < |init| && MaxOf(init[k]) == MaxCoord(init);
      assert MaxOf(cols[k]) == MaxCoord(init);
      assert MaxOf(cols[|cols| - 1]) <= MaxCoord(cols);
      forall i | 0 <= i < |cols| ensures MaxOf(cols[i]) <= MaxCoord(cols) {
        if i < |init| {
          assert MaxOf(init[i]) <= MaxCoord(init);
        }
      }
    } else {
      assert MaxOf(cols[0]) == MaxCoord(cols);
    }
  }

  lemma {:induction false} MaxCoordUnique(cols: seq<Pos>, m: nat)
    requires cols != [] && Bounded(cols, m) && Attained(cols, m)
    ensures MaxCoord(cols) == m
  {
    MaxCoordIsMax(cols);
  }

  lemma {:induction false} LineMax(start: nat, n: nat)
    requires n > 0
    ensures MaxCoord(Line(start, n)) == start + n - 1
  {
    var l := Line(start, n);
    assert MaxOf(l[n - 1]) == start + n - 1;
    MaxCoordUnique(l, start + n - 1);
  }

  /** Shape of a grid block: size, constant time, and each spatial coordinate both inside the
      grid and no further from the start than the column itself. */
  lemma {:induction false} GridShape(c: nat, h: nat, w: nat)
    requires w > 0
    ensures |GridCols(c, h, w)| == Times(h, w)
    ensures forall k :: 0 <= k < Times(h, w) ==>
      var p := GridCols(c, h, w)[k];
      p.t == c && c <= p.h <= c + k && p.h < c + h && c <= p.w <= c + k && p.w < c + w
  {
    if h > 0 {
      GridShape(c, h - 1, w);
      var before := GridCols(c, h - 1, w);
      if h > 1 {
        TimesBounds(h - 1, w);
      }
      forall k | 0 <= k < Times(h, w)
        ensures var p := GridCols(c, h, w)[k];
          p.t == c && c <= p.h <= c + k && p.h < c + h && c <= p.w <= c + k && p.w < c + w
      {
        if k < |before| {
          assert GridCols(c, h, w)[k] == before[k];
        } else {
          assert GridCols(c, h, w)[k] == GridRow(c, h - 1, w)[k - |before|];
        }
      }
    }
  }

  /** Pixels are numbered row by row, from left to right: pixel `(i, j)` has time `c`, height `c + i`
      and width `c + j`. */
  lemma {:induction false} GridAt(c: nat, h: nat, w: nat, i: nat, j: nat)
    requires i < h && j < w
    ensures |GridCols(c, h, w)| == Times(h, w) && Times(i, w) + j < Times(h, w)
    ensures GridCols(c, h, w)[Times(i, w) + j] == Pos(c, c + i, c + j)
  {
    GridShape(c, h, w);
    if i < h - 1 {
      GridAt(c, h - 1, w, i, j);
    } else {
      GridShape(c, h - 1, w);
    }
  }

  lemma {:induction false} GridMax(c: nat, h: nat, w: nat)
    requires h > 0 && w > 0
    ensures GridCols(c, h, w) != [] && |GridCols(c, h, w)| == Times(h, w)
    ensures MaxCoord(GridCols(c, h, w)) == c + Max(h, w) - 1
  {
    GridShape(c, h, w);
    TimesBounds(h, w);
    var g := GridCols(c, h, w);
    var before := GridCols(c, h - 1, w);
    assert g[|g| - 1] == GridRow(c, h - 1, w)[w - 1];
    assert MaxOf(g[|g| - 1]) == c + Max(h, w) - 1;
    MaxCoordUnique(g, c + Max(h, w) - 1);
  }

  /** The same position on all three axes. */
  function Diagonal(p: nat): Pos {
    Pos(p, p, p)
  }

  /** Where the closing tokens start, by kind of span and place `c` of its content. */
  function ClosingOf(c: nat, x: Span): nat {
    if x.Audio? then c + x.len
    else if x.Vocal? && x.audio > 0 then c + x.audio
    else c + Max(x.h, x.w)
  }

  /** Consecutive positions from `p` on. */
  predicate Rising(cols: seq<Pos>, p: nat) {
    forall k :: 0 <= k < |cols| ==> cols[k] == Diagonal(p + k)
  }

  /** Pixel `(i, j)` of a grid `w` wide, whose content starts at `c`. */
  predicate PixelAt(cols: seq<Pos>, c: nat, w: nat, i: nat, j: nat) {
    Times(i, w) + j < |cols| && cols[Times(i, w) + j] == Pos(c, c + i, c + j)
  }

  /** Token by token, the positions of a span that starts at `s`. Opening tokens count up; pixel `(i, j)`
      of a grid stands at height `i` and width `j` of the content's start, all at one time; audio counts
      up from the content's start, in a vocal span behind the pixels; closing tokens count up again. */
  ghost predicate Numbered(s: nat, x: Span, cols: seq<Pos>) {
    var lead := Lead(x);
    var c := s + lead;
    && |cols| == |SpanTokens(x)| && |cols| >= 2 * lead
    && Rising(cols[..lead], s) && ContentNumbered(c, x, cols[lead..|cols| - lead])
    && Rising(cols[|cols| - lead..], ClosingOf(c, x))
  }

  ghost predicate ContentNumbered(c: nat, x: Span, content: seq<Pos>) {
    if x.Audio? then |content| == x.len && Rising(content, c)
    else
      && |content| == Times(x.h, x.w) + (if x.Vocal? then x.audio else 0)
      && (forall i: nat, j: nat :: i < x.h && j < x.w ==> PixelAt(content, c, x.w, i, j))
      && Rising(content[Times(x.h, x.w)..], c)
  }

  lemma {:induction false} SpanIsNumbered(s: nat, x: Span)
    requires x.Positive()
    ensures Numbered(s, x, SpanCols(s, x))
  {
    hide Content, ContentNumbered, SpanTokens;
    var lead, c := Lead(x), s + Lead(x);
    var content := Content(c, x);
    ContentFollows(c, x);
    ContentIsNumbered(c, x);
    ThreeParts(Line(s, lead), content, Line(ContentEnd(c, x), lead));
  }

  lemma {:induction false} ThreeParts(a: seq<Pos>, b: seq<Pos>, c: seq<Pos>)
    ensures var s := a + b + c;
      s[..|a|] == a && s[|a|..|s| - |c|] == b && s[|s| - |c|..] == c
  {
  }

  lemma {:induction false} ContentIsNumbered(c: nat, x: Span)
    requires x.Positive()
    ensures ContentNumbered(c, x, Content(c, x))
  {
    hide GridCols, Times, PixelAt;
    if !x.Audio? {
      GridFollows(c, x.h, x.w);
      ContentPixels(c, x);
      assert Content(c, x)[Times(x.h, x.w)..] == Line(c, if x.Vocal? then x.audio else 0);
    }
  }

  lemma {:induction false} ContentPixels(c: nat, x: Span)
    requires !x.Audio?
    ensures forall i: nat, j: nat :: i < x.h && j < x.w ==> PixelAt(Content(c, x), c, x.w, i, j)
  {
    hide GridCols, Times;
    forall i: nat, j: nat | i < x.h && j < x.w ensures PixelAt(Content(c, x), c, x.w, i, j) {
      GridAt(c, x.h, x.w, i, j);
    }
  }

  /** Closing tokens start one past everything in the span, unless overlaid audio is shorter than the
      longer side of its grid. */
  lemma {:induction false} ClosingIsNext(c: nat, x: Span)
    requires x.Positive()
    ensures Content(c, x) != [] && ContentEnd(c, x) == ClosingOf(c, x)
    ensures ClosingOf(c, x) == MaxCoord(Content(c, x)) + 1
       <==> !(x.Vocal? && 0 < x.audio < Max(x.h, x.w))
  {
    hide GridCols, MaxCoord;
    if x.Audio? {
      LineMax(c, x.len);
    } else {
      GridMax(c, x.h, x.w);
      if x.Vocal? && x.audio > 0 {
        LineMax(c, x.audio);
        OverlayMax(GridCols(c, x.h, x.w), Line(c, x.audio));
      } else {
        assert Content(c, x) == GridCols(c, x.h, x.w);
      }
    }
  }

  lemma {:induction false} OverlayMax(a: seq<Pos>, b: seq<Pos>)
    requires a != [] && b != []
    ensures MaxCoord(a + b) == Max(MaxCoord(a), MaxCoord(b))
  {
    MaxCoordIsMax(a);
    MaxCoordIsMax(b);
    var m := Max(MaxCoord(a), MaxCoord(b));
    assert Attained(a + b, m) by {
      if m == MaxCoord(a) {
        var k :| 0 <= k < |a| && MaxOf(a[k]) == m;
        assert MaxOf((a + b)[k]) == m;
      } else {
        var k :| 0 <= k < |b| && MaxOf(b[k]) == m;
        assert MaxOf((a + b)[|a| + k]) == m;
      }
    }
    MaxCoordUnique(a + b, m);
  }

  // ----- one block after another

  function CellSize(c: Cell): nat {
    if c.Plain? then 1 else |SpanTokens(c.span)|
  }

  /** A block that may follow columns whose next start is `s`: time only moves forward from `s`,
      no coordinate outruns the column count, and the new next start is not past the end. */
  ghost predicate Follows(s: nat, block: seq<Pos>, next: nat) {
    && s <= next <= s + |block|
    && (forall k :: 0 <= k < |block| ==> MaxOf(block[k]) <= s + k && s <= block[k].t < next)
    && (forall i, j :: 0 <= i <= j < |block| ==> block[i].t <= block[j].t)
  }

  /** Blocks that follow one another form one block that follows. */
  lemma {:induction false} FollowsConcat(s: nat, a: seq<Pos>, m: nat, b: seq<Pos>, next: nat)
    requires Follows(s, a, m) && Follows(m, b, next)
    ensures Follows(s, a + b, next)
  {
    var ab := a + b;
    forall k | 0 <= k < |ab| ensures MaxOf(ab[k]) <= s + k && s <= ab[k].t < next {
      if k >= |a| {
        assert ab[k] == b[k - |a|];
      }
    }
    forall i, j | 0 <= i <= j < |ab| ensures ab[i].t <= ab[j].t {
      if i >= |a| {
        assert ab[i] == b[i - |a|] && ab[j] == b[j - |a|];
      } else if j >= |a| {
        assert ab[i] == a[i] && ab[j] == b[j - |a|];
      }
    }
  }

  lemma {:induction false} LineFollows(s: nat, n: nat)
    ensures Follows(s, Line(s, n), s + n)
  {
  }

  lemma {:induction false} GridFollows(c: nat, h: nat, w: nat)
    requires h > 0 && w > 0
    ensures |GridCols(c, h, w)| == Times(h, w)
    ensures Follows(c, GridCols(c, h, w), c + Max(h, w))
  {
    GridShape(c, h, w);
    TimesBounds(h, w);
  }

  /** Audio restarts at the grid's own start; together they still follow. */
  lemma {:induction false} OverlayFollows(c: nat, h: nat, w: nat, audio: nat)
    requires h > 0 && w > 0
    ensures Follows(c, GridCols(c, h, w) + Line(c, audio), Closing(c, h, w, audio))
  {
    GridFollows(c, h, w);
    var g, l := GridCols(c, h, w), Line(c, audio);
    var ab := g + l;
    if audio == 0 {
      assert ab == g;
    } else {
      forall k | 0 <= k < |ab| ensures MaxOf(ab[k]) <= c + k && c <= ab[k].t < c + audio {
        if k >= |g| {
          assert ab[k] == l[k - |g|];
        } else {
          GridShape(c, h, w);
        }
      }
      forall i, j | 0 <= i <= j < |ab| ensures ab[i].t <= ab[j].t {
        GridShape(c, h, w);
        if i >= |g| {
          assert ab[i] == l[i - |g|] && ab[j] == l[j - |g|];
        } else if j >= |g| {
          assert ab[i] == g[i] && ab[j] == l[j - |g|];
        }
      }
    }
  }

  lemma {:induction false} ContentFollows(c: nat, x: Span)
    requires x.Positive()
    ensures |Content(c, x)| + 2 * Lead(x) == |SpanTokens(x)|
    ensures Follows(c, Content(c, x), ContentEnd(c, x))
  {
    match x
    case Audio(len) => LineFollows(c, len);
    case Image(h, w) => GridFollows(c, h, w);
    case Video(h, w) => GridFollows(c, h, w);
    case Vocal(h, w, audio) => GridFollows(c, h, w); OverlayFollows(c, h, w, audio);
  }

  lemma {:induction false} CellFollows(s: nat, cell: Cell)
    requires cell.Block? ==> cell.span.Positive()
    ensures |CellCols(s, cell)| == CellSize(cell)
    ensures Follows(s, CellCols(s, cell), CellNext(s, cell))
  {
    hide GridCols, Times;
    LineFollows(s, 1);
    if cell.Block? {
      var x, lead := cell.span, Lead(cell.span);
      var c := s + lead;
      var e := ContentEnd(c, x);
      ContentFollows(c, x);
      LineFollows(s, lead);
      FollowsConcat(s, Line(s, lead), c, Content(c, x), e);
      LineFollows(e, lead);
      FollowsConcat(s, Line(s, lead) + Content(c, x), e, Line(e, lead), e + lead);
    }
  }

  /** What holds of a row's columns: temporal order, and no coordinate beyond the column's own index. */
  ghost predicate Sound(l: Laid) {
    && l.next <= |l.cols|
    && (forall k :: 0 <= k < |l.cols| ==> MaxOf(l.cols[k]) <= k && l.cols[k].t < l.next)
    && (forall i, j :: 0 <= i <= j < |l.cols| ==> l.cols[i].t <= l.cols[j].t)
  }

  function Size(cells: seq<Cell>): nat {
    if cells == [] then 0 else Size(cells[..|cells| - 1]) + CellSize(cells[|cells| - 1])
  }

  /** For every row: one column per token, time never goes back, and every coordinate is at most
      the token's own index. */
  lemma {:induction false} LayIsSound(cells: seq<Cell>)
    requires PositiveCells(cells)
    ensures |Lay(cells).cols| == Size(cells)
    ensures Sound(Lay(cells))
  {
    if cells != [] {
      var init, c := cells[..|cells| - 1], cells[|cells| - 1];
      LayIsSound(init);
      CellFollows(Lay(init).next, c);
      SoundConcat(Lay(init), CellCols(Lay(init).next, c), CellNext(Lay(init).next, c));
    }
  }

  lemma {:induction false} SoundConcat(l: Laid, block: seq<Pos>, next: nat)
    requires Sound(l) && Follows(l.next, block, next)
    ensures Sound(Laid(l.cols + block, next))
  {
    assert Follows(0, l.cols, l.next);
    FollowsConcat(0, l.cols, l.next, block, next);
  }

  /** The position delta kept for decoding. */
  function Delta(cols: seq<Pos>): int
    requires cols != []
  {
    MaxCoord(cols) + 1 - |cols|
  }

  lemma {:induction false} DeltaNeverPositive(cells: seq<Cell>)
    requires PositiveCells(cells) && Lay(cells).cols != []
    ensures Delta(Lay(cells).cols) <= 0
  {
    LayIsSound(cells);
    MaxCoordIsMax(Lay(cells).cols);
  }

  predicate NoVision(cells: seq<Cell>) {
    forall i :: 0 <= i < |cells| && cells[i].Block? ==> cells[i].span.Audio?
  }

  lemma {:induction false} LinearCell(s: nat, c: Cell)
    requires c.Block? ==> c.span.Audio?
    ensures CellCols(s, c) == Line(s, CellSize(c)) && CellNext(s, c) == s + CellSize(c)
  {
    if c.Block? {
      LineSplit(s, 1, c.span.len);
      LineSplit(s, 1 + c.span.len, 1);
    }
  }

  lemma {:induction false} LinearColumns(cells: seq<Cell>)
    requires NoVision(cells)
    ensures Lay(cells) == Laid(Line(0, Size(cells)), Size(cells))
  {
    hide CellCols, CellNext, CellSize, Line;
    if cells == [] {
      assert Line(0, 0) == [];
    } else {
      var init, c := cells[..|cells| - 1], cells[|cells| - 1];
      LinearColumns(init);
      LinearCell(Size(init), c);
      LineSplit(0, Size(init), CellSize(c));
    }
  }

  /** Without vision a row is numbered 0, 1, 2, ... on every axis and its delta is zero. */
  lemma {:induction false} TextAndAudioAreLinear(cells: seq<Cell>)
    requires NoVision(cells) && Size(cells) > 0
    ensures Lay(cells).cols == Line(0, Size(cells))
    ensures forall k :: 0 <= k < Size(cells) ==> Lay(cells).cols[k] == Diagonal(k)
    ensures Delta(Lay(cells).cols) == 0
  {
    LinearColumns(cells);
    LineMax(0, Size(cells));
  }

  // ----- which columns coincide

  ghost predicate Distinct(cols: seq<Pos>) {
    forall i, j :: 0 <= i < j < |cols| ==> cols[i] != cols[j]
  }

  ghost predicate VocalWithAudio(c: Cell) {
    c.Block? && c.span.Vocal? && c.span.audio > 0
  }

  lemma {:induction false} GridDistinct(c: nat, h: nat, w: nat)
    requires w > 0
    ensures Distinct(GridCols(c, h, w))
  {
    if h > 0 {
      GridDistinct(c, h - 1, w);
      GridShape(c, h - 1, w);
      var before, g := GridCols(c, h - 1, w), GridCols(c, h, w);
      forall i, j | 0 <= i < j < |g| ensures g[i] != g[j] {
        if j < |before| {
          assert before[i] != before[j];
        } else if i < |before| {
          assert g[i] == before[i] && g[i].h < c + h - 1;
          assert g[j] == GridRow(c, h - 1, w)[j - |before|] && g[j].h == c + h - 1;
        } else {
          assert g[i] == GridRow(c, h - 1, w)[i - |before|];
          assert g[j] == GridRow(c, h - 1, w)[j - |before|];
        }
      }
    }
  }

  /** Columns that are pairwise distinct and lie in `[s, next)` on every axis. */
  ghost predicate Separate(s: nat, cols: seq<Pos>, next: nat) {
    && s <= next && Distinct(cols)
    && forall k :: 0 <= k < |cols| ==> s <= cols[k].h && MaxOf(cols[k]) < next
  }

  lemma {:induction false} SeparateConcat(s: nat, a: seq<Pos>, m: nat, b: seq<Pos>, next: nat)
    requires Separate(s, a, m) && Separate(m, b, next)
    ensures Separate(s, a + b, next)
  {
    var ab := a + b;
    forall i, j | 0 <= i < j < |ab| ensures ab[i] != ab[j] {
      if i >= |a| {
        assert ab[i] == b[i - |a|] && ab[j] == b[j - |a|];
      } else if j >= |a| {
        assert ab[i] == a[i] && ab[j] == b[j - |a|];
      }
    }
  }

  lemma {:induction false} LineSeparate(s: nat, n: nat)
    ensures Separate(s, Line(s, n), s + n)
  {
  }

  /** Without overlaid audio a block is separate. */
  lemma {:induction false} CellSeparate(s: nat, cell: Cell)
    requires cell.Block? ==> cell.span.Positive()
    requires !VocalWithAudio(cell)
    ensures Separate(s, CellCols(s, cell), CellNext(s, cell))
  {
    hide GridCols;
    LineSeparate(s, 1);
    if cell.Block? {
      var x, lead := cell.span, Lead(cell.span);
      var c := s + lead;
      var e := ContentEnd(c, x);
      assert Separate(c, Content(c, x), e) by {
        if x.Audio? {
          LineSeparate(c, x.len);
        } else {
          GridShape(c, x.h, x.w);
          GridDistinct(c, x.h, x.w);
          assert Content(c, x) == GridCols(c, x.h, x.w);
        }
      }
      LineSeparate(s, lead);
      SeparateConcat(s, Line(s, lead), c, Content(c, x), e);
      LineSeparate(e, lead);
      SeparateConcat(s, Line(s, lead) + Content(c, x), e, Line(e, lead), e + lead);
    }
  }

  lemma {:induction false} DistinctWithoutOverlay(cells: seq<Cell>)
    requires PositiveCells(cells)
    requires forall i :: 0 <= i < |cells| ==> !VocalWithAudio(cells[i])
    ensures Separate(0, Lay(cells).cols, Lay(cells).next)
  {
    if cells != [] {
      var init, c := cells[..|cells| - 1], cells[|cells| - 1];
      DistinctWithoutOverlay(init);
      CellSeparate(Lay(init).next, c);
      SeparateConcat(0, Lay(init).cols, Lay(init).next, CellCols(Lay(init).next, c), CellNext(Lay(init).next, c));
    }
  }

  /** Two columns of the row coincide. */
  ghost predicate Clash(cols: seq<Pos>, i: nat, j: nat) {
    i < j < |cols| && cols[i] == cols[j]
  }

  /** The first audio token of a vocal span sits on the first pixel of its grid. */
  lemma {:induction false} OverlayClashes(s: nat, h: nat, w: nat, audio: nat)
    requires h > 0 && w > 0 && audio > 0
    ensures Clash(SpanCols(s, Vocal(h, w, audio)), 2, 2 + Times(h, w))
  {
    GridShape(s + 2, h, w);
    TimesBounds(h, w);
    var cols := SpanCols(s, Vocal(h, w, audio));
    assert cols[2] == GridCols(s + 2, h, w)[0];
    assert cols[2 + Times(h, w)] == Line(s + 2, audio)[0];
  }

  lemma {:induction false} ClashSurvives(cells: seq<Cell>, at: nat)
    requires PositiveCells(cells) && at < |cells| && VocalWithAudio(cells[at])
    ensures !Distinct(Lay(cells).cols)
  {
    var init, c := cells[..|cells| - 1], cells[|cells| - 1];
    var p := Lay(init);
    if at < |init| {
      ClashSurvives(init, at);
      var i, j :| 0 <= i < j < |p.cols| && p.cols[i] == p.cols[j];
      assert Lay(cells).cols[i] == Lay(cells).cols[j];
    } else {
      OverlayClashes(p.next, c.span.h, c.span.w, c.span.audio);
      var b := SpanCols(p.next, c.span);
      var i, j := |p.cols| + 2, |p.cols| + 2 + Times(c.span.h, c.span.w);
      assert Lay(cells).cols[i] == b[2] && Lay(cells).cols[j] == b[2 + Times(c.span.h, c.span.w)];
    }
  }

  /** No two tokens of a row share a position exactly when no vocal span carries audio tokens. */
  lemma {:induction false} DistinctIffNoOverlay(cells: seq<Cell>)
    requires PositiveCells(cells)
    ensures Distinct(Lay(cells).cols) <==> forall i :: 0 <= i < |cells| ==> !VocalWithAudio(cells[i])
  {
    if forall i :: 0 <= i < |cells| ==> !VocalWithAudio(cells[i]) {
      DistinctWithoutOverlay(cells);
    } else {
      var at :| 0 <= at < |cells| && VocalWithAudio(cells[at]);
      ClashSurvives(cells, at);
    }
  }

  /** The content of a vocal span stays below its closing position exactly when there is no
      audio, or at least as much audio as the longer grid side. */
  lemma {:induction false} VocalClosingIsPast(c: nat, h: nat, w: nat, audio: nat)
    requires h > 0 && w > 0
    ensures Bounded(Content(c, Vocal(h, w, audio)), Closing(c, h, w, audio) - 1)
       <==> audio == 0 || audio >= Max(h, w)
  {
    var g, l, e := GridCols(c, h, w), Line(c, audio), Closing(c, h, w, audio);
    GridMax(c, h, w);
    MaxCoordIsMax(g);
    var both := g + l;
    var k :| 0 <= k < |g| && MaxOf(g[k]) == c + Max(h, w) - 1;
    assert both[k] == g[k];
    if audio == 0 || audio >= Max(h, w) {
      forall i | 0 <= i < |both| ensures MaxOf(both[i]) <= e - 1 {
        if i < |g| {
          assert both[i] == g[i] && MaxOf(g[i]) <= c + Max(h, w) - 1;
        } else {
          assert both[i] == l[i - |g|];
        }
      }
    }
  }
}
