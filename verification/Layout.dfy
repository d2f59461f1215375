/** The token row of the multimodal prompt, and what it is meant to contain. */
module Layout {
  import opened Sequences

  /** Prompt tokens. The three `*Hold` tokens are the temporary placeholders the processor
      writes while it is still searching for pads; text is opaque. */
  datatype Token =
    | Text(id: nat)
    | VisionStart | VisionEnd | AudioStart | AudioEnd
    | ImagePad | VideoPad | AudioPad
    | ImageHold | VideoHold | AudioHold

  /** Temporal, height and width extent of one image or video, in patches. */
  datatype Grid = Grid(t: nat, h: nat, w: nat)

  /** One media span, with merged heights and widths. */
  datatype Span =
    | Image(h: nat, w: nat)
    | Video(h: nat, w: nat)
    | Vocal(h: nat, w: nat, audio: nat)
    | Audio(len: nat)
  {
    predicate Positive() {
      if Audio? then len > 0 else h > 0 && w > 0
    }

    predicate Vision() {
      !Audio?
    }
  }

  /** A row is text tokens and media spans in order. */
  datatype Piece = Word(id: nat) | Media(span: Span)

  function SpanTokens(s: Span): seq<Token> {
    match s
    case Image(h, w) => [VisionStart] + Repeat(ImagePad, Times(h, w)) + [VisionEnd]
    case Video(h, w) => [VisionStart] + Repeat(VideoPad, Times(h, w)) + [VisionEnd]
    case Vocal(h, w, audio) =>
      [VisionStart, AudioStart] + Repeat(VideoPad, Times(h, w)) + Repeat(AudioPad, audio) + [AudioEnd, VisionEnd]
    case Audio(len) => [AudioStart] + Repeat(AudioPad, len) + [AudioEnd]
  }

  function PieceTokens(p: Piece): seq<Token> {
    match p
    case Word(id) => [Text(id)]
    case Media(span) => SpanTokens(span)
  }

  /** The printed row. */
  function Tokens(ps: seq<Piece>): seq<Token> {
    if ps == [] then [] else PieceTokens(ps[0]) + Tokens(ps[1..])
  }

  lemma {:induction false} TokensConcat(a: seq<Piece>, b: seq<Piece>)
    ensures Tokens(a + b) == Tokens(a) + Tokens(b)
  {
    if a == [] {
      assert a + b == b;
    } else {
      assert (a + b)[1..] == a[1..] + b;
      TokensConcat(a[1..], b);
    }
  }

  lemma {:induction false} TokensSingle(p: Piece)
    ensures Tokens([p]) == PieceTokens(p)
  {
    assert [p][1..] == [];
  }

  function Words(ids: seq<nat>): seq<Piece> {
    seq(|ids|, i requires 0 <= i < |ids| => Word(ids[i]))
  }

  /** Every span has at least one pad of each modality it is there for. */
  predicate Positive(ps: seq<Piece>) {
    forall p :: p in ps && p.Media? ==> p.span.Positive()
  }

  // ----- how often a token is printed

  /** Occurrences of a marker or pad in one span. */
  function Tally(s: Span, tok: Token): nat {
    match tok
    case VisionStart => if s.Vision() then 1 else 0
    case VisionEnd => if s.Vision() then 1 else 0
    case AudioStart => if s.Vocal? || s.Audio? then 1 else 0
    case AudioEnd => if s.Vocal? || s.Audio? then 1 else 0
    case ImagePad => if s.Image? then Times(s.h, s.w) else 0
    case VideoPad => if s.Video? || s.Vocal? then Times(s.h, s.w) else 0
    case AudioPad => if s.Vocal? then s.audio else if s.Audio? then s.len else 0
    case _ => 0
  }

  lemma {:induction false} CountSpan(s: Span, tok: Token)
    ensures Count(SpanTokens(s), tok) == Tally(s, tok)
  {
    hide Repeat, Count, Times;
    var pads := if s.Audio? then Repeat(AudioPad, s.len)
      else if s.Image? then Repeat(ImagePad, Times(s.h, s.w)) else Repeat(VideoPad, Times(s.h, s.w));
    CountRepeat(if s.Audio? then AudioPad else if s.Image? then ImagePad else VideoPad, |pads|, tok);
    if s.Vocal? {
      var open, audio, close := [VisionStart, AudioStart], Repeat(AudioPad, s.audio), [AudioEnd, VisionEnd];
      CountRepeat(AudioPad, s.audio, tok);
      CountConcat(open, pads, tok);
      CountConcat(open + pads, audio, tok);
      CountConcat(open + pads + audio, close, tok);
      CountPair(VisionStart, AudioStart, tok);
      CountPair(AudioEnd, VisionEnd, tok);
    } else {
      var open, close := if s.Audio? then AudioStart else VisionStart, if s.Audio? then AudioEnd else VisionEnd;
      CountConcat([open], pads, tok);
      CountConcat([open] + pads, [close], tok);
      CountOne(open, tok);
      CountOne(close, tok);
    }
  }

  lemma {:induction false} CountOne(a: Token, tok: Token)
    ensures Count([a], tok) == if a == tok then 1 else 0
  {
    assert [a][..0] == [];
  }

  lemma {:induction false} CountPair(a: Token, b: Token, tok: Token)
    ensures Count([a, b], tok) == (if a == tok then 1 else 0) + (if b == tok then 1 else 0)
  {
    CountOne(a, tok);
    assert [a, b][..1] == [a];
  }

  /** Occurrences of a marker or pad in a printed row. */
  function TallyAll(ps: seq<Piece>, tok: Token): nat {
    if ps == [] then 0 else (if ps[0].Media? then Tally(ps[0].span, tok) else 0) + TallyAll(ps[1..], tok)
  }

  lemma {:induction false} CountTokens(ps: seq<Piece>, tok: Token)
    requires !tok.Text?
    ensures Count(Tokens(ps), tok) == TallyAll(ps, tok)
  {
    if ps != [] {
      hide SpanTokens, Tally;
      CountConcat(PieceTokens(ps[0]), Tokens(ps[1..]), tok);
      CountTokens(ps[1..], tok);
      if ps[0].Media? {
        CountSpan(ps[0].span, tok);
      } else {
        CountOne(Text(ps[0].id), tok);
      }
    }
  }
}
