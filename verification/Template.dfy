/** Prompts as the chat template writes them, and what the processor makes of them. */
module Template {
  import opened Sequences
  import opened Layout
  import opened RopeIndexer
  import opened VideoLayout
  import opened Processor

  /** A template row: text, and media tokens with the markers the template puts around them. */
  datatype Item = TextItem(id: nat) | ImageItem | AudioItem | VideoItem(wrapped: bool)

  function ItemUnits(it: Item): seq<Unit> {
    match it
    case TextItem(id) => [Plain(Text(id))]
    case ImageItem => [Plain(VisionStart), Pad(ImagePad), Plain(VisionEnd)]
    case AudioItem => [Plain(AudioStart), Pad(AudioPad), Plain(AudioEnd)]
    case VideoItem(wrapped) => if wrapped then [Wrapped] else [Pad(VideoPad)]
  }

  function AllUnits(items: seq<Item>): seq<Unit> {
    if items == [] then [] else ItemUnits(items[0]) + AllUnits(items[1..])
  }

  /** The prompt as the processor receives it. */
  function Prompt(items: seq<Item>): seq<Token> {
    Render(AllUnits(items))
  }

  /** No wrapped video token follows a bare one; true of uniformly wrapped and uniformly bare prompts. */
  predicate Ordered(items: seq<Item>) {
    forall i, j :: 0 <= i < j < |items| ==> !(items[i] == VideoItem(false) && items[j] == VideoItem(true))
  }

  // ----- what a template expands to

  predicate Available(cfg: Settings, m: Inputs, it: Item, cur: Cursors) {
    match it
    case TextItem(_) => true
    case ImageItem => cur.image < |m.images|
    case AudioItem => cur.audio < |m.audios|
    case VideoItem(_) => cur.video < |m.videos| && (cfg.vocal ==> cur.audio < |m.audios|)
  }

  function Track(cfg: Settings, m: Inputs, cur: Cursors): nat
    requires cfg.vocal ==> cur.audio < |m.audios|
  {
    if cfg.vocal then m.audios[cur.audio] else 0
  }

  function ItemPieces(cfg: Settings, m: Inputs, it: Item, cur: Cursors): seq<Piece>
    requires ValidInputs(cfg, m) && Available(cfg, m, it, cur)
  {
    match it
    case TextItem(id) => [Word(id)]
    case ImageItem =>
      [Media(Image(Merged(m.images[cur.image].h, cfg.merge), Merged(m.images[cur.image].w, cfg.merge)))]
    case AudioItem => [Media(Audio(m.audios[cur.audio]))]
    case VideoItem(_) =>
      var v := m.videos[cur.video];
      VideoPieces(cfg, v, Track(cfg, m, cur), v.grid.t)
  }

  function ItemNext(cfg: Settings, it: Item, cur: Cursors): Cursors {
    match it
    case TextItem(_) => cur
    case ImageItem => cur.(image := cur.image + 1)
    case AudioItem => cur.(audio := cur.audio + 1)
    case VideoItem(_) => cur.(video := cur.video + 1, audio := if cfg.vocal then cur.audio + 1 else cur.audio)
  }

  predicate Enough(cfg: Settings, m: Inputs, items: seq<Item>, cur: Cursors)
    decreases |items|
  {
    items == [] || (Available(cfg, m, items[0], cur) && Enough(cfg, m, items[1..], ItemNext(cfg, items[0], cur)))
  }

  function AllPieces(cfg: Settings, m: Inputs, items: seq<Item>, cur: Cursors): seq<Piece>
    requires ValidInputs(cfg, m) && Enough(cfg, m, items, cur)
    decreases |items|
  {
    if items == [] then []
    else ItemPieces(cfg, m, items[0], cur) + AllPieces(cfg, m, items[1..], ItemNext(cfg, items[0], cur))
  }

  function AllNext(cfg: Settings, items: seq<Item>, cur: Cursors): Cursors
    decreases |items|
  {
    if items == [] then cur else AllNext(cfg, items[1..], ItemNext(cfg, items[0], cur))
  }

  // ----- templates are samples the loop handles

  lemma {:induction false} TemplateUnits(items: seq<Item>)
    ensures Canonical(false, AllUnits(items))
    ensures forall i :: 0 <= i < |AllUnits(items)| ==> UnitOk(AllUnits(items)[i])
  {
    if items != [] {
      TemplateUnits(items[1..]);
      ItemCanonical(items[0], AllUnits(items[1..]));
      CanonicalUnits(false, AllUnits(items));
    }
  }

  lemma {:induction false} ItemCanonical(it: Item, rest: seq<Unit>)
    requires Canonical(false, rest)
    ensures Canonical(false, ItemUnits(it) + rest)
  {
    var us := ItemUnits(it) + rest;
    if |ItemUnits(it)| == 3 {
      assert us[1..][1..][1..] == rest;
      assert us[1..][1..] == [us[2]] + rest;
      assert Canonical(false, us[1..][1..]);
      assert Canonical(us[0] == Plain(VisionStart), us[1..]);
    } else {
      assert us[1..] == rest;
    }
  }

  lemma {:induction false} OrderedUnits(items: seq<Item>)
    requires Ordered(items)
    ensures WrappedFirst(AllUnits(items))
    ensures (forall i :: 0 <= i < |items| ==> items[i] != VideoItem(true)) ==> NoWrapped(AllUnits(items))
  {
    if items != [] {
      var rest := AllUnits(items[1..]);
      assert Ordered(items[1..]);
      OrderedUnits(items[1..]);
      var us := ItemUnits(items[0]) + rest;
      if |ItemUnits(items[0])| == 3 {
        assert us[1..][1..][1..] == rest;
        assert WrappedFirst(us[1..][1..]);
        assert WrappedFirst(us[1..]);
      } else {
        assert us[1..] == rest;
        if items[0] == VideoItem(false) {
          assert forall i :: 0 <= i < |items[1..]| ==> items[1..][i] == items[i + 1];
        }
      }
      if forall i :: 0 <= i < |items| ==> items[i] != VideoItem(true) {
        assert forall i :: 0 <= i < |items[1..]| ==> items[1..][i] == items[i + 1];
      }
    }
  }

  // ----- expansion prints the pieces

  lemma {:induction false} ExpandConcat(cfg: Settings, m: Inputs, us: seq<Unit>, vs: seq<Unit>, cur: Cursors)
    requires ValidInputs(cfg, m)
    requires forall i :: 0 <= i < |us| ==> UnitOk(us[i])
    requires forall i :: 0 <= i < |vs| ==> UnitOk(vs[i])
    ensures Expand(cfg, m, us + vs, cur) ==
      match Expand(cfg, m, us, cur)
      case Err(e) => Err(e)
      case Ok(h) => Prepend(h.tokens, Expand(cfg, m, vs, h.cur))
    decreases |us|
  {
    hide Hold;
    if us == [] {
      assert us + vs == vs;
      var r := Expand(cfg, m, vs, cur);
      if r.Ok? {
        assert [] + r.value.tokens == r.value.tokens;
      }
    } else {
      assert (us + vs)[1..] == us[1..] + vs;
      var h := HoldUnit(cfg, m, us[0], cur);
      if h.Ok? {
        ExpandConcat(cfg, m, us[1..], vs, h.value.cur);
        var rest := Expand(cfg, m, us[1..], h.value.cur);
        if rest.Ok? {
          PrependTwice(h.value.tokens, rest.value.tokens, Expand(cfg, m, vs, rest.value.cur));
        }
      }
    }
  }

  lemma {:induction false} ExpandOne(cfg: Settings, m: Inputs, u: Unit, cur: Cursors)
    requires ValidInputs(cfg, m) && UnitOk(u)
    ensures Expand(cfg, m, [u], cur) == HoldUnit(cfg, m, u, cur)
  {
    hide Hold;
    assert [u][1..] == [];
    var h := HoldUnit(cfg, m, u, cur);
    if h.Ok? {
      assert h.value.tokens + [] == h.value.tokens;
    }
  }

  lemma {:induction false} ExpandMarked(cfg: Settings, m: Inputs, open: Token, pad: Token, close: Token, cur: Cursors)
    requires ValidInputs(cfg, m) && IsPad(pad) && UnitOk(Plain(open)) && UnitOk(Plain(close))
    ensures Expand(cfg, m, [Plain(open), Pad(pad), Plain(close)], cur) ==
      match Hold(cfg, m, pad, cur)
      case Err(e) => Err(e)
      case Ok(h) => Ok(Held([open] + h.tokens + [close], h.cur))
  {
    hide Hold;
    var us := [Plain(open), Pad(pad), Plain(close)];
    assert us == [Plain(open)] + ([Pad(pad)] + [Plain(close)]);
    ExpandConcat(cfg, m, [Plain(open)], [Pad(pad)] + [Plain(close)], cur);
    ExpandConcat(cfg, m, [Pad(pad)], [Plain(close)], cur);
    ExpandOne(cfg, m, Plain(open), cur);
    ExpandOne(cfg, m, Pad(pad), cur);
    if Hold(cfg, m, pad, cur).Ok? {
      var h := Hold(cfg, m, pad, cur).value;
      ExpandOne(cfg, m, Plain(close), h.cur);
      assert [open] + (h.tokens + [close]) == [open] + h.tokens + [close];
    }
  }

  /** One item expands exactly when its media are there, to the printed pieces. */
  lemma {:induction false} ExpandItem(cfg: Settings, m: Inputs, it: Item, cur: Cursors)
    requires ValidInputs(cfg, m)
    ensures forall i :: 0 <= i < |ItemUnits(it)| ==> UnitOk(ItemUnits(it)[i])
    ensures Expand(cfg, m, ItemUnits(it), cur).Ok? <==> Available(cfg, m, it, cur)
    ensures Available(cfg, m, it, cur) ==>
      var h := Expand(cfg, m, ItemUnits(it), cur).value;
      Rename(h.tokens) == Tokens(ItemPieces(cfg, m, it, cur)) && h.cur == ItemNext(cfg, it, cur)
  {
    hide Expand, Rename, Tokens, VideoHolds, VideoPieces, GridPads, Merged, Divides, Times, Repeat;
    match it {
      case TextItem(id) =>
        ExpandOne(cfg, m, Plain(Text(id)), cur);
        TokensSingle(Word(id));
        RenamePlain([Text(id)]);
      case ImageItem =>
        ExpandMarked(cfg, m, VisionStart, ImagePad, VisionEnd, cur);
        if Available(cfg, m, it, cur) {
          var g := m.images[cur.image];
          MergedPads(g, cfg.merge);
          RenameMarked(VisionStart, ImageHold, GridPads(g, cfg.merge), VisionEnd);
          TokensSingle(Media(Image(Merged(g.h, cfg.merge), Merged(g.w, cfg.merge))));
        }
      case AudioItem =>
        ExpandMarked(cfg, m, AudioStart, AudioPad, AudioEnd, cur);
        if Available(cfg, m, it, cur) {
          RenameMarked(AudioStart, AudioHold, m.audios[cur.audio], AudioEnd);
          TokensSingle(Media(Audio(m.audios[cur.audio])));
        }
      case VideoItem(_) =>
        ExpandOne(cfg, m, ItemUnits(it)[0], cur);
        if Available(cfg, m, it, cur) {
          var v := m.videos[cur.video];
          VideoIsPrinted(cfg, v, Track(cfg, m, cur), v.grid.t);
        }
    }
  }

  lemma {:induction false} RenamePlain(s: seq<Token>)
    requires NoHolds(s)
    ensures Rename(s) == s
  {
  }

  lemma {:induction false} RenameMarked(open: Token, hold: Token, n: nat, close: Token)
    requires !IsHold(open) && !IsHold(close)
    ensures Rename([open] + Repeat(hold, n) + [close]) == [open] + Repeat(RenameToken(hold), n) + [close]
  {
  }

  /** A template expands exactly when the media suffice, to the printed pieces of all its items. */
  lemma {:induction false} ExpandTemplate(cfg: Settings, m: Inputs, items: seq<Item>, cur: Cursors)
    requires ValidInputs(cfg, m)
    ensures forall i :: 0 <= i < |AllUnits(items)| ==> UnitOk(AllUnits(items)[i])
    ensures Expand(cfg, m, AllUnits(items), cur).Ok? <==> Enough(cfg, m, items, cur)
    ensures Enough(cfg, m, items, cur) ==>
      var h := Expand(cfg, m, AllUnits(items), cur).value;
      Rename(h.tokens) == Tokens(AllPieces(cfg, m, items, cur)) && h.cur == AllNext(cfg, items, cur)
    decreases |items|
  {
    TemplateUnits(items);
    if items != [] {
      hide Expand, ItemUnits, ItemPieces, Rename, Tokens;
      var it, next := items[0], ItemNext(cfg, items[0], cur);
      TemplateUnits(items[1..]);
      ExpandItem(cfg, m, it, cur);
      ExpandConcat(cfg, m, ItemUnits(it), AllUnits(items[1..]), cur);
      if Available(cfg, m, it, cur) {
        ExpandTemplate(cfg, m, items[1..], next);
        if Enough(cfg, m, items[1..], next) {
          RenameConcat(Expand(cfg, m, ItemUnits(it), cur).value.tokens,
                       Expand(cfg, m, AllUnits(items[1..]), next).value.tokens);
          TokensConcat(ItemPieces(cfg, m, it, cur), AllPieces(cfg, m, items[1..], next));
        }
      }
    }
  }

  // ----- and passes the marker check

  lemma {:induction false} MarkersBalance(ps: seq<Piece>)
    ensures TallyAll(ps, VisionStart) == TallyAll(ps, VisionEnd)
    ensures TallyAll(ps, AudioStart) == TallyAll(ps, AudioEnd)
  {
    if ps != [] {
      MarkersBalance(ps[1..]);
    }
  }

  /** A template row is processed exactly when the media suffice, and the row it becomes is the
      printed form of its pieces. */
  lemma {:induction false} ProcessTemplate(cfg: Settings, m: Inputs, items: seq<Item>, cur: Cursors)
    requires ValidInputs(cfg, m) && Ordered(items)
    ensures ProcessSample(cfg, m, Prompt(items), cur).Ok? <==> Enough(cfg, m, items, cur)
    ensures Enough(cfg, m, items, cur) ==>
      ProcessSample(cfg, m, Prompt(items), cur).value
      == Held(Tokens(AllPieces(cfg, m, items, cur)), AllNext(cfg, items, cur))
  {
    hide Loop, Expand, Rename, Tokens, AllPieces, Count, Specials, Render, AllUnits;
    var us := AllUnits(items);
    TemplateUnits(items);
    OrderedUnits(items);
    ExpandTemplate(cfg, m, items, cur);
    LoopIsExpansion(cfg, m, [], us, false, cur);
    assert [] + Render(us) == Render(us);
    if Enough(cfg, m, items, cur) {
      var h, ps := Expand(cfg, m, us, cur).value, AllPieces(cfg, m, items, cur);
      assert [] + h.tokens == h.tokens;
      CountTokens(ps, VisionStart);
      CountTokens(ps, VisionEnd);
      CountTokens(ps, AudioStart);
      CountTokens(ps, AudioEnd);
      MarkersBalance(ps);
    }
  }
}
