/**
 * A Telegram message as sendBidMessage builds it without a parse mode: a
 * plain `text` and a list of formatting `entities`, each an offset and a
 * length in code units of `text`.
 *
 * The layout of a message is described as a list of pieces, each plain or
 * decorated by one entity. Rendering appends the pieces' text in order and,
 * for every decorated piece, records an entity whose offset is the length of
 * the text before it. Because the text only ever grows, every entity keeps
 * covering exactly the piece it was made for.
 */
module Message {
  import opened JsText

  /** The entity types the bid message uses, with their extra fields. */
  datatype EntityKind =
    | Bold
    | Code
    | TextLink(url: Str)
    | TextMention(userId: int, firstName: Str)

  datatype Entity = Entity(kind: EntityKind, offset: nat, length: nat)

  /** A piece of a message: plain text, or text decorated by one entity. */
  datatype Piece = Plain(text: Str) | Styled(kind: EntityKind, text: Str)

  /** The message built so far: `text` and `entities`. */
  datatype Draft = Draft(text: Str, entities: seq<Entity>)

  /** `start = text.length; text += s; entities.push({ type, offset: start, length: s.length })` */
  function Step(d: Draft, p: Piece): Draft
  {
    match p
    case Plain(s) => Draft(d.text + s, d.entities)
    case Styled(k, s) => Draft(d.text + s, d.entities + [Entity(k, |d.text|, |s|)])
  }

  /** The draft after appending the pieces one after another. */
  function Extend(d: Draft, ps: seq<Piece>): Draft
    decreases |ps|
  {
    if ps == [] then d else Step(Extend(d, ps[..|ps| - 1]), ps[|ps| - 1])
  }

  /** The message a list of pieces lays out, starting from `text = ''` and `entities = []`. */
  function Render(ps: seq<Piece>): Draft
  {
    Extend(Draft([], []), ps)
  }

  /** The decorated pieces, in order. */
  function StyledPieces(ps: seq<Piece>): seq<Piece>
    decreases |ps|
  {
    if ps == [] then []
    else StyledPieces(ps[..|ps| - 1]) + (if ps[|ps| - 1].Styled? then [ps[|ps| - 1]] else [])
  }

  /** The text of a list of pieces. */
  function Concat(ps: seq<Piece>): Str
    decreases |ps|
  {
    if ps == [] then [] else Concat(ps[..|ps| - 1]) + ps[|ps| - 1].text
  }

  /** Entity `e` lies inside `text` and decorates exactly the styled piece `p`. */
  predicate Covers(text: Str, e: Entity, p: Piece)
  {
    p.Styled? && e.kind == p.kind && e.offset + e.length <= |text|
    && text[e.offset..e.offset + e.length] == p.text
  }

  /** Appending pieces appends their text and shifts their entities by the text already there. */
  lemma {:induction false} ExtendIsAppend(d: Draft, ps: seq<Piece>)
    ensures Extend(d, ps).text == d.text + Concat(ps)
    ensures |Extend(d, ps).entities| == |d.entities| + |StyledPieces(ps)|
    ensures Extend(d, ps).entities[..|d.entities|] == d.entities
    decreases |ps|
  {
    if ps != [] {
      ExtendIsAppend(d, ps[..|ps| - 1]);
    }
  }

  /** Appending one more piece is one more step. */
  lemma RenderSnoc(ps: seq<Piece>, p: Piece)
    ensures Render(ps + [p]) == Step(Render(ps), p)
  {
    assert (ps + [p])[..|ps|] == ps;
  }

  /** Appending two pieces is two steps. */
  lemma ExtendTwo(d: Draft, p: Piece, q: Piece)
    ensures Extend(d, [p, q]).text == Step(Step(d, p), q).text
    ensures Extend(d, [p, q]).entities == Step(Step(d, p), q).entities
  {
    assert [p][..0] == [];
    assert Extend(d, [p]) == Step(d, p);
    assert [p, q][..1] == [p];
    assert Extend(d, [p, q]) == Step(Extend(d, [p]), q);
  }

  lemma ExtendLabelledText(d: Draft, kind: EntityKind, caption: Str, end: Str)
    ensures Extend(d, [Styled(kind, caption), Plain(end)]).text == d.text + (caption + end)
  {
    ExtendTwo(d, Styled(kind, caption), Plain(end));
  }

  lemma ExtendLabelledEntities(d: Draft, kind: EntityKind, caption: Str, end: Str)
    ensures Extend(d, [Styled(kind, caption), Plain(end)]).entities == d.entities + [Entity(kind, |d.text|, |caption|)]
  {
    ExtendTwo(d, Styled(kind, caption), Plain(end));
  }

  /** `start = text.length; text += caption + end; entities.push({ type, offset: start, length: caption.length })` */
  lemma ExtendLabelled(d: Draft, kind: EntityKind, caption: Str, end: Str)
    ensures Extend(d, [Styled(kind, caption), Plain(end)])
         == Draft(d.text + (caption + end), d.entities + [Entity(kind, |d.text|, |caption|)])
  {
    ExtendLabelledText(d, kind, caption, end);
    ExtendLabelledEntities(d, kind, caption, end);
  }

  lemma ExtendTrailingStyledText(d: Draft, head: Str, kind: EntityKind, name: Str, end: Str)
    ensures Extend(d, [Plain(head), Styled(kind, name), Plain(end)]).text == d.text + ((head + name) + end)
  {
    assert [Plain(head), Styled(kind, name), Plain(end)][..2] == [Plain(head), Styled(kind, name)];
    ExtendTwo(d, Plain(head), Styled(kind, name));
  }

  lemma ExtendTrailingStyledEntities(d: Draft, head: Str, kind: EntityKind, name: Str, end: Str)
    ensures Extend(d, [Plain(head), Styled(kind, name), Plain(end)]).entities
         == d.entities + [Entity(kind, |d.text| + (|head + name| - |name|), |name|)]
  {
    assert [Plain(head), Styled(kind, name), Plain(end)][..2] == [Plain(head), Styled(kind, name)];
    ExtendTwo(d, Plain(head), Styled(kind, name));
  }

  /** `text += line + end` for a line that ends with a decorated `name`, the offset counted back from the line's end. */
  lemma ExtendTrailingStyled(d: Draft, head: Str, kind: EntityKind, name: Str, end: Str)
    ensures Extend(d, [Plain(head), Styled(kind, name), Plain(end)])
         == Draft(d.text + ((head + name) + end), d.entities + [Entity(kind, |d.text| + (|head + name| - |name|), |name|)])
  {
    ExtendTrailingStyledText(d, head, kind, name, end);
    ExtendTrailingStyledEntities(d, head, kind, name, end);
  }

  /** Appending a list of pieces in two goes is appending it in one. */
  lemma {:induction false} ExtendConcat(d: Draft, ps: seq<Piece>, qs: seq<Piece>)
    ensures Extend(d, ps + qs) == Extend(Extend(d, ps), qs)
    decreases |qs|
  {
    if qs == [] {
      assert ps + qs == ps;
    } else {
      ExtendConcat(d, ps, qs[..|qs| - 1]);
      assert (ps + qs)[..|ps + qs| - 1] == ps + qs[..|qs| - 1];
    }
  }

  lemma {:induction false} StyledPiecesConcat(ps: seq<Piece>, qs: seq<Piece>)
    ensures StyledPieces(ps + qs) == StyledPieces(ps) + StyledPieces(qs)
    decreases |qs|
  {
    if qs == [] {
      assert ps + qs == ps;
    } else {
      StyledPiecesConcat(ps, qs[..|qs| - 1]);
      assert (ps + qs)[..|ps + qs| - 1] == ps + qs[..|qs| - 1];
    }
  }

  /** Appending a decorated caption and the plain text after it to a rendered message. */
  lemma RenderAppendLabelled(ps: seq<Piece>, kind: EntityKind, caption: Str, end: Str)
    ensures Render(ps + [Styled(kind, caption), Plain(end)])
         == Draft(Render(ps).text + (caption + end), Render(ps).entities + [Entity(kind, |Render(ps).text|, |caption|)])
  {
    ExtendConcat(Draft([], []), ps, [Styled(kind, caption), Plain(end)]);
    ExtendLabelled(Render(ps), kind, caption, end);
  }

  /** Appending a line whose trailing `name` is decorated to a rendered message. */
  lemma RenderAppendTrailingStyled(ps: seq<Piece>, head: Str, kind: EntityKind, name: Str, end: Str)
    ensures Render(ps + [Plain(head), Styled(kind, name), Plain(end)])
         == Draft(Render(ps).text + ((head + name) + end),
                  Render(ps).entities + [Entity(kind, |Render(ps).text| + (|head + name| - |name|), |name|)])
  {
    ExtendConcat(Draft([], []), ps, [Plain(head), Styled(kind, name), Plain(end)]);
    ExtendTrailingStyled(Render(ps), head, kind, name, end);
  }

  /**
   * Every entity of a rendered message lies inside its text and covers
   * exactly the decorated piece it was recorded for: the k-th entity
   * decorates the k-th styled piece.
   */
  lemma {:induction false} EntitiesCoverTheirPieces(ps: seq<Piece>)
    ensures |Render(ps).entities| == |StyledPieces(ps)|
    ensures forall k :: 0 <= k < |StyledPieces(ps)| ==>
              Covers(Render(ps).text, Render(ps).entities[k], StyledPieces(ps)[k])
    decreases |ps|
  {
    if ps != [] {
      var init := ps[..|ps| - 1];
      var p := ps[|ps| - 1];
      EntitiesCoverTheirPieces(init);
      var before := Render(init);
      var after := Render(ps);
      assert after == Step(before, p);
      forall k | 0 <= k < |StyledPieces(ps)|
        ensures Covers(after.text, after.entities[k], StyledPieces(ps)[k])
      {
        if k < |StyledPieces(init)| {
          var e := before.entities[k];
          assert after.entities[k] == e;
          assert after.text[e.offset..e.offset + e.length] == before.text[e.offset..e.offset + e.length];
        } else {
          assert after.text[|before.text|..] == p.text;
        }
      }
    }
  }

  /**
   * The entities of a rendered message come in the order of their pieces and
   * never overlap: each one ends before the next one starts.
   */
  lemma {:induction false} EntitiesInOrder(ps: seq<Piece>)
    ensures forall j, k :: 0 <= j < k < |Render(ps).entities| ==>
              Render(ps).entities[j].offset + Render(ps).entities[j].length <= Render(ps).entities[k].offset
    decreases |ps|
  {
    if ps != [] {
      var init := ps[..|ps| - 1];
      EntitiesInOrder(init);
      EntitiesCoverTheirPieces(init);
      var before := Render(init);
      assert Render(ps) == Step(before, ps[|ps| - 1]);
      forall j, k | 0 <= j < k < |Render(ps).entities|
        ensures Render(ps).entities[j].offset + Render(ps).entities[j].length <= Render(ps).entities[k].offset
      {
        if k == |before.entities| {
          assert Covers(before.text, before.entities[j], StyledPieces(init)[j]);
        }
      }
    }
  }
}
