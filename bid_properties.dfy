/**
 * What the message of sendBidMessage promises its readers in the operators'
 * chat: where the title and the participant's name sit and how the name is
 * linked, that every entity decorates exactly its label, when the
 * participant is reported as not having taken the test, how a member without
 * capitals is shown, and which inputs end in which error.
 */
module BidProperties {
  import opened Wrappers
  import opened JsText
  import opened Models
  import opened Message
  import opened BidController

  predicate EndsWith(s: Str, t: Str)
  {
    |t| <= |s| && s[|s| - |t|..] == t
  }

  /** Whether the participant's results end the message: their archived answer and the final shares exist. */
  predicate HasResults(id: int, archived: Option<ArchivedRoom>)
  {
    archived.Some? && Participant(archived, id).Some? && ShowsShares(archived.value)
  }

  /** Some member's capitals make one of their bars throw. */
  predicate SomeBarThrows(members: seq<Str>, capitals: map<Str, Capitals>)
  {
    exists k :: 0 <= k < |members| && BarThrows(CapitalsOf(capitals, members[k]))
  }

  /** The bold title, a blank line and the header line `👤 Участник: @username -  Display Name`. */
  function Heading(u: User): Str
  {
    Title + [NL, NL] + (HeaderPrefix + [AT] + u.username + HeaderDash + DisplayName(u) + [NL])
  }

  /** The last piece of the message: the last share line when there are results, "Тест ещё не проходил." otherwise. */
  function LastPiece(id: int, archived: Option<ArchivedRoom>): Piece
  {
    if HasResults(id, archived)
    then Plain(ShareLine(archived.value.result.value.shares[|archived.value.result.value.shares| - 1]))
    else Plain(NotTakenYet)
  }

  /** The position of the display name in the message: after the title, a blank line and the header's head. */
  function NameOffset(u: User): nat
  {
    |Title| + 2 + |HeaderPrefix| + 1 + |u.username| + |HeaderDash|
  }

  // ---------------------------------------------------------------------
  // Helpers
  // ---------------------------------------------------------------------

  /** A message ends with the text of its last piece. */
  lemma RenderEndsWithLast(ps: seq<Piece>)
    requires ps != []
    ensures EndsWith(Render(ps).text, ps[|ps| - 1].text)
  {
    assert Render(ps) == Step(Render(ps[..|ps| - 1]), ps[|ps| - 1]);
  }

  /** The message is its opening followed by its body, and keeps the opening's entities in front. */
  lemma OpeningThenBody(id: int, u: User, archived: Option<ArchivedRoom>)
    requires BidPieces(id, u, archived).Some?
    ensures Render(BidPieces(id, u, archived).value).text
         == Render(OpeningPieces(id, u, archived)).text + Concat(BodyPieces(id, archived).value)
    ensures |Render(OpeningPieces(id, u, archived)).entities| <= |Render(BidPieces(id, u, archived).value).entities|
    ensures Render(BidPieces(id, u, archived).value).entities[..|Render(OpeningPieces(id, u, archived)).entities|]
         == Render(OpeningPieces(id, u, archived)).entities
  {
    var opening := OpeningPieces(id, u, archived);
    var body := BodyPieces(id, archived).value;
    ExtendConcat(Draft([], []), opening, body);
    ExtendIsAppend(Render(opening), body);
  }

  lemma RenderTitle()
    ensures Render(TitlePieces()) == Draft(Title + [NL, NL], [Entity(Bold, 0, |Title|)])
  {
    ExtendLabelled(Draft([], []), Bold, Title, [NL, NL]);
  }

  lemma HeaderGrouping(title: Str, prefix: Str, user: Str, dash: Str, name: Str)
    ensures title + ((prefix + ([AT] + user) + dash + name) + [NL]) == title + (prefix + [AT] + user + dash + name + [NL])
  {
  }

  lemma TitleAndHeaderText(id: int, u: User)
    ensures Render(TitlePieces() + HeaderPieces(id, u)).text
         == Heading(u)
  {
    RenderTitle();
    RenderAppendTrailingStyled(TitlePieces(), HeaderPrefix + ShownUsername(u) + HeaderDash, NameKind(id, u), DisplayName(u), [NL]);
    HeaderGrouping(Title + [NL, NL], HeaderPrefix, u.username, HeaderDash, DisplayName(u));
  }

  /** The title and a header line ending in a decorated `name`: the entities of the two. */
  lemma TitleAndLineEntities(head: Str, kind: EntityKind, name: Str)
    ensures Render(TitlePieces() + [Plain(head), Styled(kind, name), Plain([NL])]).entities
         == [Entity(Bold, 0, |Title|), Entity(kind, |Title| + 2 + |head|, |name|)]
  {
    RenderTitle();
    RenderAppendTrailingStyled(TitlePieces(), head, kind, name, [NL]);
  }

  lemma TitleAndHeaderEntities(id: int, u: User)
    ensures Render(TitlePieces() + HeaderPieces(id, u)).entities
         == [Entity(Bold, 0, |Title|), Entity(NameKind(id, u), NameOffset(u), |DisplayName(u)|)]
  {
    var head := HeaderPrefix + ShownUsername(u) + HeaderDash;
    TitleAndLineEntities(head, NameKind(id, u), DisplayName(u));
    assert |head| == |HeaderPrefix| + 1 + |u.username| + |HeaderDash|;
  }

  /** The opening starts with the title and the header line, and its first two entities are theirs. */
  lemma OpeningStartsWithHeader(id: int, u: User, archived: Option<ArchivedRoom>)
    ensures |Heading(u)| <= |Render(OpeningPieces(id, u, archived)).text|
    ensures Render(OpeningPieces(id, u, archived)).text[..|Heading(u)|] == Heading(u)
    ensures 2 <= |Render(OpeningPieces(id, u, archived)).entities|
    ensures Render(OpeningPieces(id, u, archived)).entities[..2]
         == [Entity(Bold, 0, |Title|), Entity(NameKind(id, u), NameOffset(u), |DisplayName(u)|)]
  {
    var top := TitlePieces() + HeaderPieces(id, u);
    TitleAndHeaderText(id, u);
    TitleAndHeaderEntities(id, u);
    ExtendConcat(Draft([], []), top, RoomPieces(archived));
    ExtendIsAppend(Render(top), RoomPieces(archived));
  }

  /** A message that is sent is the rendering of its layout, with the profile button. */
  lemma ReplyIsRendered(id: int, user: User, archived: Option<ArchivedRoom>)
    requires BidReply(Some(id), Some(user), archived).Ok?
    ensures BidPieces(id, user, archived).Some?
    ensures BidReply(Some(id), Some(user), archived).value
         == Outgoing(Render(BidPieces(id, user, archived).value).text, Render(BidPieces(id, user, archived).value).entities,
                     ProfileButton(user))
  {
  }

  /** A message that extends `opening` starts as `opening` does. */
  lemma KeepsPrefix(whole: Draft, opening: Draft, rest: Str, header: Str, first: seq<Entity>)
    requires whole.text == opening.text + rest
    requires |opening.entities| <= |whole.entities| && whole.entities[..|opening.entities|] == opening.entities
    requires |header| <= |opening.text| && opening.text[..|header|] == header
    requires |first| <= |opening.entities| && opening.entities[..|first|] == first
    ensures |header| <= |whole.text| && whole.text[..|header|] == header
    ensures |first| <= |whole.entities| && whole.entities[..|first|] == first
  {
    assert whole.entities[..|first|] == whole.entities[..|opening.entities|][..|first|];
    assert whole.text[..|header|] == opening.text[..|header|];
  }

  /** The whole message starts as its opening does. */
  lemma MessageStartsWithHeading(id: int, u: User, archived: Option<ArchivedRoom>)
    requires BidPieces(id, u, archived).Some?
    ensures |Heading(u)| <= |Render(BidPieces(id, u, archived).value).text|
    ensures Render(BidPieces(id, u, archived).value).text[..|Heading(u)|] == Heading(u)
    ensures 2 <= |Render(BidPieces(id, u, archived).value).entities|
    ensures Render(BidPieces(id, u, archived).value).entities[..2]
         == [Entity(Bold, 0, |Title|), Entity(NameKind(id, u), NameOffset(u), |DisplayName(u)|)]
  {
    var ps := BidPieces(id, u, archived).value;
    OpeningThenBody(id, u, archived);
    OpeningStartsWithHeader(id, u, archived);
    KeepsPrefix(Render(ps), Render(OpeningPieces(id, u, archived)), Concat(BodyPieces(id, archived).value), Heading(u),
                [Entity(Bold, 0, |Title|), Entity(NameKind(id, u), NameOffset(u), |DisplayName(u)|)]);
  }

  /** A bar throws exactly for a capital below -5 %, so a member's block throws exactly when one of theirs is. */
  lemma MemberBlockThrowsIff(m: Str, c: Capitals)
    ensures MemberBlock(m, c).None? <==> BarThrows(c)
  {
  }

  /** The line of a capital that is zero: `0.0`, padded, and ten empty cells. */
  function ZeroLine(caption: Str): Str
  {
    caption + Units("0.0  ") + PercentGap + Repeat(LIGHT_SHADE, 10)
  }

  lemma ZeroPadded()
    ensures Pad(Fixed1(0), 5) == Units("0.0  ")
  {
    assert Fixed1(0) == [ZERO, DOT, ZERO];
  }

  lemma EmptyBar()
    ensures Bar(0) == Some(Repeat(LIGHT_SHADE, 10))
  {
    assert Filled(0) == 0;
    assert Repeat(FULL_BLOCK, 0) + Repeat(LIGHT_SHADE, 10) == Repeat(LIGHT_SHADE, 10);
  }

  lemma ZeroCapitalLine(caption: Str)
    ensures CapitalLine(caption, 0) == Some(ZeroLine(caption))
  {
    ZeroPadded();
    EmptyBar();
  }

  lemma SomeBarThrowsSnoc(members: seq<Str>, capitals: map<Str, Capitals>)
    requires members != []
    ensures SomeBarThrows(members, capitals)
        <==> SomeBarThrows(members[..|members| - 1], capitals) || BarThrows(CapitalsOf(capitals, members[|members| - 1]))
  {
    var init := members[..|members| - 1];
    if SomeBarThrows(init, capitals) {
      var k :| 0 <= k < |init| && BarThrows(CapitalsOf(capitals, init[k]));
      assert members[k] == init[k];
    }
    if SomeBarThrows(members, capitals) {
      var k :| 0 <= k < |members| && BarThrows(CapitalsOf(capitals, members[k]));
      if k < |init| {
        assert init[k] == members[k];
      }
    }
  }

  /** The body ends with the last share line when there are results, and with "Тест ещё не проходил." otherwise. */
  lemma BodyEnding(id: int, archived: Option<ArchivedRoom>)
    requires BodyPieces(id, archived).Some?
    ensures BodyPieces(id, archived).value != []
    ensures BodyPieces(id, archived).value[|BodyPieces(id, archived).value| - 1] == LastPiece(id, archived)
  {
    if archived.Some? && Participant(archived, id).Some? {
      var room := archived.value;
      var front := QuestionPieces(Participant(archived, id).value.questionsAnswers) + CapitalsPieces(room).value;
      assert BodyPieces(id, archived).value == front + SharesPieces(room);
      SharesEnding(room);
      LastOfAppend(front, SharesPieces(room));
    }
  }

  /** The shares section ends with the last share line, or is "Тест ещё не проходил." when there are no shares. */
  lemma SharesEnding(room: ArchivedRoom)
    ensures SharesPieces(room) != []
    ensures ShowsShares(room) ==>
              SharesPieces(room)[|SharesPieces(room)| - 1] == Plain(ShareLine(room.result.value.shares[|room.result.value.shares| - 1]))
    ensures !ShowsShares(room) ==> SharesPieces(room) == [Plain(NotTakenYet)]
  {
    if ShowsShares(room) {
      LastOfAppend([Styled(Bold, SharesLabel), Plain([NL])], ShareLines(room.result.value.shares));
    }
  }

  /** The message ends as its body does. */
  lemma MessageEndsLikeBody(id: int, u: User, archived: Option<ArchivedRoom>)
    requires BidPieces(id, u, archived).Some?
    ensures EndsWith(Render(BidPieces(id, u, archived).value).text, LastPiece(id, archived).text)
  {
    var body := BodyPieces(id, archived).value;
    BodyEnding(id, archived);
    LastOfAppend(OpeningPieces(id, u, archived), body);
    RenderEndsWithLast(BidPieces(id, u, archived).value);
  }

  lemma LastOfAppend(ps: seq<Piece>, qs: seq<Piece>)
    requires qs != []
    ensures (ps + qs)[|ps + qs| - 1] == qs[|qs| - 1]
  {
  }

  lemma ShareLineEnds(sh: Share)
    ensures |ShareLine(sh)| >= 2 && ShareLine(sh)[|ShareLine(sh)| - 2] == PERCENT
  {
  }

  /**
   * A text that ends with "Тест ещё не проходил." or with a share line, `…%`
   * and a newline, ends with the former exactly in the first case.
   */
  lemma EndingDecided(text: Str, last: Str, results: bool)
    requires EndsWith(text, last)
    requires results ==> |last| >= 2 && last[|last| - 2] == PERCENT
    requires !results ==> last == NotTakenYet
    ensures EndsWith(text, NotTakenYet) <==> !results
  {
    if results {
      assert text[|text| - 2] == last[|last| - 2];
      assert NotTakenYet[|NotTakenYet| - 2] == NL;
    }
  }

  // ---------------------------------------------------------------------
  // Properties of the reply
  // ---------------------------------------------------------------------

  /**
   * The reply's errors: 400 for a missing or zero id, 400 for an unknown user,
   * and 500 exactly when the participant's archived results show capitals and
   * some member's bar would be drawn for a value below -5 %. Every other
   * request is answered with the message.
   */
  lemma BidErrors(id: Option<int>, user: Option<User>, archived: Option<ArchivedRoom>)
    ensures BidReply(id, user, archived) == Err(MissingId) <==> id.None? || id.value == 0
    ensures BidReply(id, user, archived) == Err(UserNotFound) <==> id.Some? && id.value != 0 && user.None?
    ensures BidReply(id, user, archived) == Err(InternalError)
        <==> id.Some? && id.value != 0 && user.Some? && archived.Some?
             && Participant(archived, id.value).Some? && ShowsCapitals(archived.value)
             && SomeBarThrows(archived.value.members, archived.value.result.value.capitals.value)
  {
    if id.Some? && user.Some? {
      LayoutThrowsIff(id.value, user.value, archived);
    }
  }

  /** Building the message throws exactly when a bar of the capitals section does. */
  lemma LayoutThrowsIff(id: int, u: User, archived: Option<ArchivedRoom>)
    ensures BidPieces(id, u, archived).None?
        <==> archived.Some? && Participant(archived, id).Some? && ShowsCapitals(archived.value)
             && SomeBarThrows(archived.value.members, archived.value.result.value.capitals.value)
  {
    if archived.Some? && ShowsCapitals(archived.value) {
      MemberBlocksThrowIff(archived.value.members, archived.value.result.value.capitals.value);
    }
  }

  /** The member blocks throw exactly when some member's capitals make a bar throw. */
  lemma {:induction false} MemberBlocksThrowIff(members: seq<Str>, capitals: map<Str, Capitals>)
    ensures MemberBlocks(members, capitals).None? <==> SomeBarThrows(members, capitals)
    decreases |members|
  {
    if members != [] {
      var init := members[..|members| - 1];
      var last := members[|members| - 1];
      MemberBlocksThrowIff(init, capitals);
      MemberBlockThrowsIff(last, CapitalsOf(capitals, last));
      SomeBarThrowsSnoc(members, capitals);
      assert MemberBlocks(members, capitals).None?
         <==> MemberBlocks(init, capitals).None? || MemberBlock(last, CapitalsOf(capitals, last)).None?;
    }
  }

  /**
   * Every entity of the message lies inside the text and decorates exactly
   * the label it was pushed for, and the entities follow each other without
   * overlapping, as Telegram requires.
   */
  lemma ReplyEntitiesWellPlaced(id: int, user: User, archived: Option<ArchivedRoom>, o: Outgoing)
    requires BidReply(Some(id), Some(user), archived) == Ok(o)
    ensures var styled := StyledPieces(BidPieces(id, user, archived).value);
            |o.entities| == |styled|
            && (forall k :: 0 <= k < |o.entities| ==> Covers(o.text, o.entities[k], styled[k]))
            && (forall j, k :: 0 <= j < k < |o.entities| ==> o.entities[j].offset + o.entities[j].length <= o.entities[k].offset)
  {
    ReplyIsRendered(id, user, archived);
    var ps := BidPieces(id, user, archived).value;
    EntitiesCoverTheirPieces(ps);
    EntitiesInOrder(ps);
  }

  /**
   * The message opens with the bold title and the header line
   * `👤 Участник: @username -  Display Name`. The display name is linked to
   * the user's profile when they have a username, and is a mention of their
   * Telegram id otherwise; the profile button, with the same link, is offered
   * exactly in the first case.
   */
  lemma ReplyHeader(id: int, user: User, archived: Option<ArchivedRoom>, o: Outgoing)
    requires BidReply(Some(id), Some(user), archived) == Ok(o)
    ensures |Heading(user)| <= |o.text| && o.text[..|Heading(user)|] == Heading(user)
    ensures 2 <= |o.entities|
    ensures o.entities[0] == Entity(Bold, 0, |Title|)
    ensures o.entities[1].offset == NameOffset(user) && o.entities[1].length == |DisplayName(user)|
    ensures user.username != [] ==>
              o.entities[1].kind == TextLink(ProfileUrlPrefix + user.username)
              && o.profileButton == Some(Button(ProfileButtonLabel, ProfileUrlPrefix + user.username))
    ensures user.username == [] ==>
              o.entities[1].kind == TextMention(id, DisplayName(user)) && o.profileButton.None?
  {
    ReplyIsRendered(id, user, archived);
    MessageStartsWithHeading(id, user, archived);
    var first := [Entity(Bold, 0, |Title|), Entity(NameKind(id, user), NameOffset(user), |DisplayName(user)|)];
    assert o.entities[..2] == first;
    assert o.entities[0] == first[0] && o.entities[1] == first[1];
    assert o.profileButton == ProfileButton(user);
  }

  /**
   * The message ends with "Тест ещё не проходил." exactly when it does not end
   * with the participant's final shares: when there is no archived room, the
   * participant has no answer in it, or the room has no shares. Otherwise its
   * last line is the last member's share.
   */
  lemma ReplyEnding(id: int, user: User, archived: Option<ArchivedRoom>, o: Outgoing)
    requires BidReply(Some(id), Some(user), archived) == Ok(o)
    ensures EndsWith(o.text, NotTakenYet) <==> !HasResults(id, archived)
    ensures HasResults(id, archived) ==>
            var shares := archived.value.result.value.shares;
            EndsWith(o.text, ShareLine(shares[|shares| - 1]))
  {
    ReplyIsRendered(id, user, archived);
    MessageEndsLikeBody(id, user, archived);
    if HasResults(id, archived) {
      var shares := archived.value.result.value.shares;
      ShareLineEnds(shares[|shares| - 1]);
    }
    EndingDecided(o.text, LastPiece(id, archived).text, HasResults(id, archived));
  }

  /**
   * A member that the result has no capitals for is shown with `0.0` and an
   * empty bar for each capital, as `|| { econ: 0, human: 0, social: 0 }` intends.
   */
  lemma MissingMemberShowsZeros(m: Str, capitals: map<Str, Capitals>)
    requires m !in capitals
    ensures MemberBlock(m, CapitalsOf(capitals, m))
         == Some([ Plain(Bullet + m + [NL]),
                   Styled(Code, ZeroLine(EconLabel)), Plain([NL]),
                   Styled(Code, ZeroLine(HumanLabel)), Plain([NL]),
                   Styled(Code, ZeroLine(SocialLabel)), Plain([NL, NL]) ])
  {
    ZeroCapitalLine(EconLabel);
    ZeroCapitalLine(HumanLabel);
    ZeroCapitalLine(SocialLabel);
  }
}
