/**
 * src/controllers/bidController.js: sendBidMessage, which posts a
 * participant's request for a partnership review to the operators' group
 * chat. The message lists the participant, the archived room, their answers
 * to the follow-up questions, the room's averaged capitals as bar charts in
 * monospace, and the final shares.
 *
 * The user document and the archived room are looked up by the caller and
 * passed in; the reply is the message that would be sent, or the error
 * reply. The layout is specified by `BidPieces` and built imperatively by
 * `SendBidMessage`, which appends to `text` and pushes onto `entities`.
 */
module BidController {
  import opened Wrappers
  import opened JsText
  import opened Models
  import opened Message

  // ---------------------------------------------------------------------
  // Fixed texts of the message
  // ---------------------------------------------------------------------

  /** U+1F4CA, U+1F464 and U+1F9E0 as their UTF-16 surrogate pairs. */
  const ChartEmoji: Str := [0xD83D, 0xDCCA]
  const BustEmoji: Str := [0xD83D, 0xDC64]
  const BrainEmoji: Str := [0xD83E, 0xDDE0]

  const Title: Str := ChartEmoji + Units(" Заявка на разбор партнёрства")
  const HeaderPrefix: Str := BustEmoji + Units(" Участник: ")
  const HeaderDash: Str := Units(" -  ")
  const RoomLabel: Str := Units("Комната:")
  const MembersLabel: Str := Units("Участников:")
  const Dash: Str := Units("—")
  const QuestionsLabel: Str := BrainEmoji + Units(" Ответы на вопросы:")
  const CapitalsLabel: Str := Units("Средние доли по капиталам")
  const SharesLabel: Str := Units("Итоговые доли")
  const NotTakenYet: Str := Units("Тест ещё не проходил.") + [NL, NL]
  const Bullet: Str := Units("• ")
  const EconLabel: Str := Units("Экон ")
  const HumanLabel: Str := Units("Чел  ")
  const SocialLabel: Str := Units("Соц  ")
  const PercentGap: Str := Units(" %  ")
  const ProfileUrlPrefix: Str := Units("https://t.me/")
  const ProfileButtonLabel: Str := BustEmoji + Units(" Открыть профиль")
  const Fallback: Str := Units("User")

  const AT: Unit := 0x40
  const FULL_BLOCK: Unit := 0x2588
  const LIGHT_SHADE: Unit := 0x2591

  // ---------------------------------------------------------------------
  // pad and bar
  // ---------------------------------------------------------------------

  /** `pad(s, width)`: `s` followed by spaces up to `width` code units, never cut. */
  function Pad(s: Str, width: int): (r: Str)
    ensures |r| == if |s| >= width then |s| else width
    ensures r[..|s|] == s
    ensures forall i :: |s| <= i < |r| ==> r[i] == SP
  {
    if |s| >= width then s else s + Repeat(SP, width - |s|)
  }

  /** `Math.round((pct / 100) * 10)` for `pct` given in tenths: the nearest whole, halves rounded up. */
  function Filled(tenths: int): (n: int)
    ensures n * 100 - 50 <= tenths < n * 100 + 50
  {
    (tenths + 50) / 100
  }

  /**
   * `bar(pct)`: ten cells of which round(pct / 10) are full. `repeat` throws
   * a RangeError on a negative count, which is None here.
   */
  function Bar(tenths: int): (r: Option<Str>)
    ensures r.None? <==> tenths < -50
    ensures 0 <= tenths <= 1000 ==> r.Some? && |r.value| == 10
    ensures r.Some? ==> |r.value| == if Filled(tenths) > 10 then Filled(tenths) else 10
    ensures r.Some? ==> forall i :: 0 <= i < |r.value| ==>
              (r.value[i] == FULL_BLOCK <==> i < Filled(tenths)) && (r.value[i] == FULL_BLOCK || r.value[i] == LIGHT_SHADE)
  {
    var filled := Filled(tenths);
    if filled < 0 then None
    else Some(Repeat(FULL_BLOCK, filled) + Repeat(LIGHT_SHADE, if 10 - filled > 0 then 10 - filled else 0))
  }

  /** One monospace line of the capitals block: `${caption}${pad(x.toFixed(1))} %  ${bar(x)}`. */
  function CapitalLine(caption: Str, tenths: int): Option<Str>
  {
    match Bar(tenths)
    case None => None
    case Some(b) => Some(caption + Pad(Fixed1(tenths), 5) + PercentGap + b)
  }

  /**
   * For values between 0 and 100 % the number is padded to five columns and
   * the bar has ten cells, so every line of a block has the same width.
   */
  lemma {:induction false} CapitalLineWidth(caption: Str, tenths: int)
    requires 0 <= tenths <= 1000
    ensures CapitalLine(caption, tenths).Some?
    ensures |CapitalLine(caption, tenths).value| == |caption| + 19
  {
    NatToStringLength(tenths / 10, 3);
    assert |Fixed1(tenths)| <= 5;
  }

  // ---------------------------------------------------------------------
  // Names
  // ---------------------------------------------------------------------

  /** `[first, last].filter(Boolean).join(' ')` */
  function JoinNames(first: Str, last: Str): (r: Str)
    ensures first == [] ==> r == last
    ensures last == [] ==> r == first
    ensures first != [] && last != [] ==> r == first + [SP] + last
  {
    if first != [] && last != [] then first + [SP] + last else first + last
  }

  /** None of the reasons buildDisplayName has to fall back to "User". */
  predicate Acceptable(name: Str)
  {
    |name| >= 2
    && !ContainsIgnoringAsciiCase(name, Units("undefined"))
    && !ContainsIgnoringAsciiCase(name, Units("null"))
    && !HasAngleBracket(name)
  }

  /**
   * `buildDisplayName()`: the user's joined, trimmed and whitespace-collapsed
   * first and last name, or "User" when that is empty, shorter than two
   * units, mentions "undefined" or "null" in any case, or holds `<` or `>`.
   */
  function DisplayName(u: User): (r: Str)
    ensures Acceptable(r) && IsNormalized(r)
    ensures r == Normalize(JoinNames(u.firstName, u.lastName)) || r == Fallback
    ensures r == Normalize(JoinNames(u.firstName, u.lastName)) <==> Acceptable(Normalize(JoinNames(u.firstName, u.lastName)))
  {
    var nm := Normalize(JoinNames(u.firstName, u.lastName));
    NormalizeShape(JoinNames(u.firstName, u.lastName));
    FallbackAcceptable();
    if !Acceptable(nm) then Fallback else nm
  }

  lemma FallbackAcceptable()
    ensures Acceptable(Fallback) && IsNormalized(Fallback)
  {
    assert !ContainsIgnoringAsciiCase(Fallback, Units("null")) by {
      var word := Units("null");
      assert Fallback[0] == 0x55 && word[0] == 0x6E;
      assert !MatchesAt(Fallback, word, 0);
    }
    assert !HasAngleBracket(Fallback);
  }

  /** `hasUsername ? '@' + username : '@'`, which is `'@' + username` either way. */
  function ShownUsername(u: User): (r: Str)
    ensures r == [AT] + u.username
  {
    if u.username != [] then [AT] + u.username else [AT]
  }

  /** The profile link of a user with a username. */
  function ProfileUrl(u: User): Str
  {
    ProfileUrlPrefix + u.username
  }

  // ---------------------------------------------------------------------
  // The layout
  // ---------------------------------------------------------------------

  /** The answer of the archived room whose id is `String(id)`; the first one, as `find` returns. */
  function FindAnswer(answers: seq<Answer>, idText: Str): (r: Option<Answer>)
    ensures r.None? <==> forall a :: a in answers ==> a.id != idText
    ensures r.Some? ==> exists k :: 0 <= k < |answers| && answers[k] == r.value && r.value.id == idText
                                    && forall j :: 0 <= j < k ==> answers[j].id != idText
  {
    if answers == [] then None
    else if answers[0].id == idText then Some(answers[0])
    else
      var rest := FindAnswer(answers[1..], idText);
      assert forall j :: 0 <= j < |answers| - 1 ==> answers[1..][j] == answers[j + 1];
      rest
  }

  /** The archived answer of the participant, when there is an archived room. */
  function Participant(archived: Option<ArchivedRoom>, id: int): Option<Answer>
  {
    if archived.None? then None else FindAnswer(archived.value.answers, IntToString(id))
  }

  /** The entity on the display name: a link to the profile, or a mention of the user id without one. */
  function NameKind(id: int, u: User): EntityKind
  {
    if u.username != [] then TextLink(ProfileUrl(u)) else TextMention(id, DisplayName(u))
  }

  function TitlePieces(): seq<Piece>
  {
    [Styled(Bold, Title), Plain([NL, NL])]
  }

  /** `👤 Участник: @username -  Display Name`, with only the display name decorated. */
  function HeaderPieces(id: int, u: User): seq<Piece>
  {
    [Plain(HeaderPrefix + ShownUsername(u) + HeaderDash), Styled(NameKind(id, u), DisplayName(u)), Plain([NL])]
  }

  function RoomIdText(archived: Option<ArchivedRoom>): Str
  {
    if archived.Some? then archived.value.roomId else Dash
  }

  function MemberCountText(archived: Option<ArchivedRoom>): Str
  {
    if archived.Some? then IntToString(|archived.value.members|) else Dash
  }

  function RoomPieces(archived: Option<ArchivedRoom>): seq<Piece>
  {
    [ Styled(Bold, RoomLabel), Plain([SP] + RoomIdText(archived) + [NL]),
      Styled(Bold, MembersLabel), Plain([SP] + MemberCountText(archived) + [NL, NL]) ]
  }

  /** `${i + 1}. ${answer, trimmed and collapsed}` */
  function QuestionLine(n: int, answer: Str): Str
  {
    IntToString(n) + Units(". ") + Normalize(answer) + [NL]
  }

  /** The numbered line of each answer, numbered from 1. */
  function QuestionLines(answers: seq<Str>): (ps: seq<Piece>)
    ensures |ps| == |answers|
    decreases |answers|
  {
    if answers == [] then []
    else QuestionLines(answers[..|answers| - 1]) + [Plain(QuestionLine(|answers|, answers[|answers| - 1]))]
  }

  function QuestionPieces(answers: seq<Str>): seq<Piece>
  {
    if answers == [] then []
    else [Styled(Bold, QuestionsLabel), Plain([NL])] + QuestionLines(answers) + [Plain([NL])]
  }

  /** `result.capitals[m] || { econ: 0, human: 0, social: 0 }` */
  function CapitalsOf(capitals: map<Str, Capitals>, m: Str): Capitals
  {
    if m in capitals then capitals[m] else Capitals(0, 0, 0)
  }

  /** The bullet line of one member followed by the three monospace capital lines. */
  function MemberBlock(m: Str, c: Capitals): Option<seq<Piece>>
  {
    var econ := CapitalLine(EconLabel, c.econ);
    var human := CapitalLine(HumanLabel, c.human);
    var social := CapitalLine(SocialLabel, c.social);
    if econ.None? || human.None? || social.None? then None
    else Some([ Plain(Bullet + m + [NL]),
                Styled(Code, econ.value), Plain([NL]),
                Styled(Code, human.value), Plain([NL]),
                Styled(Code, social.value), Plain([NL, NL]) ])
  }

  /** The blocks of the members in order; None when a bar throws. */
  function MemberBlocks(members: seq<Str>, capitals: map<Str, Capitals>): Option<seq<Piece>>
    decreases |members|
  {
    if members == [] then Some([])
    else
      match MemberBlocks(members[..|members| - 1], capitals)
      case None => None
      case Some(ps) =>
        match MemberBlock(members[|members| - 1], CapitalsOf(capitals, members[|members| - 1]))
        case None => None
        case Some(qs) => Some(ps + qs)
  }

  /** Whether the capitals section is printed: `result.capitals && members.length`. */
  predicate ShowsCapitals(room: ArchivedRoom)
  {
    room.result.Some? && room.result.value.capitals.Some? && |room.members| > 0
  }

  function CapitalsPieces(room: ArchivedRoom): Option<seq<Piece>>
  {
    if !ShowsCapitals(room) then Some([])
    else
      match MemberBlocks(room.members, room.result.value.capitals.value)
      case None => None
      case Some(ps) => Some([Styled(Bold, CapitalsLabel), Plain([NL])] + ps)
  }

  /** `• ${name, trimmed and collapsed}: ${share}%` */
  function ShareLine(s: Share): Str
  {
    Bullet + Normalize(s.name) + Units(": ") + TenthsToString(s.share) + [PERCENT, NL]
  }

  function ShareLines(shares: seq<Share>): (ps: seq<Piece>)
    ensures |ps| == |shares|
    decreases |shares|
  {
    if shares == [] then [] else ShareLines(shares[..|shares| - 1]) + [Plain(ShareLine(shares[|shares| - 1]))]
  }

  /** Whether the final shares are printed: `result.shares.length`. */
  predicate ShowsShares(room: ArchivedRoom)
  {
    room.result.Some? && |room.result.value.shares| > 0
  }

  function SharesPieces(room: ArchivedRoom): seq<Piece>
  {
    if ShowsShares(room) then [Styled(Bold, SharesLabel), Plain([NL])] + ShareLines(room.result.value.shares)
    else [Plain(NotTakenYet)]
  }

  /** What follows the room lines: the participant's results, or "Тест ещё не проходил.". */
  function BodyPieces(id: int, archived: Option<ArchivedRoom>): Option<seq<Piece>>
  {
    if archived.Some? && Participant(archived, id).Some? then
      match CapitalsPieces(archived.value)
      case None => None
      case Some(cs) =>
        Some(QuestionPieces(Participant(archived, id).value.questionsAnswers) + cs + SharesPieces(archived.value))
    else Some([Plain(NotTakenYet)])
  }

  /** The lines every message starts with: the title, the header and the room lines. */
  function OpeningPieces(id: int, u: User, archived: Option<ArchivedRoom>): seq<Piece>
  {
    TitlePieces() + HeaderPieces(id, u) + RoomPieces(archived)
  }

  /** The whole layout of the message; None when building it throws. */
  function BidPieces(id: int, u: User, archived: Option<ArchivedRoom>): Option<seq<Piece>>
  {
    match BodyPieces(id, archived)
    case None => None
    case Some(body) => Some(OpeningPieces(id, u, archived) + body)
  }

  // ---------------------------------------------------------------------
  // The reply
  // ---------------------------------------------------------------------

  datatype BidError =
    | MissingId        // 400 "Не передан Telegram ID"
    | UserNotFound     // 400 "Пользователь не найден в базе"
    | InternalError    // 500, something threw while building the message

  /** An inline keyboard button opening a URL. */
  datatype Button = Button(caption: Str, url: Str)

  /** What `bot.sendMessage(GROUP_CHAT_ID, text, options)` is given, web page preview disabled. */
  datatype Outgoing = Outgoing(text: Str, entities: seq<Entity>, profileButton: Option<Button>)

  /** The "open profile" button, offered only for users with a username. */
  function ProfileButton(u: User): Option<Button>
  {
    if u.username != [] then Some(Button(ProfileButtonLabel, ProfileUrl(u))) else None
  }

  /** The reply of sendBidMessage for a request id (None: absent), the user found, and the archived room found. */
  function BidReply(id: Option<int>, user: Option<User>, archived: Option<ArchivedRoom>): (r: Result<Outgoing, BidError>)
    ensures r == Err(MissingId) <==> id.None? || id.value == 0
    ensures r == Err(UserNotFound) <==> id.Some? && id.value != 0 && user.None?
    ensures r.Ok? ==> user.Some? && (r.value.profileButton.Some? <==> user.value.username != [])
    ensures r.Ok? ==> r.value.profileButton.Some? ==> r.value.profileButton.value.url == ProfileUrlPrefix + user.value.username
  {
    if id.None? || id.value == 0 then Err(MissingId)
    else if user.None? then Err(UserNotFound)
    else
      match BidPieces(id.value, user.value, archived)
      case None => Err(InternalError)
      case Some(ps) =>
        Ok(Outgoing(Render(ps).text, Render(ps).entities, ProfileButton(user.value)))
  }

  // ---------------------------------------------------------------------
  // sendBidMessage, step by step
  // ---------------------------------------------------------------------

  /** A bar throws for one of a member's capitals. */
  predicate BarThrows(c: Capitals)
  {
    c.econ < -50 || c.human < -50 || c.social < -50
  }

  /** The member blocks of the first `i + 1` members extend those of the first `i`. */
  lemma MemberBlocksStep(members: seq<Str>, capitals: map<Str, Capitals>, i: nat)
    requires i < |members|
    ensures MemberBlocks(members[..i + 1], capitals) ==
      match MemberBlocks(members[..i], capitals)
      case None => None
      case Some(ps) =>
        match MemberBlock(members[i], CapitalsOf(capitals, members[i]))
        case None => None
        case Some(qs) => Some(ps + qs)
  {
    assert members[..i + 1][..i] == members[..i];
  }

  /** Once a bar has thrown, the whole capitals block throws. */
  lemma {:induction false} MemberBlocksStayThrown(members: seq<Str>, capitals: map<Str, Capitals>, i: nat)
    requires i <= |members| && MemberBlocks(members[..i], capitals).None?
    ensures MemberBlocks(members, capitals).None?
    decreases |members|
  {
    if i < |members| {
      assert members[..|members| - 1][..i] == members[..i];
      MemberBlocksStayThrown(members[..|members| - 1], capitals, i);
    } else {
      assert members[..i] == members;
    }
  }

  /** Appending a member's block to a rendered message: a bullet line and three `code` lines. */
  lemma RenderMemberBlock(ps: seq<Piece>, bullet: Str, l1: Str, l2: Str, l3: Str)
    ensures Render(ps + [Plain(bullet), Styled(Code, l1), Plain([NL]), Styled(Code, l2), Plain([NL]), Styled(Code, l3), Plain([NL, NL])])
         == Draft(Render(ps).text + bullet + (l1 + [NL]) + (l2 + [NL]) + (l3 + [NL, NL]),
                  Render(ps).entities
                  + [Entity(Code, |Render(ps).text + bullet|, |l1|)]
                  + [Entity(Code, |Render(ps).text + bullet + (l1 + [NL])|, |l2|)]
                  + [Entity(Code, |Render(ps).text + bullet + (l1 + [NL]) + (l2 + [NL])|, |l3|)])
  {
    var p1 := ps + [Plain(bullet)];
    RenderSnoc(ps, Plain(bullet));
    var p2 := p1 + [Styled(Code, l1), Plain([NL])];
    RenderAppendLabelled(p1, Code, l1, [NL]);
    var p3 := p2 + [Styled(Code, l2), Plain([NL])];
    RenderAppendLabelled(p2, Code, l2, [NL]);
    RenderAppendLabelled(p3, Code, l3, [NL, NL]);
    assert p3 + [Styled(Code, l3), Plain([NL, NL])]
        == ps + [Plain(bullet), Styled(Code, l1), Plain([NL]), Styled(Code, l2), Plain([NL]), Styled(Code, l3), Plain([NL, NL])];
  }

  /** One more numbered answer line is one more step. */
  lemma QuestionLinesStep(head: seq<Piece>, answers: seq<Str>, i: nat)
    requires i < |answers|
    ensures Render(head + QuestionLines(answers[..i + 1]))
         == Step(Render(head + QuestionLines(answers[..i])), Plain(QuestionLine(i + 1, answers[i])))
  {
    assert answers[..i + 1][..i] == answers[..i];
    RenderSnoc(head + QuestionLines(answers[..i]), Plain(QuestionLine(i + 1, answers[i])));
    assert head + QuestionLines(answers[..i]) + [Plain(QuestionLine(i + 1, answers[i]))] == head + QuestionLines(answers[..i + 1]);
  }

  /** The answers section is its label, its lines and a blank line. */
  lemma QuestionPiecesSplit(done: seq<Piece>, answers: seq<Str>)
    requires answers != []
    ensures Render(done + QuestionPieces(answers))
         == Step(Render(done + [Styled(Bold, QuestionsLabel), Plain([NL])] + QuestionLines(answers)), Plain([NL]))
  {
    var head := done + [Styled(Bold, QuestionsLabel), Plain([NL])];
    RenderSnoc(head + QuestionLines(answers), Plain([NL]));
    AppendThree(done, [Styled(Bold, QuestionsLabel), Plain([NL])], QuestionLines(answers), [Plain([NL])]);
  }

  /** One more share line is one more step. */
  lemma ShareLinesStep(head: seq<Piece>, shares: seq<Share>, i: nat)
    requires i < |shares|
    ensures Render(head + ShareLines(shares[..i + 1])) == Step(Render(head + ShareLines(shares[..i])), Plain(ShareLine(shares[i])))
  {
    assert shares[..i + 1][..i] == shares[..i];
    RenderSnoc(head + ShareLines(shares[..i]), Plain(ShareLine(shares[i])));
    assert head + ShareLines(shares[..i]) + [Plain(ShareLine(shares[i]))] == head + ShareLines(shares[..i + 1]);
  }

  /** The shares section is its label followed by its lines. */
  lemma SharesPiecesSplit(done: seq<Piece>, room: ArchivedRoom)
    requires ShowsShares(room)
    ensures Render(done + SharesPieces(room))
         == Render(done + [Styled(Bold, SharesLabel), Plain([NL])] + ShareLines(room.result.value.shares))
  {
    assert done + [Styled(Bold, SharesLabel), Plain([NL])] + ShareLines(room.result.value.shares) == done + SharesPieces(room);
  }

  /** `${caption} ${value}` followed by `end`, grouped as the pieces group it. */
  lemma LabelledLine(caption: Str, value: Str, end: Str)
    ensures caption + [SP] + value + end == caption + ([SP] + value + end)
  {
  }

  lemma AppendTwo(ps: seq<Piece>, a: seq<Piece>, b: seq<Piece>)
    ensures ps + a + b == ps + (a + b)
  {
  }

  /** Appending three sections one after another is appending the body they form. */
  lemma AppendThree(opening: seq<Piece>, a: seq<Piece>, b: seq<Piece>, c: seq<Piece>)
    ensures opening + a + b + c == opening + (a + b + c)
  {
  }

  /** A bar that throws for the member at `i` makes the whole capitals section throw. */
  lemma CapitalsThrow(room: ArchivedRoom, i: nat)
    requires ShowsCapitals(room) && i < |room.members|
    requires MemberBlocks(room.members[..i], room.result.value.capitals.value).Some?
    requires var c := CapitalsOf(room.result.value.capitals.value, room.members[i]);
             CapitalLine(EconLabel, c.econ).None? || CapitalLine(HumanLabel, c.human).None? || CapitalLine(SocialLabel, c.social).None?
    ensures CapitalsPieces(room).None?
  {
    MemberBlocksStep(room.members, room.result.value.capitals.value, i);
    MemberBlocksStayThrown(room.members, room.result.value.capitals.value, i + 1);
  }

  /** The capitals section is its label followed by the member blocks. */
  lemma CapitalsPiecesSplit(done: seq<Piece>, room: ArchivedRoom)
    requires ShowsCapitals(room) && MemberBlocks(room.members, room.result.value.capitals.value).Some?
    ensures CapitalsPieces(room).Some?
    ensures done + CapitalsPieces(room).value
         == done + [Styled(Bold, CapitalsLabel), Plain([NL])] + MemberBlocks(room.members, room.result.value.capitals.value).value
  {
    AppendTwo(done, [Styled(Bold, CapitalsLabel), Plain([NL])], MemberBlocks(room.members, room.result.value.capitals.value).value);
  }

  /** One more member block; the block's three lines are given as they were computed. */
  lemma MemberBlocksRender(head: seq<Piece>, members: seq<Str>, capitals: map<Str, Capitals>, i: nat, l1: Str, l2: Str, l3: Str)
    requires i < |members| && MemberBlocks(members[..i], capitals).Some?
    requires CapitalLine(EconLabel, CapitalsOf(capitals, members[i]).econ) == Some(l1)
    requires CapitalLine(HumanLabel, CapitalsOf(capitals, members[i]).human) == Some(l2)
    requires CapitalLine(SocialLabel, CapitalsOf(capitals, members[i]).social) == Some(l3)
    ensures MemberBlocks(members[..i + 1], capitals).Some?
    ensures Render(head + MemberBlocks(members[..i + 1], capitals).value)
         == Render(head + MemberBlocks(members[..i], capitals).value
                   + [Plain(Bullet + members[i] + [NL]), Styled(Code, l1), Plain([NL]), Styled(Code, l2), Plain([NL]), Styled(Code, l3), Plain([NL, NL])])
  {
    MemberBlocksStep(members, capitals, i);
    var blocks := MemberBlocks(members[..i], capitals).value;
    var block := MemberBlock(members[i], CapitalsOf(capitals, members[i])).value;
    assert head + blocks + block == head + (blocks + block);
  }

  /**
   * The numbered answers: `forEach((ans, i) => text += `${i + 1}. ${t}\n`)`,
   * after the bold label, and a blank line after them. Nothing is added when
   * there are no answers.
   */
  method AppendQuestions(text: Str, entities: seq<Entity>, ghost done: seq<Piece>, answers: seq<Str>)
    returns (text': Str, entities': seq<Entity>)
    requires Draft(text, entities) == Render(done)
    ensures Draft(text', entities') == Render(done + QuestionPieces(answers))
  {
    text', entities' := text, entities;
    if |answers| == 0 {
      assert done + QuestionPieces(answers) == done;
      return;
    }
    var start := |text'|;
    text' := text' + (QuestionsLabel + [NL]);
    entities' := entities' + [Entity(Bold, start, |QuestionsLabel|)];
    RenderAppendLabelled(done, Bold, QuestionsLabel, [NL]);
    ghost var head := done + [Styled(Bold, QuestionsLabel), Plain([NL])];
    assert answers[..0] == [] && head + QuestionLines([]) == head;
    var i := 0;
    while i < |answers|
      invariant 0 <= i <= |answers|
      invariant Draft(text', entities') == Render(head + QuestionLines(answers[..i]))
    {
      var line := QuestionLine(i + 1, answers[i]);
      text' := text' + line;
      QuestionLinesStep(head, answers, i);
      i := i + 1;
    }
    text' := text' + [NL];
    assert answers[..i] == answers;
    QuestionPiecesSplit(done, answers);
  }

  /**
   * The averaged capitals: the bold label, then for each member a bullet line
   * and three monospace lines, each pushed as a `code` entity. `thrown` is
   * set when a bar throws, which ends the request with a 500.
   */
  method AppendCapitals(text: Str, entities: seq<Entity>, ghost done: seq<Piece>, room: ArchivedRoom)
    returns (thrown: bool, text': Str, entities': seq<Entity>)
    requires Draft(text, entities) == Render(done)
    ensures thrown <==> CapitalsPieces(room).None?
    ensures !thrown ==> Draft(text', entities') == Render(done + CapitalsPieces(room).value)
  {
    thrown, text', entities' := false, text, entities;
    if !ShowsCapitals(room) {
      assert done + CapitalsPieces(room).value == done;
      return;
    }
    var capitals := room.result.value.capitals.value;
    var start := |text'|;
    text' := text' + (CapitalsLabel + [NL]);
    entities' := entities' + [Entity(Bold, start, |CapitalsLabel|)];
    RenderAppendLabelled(done, Bold, CapitalsLabel, [NL]);
    ghost var head := done + [Styled(Bold, CapitalsLabel), Plain([NL])];
    assert room.members[..0] == [] && head + [] == head;
    var i := 0;
    while i < |room.members|
      invariant 0 <= i <= |room.members|
      invariant MemberBlocks(room.members[..i], capitals).Some?
      invariant Draft(text', entities') == Render(head + MemberBlocks(room.members[..i], capitals).value)
    {
      var m := room.members[i];
      var caps := CapitalsOf(capitals, m);
      text' := text' + (Bullet + m + [NL]);
      var line1 := CapitalLine(EconLabel, caps.econ);
      if line1.None? {
        CapitalsThrow(room, i);
        return true, text', entities';
      }
      var l1s := |text'|;
      text' := text' + (line1.value + [NL]);
      entities' := entities' + [Entity(Code, l1s, |line1.value|)];
      var line2 := CapitalLine(HumanLabel, caps.human);
      if line2.None? {
        CapitalsThrow(room, i);
        return true, text', entities';
      }
      var l2s := |text'|;
      text' := text' + (line2.value + [NL]);
      entities' := entities' + [Entity(Code, l2s, |line2.value|)];
      var line3 := CapitalLine(SocialLabel, caps.social);
      if line3.None? {
        CapitalsThrow(room, i);
        return true, text', entities';
      }
      var l3s := |text'|;
      text' := text' + (line3.value + [NL, NL]);
      entities' := entities' + [Entity(Code, l3s, |line3.value|)];
      RenderMemberBlock(head + MemberBlocks(room.members[..i], capitals).value, Bullet + m + [NL], line1.value, line2.value, line3.value);
      MemberBlocksRender(head, room.members, capitals, i, line1.value, line2.value, line3.value);
      i := i + 1;
    }
    assert room.members[..i] == room.members;
    CapitalsPiecesSplit(done, room);
  }

  /** The final shares after their bold label, or "Тест ещё не проходил." when there are none. */
  method AppendShares(text: Str, entities: seq<Entity>, ghost done: seq<Piece>, room: ArchivedRoom)
    returns (text': Str, entities': seq<Entity>)
    requires Draft(text, entities) == Render(done)
    ensures Draft(text', entities') == Render(done + SharesPieces(room))
  {
    text', entities' := text, entities;
    if !ShowsShares(room) {
      text' := text' + NotTakenYet;
      RenderSnoc(done, Plain(NotTakenYet));
      return;
    }
    var shares := room.result.value.shares;
    var start := |text'|;
    text' := text' + (SharesLabel + [NL]);
    entities' := entities' + [Entity(Bold, start, |SharesLabel|)];
    RenderAppendLabelled(done, Bold, SharesLabel, [NL]);
    ghost var head := done + [Styled(Bold, SharesLabel), Plain([NL])];
    assert shares[..0] == [] && head + ShareLines([]) == head;
    var i := 0;
    while i < |shares|
      invariant 0 <= i <= |shares|
      invariant Draft(text', entities') == Render(head + ShareLines(shares[..i]))
    {
      var line := ShareLine(shares[i]);
      text' := text' + line;
      ShareLinesStep(head, shares, i);
      i := i + 1;
    }
    assert shares[..i] == shares;
    SharesPiecesSplit(done, room);
  }

  /** The title, the header line and the room lines, which every message starts with. */
  method AppendOpening(id: int, u: User, archived: Option<ArchivedRoom>)
    returns (text: Str, entities: seq<Entity>)
    ensures Draft(text, entities) == Render(OpeningPieces(id, u, archived))
  {
    var hasUsername := u.username != [];
    var shownUsername := ShownUsername(u);
    var displayName := DisplayName(u);
    text, entities := [], [];

    // The title, in bold.
    var start := |text|;
    text := text + (Title + [NL, NL]);
    entities := entities + [Entity(Bold, start, |Title|)];
    ghost var done := TitlePieces();
    ExtendLabelled(Draft([], []), Bold, Title, [NL, NL]);
    assert Draft(text, entities) == Render(done);

    // The header line; only the display name at its end is decorated.
    var header := HeaderPrefix + shownUsername + HeaderDash + displayName;
    var headerStart := |text|;
    text := text + (header + [NL]);
    var nameOffsetInHeader := |header| - |displayName|;
    var kind := if hasUsername then TextLink(ProfileUrl(u)) else TextMention(id, displayName);
    entities := entities + [Entity(kind, headerStart + nameOffsetInHeader, |displayName|)];
    RenderAppendTrailingStyled(done, HeaderPrefix + shownUsername + HeaderDash, kind, displayName, [NL]);
    done := done + HeaderPieces(id, u);
    assert Draft(text, entities) == Render(done);

    // The room and the number of members, with bold labels.
    var val1 := RoomIdText(archived);
    start := |text|;
    var line := RoomLabel + [SP] + val1;
    text := text + (line + [NL]);
    entities := entities + [Entity(Bold, start, |RoomLabel|)];
    RenderAppendLabelled(done, Bold, RoomLabel, [SP] + val1 + [NL]);
    LabelledLine(RoomLabel, val1, [NL]);
    ghost var roomLine := [Styled(Bold, RoomLabel), Plain([SP] + val1 + [NL])];
    assert Draft(text, entities) == Render(done + roomLine);
    var val2 := MemberCountText(archived);
    start := |text|;
    line := MembersLabel + [SP] + val2;
    text := text + (line + [NL, NL]);
    entities := entities + [Entity(Bold, start, |MembersLabel|)];
    RenderAppendLabelled(done + roomLine, Bold, MembersLabel, [SP] + val2 + [NL, NL]);
    LabelledLine(MembersLabel, val2, [NL, NL]);
    AppendTwo(done, roomLine, [Styled(Bold, MembersLabel), Plain([SP] + val2 + [NL, NL])]);
    assert Draft(text, entities) == Render(done + roomLine + [Styled(Bold, MembersLabel), Plain([SP] + val2 + [NL, NL])]);
    assert roomLine + [Styled(Bold, MembersLabel), Plain([SP] + val2 + [NL, NL])] == RoomPieces(archived);
  }

  /**
   * `sendBidMessage`: validates the id and the user, then appends the title,
   * the header, the room lines and the participant's results to `text`,
   * pushing an entity for every decorated label, and returns the message with
   * the profile button for users with a username.
   */
  method SendBidMessage(id: Option<int>, user: Option<User>, archived: Option<ArchivedRoom>)
    returns (r: Result<Outgoing, BidError>)
    ensures r == BidReply(id, user, archived)
  {
    if id.None? || id.value == 0 {
      return Err(MissingId);
    }
    if user.None? {
      return Err(UserNotFound);
    }
    var u := user.value;
    var participant := Participant(archived, id.value);
    var hasUsername := u.username != [];

    var text, entities := AppendOpening(id.value, u, archived);
    ghost var done := OpeningPieces(id.value, u, archived);

    // The participant's results, when the archive has them.
    if archived.Some? && participant.Some? {
      var room := archived.value;
      text, entities := AppendQuestions(text, entities, done, participant.value.questionsAnswers);
      done := done + QuestionPieces(participant.value.questionsAnswers);
      var barThrew;
      barThrew, text, entities := AppendCapitals(text, entities, done, room);
      if barThrew {
        return Err(InternalError);
      }
      done := done + CapitalsPieces(room).value;
      text, entities := AppendShares(text, entities, done, room);
      done := done + SharesPieces(room);
      AppendThree(OpeningPieces(id.value, u, archived), QuestionPieces(participant.value.questionsAnswers),
                  CapitalsPieces(room).value, SharesPieces(room));
    } else {
      text := text + NotTakenYet;
      RenderSnoc(done, Plain(NotTakenYet));
      done := done + [Plain(NotTakenYet)];
    }

    var button: Option<Button> := None;
    if hasUsername {
      button := Some(Button(ProfileButtonLabel, ProfileUrl(u)));
    }
    return Ok(Outgoing(text, entities, button));
  }
}
