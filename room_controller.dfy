/**
 * src/controllers/roomController.js: creating a room with one join link per
 * member, and admitting a member's answer into a room.
 *
 * A loaded room document is a `Room` object whose `answers` array addAnswer
 * extends in place; the checks before the append are pure predicates over
 * the room's fields and the request. The invariant the checks are meant to
 * keep is `AnswersInvariant`: at most `maxMembers` answers, unique ids, names
 * unique ignoring case, every name a member, and nobody rating themselves.
 * The methods follow the checks as written, which keep all of it but the
 * uniqueness of ids (see Findings); `Verdict` and `ValidateCreate` are the
 * corrected checks.
 */
module RoomController {
  import opened Wrappers
  import opened JsText
  import opened Models
  import UriEncoding

  // ---------------------------------------------------------------------
  // createRoom
  // ---------------------------------------------------------------------

  datatype CreateError =
    | BadMaxMembers       // 400 "maxMembers может быть только 2 или 3"
    | MembersMismatch     // 400 "Нужно передать имена всех участников"
    | DuplicateMembers    // 400, members equal ignoring case (see Findings)
    | LinkEncodingFailed  // 500, encodeURIComponent threw

  datatype CreateReply = CreateReply(roomId: Str, members: seq<Str>, links: map<Str, Str>)

  const BaseUrl: Str := Units("https://app.com/join")

  /** `${baseUrl}/${roomId}?name=${encodeURIComponent(name)}`; None when the encoding throws. */
  function JoinLink(roomId: Str, name: Str): (r: Option<Str>)
    ensures r.Some? <==> UriEncoding.WellFormed(name)
    ensures r.Some? ==> exists e :: UriEncoding.EncodeURIComponent(name) == Some(e)
                                 && r.value == BaseUrl + Units("/") + roomId + Units("?name=") + e
  {
    UriEncoding.EncodeDefinedIffWellFormed(name);
    match UriEncoding.EncodeURIComponent(name)
    case None => None
    case Some(e) => Some(BaseUrl + Units("/") + roomId + Units("?name=") + e)
  }

  /** No two names are equal after toLowerCase(). */
  predicate DistinctIgnoringCase(names: seq<Str>)
  {
    forall i, j :: 0 <= i < j < |names| ==> Lower(names[i]) != Lower(names[j])
  }

  /**
   * The two checks createRoom makes, as written: `maxMembers` is 2 or 3, and
   * `members` is an array (None: it is not) of exactly `maxMembers` names.
   */
  function ValidateCreateAsWritten(maxMembers: int, members: Option<seq<Str>>): (r: Result<seq<Str>, CreateError>)
    ensures r.Ok? <==> (maxMembers == 2 || maxMembers == 3) && members.Some? && |members.value| == maxMembers
    ensures r.Ok? ==> r.value == members.value
    ensures r == Err(BadMaxMembers) <==> maxMembers != 2 && maxMembers != 3
    ensures r == Err(MembersMismatch) <==>
              (maxMembers == 2 || maxMembers == 3) && (members.None? || |members.value| != maxMembers)
  {
    if maxMembers != 2 && maxMembers != 3 then Err(BadMaxMembers)
    else if members.None? || |members.value| != maxMembers then Err(MembersMismatch)
    else Ok(members.value)
  }

  /** createRoom's validation, with member names also required to differ ignoring case. */
  function ValidateCreate(maxMembers: int, members: Option<seq<Str>>): (r: Result<seq<Str>, CreateError>)
    ensures r.Ok? <==> ValidateCreateAsWritten(maxMembers, members).Ok? && DistinctIgnoringCase(members.value)
    ensures r.Ok? ==> r.value == members.value && |r.value| == maxMembers
  {
    match ValidateCreateAsWritten(maxMembers, members)
    case Err(e) => Err(e)
    case Ok(names) => if DistinctIgnoringCase(names) then Ok(names) else Err(DuplicateMembers)
  }

  /**
   * The `members.forEach` that fills `links`: one entry per member name,
   * holding that member's join link. encodeURIComponent throwing for one
   * member abandons the whole map (None).
   */
  method BuildLinks(roomId: Str, members: seq<Str>) returns (links: Option<map<Str, Str>>)
    ensures links.Some? <==> forall m :: m in members ==> UriEncoding.WellFormed(m)
    ensures links.Some? ==> links.value.Keys == set m | m in members
    ensures links.Some? ==> forall m :: m in members ==> JoinLink(roomId, m) == Some(links.value[m])
  {
    var acc: map<Str, Str> := map[];
    var i := 0;
    while i < |members|
      invariant 0 <= i <= |members|
      invariant forall k :: 0 <= k < i ==> members[k] in acc
      invariant forall m :: m in acc ==> m in members[..i] && JoinLink(roomId, m) == Some(acc[m])
    {
      var link := JoinLink(roomId, members[i]);
      if link.None? {
        return None;
      }
      acc := acc[members[i] := link.value];
      i := i + 1;
    }
    assert members[..i] == members;
    links := Some(acc);
  }

  /**
   * createRoom, with the checks as written: validate, save a new room with no
   * answers, then build the links. The room is saved before the links are
   * built, so a member name that encodeURIComponent rejects leaves a saved
   * room behind a 500 reply. Names equal ignoring case are accepted (see
   * Findings; `ValidateCreate` is the corrected validation).
   */
  method CreateRoom(maxMembers: int, members: Option<seq<Str>>, roomId: Str)
    returns (reply: Result<CreateReply, CreateError>, room: Room?)
    ensures room != null <==> ValidateCreateAsWritten(maxMembers, members).Ok?
    ensures room != null ==> fresh(room) && room.Valid() && room.answers == []
                              && room.roomId == roomId && room.maxMembers == maxMembers
                              && room.members == members.value
    ensures ValidateCreateAsWritten(maxMembers, members).Err? ==>
              reply == Err(ValidateCreateAsWritten(maxMembers, members).error)
    ensures reply.Ok? <==> ValidateCreateAsWritten(maxMembers, members).Ok?
                           && forall m :: m in members.value ==> UriEncoding.WellFormed(m)
    ensures ValidateCreateAsWritten(maxMembers, members).Ok? && !reply.Ok? ==> reply == Err(LinkEncodingFailed)
    ensures reply.Ok? ==> reply.value.roomId == roomId && reply.value.members == members.value
                          && reply.value.links.Keys == (set m | m in members.value)
                          && forall m :: m in members.value ==> JoinLink(roomId, m) == Some(reply.value.links[m])
  {
    var valid := ValidateCreateAsWritten(maxMembers, members);
    if valid.Err? {
      return Err(valid.error), null;
    }
    room := new Room(roomId, maxMembers, valid.value);
    var links := BuildLinks(roomId, valid.value);
    if links.None? {
      return Err(LinkEncodingFailed), room;
    }
    reply := Ok(CreateReply(roomId, valid.value, links.value));
  }

  // ---------------------------------------------------------------------
  // addAnswer
  // ---------------------------------------------------------------------

  datatype AddError =
    | RoomNotFound      // 404 "Комната не найдена"
    | NotAMember        // 400 the name is not one of the room's members
    | AlreadyAnswered   // 400 an answer with this id or name exists
    | RoomFull          // 400 "Все участники уже добавили ответы"
    | SelfRating        // 400 "Участник не может оценивать сам себя"

  /** The success reply: `current` answers out of `total`. */
  datatype AddReply = AddReply(current: int, total: int)

  /** The id Mongoose stores for a request id: the String field casts a number with `String(n)`. */
  function StoredId(id: JsonId): Str
  {
    match id
    case IdString(s) => s
    case IdNumber(n) => IntToString(n)
  }

  /** The answer `room.answers.push` stores; `questions_answers` takes its default `[]`. */
  function Stored(req: AnswerRequest): (a: Answer)
    ensures a.id == StoredId(req.id) && a.name == req.name
    ensures a.selfInput == req.selfInput && a.partnersInput == req.partnersInput
    ensures a.questionsAnswers == []
  {
    Answer(StoredId(req.id), req.name, [], req.selfInput, req.partnersInput)
  }

  /** `a.id === id` as written: a stored id (a string) equals only a request id that is the same string. */
  predicate SameIdAsWritten(a: Answer, id: JsonId)
  {
    id.IdString? && a.id == id.text
  }

  /** The id comparison addAnswer needs: the stored id against the id as it would be stored. */
  predicate SameId(a: Answer, id: JsonId)
  {
    a.id == StoredId(id)
  }

  /** `partners.some(p => p.partnerName.toLowerCase() === name.toLowerCase())` */
  predicate RatesSelf(name: Str, partners: seq<PartnerInput>)
  {
    exists p :: p in partners && Lower(p.partnerName) == Lower(name)
  }

  /**
   * The chain of checks of addAnswer, in the source's order; the first that
   * fails decides the error. `duplicateId` is the outcome of the id lookup.
   */
  function Checks(maxMembers: int, members: seq<Str>, answers: seq<Answer>, req: AnswerRequest, duplicateId: bool)
    : (r: Option<AddError>)
    ensures r.None? <==> req.name in members && !duplicateId
                         && (forall a :: a in answers ==> Lower(a.name) != Lower(req.name))
                         && |answers| < maxMembers && !RatesSelf(req.name, req.partnersInput)
    ensures r == Some(NotAMember) <==> req.name !in members
    ensures r == Some(AlreadyAnswered) <==>
              req.name in members && (duplicateId || exists a :: a in answers && Lower(a.name) == Lower(req.name))
    ensures r == Some(RoomFull) <==>
              req.name in members && !duplicateId && (forall a :: a in answers ==> Lower(a.name) != Lower(req.name))
              && |answers| >= maxMembers
    ensures r == Some(SelfRating) <==>
              req.name in members && !duplicateId && (forall a :: a in answers ==> Lower(a.name) != Lower(req.name))
              && |answers| < maxMembers && RatesSelf(req.name, req.partnersInput)
  {
    if req.name !in members then Some(NotAMember)
    else if duplicateId || exists a :: a in answers && Lower(a.name) == Lower(req.name) then Some(AlreadyAnswered)
    else if |answers| >= maxMembers then Some(RoomFull)
    else if RatesSelf(req.name, req.partnersInput) then Some(SelfRating)
    else None
  }

  /**
   * addAnswer's verdict as written, with `a.id === id`: a stored id matches
   * only a request id sent as the same string.
   */
  function VerdictAsWritten(maxMembers: int, members: seq<Str>, answers: seq<Answer>, req: AnswerRequest)
    : (r: Option<AddError>)
    ensures r.None? <==> req.name in members
                         && (forall a :: a in answers ==> !(req.id.IdString? && a.id == req.id.text))
                         && (forall a :: a in answers ==> Lower(a.name) != Lower(req.name))
                         && |answers| < maxMembers && !RatesSelf(req.name, req.partnersInput)
    ensures req.id.IdNumber? ==>
              (r == Some(AlreadyAnswered) <==> req.name in members && exists a :: a in answers && Lower(a.name) == Lower(req.name))
  {
    Checks(maxMembers, members, answers, req, exists a :: a in answers && SameIdAsWritten(a, req.id))
  }

  /** addAnswer's verdict, with the id compared as stored (see Findings). */
  function Verdict(maxMembers: int, members: seq<Str>, answers: seq<Answer>, req: AnswerRequest): (r: Option<AddError>)
    ensures r.None? <==> req.name in members
                         && (forall a :: a in answers ==> a.id != StoredId(req.id))
                         && (forall a :: a in answers ==> Lower(a.name) != Lower(req.name))
                         && |answers| < maxMembers && !RatesSelf(req.name, req.partnersInput)
    ensures r.None? ==> forall a :: a in answers ==> a.id != Stored(req).id
  {
    Checks(maxMembers, members, answers, req, exists a :: a in answers && SameId(a, req.id))
  }

  /**
   * The reply of addAnswer on a found room, as written: the first failing
   * check's error, or `current` answers after the push out of `total`.
   */
  function AddOutcome(maxMembers: int, members: seq<Str>, answers: seq<Answer>, req: AnswerRequest)
    : (r: Result<AddReply, AddError>)
    ensures r.Ok? <==> VerdictAsWritten(maxMembers, members, answers, req).None?
    ensures r.Err? ==> VerdictAsWritten(maxMembers, members, answers, req) == Some(r.error)
    ensures r.Ok? ==> r.value.current == |answers| + 1 && r.value.total == maxMembers && r.value.current <= maxMembers
  {
    match VerdictAsWritten(maxMembers, members, answers, req)
    case Some(e) => Err(e)
    case None => Ok(AddReply(|answers| + 1, maxMembers))
  }

  /** What the guard chain keeps true of a room's answers. */
  ghost predicate AnswersInvariant(maxMembers: int, members: seq<Str>, answers: seq<Answer>)
  {
    && (forall i, j :: 0 <= i < j < |answers| ==> answers[i].id != answers[j].id)
    && NamesInvariant(maxMembers, members, answers)
  }

  /** The invariant without the uniqueness of ids, which the as-written id comparison does not keep. */
  ghost predicate NamesInvariant(maxMembers: int, members: seq<Str>, answers: seq<Answer>)
  {
    && |answers| <= maxMembers
    && (forall i, j :: 0 <= i < j < |answers| ==> Lower(answers[i].name) != Lower(answers[j].name))
    && (forall i :: 0 <= i < |answers| ==> answers[i].name in members)
    && (forall i :: 0 <= i < |answers| ==> !RatesSelf(answers[i].name, answers[i].partnersInput))
  }

  /** An admitted answer keeps the invariant: room not over-full, no duplicate, member, no self-rating. */
  lemma AdmissionPreservesInvariant(maxMembers: int, members: seq<Str>, answers: seq<Answer>, req: AnswerRequest)
    requires AnswersInvariant(maxMembers, members, answers)
    requires Verdict(maxMembers, members, answers, req).None?
    ensures AnswersInvariant(maxMembers, members, answers + [Stored(req)])
  {
    var next := answers + [Stored(req)];
    forall i | 0 <= i < |answers| ensures next[i].id != Stored(req).id && Lower(next[i].name) != Lower(req.name) {
      assert next[i] == answers[i] && answers[i] in answers;
    }
  }

  /**
   * The as-written checks keep everything but the uniqueness of ids: room
   * not over-full, names distinct ignoring case, members only, no self-rating.
   */
  lemma AsWrittenAdmissionKeepsNames(maxMembers: int, members: seq<Str>, answers: seq<Answer>, req: AnswerRequest)
    requires NamesInvariant(maxMembers, members, answers)
    requires VerdictAsWritten(maxMembers, members, answers, req).None?
    ensures NamesInvariant(maxMembers, members, answers + [Stored(req)])
  {
    var next := answers + [Stored(req)];
    forall i | 0 <= i < |answers| ensures Lower(next[i].name) != Lower(req.name) {
      assert next[i] == answers[i] && answers[i] in answers;
    }
  }

  /** A room document as loaded by `Room.findOne`. */
  class Room {
    const roomId: Str
    const maxMembers: int
    const members: seq<Str>
    var answers: seq<Answer>

    /** The document shape createRoom guarantees, with the answers' invariant. */
    ghost predicate Valid()
      reads this
    {
      (maxMembers == 2 || maxMembers == 3) && |members| == maxMembers
      && AnswersInvariant(maxMembers, members, answers)
    }

    /** Valid, except that two answers may share an id. */
    ghost predicate ValidExceptIds()
      reads this
    {
      (maxMembers == 2 || maxMembers == 3) && |members| == maxMembers
      && NamesInvariant(maxMembers, members, answers)
    }

    /** `new Room({ roomId, maxMembers, members, answers: [] })` */
    constructor (roomId: Str, maxMembers: int, members: seq<Str>)
      ensures this.roomId == roomId && this.maxMembers == maxMembers && this.members == members
      ensures answers == []
    {
      this.roomId := roomId;
      this.maxMembers := maxMembers;
      this.members := members;
      answers := [];
    }

    /**
     * The guards of addAnswer, as written, followed by `room.answers.push`:
     * on success exactly one answer is appended; on any rejection nothing
     * changes. The invariant is kept whole for string ids; a numeric id may
     * repeat a stored one (see Findings).
     */
    method AddAnswer(req: AnswerRequest) returns (r: Result<AddReply, AddError>)
      modifies this
      ensures r == AddOutcome(maxMembers, members, old(answers), req)
      ensures answers == if r.Ok? then old(answers) + [Stored(req)] else old(answers)
      ensures old(ValidExceptIds()) ==> ValidExceptIds()
      ensures old(Valid()) && req.id.IdString? ==> Valid()
    {
      if req.name !in members {
        return Err(NotAMember);
      }
      var duplicateId := exists a :: a in answers && SameIdAsWritten(a, req.id);
      var duplicateName := exists a :: a in answers && Lower(a.name) == Lower(req.name);
      if duplicateId || duplicateName {
        return Err(AlreadyAnswered);
      }
      if |answers| >= maxMembers {
        return Err(RoomFull);
      }
      if RatesSelf(req.name, req.partnersInput) {
        return Err(SelfRating);
      }
      if ValidExceptIds() {
        AsWrittenAdmissionKeepsNames(maxMembers, members, answers, req);
      }
      if Valid() && req.id.IdString? {
        AsWrittenAgreesOnStringIds(maxMembers, members, answers, req);
        AdmissionPreservesInvariant(maxMembers, members, answers, req);
      }
      answers := answers + [Stored(req)];
      r := Ok(AddReply(|answers|, maxMembers));
    }
  }

  /** addAnswer: a missing room is a 404, otherwise the room's own admission. */
  method AddAnswer(room: Room?, req: AnswerRequest) returns (r: Result<AddReply, AddError>)
    modifies room
    ensures room == null ==> r == Err(RoomNotFound)
    ensures room != null ==> r == AddOutcome(room.maxMembers, room.members, old(room.answers), req)
    ensures room != null ==> room.answers == if r.Ok? then old(room.answers) + [Stored(req)] else old(room.answers)
  {
    if room == null {
      return Err(RoomNotFound);
    }
    r := room.AddAnswer(req);
  }

  // ---------------------------------------------------------------------
  // Properties of the whole room
  // ---------------------------------------------------------------------

  /** For string ids the as-written comparison and the corrected one agree. */
  lemma AsWrittenAgreesOnStringIds(maxMembers: int, members: seq<Str>, answers: seq<Answer>, req: AnswerRequest)
    requires req.id.IdString?
    ensures VerdictAsWritten(maxMembers, members, answers, req) == Verdict(maxMembers, members, answers, req)
  {
  }

  function TwoMembers(): seq<Str> { [Units("Alex"), Units("Vlad")] }

  /** Alex's stored answer, sent with the id "7". */
  function AnswerSeven(): Answer { Answer(Units("7"), Units("Alex"), [], Rating(0, 0, 0), []) }

  /** Vlad's request, sent with the JSON number 7 as its id. */
  function NumericSeven(): AnswerRequest { AnswerRequest(IdNumber(7), Units("Vlad"), Rating(0, 0, 0), []) }

  /**
   * Finding: with `a.id === id` a numeric request id never equals a stored
   * id, so a second answer with the same id is admitted and the stored ids
   * are no longer unique. The corrected Verdict rejects it.
   */
  lemma NumericIdAdmittedTwice()
    ensures AnswersInvariant(2, TwoMembers(), [AnswerSeven()])
    ensures VerdictAsWritten(2, TwoMembers(), [AnswerSeven()], NumericSeven()).None?
    ensures !AnswersInvariant(2, TwoMembers(), [AnswerSeven()] + [Stored(NumericSeven())])
    ensures Verdict(2, TwoMembers(), [AnswerSeven()], NumericSeven()) == Some(AlreadyAnswered)
  {
    var members, first, req := TwoMembers(), AnswerSeven(), NumericSeven();
    assert Lower(first.name)[0] != Lower(req.name)[0];
    assert req.name == members[1];
    assert Stored(req).id == [0x37] == first.id;
    assert SameId(first, req.id);
    var next := [first] + [Stored(req)];
    assert next[0].id == next[1].id;
  }

  /** The lower-cased forms of a list of names. */
  ghost function LoweredNames(names: seq<Str>): set<Str>
  {
    if names == [] then {} else LoweredNames(names[..|names| - 1]) + {Lower(names[|names| - 1])}
  }

  lemma {:induction false} InLoweredNames(names: seq<Str>, x: Str)
    ensures x in LoweredNames(names) <==> exists i :: 0 <= i < |names| && Lower(names[i]) == x
    decreases |names|
  {
    if names != [] {
      var init := names[..|names| - 1];
      InLoweredNames(init, x);
      if x in LoweredNames(init) {
        var i :| 0 <= i < |init| && Lower(init[i]) == x;
        assert names[i] == init[i];
      }
      if exists i :: 0 <= i < |names| && Lower(names[i]) == x {
        var i :| 0 <= i < |names| && Lower(names[i]) == x;
        if i < |init| { assert names[i] == init[i]; }
      }
    }
  }

  /** There are as many lower-cased names as names exactly when no two collide. */
  lemma {:induction false} LoweredNamesSize(names: seq<Str>)
    ensures |LoweredNames(names)| <= |names|
    ensures DistinctIgnoringCase(names) <==> |LoweredNames(names)| == |names|
    decreases |names|
  {
    if names != [] {
      var init := names[..|names| - 1];
      var last := names[|names| - 1];
      LoweredNamesSize(init);
      InLoweredNames(init, Lower(last));
      if DistinctIgnoringCase(names) {
        assert DistinctIgnoringCase(init) by {
          forall i, j | 0 <= i < j < |init| ensures Lower(init[i]) != Lower(init[j]) {
            assert init[i] == names[i] && init[j] == names[j];
          }
        }
      } else {
        var i, j :| 0 <= i < j < |names| && Lower(names[i]) == Lower(names[j]);
        if j == |names| - 1 {
          assert names[i] == init[i];
          assert Lower(last) in LoweredNames(init);
        } else {
          assert names[i] == init[i] && names[j] == init[j];
          assert !DistinctIgnoringCase(init);
        }
      }
    }
  }

  lemma SubsetSize<T>(a: set<T>, b: set<T>)
    requires a <= b
    ensures |a| <= |b|
  {
    assert b == a + (b - a);
  }

  /**
   * Finding: createRoom accepts members that are equal ignoring case (here
   * "Alex" and "alex"), but addAnswer compares names ignoring case, so such a
   * room can never collect `maxMembers` answers.
   */
  lemma CaseCollidingRoomNeverFills(maxMembers: int, members: seq<Str>, answers: seq<Answer>)
    requires ValidateCreateAsWritten(maxMembers, Some(members)).Ok?
    requires !DistinctIgnoringCase(members)
    requires NamesInvariant(maxMembers, members, answers)
    ensures |answers| < maxMembers
  {
    var names := seq(|answers|, i requires 0 <= i < |answers| => answers[i].name);
    assert DistinctIgnoringCase(names);
    LoweredNamesSize(names);
    LoweredNamesSize(members);
    forall x | x in LoweredNames(names) ensures x in LoweredNames(members) {
      InLoweredNames(names, x);
      var i :| 0 <= i < |names| && Lower(names[i]) == x;
      var k :| 0 <= k < |members| && members[k] == names[i];
      InLoweredNames(members, x);
    }
    SubsetSize(LoweredNames(names), LoweredNames(members));
  }

  /**
   * Finding, for a room as the as-written addAnswer leaves it (two answers
   * may share an id): with members equal ignoring case it is never full.
   */
  lemma CaseCollidingRoomObjectNeverFills(room: Room)
    requires room.ValidExceptIds() && !DistinctIgnoringCase(room.members)
    ensures |room.answers| < room.maxMembers
  {
    CaseCollidingRoomNeverFills(room.maxMembers, room.members, room.answers);
  }

  /** Such members pass the as-written validation. */
  lemma CaseCollidingMembersAccepted()
    ensures ValidateCreateAsWritten(2, Some([Units("Alex"), Units("alex")])).Ok?
    ensures !DistinctIgnoringCase([Units("Alex"), Units("alex")])
  {
    var a, b := Units("Alex"), Units("alex");
    assert Lower(a) == Lower(b) by {
      forall i | 0 <= i < 4 ensures Lower(a)[i] == Lower(b)[i] { }
    }
    var members := [a, b];
    assert Lower(members[0]) == Lower(members[1]);
  }

  /** The request a member sends when the member's name is also the id. */
  function RequestFor(name: Str): AnswerRequest
  {
    AnswerRequest(IdString(name), name, Rating(0, 0, 0), [])
  }

  /** One stored answer per member, in member order. */
  function AnswersOfAll(members: seq<Str>): (answers: seq<Answer>)
    ensures |answers| == |members|
  {
    seq(|members|, i requires 0 <= i < |members| => Stored(RequestFor(members[i])))
  }

  /** Under the corrected validation, the member at `i` is admitted after the members before it. */
  lemma MemberAdmittedInTurn(maxMembers: int, members: seq<Str>, i: nat)
    requires ValidateCreate(maxMembers, Some(members)).Ok? && i < |members|
    ensures Verdict(maxMembers, members, AnswersOfAll(members)[..i], RequestFor(members[i])).None?
  {
    var all := AnswersOfAll(members);
    var req := RequestFor(members[i]);
    forall a | a in all[..i] ensures !SameId(a, req.id) && Lower(a.name) != Lower(req.name) {
      var k :| 0 <= k < i && all[..i][k] == a;
      assert a.id == members[k] && a.name == members[k];
    }
  }

  /**
   * With the corrected validation every room can be completed: the members,
   * in order, each have their answer admitted, and the full room keeps the
   * invariant.
   */
  lemma EveryMemberCanAnswer(maxMembers: int, members: seq<Str>)
    requires ValidateCreate(maxMembers, Some(members)).Ok?
    ensures forall i :: 0 <= i < |members| ==>
              Verdict(maxMembers, members, AnswersOfAll(members)[..i], RequestFor(members[i])).None?
    ensures AnswersInvariant(maxMembers, members, AnswersOfAll(members))
  {
    var all := AnswersOfAll(members);
    forall i | 0 <= i < |members|
      ensures Verdict(maxMembers, members, all[..i], RequestFor(members[i])).None?
    {
      MemberAdmittedInTurn(maxMembers, members, i);
    }
    var k := 0;
    while k < |members|
      invariant 0 <= k <= |members|
      invariant AnswersInvariant(maxMembers, members, all[..k])
    {
      NextMemberKeepsInvariant(maxMembers, members, k);
      k := k + 1;
    }
    assert all[..k] == all;
  }

  /** The answers of the first `k + 1` members keep the invariant when those of the first `k` do. */
  lemma NextMemberKeepsInvariant(maxMembers: int, members: seq<Str>, k: nat)
    requires ValidateCreate(maxMembers, Some(members)).Ok? && k < |members|
    requires AnswersInvariant(maxMembers, members, AnswersOfAll(members)[..k])
    ensures AnswersInvariant(maxMembers, members, AnswersOfAll(members)[..k + 1])
  {
    var all := AnswersOfAll(members);
    MemberAdmittedInTurn(maxMembers, members, k);
    AdmissionPreservesInvariant(maxMembers, members, all[..k], RequestFor(members[k]));
    assert all[..k + 1] == all[..k] + [Stored(RequestFor(members[k]))];
  }
}
