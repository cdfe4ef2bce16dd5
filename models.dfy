/**
 * The shapes of the stored documents (src/models/Room.js, ArchivedRoom.js,
 * User.js) and of the request bodies the controllers read. JSON numbers are
 * integers here; the ones the bid message prints are whole tenths of a
 * percent.
 */
module Models {
  import opened Wrappers
  import opened JsText

  /** One rating over the three capitals (economic, human, social). */
  datatype Rating = Rating(econ: int, human: int, social: int)

  /** A rating given to another member of the room (partnerSchema). */
  datatype PartnerInput = PartnerInput(partnerName: Str, econ: int, human: int, social: int)

  /** A stored answer (answerSchema): `id` is a String field, so Mongoose stores `String(id)`. */
  datatype Answer = Answer(
    id: Str,
    name: Str,
    questionsAnswers: seq<Str>,
    selfInput: Rating,
    partnersInput: seq<PartnerInput>)

  /** The `id` of a request body, which the client may send as a JSON string or a JSON number. */
  datatype JsonId = IdString(text: Str) | IdNumber(number: int)

  /** The body of a POST to addAnswer. */
  datatype AnswerRequest = AnswerRequest(
    id: JsonId,
    name: Str,
    selfInput: Rating,
    partnersInput: seq<PartnerInput>)

  /** A registered Telegram user (userSchema); absent strings default to empty. */
  datatype User = User(telegramId: int, username: Str, firstName: Str, lastName: Str)

  /** One member's averaged capitals, in tenths of a percent. */
  datatype Capitals = Capitals(econ: int, human: int, social: int)

  /** One member's final share, in tenths of a percent. */
  datatype Share = Share(name: Str, share: int)

  /** The `result` object of an archived room; an absent `shares` array is the empty one. */
  datatype EquityResult = EquityResult(capitals: Option<map<Str, Capitals>>, shares: seq<Share>)

  /** A completed room after archiving (archivedRoomSchema). */
  datatype ArchivedRoom = ArchivedRoom(
    roomId: Str,
    maxMembers: int,
    members: seq<Str>,
    answers: seq<Answer>,
    result: Option<EquityResult>)
}
