# Partnership rooms: room creation, answer admission and the bid message

This project models three parts of the backend:

- **Room creation** (`createRoom`). The request is validated: `maxMembers` is 2 or 3, and there is one name per member. A room with no answers is saved. Each member gets a join link that carries the member's name, encoded with `encodeURIComponent`.
- **Answer admission** (`addAnswer`). A member's answer goes into a loaded room document only after a chain of guards. The name must belong to a member. No earlier answer may have the same id or the same name ignoring case. The room must not be full. The member must not rate themselves.
- **The bid message** (`sendBidMessage`). This is the Telegram message posted to the operators' chat when a participant asks for a review of their partnership. It is built without a parse mode, as a plain `text` and a list of `entities` (offsets and lengths in UTF-16 code units). The message contains:
  - a bold title;
  - a header line that links or mentions the participant's display name;
  - the archived room and its member count;
  - the participant's answers to the follow-up questions;
  - the averaged capitals of every member, as monospace bar charts;
  - the final shares.

Modules:

- `JsText`: JavaScript strings as UTF-16 code units, plus the built-ins the controllers use:
  - `String(n)` and `toFixed(1)`;
  - `trim()` followed by `replace(/\s+/g, ' ')`;
  - `toLowerCase()`;
  - the case-insensitive regular-expression tests.
- `UriEncoding`: `encodeURIComponent`, which copies the unreserved units, escapes the UTF-8 bytes of every code point outside the unreserved set, and throws a URIError on a lone surrogate.
- `Models`: the stored documents (room, answer, archived room, user) and the request bodies.
- `RoomController`:
  - validation, link building and `CreateRoom`;
  - the admission checks as pure functions;
  - the `Room` class, whose `AddAnswer` method extends its `answers` field in place;
  - the invariant the checks keep, and the two findings below.
- `Message`: a message as a list of pieces, each plain or decorated by one entity, and `Render`, which appends them. It also holds the lemmas saying that every entity covers exactly its piece and that entities never overlap.
- `BidController`:
  - `pad`, `bar`, the display name and the shown username;
  - the layout of the message as pieces (`BidPieces`) and the reply (`BidReply`);
  - `SendBidMessage` and its helpers, which build `text` and `entities` step by step as the source does and are proved equal to the rendering of the layout.
- `BidProperties`: what the message promises. This covers where the title and the name sit, how the name is linked, the profile button, when "Тест ещё не проходил." closes the message, how a member without capitals is shown, and which requests fail with which error.

Numbers printed in the bid message (capitals and shares) are whole tenths of a percent. `Fixed1` is `toFixed(1)` and `TenthsToString` is `String(x)` for such values. `Filled` is `Math.round(pct / 10)`, with halves rounded up. `repeat` throws on a negative count, which is the 500 error reply.

What the code does not check, and the model does not add:

- addAnswer does not check that the rated partners are other members of the room, or that they are distinct. It only rejects a rating of oneself (src/controllers/roomController.js:80-86).
- createRoom does not check that member names differ ignoring case; see Finding B.

`CreateRoom`, `Room.AddAnswer` and `AddAnswer` follow the code as written, including the two behaviours the Findings describe. The corrected checks, `ValidateCreate` and `Verdict`, are stated beside them with the properties the corrections give.

## Model

| member | source | states |
|---|---|---|
| RoomController.ValidateCreateAsWritten | src/controllers/roomController.js:15-21 | Accepts exactly when `maxMembers` is 2 or 3 and `members` is an array of exactly `maxMembers` names. `BadMaxMembers` is returned exactly when `maxMembers` is neither 2 nor 3. `MembersMismatch` is returned exactly when the size is right but `members` is not an array of that many names. The accepted names are the ones given. |
| RoomController.ValidateCreate | src/controllers/roomController.js:15-21 | The corrected validation: it accepts exactly what the as-written checks accept, minus member lists with two names equal ignoring case. The accepted list has `maxMembers` names. |
| RoomController.JoinLink | src/controllers/roomController.js:28-31 | A member's link exists exactly when the name has no lone surrogate. The link is `https://app.com/join/<roomId>?name=<encodeURIComponent(name)>`. |
| RoomController.BuildLinks | src/controllers/roomController.js:29-32 | The links map exists exactly when every name can be encoded. Its keys are exactly the member names, and each value is that member's join link. |
| RoomController.CreateRoom | src/controllers/roomController.js:13-34 | A room is created exactly when the as-written validation passes, so names equal ignoring case are accepted. The new room is fresh, has no answers, has the given id, size and members, and satisfies the room invariant. A validation error is returned as is. The reply succeeds exactly when validation passes and every name can be encoded, and then carries the room id, the members and their links. Otherwise the room is saved but the reply is the 500 `LinkEncodingFailed`. |
| RoomController.Stored | src/controllers/roomController.js:88 | The stored answer keeps the request's name, self rating and partner ratings, and has no answers to the follow-up questions. Its id is the request id as the String field stores it. |
| RoomController.Checks | src/controllers/roomController.js:62-86 | An answer is admitted exactly when all of these hold: the name is a member's, there is no duplicate id, no earlier answer has the name ignoring case, the room is not full, and the member does not rate themselves. `NotAMember` is returned exactly when the name is not a member's. `AlreadyAnswered` is returned exactly for a member's name with a duplicate id or name. `RoomFull` and `SelfRating` are each returned exactly when their check is the first to fail. |
| RoomController.VerdictAsWritten | src/controllers/roomController.js:62-86 | With `a.id === id`, an answer is admitted exactly when the name is a member's, no stored id equals the request id sent as a string, no earlier name is equal ignoring case, the room is not full and there is no self-rating. A numeric request id is rejected as a duplicate only for a duplicate name. |
| RoomController.Verdict | src/controllers/roomController.js:62-86 | The corrected verdict: the same checks with the request id compared as it is stored, so an admitted answer's id differs from every stored id. |
| RoomController.AddOutcome | src/controllers/roomController.js:62-96 | The reply succeeds exactly when the as-written checks pass. A failure carries the first failing check's error. Success reports `current` = answers + 1, at most `maxMembers`, and `total` = `maxMembers`. |
| RoomController.AsWrittenAdmissionKeepsNames | src/controllers/roomController.js:69-88 | An answer the as-written checks admit keeps everything but id uniqueness: at most `maxMembers` answers, names unique ignoring case, every name a member's, and no self-rating. |
| RoomController.AdmissionPreservesInvariant | src/controllers/roomController.js:67-88 | Appending an admitted answer keeps the room invariant: at most `maxMembers` answers, unique ids, names unique ignoring case, every name a member's, and no self-rating. |
| RoomController.Room.AddAnswer | src/controllers/roomController.js:62-96 | The reply is the as-written verdict, or `current` = answers after the push and `total` = `maxMembers`. On success exactly one answer, the stored form of the request, is appended. On rejection the answers are unchanged. A room keeps every part of the invariant except id uniqueness. For a string request id it keeps the whole invariant. |
| RoomController.AddAnswer | src/controllers/roomController.js:59-60 | A missing room is a 404. Otherwise the reply and the new answers are those of the room's own admission. |
| RoomController.AsWrittenAgreesOnStringIds | src/controllers/roomController.js:68 | For a request whose id is a JSON string, the as-written id comparison and the corrected one give the same verdict. |
| RoomController.NumericIdAdmittedTwice | src/controllers/roomController.js:68 | Finding A, exhibited: the as-written checks admit a numeric id equal to a stored one, which breaks id uniqueness. The corrected checks reject it. |
| RoomController.CaseCollidingMembersAccepted | src/controllers/roomController.js:19-21 | Finding B, exhibited: `["Alex", "alex"]` passes the as-written validation, although the two names are equal ignoring case. |
| RoomController.CaseCollidingRoomNeverFills | src/controllers/roomController.js:69 | Finding B: in a room whose members collide ignoring case, every answer list that keeps the invariant without id uniqueness stays below `maxMembers`. So the room never fills, even after a duplicate numeric id (Finding A). |
| RoomController.CaseCollidingRoomObjectNeverFills | src/controllers/roomController.js:62-88 | Finding B for a room object: a room that the as-written addAnswer keeps valid, apart from id uniqueness, holds fewer than `maxMembers` answers when its members collide ignoring case. |
| RoomController.MemberAdmittedInTurn | src/controllers/roomController.js:62-86 | Under the corrected validation, the member at position `i` is admitted after the members before it have answered. |
| RoomController.EveryMemberCanAnswer | src/controllers/roomController.js:62-88 | Under the corrected validation every room can be completed: each member in turn is admitted, and the full list of answers keeps the invariant. |
| UriEncoding.EncodeURIComponent | src/controllers/roomController.js:31 | The encoding contains only `%` and unreserved units. |
| UriEncoding.EncodeDefinedIffWellFormed | src/controllers/roomController.js:31 | encodeURIComponent throws exactly on strings with a lone surrogate. |
| UriEncoding.EncodeUnreservedIsIdentity | src/controllers/roomController.js:31 | A string of unreserved units is its own encoding. |
| JsText.IntToString | src/controllers/bidController.js:34 | `String(id)` is non-empty and starts with `-` exactly for a negative id. |
| JsText.Fixed1 | src/controllers/bidController.js:125-129 | `toFixed(1)` has one digit after the point and starts with `-` exactly for a negative number. |
| JsText.Fixed1RoundTrip | src/controllers/bidController.js:125-129 | Reading back what `toFixed(1)` printed gives the number. |
| JsText.TenthsToString | src/controllers/bidController.js:140 | `String(x)` starts with `-` exactly for a negative number, and has a point exactly when the number is not whole. |
| JsText.TenthsRoundTrip | src/controllers/bidController.js:140 | Reading back what `String(x)` printed gives the number. |
| JsText.TenthsToStringVersusFixed1 | src/controllers/bidController.js:125-140 | `String(x)` equals `toFixed(1)` except for whole numbers, where it leaves out the ".0". |
| JsText.DigitsRoundTrip | src/controllers/bidController.js:111 | Reading back the decimal digits `String(n)` prints gives `n`. |
| JsText.NatToStringLength | src/controllers/bidController.js:125 | A number below 10^k prints with at most k digits, which bounds the width of `toFixed(1)`. |
| JsText.TrimStart | src/controllers/bidController.js:53 | The result is a suffix of the input, starts with a non-space, and only whitespace was dropped. |
| JsText.TrimEnd | src/controllers/bidController.js:53 | The result is a prefix of the input, ends with a non-space, and only whitespace was dropped. |
| JsText.Collapse | src/controllers/bidController.js:53 | `replace(/\s+/g, ' ')` is empty exactly when its input is, and starts with whitespace exactly when its input does. |
| JsText.CollapseByRuns | src/controllers/bidController.js:53 | `replace(/\s+/g, ' ')` equals a one-pass scan: every non-whitespace unit is kept in order, the first unit of each whitespace run becomes one space, and the rest of the run is dropped. |
| JsText.RunsKeepsNonSpace | src/controllers/bidController.js:53 | That scan keeps exactly the non-whitespace units, in order. |
| JsText.TrimKeepsNonSpace | src/controllers/bidController.js:53 | `trim()` drops whitespace only. |
| JsText.NormalizeKeepsNonSpace | src/controllers/bidController.js:53 | `trim()` then `replace(/\s+/g, ' ')` keeps every non-whitespace unit in order, and is the scan applied to the trimmed string. |
| JsText.NormalizeShape | src/controllers/bidController.js:53 | `trim()` followed by `replace(/\s+/g, ' ')` gives a string with no surrounding whitespace and with single plain spaces only. |
| JsText.NormalizeFixesNormalized | src/controllers/bidController.js:110 | Normalizing leaves exactly the normalized strings unchanged, so it is idempotent. |
| JsText.Lower | src/controllers/roomController.js:69 | `toLowerCase()` keeps the length, gives a lower-case string, leaves a lower-case string unchanged, and changes no ASCII unit other than the capitals. A capital A-Z, a Latin-1 capital or a basic Cyrillic capital becomes its small letter (offset 0x20, or 0x50 for U+0400-U+040F). |
| BidController.Pad | src/controllers/bidController.js:13-16 | `pad(s, width)` has length max(\|s\|, width), starts with `s` and is filled with spaces. |
| BidController.Filled | src/controllers/bidController.js:19 | The number of full cells is the nearest whole number to pct/10, with halves rounded up. |
| BidController.Bar | src/controllers/bidController.js:17-22 | The bar throws exactly when pct rounds to a negative number of cells. Otherwise cell i is full exactly when i < filled, every other cell is light, and the length is max(10, filled). A pct between 0 and 100 gives exactly ten cells. |
| BidController.CapitalLineWidth | src/controllers/bidController.js:125-130 | For values between 0 and 100 % every capital line has width \|caption\| + 19, so the monospace lines align. |
| BidController.JoinNames | src/controllers/bidController.js:53 | `[first, last].filter(Boolean).join(' ')` in its three cases. |
| BidController.DisplayName | src/controllers/bidController.js:52-57 | The display name is always acceptable (at least two units, no "undefined" or "null" in any case, no `<` or `>`) and normalized. It is the user's normalized name exactly when that name is acceptable, and "User" otherwise. |
| BidController.ShownUsername | src/controllers/bidController.js:48-49 | The shown username is `@` followed by the username, with the empty username giving `@` alone. |
| BidController.FindAnswer | src/controllers/bidController.js:34 | None exactly when no archived answer has the id. Otherwise the first answer with that id. |
| BidController.AppendOpening | src/controllers/bidController.js:59-100 | Building the title, the header line and the two room lines on `text` and `entities` yields exactly the rendering of their pieces. |
| BidController.AppendQuestions | src/controllers/bidController.js:105-114 | Appending the numbered, normalized answers after their bold label, and a blank line, renders the questions section. Nothing is appended when there are no answers. |
| BidController.AppendCapitals | src/controllers/bidController.js:117-132 | `thrown` is set exactly when some bar throws. Otherwise the text and entities are the rendering of the capitals section: the label, then per member a bullet line and three `code` lines. |
| BidController.AppendShares | src/controllers/bidController.js:134-147 | Appends the bold label and one line per share, or "Тест ещё не проходил." when there are no shares. |
| BidController.BidReply | src/controllers/bidController.js:8-153 | 400 "Не передан Telegram ID" exactly for a missing or zero id, and 400 "Пользователь не найден в базе" exactly when there is an id but no user. A sent message has the profile button exactly when the user has a username, and the button opens `https://t.me/<username>`. |
| BidController.SendBidMessage | src/controllers/bidController.js:8-153 | The imperative build returns exactly `BidReply`: 400 without an id or a user, 500 when a bar throws, and otherwise the rendered layout with the profile button for users with a username. |
| Message.ExtendIsAppend | src/controllers/bidController.js:63-68 | Appending pieces appends their text, and keeps the entities already pushed in front. |
| Message.RenderAppendLabelled | src/controllers/bidController.js:106-108 | `start = text.length; text += label + end; entities.push({offset: start, length: label.length})` decorates exactly the label. |
| Message.RenderAppendTrailingStyled | src/controllers/bidController.js:74-87 | The entity of a line whose trailing name is decorated starts at the line's length minus the name's length. |
| Message.EntitiesCoverTheirPieces | src/controllers/bidController.js:63-130 | Every entity lies inside the text, and its slice of the text is exactly the label it was pushed for. |
| Message.EntitiesInOrder | src/controllers/bidController.js:63-137 | The entities come in the order they were pushed and never overlap. |
| BidProperties.BidErrors | src/controllers/bidController.js:8-159 | 400 "Не передан Telegram ID" exactly for a missing or zero id. 400 "Пользователь не найден в базе" exactly when the user is missing. 500 exactly when the participant has archived results with capitals and some member's capital is below -5 %. Every other request gets the message. |
| BidProperties.LayoutThrowsIff | src/controllers/bidController.js:117-131 | Building the message throws exactly when the capitals section is shown and some member's bar throws. |
| BidProperties.MemberBlocksThrowIff | src/controllers/bidController.js:122-131 | The member loop throws exactly when some member's capitals make a bar throw. |
| BidProperties.ReplyEntitiesWellPlaced | src/controllers/bidController.js:59-150 | In the message sent, the k-th entity covers exactly the k-th decorated label, and the entities do not overlap. |
| BidProperties.ReplyHeader | src/controllers/bidController.js:63-88 | The message starts with the bold title, a blank line and `👤 Участник: @username -  Display Name`. Entity 0 is the title. Entity 1 covers the display name. With a username, entity 1 links to `https://t.me/<username>` and the profile button (lines 151-153) opens the same link. Without a username, entity 1 is a text mention of the user id with the display name, and there is no button. |
| BidProperties.ReplyEnding | src/controllers/bidController.js:102-147 | The message ends with "Тест ещё не проходил." exactly when there are no results to show: no archived room, no answer of the participant in it, or no shares. Otherwise it ends with the last share line. |
| BidProperties.MissingMemberShowsZeros | src/controllers/bidController.js:123-130 | A member with no capitals in the result is shown with `0.0` and ten empty cells for each capital. |

## Left out

- I/O is not modelled:
  - Mongoose (`Room.findOne`, `room.save`, `User.findOne`, `ArchivedRoom.findOne`) is not modelled. The documents found are parameters: `Room?` in addAnswer, and `Option<User>` and `Option<ArchivedRoom>` in the bid message.
  - `bot.sendMessage`, `res.status().json()` and `console.error` are not modelled. The reply is a value.
  - The telegram service, `GROUP_CHAT_ID` and `disable_web_page_preview` are not part of this model.
- Concurrency: two addAnswer requests on the same room racing between `findOne` and `save` are not modelled.
- The random room id (`Math.random().toString(36).substring(2, 8)`) is a parameter of CreateRoom.
- Numbers:
  - Capitals and shares are whole tenths of a percent. Floating-point values with more digits, and how `toFixed` rounds them, are not modelled.
  - Capitals and shares that are `undefined` or `NaN` (where `bar` returns an empty string) are not modelled. `?? 0` and `|| {0,0,0}` are modelled only for a member missing from the map.
- Request ids:
  - The request id of sendBidMessage is modelled as an integer or absent. String ids and other falsy values are not modelled.
  - addAnswer's id may be a JSON string or number. Other JSON types are not modelled.
- Document shapes: fields the documents may lack or hold as `null` are not modelled. This covers `roomId` and `members` of the archived room, `questions_answers` that is not an array, `null` answers and share names, and `user.name`. The model has them present.
- JsText.Lower: it lowers only ASCII, Latin-1 and the basic Cyrillic block, so the full Unicode `toLowerCase` (multi-unit results, other scripts) is not modelled.
- JsText.Units: it converts literals with characters in the Basic Multilingual Plane. The three emoji are written as their surrogate pairs.
- Special property names are not modelled:
  - A member named `__proto__` is not modelled. `links[name]` would not store it as an own property.
  - A member named like an inherited property, such as `constructor` or `toString`, is not modelled in the bid message. `result.capitals[m]` (src/controllers/bidController.js:123) finds a function for it. The line would print `0.0` and `bar(undefined)` would be empty. CapitalsOf shows ten light cells instead, as for any missing member.
- RoomController.CreateRoom: member names are modelled as strings only. The source checks only that `members` is an array of the right length (src/controllers/roomController.js:19). Non-string elements are not modelled: a number or `null` is cast by the `[String]` field while `links` and the echoed `members` keep the raw value, and an element that cannot be cast makes `room.save()` reject, which gives the 500 of lines 35-37 with no room.
- RoomController.AddAnswer: a body whose `partners_input` is not an array, or has a partner without a `partnerName`, throws at src/controllers/roomController.js:81-82. The source answers that with a 500 (lines 97-99). The model types the request so that this cannot happen, and AddError has no such case.
- Dead code: the unused `safeName` and `userLink` (src/controllers/bidController.js:35-39) are not modelled, because nothing reads them.
- Other parts: room lookup routes, the archiving and share computation that fill `result`, checkController and server setup are not part of this model.

## Findings

| source | as written | input that shows it | evidently intended | confidence | as-written member | corrected member |
|---|---|---|---|---|---|---|
| src/controllers/roomController.js:68 | `room.answers.find((a) => a.id === id)` compares the stored id, which the String schema field cast to a string, with the raw request id | a room with an answer stored with id "7", and a request from another member with the JSON number `7` as its id: the request is admitted and two answers share the id | compare with the id as stored, `String(id)`, so duplicate ids are rejected | not executed | RoomController.NumericIdAdmittedTwice | RoomController.AdmissionPreservesInvariant |
| src/controllers/roomController.js:19-21 | createRoom accepts member names that are equal ignoring case, while addAnswer rejects a second answer whose name matches ignoring case | `{"maxMembers": 2, "members": ["Alex", "alex"]}`: only one of the two can ever answer, so the room never fills | reject member lists with names equal ignoring case | not executed | RoomController.CaseCollidingRoomNeverFills | RoomController.EveryMemberCanAnswer |
