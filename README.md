# TaskTango wire models in Dafny

A model of the wire layer of the TaskTango chat client, `Models/Models.swift`.
That layer is the part of the client that turns its data into the keyed JSON
objects the backend and the WebSocket exchange, and reads them back.

The model covers:

- the outgoing WebSocket message, a two-case enum written as one keyed
  object whose `type` entry names the case;
- the hand-written `User` decoder `init(from:)` and encoder `encode(to:)`,
  with eight required keys and three optional ones (`avatarURL`, `bio`,
  `contact`);
- `User.==`, which compares `stringId` only;
- `avatarURLObject`, which makes a stored avatar path absolute;
- `ChatMessage.senderIdString`;
- the two decoders whose Swift property names differ from their wire keys:
  `Message`, which reads `userID` from `sender_id` and `messageText` from
  `content`, and `UserModel`, which reads `stringID` from `stringId`.

A JSON object is a `map` from an enumerated `Key` to a scalar `Value`. Each
`Key` has its exact wire text, and distinct keys have distinct texts.
Swift's `throws` becomes a `Result`. For a keyed read, its error is the
`DecodingError` case Foundation raises, with the key it was raised for:

- a missing key is `keyNotFound`;
- a null where a value is required is `valueNotFound`;
- a value of the wrong type is `typeMismatch`.

The decoders chain their reads with `:-` in the source's order, so the key
reported is the first one that fails. The two encoders are methods that
write into a `container` variable one key at a time. Each is proved equal to
a declarative description of the object it builds, and the round trips and
the other properties are proved about that description.

Two facts about `User`'s wire format:

- `User`'s key for the avatar path is spelled `avatarURL`.
- `User` decoding requires all eight non-optional keys: `id`, `stringId`,
  `username`, `email`, `isCurrentUser`, `name`, `isOnline` and `isPremium`.

Files:

- `coding.dfy`: module `Coding`, with values, keys, objects, the keyed reads
  and `encodeIfPresent`.
- `user_models.dfy`: module `UserModels`.
- `chat_models.dfy`: module `ChatModels`.
- `websocket_models.dfy`: module `WebSocketModels`.

## Model

| member | source | states |
|---|---|---|
| Coding.KeyTextsDistinct | Models/Models.swift:58-273 | the coding keys of `User` (lines 58-59), `WebSocketOutgoingMessage` (198-199), `Message` (219-224) and `UserModel` (269-273), `sender_id` included: two keys have the same JSON text exactly when they are the same key, so a key-indexed map is a JSON object over those strings |
| UserModels.Decode | Models/Models.swift:68-81 | `init(from:)`: the eleven keyed reads in the source's order, the first throwing read ending the decode; a decoded user's `stringId`, which `==` compares, is the string under `stringId` |
| UserModels.DecodeSucceedsIff | Models/Models.swift:68-81 | `init(from:)` succeeds exactly when each of the eight required keys holds a non-null value of its type and each optional key is absent, null or a string |
| UserModels.DecodeErrorNamesAFault | Models/Models.swift:68-81 | a failed decode names a user key whose entry is missing, null where required, or of the wrong type |
| UserModels.DecodeErrorKind | Models/Models.swift:70-80 | the error case of a failed decode matches the fault at the key it names: `keyNotFound` exactly for a missing entry, `valueNotFound` exactly for a null, `typeMismatch` exactly for a non-null value of the wrong type |
| UserModels.DecodeErrorFollowsAcceptedKeys | Models/Models.swift:68-81 | every key read before the key named by a failed decode is acceptable |
| UserModels.DecodeErrorIsFirstFault | Models/Models.swift:68-81 | the key a failed decode names is the first unacceptable key in the order the initializer reads them |
| UserModels.DecodedFields | Models/Models.swift:70-80 | after a successful decode, every property equals the object's entry under its key; an absent or null optional entry reads as `nil`, not as a failure |
| UserModels.DecodeReadsFields | Models/Models.swift:68-81 | any object that holds a user's entries under the eleven user keys decodes to exactly that user, whatever it holds under other keys |
| UserModels.Field | Models/Models.swift:86-96 | the value `encode(to:)` writes under a key: only user keys get a value, and never null, since a `nil` optional is skipped |
| UserModels.Encoded | Models/Models.swift:84-97 | the object `encode(to:)` produces; it holds every required key |
| UserModels.EncodedEntries | Models/Models.swift:84-97 | the encoded object holds, under each key, the value of that key's property; it holds nothing for a `nil` optional or a key that is not the user's |
| UserModels.EncodedIsUnique | Models/Models.swift:84-97 | the encoded object is the only object with those entries |
| UserModels.WritesAreEncoded | Models/Models.swift:85-96 | the eleven keyed writes, made in the source's order, build exactly the encoded object; no write overwrites another |
| UserModels.Encode | Models/Models.swift:84-97 | the container the method fills is the encoded object |
| UserModels.EncodedShape | Models/Models.swift:84-97 | the encoding is accepted by the decoder; it holds only user keys and no null; an optional key is present exactly when its property is not `nil` |
| UserModels.RoundTrip | Models/Models.swift:68-97 | decoding the encoding of any user gives back that user, field for field |
| UserModels.DecodeThenEncode | Models/Models.swift:68-97 | re-encoding a decoded user gives exactly the non-null user-key entries of the source object |
| UserModels.Equal | Models/Models.swift:63-65 | `static func ==`: compares `stringId` only; structurally identical users are equal |
| UserModels.EqualIsEquivalence | Models/Models.swift:63-65 | `==` is reflexive, symmetric and transitive |
| UserModels.OnlyStringIdMatters | Models/Models.swift:63-65 | two users with the same `stringId` are equal and compare alike with every user, however their other fields differ |
| UserModels.EqualityIsNotStructural | Models/Models.swift:63-65 | two users with different numeric `id`s can still be equal |
| UserModels.ResolveAvatarPath | Models/Models.swift:127-133 | the result is absolute and ends with the stored path; an `https://` or `http://` path is returned unchanged, and only such a path is; any other path gets `https://tasktango.dev` in front |
| UserModels.AvatarURLString | Models/Models.swift:122-135 | there is no URL string exactly when there is no stored path; otherwise it is absolute; it equals the stored value exactly when that value is absent or already absolute |
| UserModels.AvatarResolutionIdempotent | Models/Models.swift:122-135 | storing the resolved string and resolving again changes nothing |
| UserModels.AvatarResolutionExample | Models/Models.swift:131 | `/images/a.png` resolves to `https://tasktango.dev/images/a.png` |
| ChatModels.SenderIdString | Models/Models.swift:152-154 | a user is equal to the message's sender exactly when that user's `stringId` is the sender id string |
| ChatModels.SameSenderIdIffEqualSenders | Models/Models.swift:152-154 | two messages have the same sender id string exactly when their senders are equal users |
| ChatModels.DecodeMessage | Models/Models.swift:209-225 | the synthesized `init(from:)` of `Message`: `userID` is the number under `sender_id` and `messageText` the string under `content` |
| ChatModels.MessageWireKeys | Models/Models.swift:209-225 | a `Message` decodes exactly when `id` and `sender_id` hold numbers, `content` holds a string and `timestamp` holds a date; `userID` is then the number under `sender_id` and `messageText` the string under `content` |
| ChatModels.MessageIgnoresOtherKeys | Models/Models.swift:219-224 | an entry under any key other than the four wire keys does not change the decoded `Message` |
| ChatModels.DecodeUserModel | Models/Models.swift:256-274 | the synthesized `init(from:)` of `UserModel`: `stringID` is the string under the key `stringId` |
| ChatModels.EncodedUserModel | Models/Models.swift:256-274 | the synthesized `encode(to:)` of `UserModel`: every property under its wire key; no entry is null |
| ChatModels.UserModelRoundTrip | Models/Models.swift:256-274 | decoding what `UserModel` encodes gives it back |
| ChatModels.UserEncodingReadsAsUserModel | Models/Models.swift:269-273 | a `User`'s encoding decodes as the `UserModel` with the same fields; `stringId` lands in `stringID` |
| WebSocketModels.Encoded | Models/Models.swift:181-196 | the object `encode(to:)` produces for each case; it always holds `type` and only the enum's coding keys |
| WebSocketModels.Encode | Models/Models.swift:181-196 | the container the method fills is the encoded message, and it uses only the enum's coding keys |
| WebSocketModels.EncodedKeys | Models/Models.swift:184-195 | a channel message has exactly the keys `type`, `content`, `senderId` and `channelId`, and a private message `type`, `content`, `senderId` and `recipientId`; never both targets; every value is a string |
| WebSocketModels.TagIdentifiesTarget | Models/Models.swift:184-195 | `type` is always present; it is `new_message` exactly when `channelId` is present and `private_message` exactly when `recipientId` is |
| WebSocketModels.EncodingIsInjective | Models/Models.swift:177-201 | two messages with the same encoding are the same message |

## Left out

- `URL(string:)` parsing in `avatarURLObject` is not modelled, and neither are its `print` debug lines. The model stops at the string handed to the parser.
- Dates are not modelled, and neither is the decoder's date strategy. A date is an opaque value. Turning a JSON value into one is a parameter of `DecodeMessage`.
- ChatModels.DecodeDate: the error case of a date failure is not modelled. Every failure of the date strategy is reported as `dataCorrupted`, although the decoder raises `typeMismatch` for a timestamp of the wrong JSON type; which case applies depends on the unmodelled strategy.
- `ObservableObject` and `@Published` on `User` are left out: they are UI observation only. `User` is a Swift class, but no modelled code changes it after `init(from:)`, so it is modelled as a value.
- The convenience initializer of `User` is left out: it calls `self.init` with its own argument list, so it only recurses into itself.
- The synthesized `Codable` conformances of the other types are left out: `RegisterUser`, `LoginUser`, `APIResponse`, `AuthResponseData`, `Profile`, `NewMessage`, `ChatChannel`, `WebSocketIncomingMessage`, `Sender`, `APIMessage`, `MessageModel` and the response wrappers. They are plain field lists.
- The nested decoding of a whole `ChatMessage` is left out for the same reason. Only its `senderIdString` is modelled.
- Message ordering, merging, deduplication, incoming `type` dispatch and the sender-ownership classification are left out. None of them appears in `Models/Models.swift`.
- UserModels.Decode, ChatModels.DecodeMessage, ChatModels.DecodeUserModel: the input is always a keyed object. Getting the keyed container (`decoder.container(keyedBy:)`, the first throwing call at Models/Models.swift:69 and in the synthesized decoders) is not modelled. Foundation fails there, with no key, when the JSON value is not an object: `valueNotFound` for a null, `typeMismatch` for an array, string, number or bool.
- Keys outside the enumerated `Key` type cannot occur in an object. Their absence makes no difference: no modelled decoder reads them, and `ChatModels.MessageIgnoresOtherKeys` shows the same for every key that `Message`'s decoder does not read; `UserModels.DecodeReadsFields` shows it for `User`.
- UserModels.Equal, UserModels.ResolveAvatarPath, UserModels.AvatarURLString: string equality and the prefix tests compare Unicode scalars, not Swift `Character`s up to canonical equivalence. So `"caf\u{E9}"` and `"cafe\u{301}"` are different `stringId`s here but equal in Swift. A path such as `"http://\u{301}x"` counts as absolute here, but Swift's `hasPrefix` rejects it and prepends the origin. Unicode normalisation is outside the model.
- Only integer numbers are modelled. Swift's `Int` is 64-bit, but the model's `int` is unbounded, so an out-of-range number is accepted rather than rejected.
- Nested arrays and objects are not modelled as values: none of the modelled keys holds one.
- `UserModel`'s encoder `EncodedUserModel` is modelled as a function, not a method: it is synthesized, not written as keyed writes.
- A `throws` from the encoder itself is not modelled: keyed writes of strings, integers and booleans do not fail.
