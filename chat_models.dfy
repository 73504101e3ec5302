/** The chat message models: `ChatMessage` and the identifier it derives
    from its sender, and the two decoders whose Swift property names differ
    from their wire keys, `Message` and `UserModel`. */
module ChatModels {
  import opened Coding
  import UserModels

  /** A point in time, as Swift's `Date` stores it. */
  datatype Date = Date(timeIntervalSinceReferenceDate: real)

  /** `ChatMessage`: a message with the full snapshot of its sender. */
  datatype ChatMessage = ChatMessage(
    id: int,
    sender: UserModels.User,
    content: string,
    timestamp: Date,
    channelId: Option<string>)

  /** `senderIdString`: the identifier of the sender that user identity is
      decided by. A user is the sender, in the sense of `User.==`, exactly
      when its `stringId` is this string. */
  function SenderIdString(m: ChatMessage): (s: string)
    ensures forall u: UserModels.User :: UserModels.Equal(u, m.sender) <==> u.stringId == s
  {
    m.sender.stringId
  }

  /** Two messages have the same sender id exactly when their senders are
      equal users. */
  lemma SameSenderIdIffEqualSenders(m1: ChatMessage, m2: ChatMessage)
    ensures SenderIdString(m1) == SenderIdString(m2) <==> UserModels.Equal(m1.sender, m2.sender)
  {
  }

  /** A date read through the decoder's date strategy, which is not part of
      this model and is therefore a parameter: it turns the non-null value
      under the key into a date, or fails. */
  function DecodeDate(o: Object, key: Key, dateFrom: Value -> Option<Date>): Result<Date> {
    match Lookup(o, key)
    case None => Err(KeyNotFound(key))
    case Some(JNull) => Err(ValueNotFound(key))
    case Some(v) =>
      match dateFrom(v)
      case Some(d) => Ok(d)
      case None => Err(DataCorrupted(key))
  }

  /** `Message`. Its `CodingKeys` rename two properties: `userID` is read
      from `sender_id` and `messageText` from `content`. */
  datatype Message = Message(id: int, userID: int, messageText: string, timestamp: Date)

  /** The synthesized `init(from:)` of `Message`: the four properties in
      declaration order, each under its wire key. */
  function DecodeMessage(o: Object, dateFrom: Value -> Option<Date>): (r: Result<Message>)
    ensures r.Ok? ==> Lookup(o, SenderIdSnake) == Some(JInt(r.value.userID))
    ensures r.Ok? ==> Lookup(o, Content) == Some(JString(r.value.messageText))
  {
    var id :- DecodeInt(o, Id);
    var userID :- DecodeInt(o, SenderIdSnake);
    var messageText :- DecodeString(o, Content);
    var timestamp :- DecodeDate(o, Timestamp, dateFrom);
    Ok(Message(id, userID, messageText, timestamp))
  }

  /** A `Message` decodes exactly when its four wire keys hold a number, a
      number, a string and a date; `userID` then is the number under
      `sender_id` and `messageText` the string under `content`. */
  lemma MessageWireKeys(o: Object, dateFrom: Value -> Option<Date>)
    ensures DecodeMessage(o, dateFrom).Ok? <==>
      && Lookup(o, Id).Some? && Lookup(o, Id).value.JInt?
      && Lookup(o, SenderIdSnake).Some? && Lookup(o, SenderIdSnake).value.JInt?
      && Lookup(o, Content).Some? && Lookup(o, Content).value.JString?
      && Lookup(o, Timestamp).Some? && !Lookup(o, Timestamp).value.JNull?
      && dateFrom(Lookup(o, Timestamp).value).Some?
    ensures DecodeMessage(o, dateFrom).Ok? ==>
      var msg := DecodeMessage(o, dateFrom).value;
      && Lookup(o, Id) == Some(JInt(msg.id))
      && Lookup(o, SenderIdSnake) == Some(JInt(msg.userID))
      && Lookup(o, Content) == Some(JString(msg.messageText))
      && dateFrom(Lookup(o, Timestamp).value) == Some(msg.timestamp)
  {
  }

  /** Only the wire keys count: what an object holds under any other key
      does not change the decoded `Message`. */
  lemma MessageIgnoresOtherKeys(o: Object, k: Key, v: Value, dateFrom: Value -> Option<Date>)
    requires k !in {Id, SenderIdSnake, Content, Timestamp}
    ensures DecodeMessage(o[k := v], dateFrom) == DecodeMessage(o, dateFrom)
  {
    assert Lookup(o[k := v], Id) == Lookup(o, Id);
    assert Lookup(o[k := v], SenderIdSnake) == Lookup(o, SenderIdSnake);
    assert Lookup(o[k := v], Content) == Lookup(o, Content);
    assert Lookup(o[k := v], Timestamp) == Lookup(o, Timestamp);
  }

  /** `UserModel`: the backend's user record. Its `CodingKeys` map the JSON
      key `stringId` to the property `stringID`. */
  datatype UserModel = UserModel(
    id: int,
    username: string,
    email: string,
    name: string,
    isOnline: bool,
    isCurrentUser: bool,
    stringID: string)

  /** The synthesized `init(from:)` of `UserModel`, in declaration order. */
  function DecodeUserModel(o: Object): (r: Result<UserModel>)
    ensures r.Ok? ==> Lookup(o, StringId) == Some(JString(r.value.stringID))
  {
    var id :- DecodeInt(o, Id);
    var username :- DecodeString(o, Username);
    var email :- DecodeString(o, Email);
    var name :- DecodeString(o, Name);
    var isOnline :- DecodeBool(o, IsOnline);
    var isCurrentUser :- DecodeBool(o, IsCurrentUser);
    var stringID :- DecodeString(o, StringId);
    Ok(UserModel(id, username, email, name, isOnline, isCurrentUser, stringID))
  }

  /** The synthesized `encode(to:)` of `UserModel`: every property under its
      wire key, `stringID` under `stringId`. */
  function EncodedUserModel(m: UserModel): (r: Object)
    ensures forall k | k in r :: !r[k].JNull?
  {
    map[Id := JInt(m.id), Username := JString(m.username), Email := JString(m.email),
        Name := JString(m.name), IsOnline := JBool(m.isOnline),
        IsCurrentUser := JBool(m.isCurrentUser), StringId := JString(m.stringID)]
  }

  /** Decoding what `UserModel` encodes gives it back. */
  lemma UserModelRoundTrip(m: UserModel)
    ensures DecodeUserModel(EncodedUserModel(m)) == Ok(m)
  {
  }

  /** `User` and `UserModel` agree on the wire: a `User`'s encoding decodes
      as the `UserModel` with the same fields, its `stringId` landing in
      `stringID`; the keys `UserModel` does not have are ignored. */
  lemma UserEncodingReadsAsUserModel(u: UserModels.User)
    ensures DecodeUserModel(UserModels.Encoded(u)) ==
      Ok(UserModel(u.id, u.username, u.email, u.name, u.isOnline, u.isCurrentUser, u.stringId))
  {
    UserModels.EncodedEntries(u, Id);
    UserModels.EncodedEntries(u, Username);
    UserModels.EncodedEntries(u, Email);
    UserModels.EncodedEntries(u, Name);
    UserModels.EncodedEntries(u, IsOnline);
    UserModels.EncodedEntries(u, IsCurrentUser);
    UserModels.EncodedEntries(u, StringId);
  }
}
