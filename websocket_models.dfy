/** The outgoing WebSocket message: a closed two-case sum type written on
    the wire as one keyed object whose `type` entry names the case. */
module WebSocketModels {
  import opened Coding

  /** `WebSocketOutgoingMessage`. */
  datatype OutgoingMessage =
    | ChatMessage(content: string, senderId: string, channelId: string)
    | PrivateMessage(content: string, senderId: string, recipientId: string)

  /** The wire tag of each case. */
  const ChatMessageTag: string := "new_message"
  const PrivateMessageTag: string := "private_message"

  /** The `CodingKeys` of the enum, each the wire key of the same name. */
  const CodingKeys: set<Key> := {Type, Content, SenderId, RecipientId, ChannelId}

  /** The JSON object `encode(to:)` produces for each case. */
  function Encoded(m: OutgoingMessage): (r: Object)
    ensures Type in r && r.Keys <= CodingKeys
  {
    match m
    case ChatMessage(content, senderId, channelId) =>
      map[Type := JString(ChatMessageTag), Content := JString(content),
          SenderId := JString(senderId), ChannelId := JString(channelId)]
    case PrivateMessage(content, senderId, recipientId) =>
      map[Type := JString(PrivateMessageTag), Content := JString(content),
          SenderId := JString(senderId), RecipientId := JString(recipientId)]
  }

  /** `encode(to:)`: a switch over the case, then four keyed writes into one
      container, the tag first. */
  method Encode(m: OutgoingMessage) returns (container: Object)
    ensures container == Encoded(m)
    ensures container.Keys <= CodingKeys
  {
    container := map[];
    match m
    case ChatMessage(content, senderId, channelId) =>
      container := container[Type := JString(ChatMessageTag)];
      container := container[Content := JString(content)];
      container := container[SenderId := JString(senderId)];
      container := container[ChannelId := JString(channelId)];
    case PrivateMessage(content, senderId, recipientId) =>
      container := container[Type := JString(PrivateMessageTag)];
      container := container[Content := JString(content)];
      container := container[SenderId := JString(senderId)];
      container := container[RecipientId := JString(recipientId)];
  }

  /** Every encoding holds `type`, `content` and `senderId`, and exactly
      one of `channelId` and `recipientId`: the channel for a channel
      message, the recipient for a private one. Every value is a string. */
  lemma EncodedKeys(m: OutgoingMessage)
    ensures Encoded(m).Keys ==
      if m.ChatMessage? then {Type, Content, SenderId, ChannelId}
      else {Type, Content, SenderId, RecipientId}
    ensures !(ChannelId in Encoded(m) && RecipientId in Encoded(m))
    ensures forall k | k in Encoded(m) :: Encoded(m)[k].JString?
  {
  }

  /** The `type` entry alone tells which target key is present. */
  lemma TagIdentifiesTarget(m: OutgoingMessage)
    ensures Type in Encoded(m)
    ensures Encoded(m)[Type] == JString(ChatMessageTag) <==> ChannelId in Encoded(m)
    ensures Encoded(m)[Type] == JString(PrivateMessageTag) <==> RecipientId in Encoded(m)
  {
    assert ChatMessageTag != PrivateMessageTag by {
      assert |ChatMessageTag| != |PrivateMessageTag|;
    }
  }

  /** Nothing is lost on the wire: each field is found under its key, so
      two messages with the same encoding are the same message. */
  lemma EncodingIsInjective(m1: OutgoingMessage, m2: OutgoingMessage)
    requires Encoded(m1) == Encoded(m2)
    ensures m1 == m2
  {
    TagIdentifiesTarget(m1);
    TagIdentifiesTarget(m2);
    assert Encoded(m1)[Content] == Encoded(m2)[Content];
    assert Encoded(m1)[SenderId] == Encoded(m2)[SenderId];
  }
}
