/** JSON values and keyed objects as the models see them through Swift's
    `Codable` machinery, and the two reads a keyed decoding container offers:
    `decode(_:forKey:)` for a required key and `decodeIfPresent(_:forKey:)`
    for an optional one. */
module Coding {

  datatype Option<+T> = None | Some(value: T)

  /** A JSON scalar. Numbers are integers only; nested arrays and objects do
      not occur in the keyed objects the models read and write. */
  datatype Value = JNull | JBool(b: bool) | JInt(i: int) | JString(s: string)

  /** Every key that occurs in the wire format of the models, each with its
      exact JSON text. The models differ in which of them they read and
      write, and under which property name. */
  datatype Key =
    | Id | StringId | Username | Email | AvatarURL | Bio | Contact
    | IsCurrentUser | Name | IsOnline | IsPremium
    | Type | Content | SenderId | RecipientId | ChannelId
    | SenderIdSnake | Timestamp
  {
    function Text(): string {
      match this
      case Id => "id"
      case StringId => "stringId"
      case Username => "username"
      case Email => "email"
      case AvatarURL => "avatarURL"
      case Bio => "bio"
      case Contact => "contact"
      case IsCurrentUser => "isCurrentUser"
      case Name => "name"
      case IsOnline => "isOnline"
      case IsPremium => "isPremium"
      case Type => "type"
      case Content => "content"
      case SenderId => "senderId"
      case RecipientId => "recipientId"
      case ChannelId => "channelId"
      case SenderIdSnake => "sender_id"
      case Timestamp => "timestamp"
    }
  }

  /** Distinct keys have distinct texts, so a map over `Key` is a JSON
      object over these key strings. `Text` and this lemma document the
      wire spelling only: the decoders and encoders work on `Key` itself. */
  lemma KeyTextsDistinct(a: Key, b: Key)
    ensures a.Text() == b.Text() <==> a == b
  {
    if a != b {
      assert a.Text() != b.Text();
    }
  }

  /** A keyed container: one JSON object, key to value. */
  type Object = map<Key, Value>

  /** The entry of `o` under `k`, if any. */
  function Lookup(o: Object, k: Key): Option<Value> {
    if k in o then Some(o[k]) else None
  }

  /** Two objects with the same entry under every key are the same object. */
  lemma SameEntriesSameObject(a: Object, b: Object)
    requires forall k :: Lookup(a, k) == Lookup(b, k)
    ensures a == b
  {
    forall k
      ensures (k in a <==> k in b) && (k in a ==> a[k] == b[k])
    {
      assert Lookup(a, k) == Lookup(b, k);
    }
  }

  /** Swift's `DecodingError` cases that a keyed read can raise, each naming
      the key it was raised for. */
  datatype DecodingError =
    | KeyNotFound(key: Key)
    | ValueNotFound(key: Key)
    | TypeMismatch(key: Key)
    | DataCorrupted(key: Key)

  /** The outcome of a `throws` decode: a value, or the error it threw. */
  datatype Result<+T> = Ok(value: T) | Err(error: DecodingError) {
    predicate IsFailure() { Err? }

    function PropagateFailure<U>(): Result<U>
      requires Err?
    {
      Err(error)
    }

    function Extract(): T
      requires Ok?
    {
      value
    }
  }

  /** `container.decode(Int.self, forKey: key)`: the key must be present
      and hold a number; a null is `valueNotFound`, anything else a type
      mismatch. */
  function DecodeInt(o: Object, key: Key): Result<int> {
    match Lookup(o, key)
    case None => Err(KeyNotFound(key))
    case Some(JNull) => Err(ValueNotFound(key))
    case Some(JInt(i)) => Ok(i)
    case Some(_) => Err(TypeMismatch(key))
  }

  /** `container.decode(String.self, forKey: key)`. */
  function DecodeString(o: Object, key: Key): Result<string> {
    match Lookup(o, key)
    case None => Err(KeyNotFound(key))
    case Some(JNull) => Err(ValueNotFound(key))
    case Some(JString(s)) => Ok(s)
    case Some(_) => Err(TypeMismatch(key))
  }

  /** `container.decode(Bool.self, forKey: key)`. */
  function DecodeBool(o: Object, key: Key): Result<bool> {
    match Lookup(o, key)
    case None => Err(KeyNotFound(key))
    case Some(JNull) => Err(ValueNotFound(key))
    case Some(JBool(b)) => Ok(b)
    case Some(_) => Err(TypeMismatch(key))
  }

  /** `container.decodeIfPresent(String.self, forKey: key)`: an absent key
      or a null reads as `nil`; any other value must be a string. */
  function DecodeStringIfPresent(o: Object, key: Key): Result<Option<string>> {
    match Lookup(o, key)
    case None => Ok(None)
    case Some(JNull) => Ok(None)
    case Some(JString(s)) => Ok(Some(s))
    case Some(_) => Err(TypeMismatch(key))
  }

  /** `container.encodeIfPresent(v, forKey: key)` for a string: writes the
      value when there is one, and leaves the key out (not null) otherwise. */
  function EncodeIfPresent(o: Object, key: Key, v: Option<string>): Object {
    if v.Some? then o[key := JString(v.value)] else o
  }
}
