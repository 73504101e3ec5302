/** The `User` model: its hand-written keyed decoder and encoder, its
    identity (`==` compares `stringId` only) and the avatar URL rule. */
module UserModels {
  import opened Coding

  /** A chat participant. The stored properties in declaration order. */
  datatype User = User(
    id: int,
    stringId: string,
    username: string,
    email: string,
    avatarURL: Option<string>,
    bio: Option<string>,
    contact: Option<string>,
    isCurrentUser: bool,
    name: string,
    isOnline: bool,
    isPremium: bool)

  /** The `CodingKeys` of `User`. Every raw value is the case name, so each
      is the wire key of that name. */
  const CodingKeys: set<Key> :=
    {Id, StringId, Username, Email, AvatarURL, Bio, Contact, IsCurrentUser, Name, IsOnline, IsPremium}

  /** The position of each coding key in the order `init(from:)` reads them. */
  function DecodePosition(k: Key): nat {
    match k
    case Id => 0
    case StringId => 1
    case Username => 2
    case Email => 3
    case AvatarURL => 4
    case Bio => 5
    case Contact => 6
    case IsCurrentUser => 7
    case Name => 8
    case IsOnline => 9
    case IsPremium => 10
    case _ => 11
  }

  /** The three keys read with `decodeIfPresent` and written with `encodeIfPresent`. */
  predicate IsOptional(k: Key) {
    k == AvatarURL || k == Bio || k == Contact
  }

  /** What `init(from:)` accepts at key `k` of an object: a required key must
      hold a non-null value of its property's type; an optional key may be
      absent or null, and otherwise must hold a string. */
  predicate Acceptable(o: Object, k: Key) {
    match Lookup(o, k)
    case None => IsOptional(k)
    case Some(v) =>
      if IsOptional(k) then v.JNull? || v.JString?
      else match k
        case Id => v.JInt?
        case IsCurrentUser | IsOnline | IsPremium => v.JBool?
        case _ => v.JString?
  }

  /** An object every user key of which is acceptable. */
  predicate WellFormed(o: Object) {
    forall k | k in CodingKeys :: Acceptable(o, k)
  }

  /** Key `k` is the one `init(from:)` fails on: it is not acceptable, and
      every key read before it is. */
  predicate FirstFault(o: Object, k: Key) {
    k in CodingKeys && !Acceptable(o, k) &&
    forall k' | k' in CodingKeys && DecodePosition(k') < DecodePosition(k) :: Acceptable(o, k')
  }

  /** `init(from:)`: reads the eleven keys one at a time in declaration
      order; the first read that throws ends the decode with its error. */
  function Decode(o: Object): (r: Result<User>)
    ensures r.Ok? ==> Lookup(o, StringId) == Some(JString(r.value.stringId))
  {
    var id :- DecodeInt(o, Id);
    var stringId :- DecodeString(o, StringId);
    var username :- DecodeString(o, Username);
    var email :- DecodeString(o, Email);
    var avatarURL :- DecodeStringIfPresent(o, AvatarURL);
    var bio :- DecodeStringIfPresent(o, Bio);
    var contact :- DecodeStringIfPresent(o, Contact);
    var isCurrentUser :- DecodeBool(o, IsCurrentUser);
    var name :- DecodeString(o, Name);
    var isOnline :- DecodeBool(o, IsOnline);
    var isPremium :- DecodeBool(o, IsPremium);
    Ok(User(id, stringId, username, email, avatarURL, bio, contact, isCurrentUser, name, isOnline, isPremium))
  }

  /** The decode succeeds exactly when every key is acceptable: all eight
      required keys present with their types, each optional one absent, null
      or a string. */
  lemma DecodeSucceedsIff(o: Object)
    ensures Decode(o).Ok? <==> WellFormed(o)
  {
  }

  /** A failed decode names a key whose entry is missing, null where a value
      is required, or of the wrong type. */
  lemma DecodeErrorNamesAFault(o: Object)
    requires Decode(o).Err?
    ensures Decode(o).error.key in CodingKeys && !Acceptable(o, Decode(o).error.key)
  {
  }

  /** The error case says which fault it is: `keyNotFound` for a missing
      entry, `valueNotFound` for a null one, `typeMismatch` for a value of
      the wrong type. */
  lemma DecodeErrorKind(o: Object)
    requires Decode(o).Err?
    ensures var k := Decode(o).error.key;
      && (Decode(o).error.KeyNotFound? <==> Lookup(o, k).None?)
      && (Decode(o).error.ValueNotFound? <==> Lookup(o, k) == Some(JNull))
      && (Decode(o).error.TypeMismatch? <==> Lookup(o, k).Some? && Lookup(o, k) != Some(JNull))
  {
  }

  /** The key a failed decode names is the first fault in reading order:
      it is unacceptable, and every user key read before it is acceptable. */
  lemma DecodeErrorIsFirstFault(o: Object)
    requires Decode(o).Err?
    ensures FirstFault(o, Decode(o).error.key)
  {
    DecodeErrorNamesAFault(o);
    var k := Decode(o).error.key;
    forall k' | k' in CodingKeys && DecodePosition(k') < DecodePosition(k)
      ensures Acceptable(o, k')
    {
      DecodeErrorFollowsAcceptedKeys(o, k');
    }
  }

  /** Every user key read before the key a failed decode names is
      acceptable: the decode got past it. */
  lemma DecodeErrorFollowsAcceptedKeys(o: Object, k': Key)
    requires Decode(o).Err?
    requires k' in CodingKeys && DecodePosition(k') < DecodePosition(Decode(o).error.key)
    ensures Acceptable(o, k')
  {
  }

  /** The value `encode(to:)` writes under key `k`: none for a `nil`
      optional property and for a key that is not the user's. */
  function Field(u: User, k: Key): (r: Option<Value>)
    ensures r.Some? ==> k in CodingKeys && !r.value.JNull?
  {
    match k
    case Id => Some(JInt(u.id))
    case StringId => Some(JString(u.stringId))
    case Username => Some(JString(u.username))
    case Email => Some(JString(u.email))
    case AvatarURL => if u.avatarURL.Some? then Some(JString(u.avatarURL.value)) else None
    case Bio => if u.bio.Some? then Some(JString(u.bio.value)) else None
    case Contact => if u.contact.Some? then Some(JString(u.contact.value)) else None
    case IsCurrentUser => Some(JBool(u.isCurrentUser))
    case Name => Some(JString(u.name))
    case IsOnline => Some(JBool(u.isOnline))
    case IsPremium => Some(JBool(u.isPremium))
    case _ => None
  }

  /** The JSON object `encode(to:)` produces. */
  function Encoded(u: User): (r: Object)
    ensures forall k | k in CodingKeys && !IsOptional(k) :: k in r
  {
    map k | k in CodingKeys && Field(u, k).Some? :: Field(u, k).value
  }

  /** The encoded object holds, under every key, exactly the value the
      property of that key calls for. */
  lemma EncodedEntries(u: User, k: Key)
    ensures Lookup(Encoded(u), k) == Field(u, k)
  {
  }

  /** ... and it is the only object that does. */
  lemma EncodedIsUnique(u: User, o: Object)
    requires forall k :: Lookup(o, k) == Field(u, k)
    ensures o == Encoded(u)
  {
    forall k
      ensures Lookup(o, k) == Lookup(Encoded(u), k)
    {
      EncodedEntries(u, k);
    }
    SameEntriesSameObject(o, Encoded(u));
  }

  /** The same object written as the writes `encode(to:)` makes, one after
      another: the four leading required keys, the three optional ones, then
      the four trailing required ones. It exists only for the proof of
      `Encode`: relating the writes to `Encoded` key by key through this one
      expression, in two groups of keys, is far cheaper for the verifier
      than doing it inside the method. */
  ghost function Writes(u: User): Object {
    var leading := map[Id := JInt(u.id), StringId := JString(u.stringId),
                       Username := JString(u.username), Email := JString(u.email)];
    var optionals := EncodeIfPresent(EncodeIfPresent(EncodeIfPresent(leading,
                       AvatarURL, u.avatarURL), Bio, u.bio), Contact, u.contact);
    optionals[IsCurrentUser := JBool(u.isCurrentUser)][Name := JString(u.name)]
             [IsOnline := JBool(u.isOnline)][IsPremium := JBool(u.isPremium)]
  }

  lemma WritesOptionalEntry(u: User, k: Key)
    requires IsOptional(k)
    ensures Lookup(Writes(u), k) == Field(u, k)
  {
  }

  lemma WritesRequiredEntry(u: User, k: Key)
    requires k in CodingKeys && !IsOptional(k)
    ensures Lookup(Writes(u), k) == Field(u, k)
  {
  }

  /** Written in order, the keyed writes build exactly the encoded object:
      later writes never overwrite earlier ones, and no other key is touched. */
  lemma WritesAreEncoded(u: User)
    ensures Writes(u) == Encoded(u)
  {
    forall k
      ensures Lookup(Writes(u), k) == Field(u, k)
    {
      if k in CodingKeys {
        if IsOptional(k) {
          WritesOptionalEntry(u, k);
        } else {
          WritesRequiredEntry(u, k);
        }
      }
    }
    EncodedIsUnique(u, Writes(u));
  }

  /** `encode(to:)`: successive keyed writes into one container, in the
      source's order; `encodeIfPresent` skips a `nil`. */
  method Encode(u: User) returns (container: Object)
    ensures container == Encoded(u)
  {
    container := map[];
    container := container[Id := JInt(u.id)];
    container := container[StringId := JString(u.stringId)];
    container := container[Username := JString(u.username)];
    container := container[Email := JString(u.email)];
    container := EncodeIfPresent(container, AvatarURL, u.avatarURL);
    container := EncodeIfPresent(container, Bio, u.bio);
    container := EncodeIfPresent(container, Contact, u.contact);
    container := container[IsCurrentUser := JBool(u.isCurrentUser)];
    container := container[Name := JString(u.name)];
    container := container[IsOnline := JBool(u.isOnline)];
    container := container[IsPremium := JBool(u.isPremium)];
    WritesAreEncoded(u);
  }

  /** What the encoder writes is what the decoder accepts: every required
      key with its type, no null, no key that is not the user's, and an
      optional key exactly when the property has a value. */
  lemma EncodedShape(u: User)
    ensures WellFormed(Encoded(u))
    ensures forall k | k in Encoded(u) :: k in CodingKeys && !Encoded(u)[k].JNull?
    ensures AvatarURL in Encoded(u) <==> u.avatarURL.Some?
    ensures Bio in Encoded(u) <==> u.bio.Some?
    ensures Contact in Encoded(u) <==> u.contact.Some?
  {
    forall k
      ensures k in CodingKeys ==> Acceptable(Encoded(u), k)
      ensures k in Encoded(u) ==> k in CodingKeys && !Encoded(u)[k].JNull?
    {
      EncodedEntries(u, k);
    }
    EncodedEntries(u, AvatarURL);
    EncodedEntries(u, Bio);
    EncodedEntries(u, Contact);
  }

  /** Any object holding a user's entries under the user's keys decodes to
      that user, whatever it holds under other keys. */
  lemma DecodeReadsFields(o: Object, u: User)
    requires forall k | k in CodingKeys :: Lookup(o, k) == Field(u, k)
    ensures Decode(o) == Ok(u)
  {
    assert DecodeInt(o, Id) == Ok(u.id);
    assert DecodeString(o, StringId) == Ok(u.stringId);
    assert DecodeString(o, Username) == Ok(u.username);
    assert DecodeString(o, Email) == Ok(u.email);
    assert DecodeStringIfPresent(o, AvatarURL) == Ok(u.avatarURL);
    assert DecodeStringIfPresent(o, Bio) == Ok(u.bio);
    assert DecodeStringIfPresent(o, Contact) == Ok(u.contact);
    assert DecodeBool(o, IsCurrentUser) == Ok(u.isCurrentUser);
    assert DecodeString(o, Name) == Ok(u.name);
    assert DecodeBool(o, IsOnline) == Ok(u.isOnline);
    assert DecodeBool(o, IsPremium) == Ok(u.isPremium);
  }

  /** Decoding what `encode(to:)` wrote gives back the same user, field for field. */
  lemma RoundTrip(u: User)
    ensures Decode(Encoded(u)) == Ok(u)
  {
    forall k | k in CodingKeys
      ensures Lookup(Encoded(u), k) == Field(u, k)
    {
      EncodedEntries(u, k);
    }
    DecodeReadsFields(Encoded(u), u);
  }

  /** What a successful decode reads: under every user key, the property's
      value is the object's entry, with an absent or null optional entry
      read as `nil` rather than as a failure. */
  lemma DecodedFields(o: Object)
    requires Decode(o).Ok?
    ensures forall k | k in CodingKeys ::
      Field(Decode(o).value, k) == if Lookup(o, k) == Some(JNull) then None else Lookup(o, k)
  {
  }

  /** The part of an object `init(from:)` looks at and keeps: the entries
      under a user key that are not null. */
  function Known(o: Object): (m: Object)
    ensures m.Keys <= o.Keys
  {
    map k | k in o && k in CodingKeys && !o[k].JNull? :: o[k]
  }

  /** The converse round trip: re-encoding a decoded user writes back exactly
      the known entries of the object it came from. */
  lemma DecodeThenEncode(o: Object, u: User)
    requires Decode(o) == Ok(u)
    ensures Encoded(u) == Known(o)
  {
    DecodedFields(o);
    forall k
      ensures Lookup(Encoded(u), k) == Lookup(Known(o), k)
    {
      EncodedEntries(u, k);
    }
    SameEntriesSameObject(Encoded(u), Known(o));
  }

  /** `static func ==`: two users are equal when their `stringId`s are. */
  predicate Equal(lhs: User, rhs: User)
    ensures lhs == rhs ==> Equal(lhs, rhs)
  {
    lhs.stringId == rhs.stringId
  }

  /** `==` is an equivalence relation. */
  lemma EqualIsEquivalence(a: User, b: User, c: User)
    ensures Equal(a, a)
    ensures Equal(a, b) ==> Equal(b, a)
    ensures Equal(a, b) && Equal(b, c) ==> Equal(a, c)
  {
  }

  /** Replacing a user by any other with the same `stringId`, however much
      else differs, changes no comparison. */
  lemma OnlyStringIdMatters(a: User, a': User, b: User)
    requires a.stringId == a'.stringId
    ensures Equal(a, b) == Equal(a', b)
    ensures Equal(a, a')
  {
  }

  /** `==` is coarser than structural equality: two users that differ in
      their numeric `id` can still be equal. */
  lemma EqualityIsNotStructural()
    ensures exists a: User, b: User :: Equal(a, b) && a.id != b.id
  {
    var a := User(1, "u-42", "ann", "ann@example.com", None, None, None, false, "Ann", true, false);
    var b := a.(id := 2);
    assert Equal(a, b) && a.id != b.id;
  }

  /** The origin prepended to a relative avatar path. */
  const AvatarOrigin: string := "https://tasktango.dev"

  predicate HasPrefix(s: string, prefix: string) {
    |prefix| <= |s| && s[..|prefix|] == prefix
  }

  /** A path `avatarURLObject` treats as already absolute. */
  predicate IsAbsolute(p: string) {
    HasPrefix(p, "https://") || HasPrefix(p, "http://")
  }

  /** The string handed to `URL(string:)` for a stored avatar path. */
  function ResolveAvatarPath(p: string): (r: string)
    ensures IsAbsolute(r)
    ensures |p| <= |r| && r[|r| - |p|..] == p
    ensures r == p <==> IsAbsolute(p)
    ensures !IsAbsolute(p) ==> r == AvatarOrigin + p
  {
    if IsAbsolute(p) then p
    else
      assert (AvatarOrigin + p)[..8] == "https://";
      AvatarOrigin + p
  }

  /** `avatarURLObject`, up to the URL parse: none without a stored path,
      otherwise the resolved path. */
  function AvatarURLString(u: User): (r: Option<string>)
    ensures r.None? <==> u.avatarURL.None?
    ensures r.Some? ==> IsAbsolute(r.value)
    ensures r == u.avatarURL <==> u.avatarURL.None? || IsAbsolute(u.avatarURL.value)
  {
    match u.avatarURL
    case None => None
    case Some(p) => Some(ResolveAvatarPath(p))
  }

  /** Storing the resolved URL and resolving again changes nothing. */
  lemma AvatarResolutionIdempotent(u: User)
    ensures AvatarURLString(u.(avatarURL := AvatarURLString(u))) == AvatarURLString(u)
  {
  }

  /** A relative path gets the origin in front of it, slash included. */
  lemma AvatarResolutionExample()
    ensures ResolveAvatarPath("/images/a.png") == "https://tasktango.dev/images/a.png"
  {
    assert "/images/a.png"[0] == '/';
  }
}
