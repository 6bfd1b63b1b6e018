/** The `Person` profile record and its flat-dictionary codec: the designated
    initialiser, the `dictionary` encoder and the failable
    `init?(dictionary:)` decoder. */
module PersonModel {
  import opened Wrappers
  import opened Values

  /** A user's profile, one per account. */
  datatype Person = Person(
    name: string,
    username: string,
    email: string,
    points: Int64,
    address: Option<string>,
    friends: seq<string>,
    firebaseUID: string,
    selfDocRef: Ref,
    referralCode: string)

  /** A flat record as it is written to and read from the document store. */
  type Dictionary = map<string, Value>

  const NameKey := "name"
  const UsernameKey := "username"
  const EmailKey := "email"
  const PointsKey := "points"
  const AddressKey := "address"
  const FriendsKey := "friends"
  const FirebaseUIDKey := "firebaseUID"
  const SelfDocRefKey := "selfDocRef"
  const ReferralCodeKey := "referralCode"

  /** The keys the decoder requires, each with the type it casts its value to. */
  const Schema: map<string, Kind> := map[
    NameKey := StringKind,
    UsernameKey := StringKind,
    EmailKey := StringKind,
    PointsKey := IntKind,
    FriendsKey := StringArrayKind,
    FirebaseUIDKey := StringKind,
    SelfDocRefKey := RefKind,
    ReferralCodeKey := StringKind]

  /** Every key the encoder writes: the required ones and the optional address. */
  const EncodedKeys: set<string> := Schema.Keys + {AddressKey}

  /** A record the decoder accepts: every required key is present and holds a
      value of its required type. Nothing is asked of any other key. */
  ghost predicate WellFormed(m: Dictionary) {
    forall k :: k in Schema ==> k in m && HasKind(m[k], Schema[k])
  }

  /** Two records hold the same thing under key `k` (both lack it, or both
      have it with equal values). */
  ghost predicate SameAt(m: Dictionary, m': Dictionary, k: string) {
    (k !in m && k !in m') || (k in m && k in m' && m[k] == m'[k])
  }

  /** The designated initialiser. It stores every argument in its field
      except `address`, which it never assigns, so the field keeps its
      default `nil`. */
  function Construct(name: string, username: string, email: string, points: Int64,
                     address: Option<string>, friends: seq<string>, firebaseUID: string,
                     docRef: Ref, referralCode: string): (p: Person)
    ensures p.name == name && p.username == username && p.email == email
    ensures p.points == points && p.friends == friends && p.firebaseUID == firebaseUID
    ensures p.selfDocRef == docRef && p.referralCode == referralCode
    ensures p.address == None
  {
    Person(name, username, email, points, None, friends, firebaseUID, docRef, referralCode)
  }

  /** The `dictionary` getter. The address key is always written; with no
      address it holds a boxed `nil`. */
  function ToDictionary(p: Person): (m: Dictionary)
    ensures m.Keys == EncodedKeys
    ensures WellFormed(m)
    ensures m[AddressKey] == if p.address.Some? then VStr(p.address.value) else VNil
  {
    map[
      NameKey := VStr(p.name),
      UsernameKey := VStr(p.username),
      EmailKey := VStr(p.email),
      PointsKey := VInt(p.points),
      AddressKey := (if p.address.Some? then VStr(p.address.value) else VNil),
      FriendsKey := VArray(Strings(p.friends)),
      FirebaseUIDKey := VStr(p.firebaseUID),
      SelfDocRefKey := VRef(p.selfDocRef),
      ReferralCodeKey := VStr(p.referralCode)]
  }

  /** The failable `init?(dictionary:)`. A guard chain of casts over the
      eight required keys fails the whole decode on the first miss; the
      address is cast without a guard and handed to `Construct`, which drops it. */
  function FromDictionary(m: Dictionary): (r: Option<Person>)
    ensures r.Some? <==> WellFormed(m)
    ensures r.Some? ==> r.value.address == None
  {
    var name :- AsString(Lookup(m, NameKey));
    var username :- AsString(Lookup(m, UsernameKey));
    var email :- AsString(Lookup(m, EmailKey));
    var points :- AsInt(Lookup(m, PointsKey));
    var friends :- AsStringArray(Lookup(m, FriendsKey));
    var firebaseUID :- AsString(Lookup(m, FirebaseUIDKey));
    var selfDocRef :- AsRef(Lookup(m, SelfDocRefKey));
    var referralCode :- AsString(Lookup(m, ReferralCodeKey));
    var address := AsString(Lookup(m, AddressKey));
    Some(Construct(name, username, email, points, address, friends, firebaseUID, selfDocRef, referralCode))
  }
}
