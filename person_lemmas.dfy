/** What the `Person` codec promises: which records it accepts, that nothing
    but the required keys matters, and the round trip through a dictionary. */
module PersonCodecLemmas {
  import opened Wrappers
  import opened Values
  import opened PersonModel

  /** Any one required key missing or holding a value of the wrong type
      rejects the whole record. */
  lemma FromDictionaryRejects(m: Dictionary, k: string)
    requires k in Schema
    requires k !in m || !HasKind(m[k], Schema[k])
    ensures FromDictionary(m) == None
  {
  }

  /** A decoded `Person` carries exactly what the record holds under the
      required keys: encoding it again reproduces those entries. */
  lemma FromDictionaryReencodes(m: Dictionary)
    requires FromDictionary(m).Some?
    ensures forall k :: k in Schema ==> k in m && ToDictionary(FromDictionary(m).value)[k] == m[k]
  {
  }

  /** Decoding reads only the required keys: two records that agree on them
      decode to the same result, whatever else they hold, the address key
      included. */
  lemma FromDictionaryLocal(m: Dictionary, m': Dictionary)
    requires forall k :: k in Schema ==> SameAt(m, m', k)
    ensures FromDictionary(m) == FromDictionary(m')
  {
  }

  /** Adding, changing or removing a key the decoder does not require leaves
      the result unchanged; the key of an unrequired `address` is one of them. */
  lemma FromDictionaryIgnoresOtherKeys(m: Dictionary, k: string, v: Value)
    requires k !in Schema
    ensures FromDictionary(m[k := v]) == FromDictionary(m)
    ensures FromDictionary(m - {k}) == FromDictionary(m)
  {
  }

  /** Decoding a record succeeds whatever its address key holds, or if it
      has none, as long as the required keys are well-formed. */
  lemma AddressNeverRejects(m: Dictionary, v: Value)
    requires WellFormed(m)
    ensures FromDictionary(m[AddressKey := v]).Some?
    ensures FromDictionary(m - {AddressKey}).Some?
  {
  }

  /** Round trip: decoding the encoding of any `Person` succeeds and gives the
      same `Person`, except that a non-nil address comes back `nil`. */
  lemma RoundTrip(p: Person)
    ensures FromDictionary(ToDictionary(p)) == Some(p.(address := None))
  {
    StringsRoundTrip(p.friends);
  }

  /** Every `Person` the designated initialiser builds survives the round trip
      unchanged, `friends` in its order and with its repetitions. */
  lemma ConstructedRoundTrip(name: string, username: string, email: string, points: Int64,
                             address: Option<string>, friends: seq<string>, firebaseUID: string,
                             docRef: Ref, referralCode: string)
    ensures var p := Construct(name, username, email, points, address, friends, firebaseUID, docRef, referralCode);
      FromDictionary(ToDictionary(p)) == Some(p)
  {
    RoundTrip(Construct(name, username, email, points, address, friends, firebaseUID, docRef, referralCode));
  }

  /** The initialiser ignores its address argument. */
  lemma ConstructIgnoresAddress(name: string, username: string, email: string, points: Int64,
                                address: Option<string>, friends: seq<string>, firebaseUID: string,
                                docRef: Ref, referralCode: string)
    ensures Construct(name, username, email, points, address, friends, firebaseUID, docRef, referralCode)
         == Construct(name, username, email, points, None, friends, firebaseUID, docRef, referralCode)
  {
  }

  /** The encoding is a function of the fields and loses none of them: two
      `Person`s have the same dictionary exactly when all their fields agree. */
  lemma ToDictionaryInjective(p: Person, q: Person)
    ensures ToDictionary(p) == ToDictionary(q) <==> p == q
  {
    if ToDictionary(p) == ToDictionary(q) {
      RoundTrip(p);
      RoundTrip(q);
    }
  }

  /** A record with a real address string decodes to a `Person` whose address
      is `nil`. */
  lemma StoredAddressIsDropped(m: Dictionary, a: string)
    requires WellFormed(m)
    ensures FromDictionary(m[AddressKey := VStr(a)]).Some?
    ensures FromDictionary(m[AddressKey := VStr(a)]).value.address == None
  {
  }
}
