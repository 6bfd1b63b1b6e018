# Person record codec

A Dafny model of the flat-record codec of the `Person` profile in the
RaffleTest app. A `Person` is stored in the cloud document store as a
string-keyed dictionary. The `dictionary` getter writes nine keys. The failable
`init?(dictionary:)` reads them back. It rejects the whole record when any of
eight required keys is missing or holds the wrong type. The designated
initialiser never assigns `address`, so every `Person` it builds, and
therefore every decoded `Person`, has a `nil` address.

Layout:

- `wrappers.dfy`: `Option`, standing in for Swift's `T?`.
- `values.dfy`: the dynamic values a `[String: Any]` dictionary holds (`Value`),
  the opaque document reference `Ref`, 64-bit `Int64`, and the conditional
  casts `as? String`, `as? Int`, `as? [String]` and `as? DocumentReference`.
- `person.dfy`: the `Person` datatype, the designated initialiser `Construct`,
  the encoder `ToDictionary`, the decoder `FromDictionary`, and the decoder's
  schema: the eight required keys, each with its type.
- `person_lemmas.dfy`: when decoding succeeds, which keys it reads, and the
  round trip.

Two modelling choices:

- A key that is absent reads as `None`. A key holding a boxed `nil` reads as
  `Some(VNil)`. Every cast fails on both. A non-nil address is written as its
  string, `VStr(a)`, which is what `as? String` unwraps the boxed optional to.
- `as? [String]` succeeds on an array exactly when every element is a string.
  An empty array is accepted. The strings come back in their order, with their
  repetitions.

`friends` is an ordered array (`[String]`) in `Person.swift`; the model keeps
its order and repetitions.

## Model

| member | source | states |
|---|---|---|
| Values.Lookup | RaffleTest/Models/Person.swift:54-65 | the model of the dictionary subscript (its contract repeats its one-line body): reading a key gives None exactly when the key is absent, and otherwise the stored value, a boxed nil included |
| Values.AsString | RaffleTest/Models/Person.swift:54-56 | `as? String` succeeds exactly on a present string value and returns that string; it fails on absent keys, boxed `nil` and every other type |
| Values.AsInt | RaffleTest/Models/Person.swift:57 | `as? Int` succeeds exactly on a present integer value and returns it |
| Values.AsRef | RaffleTest/Models/Person.swift:60 | `as? DocumentReference` succeeds exactly on a present reference and returns it |
| Values.StringsOf | RaffleTest/Models/Person.swift:58 | the element-wise cast of an array to `[String]` succeeds exactly when every element is a string, and its result re-encodes to the very same array |
| Values.AsStringArray | RaffleTest/Models/Person.swift:58 | `as? [String]` succeeds exactly on a present array of strings, and the value was the array of the returned strings |
| Values.Strings | RaffleTest/Models/Person.swift:43 | the stored form of `friends` has one string value per friend, in the same order |
| Values.StringsRoundTrip | RaffleTest/Models/Person.swift:43 | casting the stored form of a list of strings back with `as? [String]` gives the same list, order and repetitions included |
| PersonModel.Construct | RaffleTest/Models/Person.swift:25-34 | the designated initialiser copies name, username, email, points, friends, firebaseUID, docRef and referralCode into their fields and leaves `address` nil whatever was passed |
| PersonModel.ToDictionary | RaffleTest/Models/Person.swift:36-49 | the encoding has exactly the nine keys, the address key present even when address is nil (then holding a boxed nil), and it satisfies the decoder's schema |
| PersonModel.FromDictionary | RaffleTest/Models/Person.swift:53-68 | decoding succeeds if and only if all eight required keys are present with the right types (otherwise it returns nil and no partial record exists), and a decoded `Person` always has a nil address |
| PersonCodecLemmas.FromDictionaryRejects | RaffleTest/Models/Person.swift:54-63 | one required key that is missing or of the wrong type makes decoding return nil, so no partial record is produced |
| PersonCodecLemmas.FromDictionaryReencodes | RaffleTest/Models/Person.swift:54-67 | a decoded `Person` holds exactly the record's required entries: re-encoding it reproduces them |
| PersonCodecLemmas.FromDictionaryLocal | RaffleTest/Models/Person.swift:54-67 | two records that agree on the eight required keys decode to the same result, whatever they hold elsewhere, the address key included |
| PersonCodecLemmas.FromDictionaryIgnoresOtherKeys | RaffleTest/Models/Person.swift:54-67 | adding, changing or removing any key outside the required eight does not change the decoding |
| PersonCodecLemmas.AddressNeverRejects | RaffleTest/Models/Person.swift:54-65 | a well-formed record decodes whether its address key is absent, nil, a string or any other value |
| PersonCodecLemmas.StoredAddressIsDropped | RaffleTest/Models/Person.swift:65-67 | a record whose address holds a string decodes to a `Person` with a nil address |
| PersonCodecLemmas.RoundTrip | RaffleTest/Models/Person.swift:36-67 | decoding the encoding of any `Person` gives that `Person` back field for field, except that the address becomes nil |
| PersonCodecLemmas.ConstructedRoundTrip | RaffleTest/Models/Person.swift:25-67 | every `Person` the initialiser builds survives encode-then-decode unchanged, `friends` in order and with repetitions |
| PersonCodecLemmas.ConstructIgnoresAddress | RaffleTest/Models/Person.swift:25-34 | the initialiser's result does not depend on its address argument |
| PersonCodecLemmas.ToDictionaryInjective | RaffleTest/Models/Person.swift:36-48 | two `Person`s have equal encodings exactly when all their fields are equal |

## Left out

- `DocumentReference` is a foreign SDK type. It is the opaque `Ref`, with equality only.
- Swift's `Any` bridging: NSNumber-to-`Int` coercion and the unwrapping of a boxed non-nil optional are not modelled. Each `as?` cast is an exact match on the `Value` constructor (for `as? [String]`, on `VArray` and on every element's `VStr`).
- Value types the decoder never asks for (booleans, floating point, nested maps, timestamps) are not values here; apart from the NSNumber coercion above, they could only be wrong-typed values, which `VNil` and the other constructors already exercise.
- The commented-out `profileImage` field is inactive UIKit code.
- `Person` is a Swift class. The model treats it as a value. Reference identity and later mutation of its `var` fields are not captured; nothing in `Person.swift` mutates them after construction, though `PersonController.swift:141` appends to the current user's `friends` in place.
- The account and friend operations in `RaffleTest/Model Controllers/PersonController.swift` are not part of this model. These are registration, login, logout, password reset, deletion, saving, friend-adding, username search and reverse-friend fetch. They are network calls to the cloud auth and document services. Their local logic, none of which the value model captures, is: a duplicate check followed by an in-place append to the current user's `friends` (PersonController.swift:137-141); a username search and a reverse-friend fetch that each stop at the first record that fails to decode (lines 165-167 and 183), the fetch after clearing its cached list (181) and without calling its completion; a sort of the fetched friends by username (188); `initializeUser` storing a failed decode as a `nil` current user while still reporting success (73-75); and `saveUserToFirestore` reporting success even after a write error (128-132).
