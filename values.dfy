/** The dynamically typed values a document's `[String: Any]` dictionary holds,
    and the conditional casts (`as? String`, `as? Int`, `as? [String]`,
    `as? DocumentReference`) that the decoder applies to them. */
module Values {
  import opened Wrappers

  /** A reference to a document in the cloud store. Only equality is observable. */
  type Ref(==)

  /** Swift's `Int` on the 64-bit platforms the app runs on. */
  newtype Int64 = x: int | -0x8000_0000_0000_0000 <= x < 0x8000_0000_0000_0000

  /** One value stored under a key of a dictionary. `VNil` is a boxed `nil`
      optional: the key is present, but no value is behind it. */
  datatype Value =
    | VStr(str: string)
    | VInt(num: Int64)
    | VArray(elems: seq<Value>)
    | VRef(ref: Ref)
    | VNil

  /** The types a cast tests for. */
  datatype Kind = StringKind | IntKind | StringArrayKind | RefKind

  /** True iff a cast to `kind` of the value `v` succeeds. */
  predicate HasKind(v: Value, kind: Kind) {
    match kind
    case StringKind => v.VStr?
    case IntKind => v.VInt?
    case StringArrayKind => v.VArray? && forall i :: 0 <= i < |v.elems| ==> v.elems[i].VStr?
    case RefKind => v.VRef?
  }

  /** Reading key `k`: `None` when the key is absent. */
  function Lookup(m: map<string, Value>, k: string): (r: Option<Value>)
    ensures r.Some? <==> k in m
    ensures r.Some? ==> r.value == m[k]
  {
    if k in m then Some(m[k]) else None
  }

  /** The array of strings as it is stored: one `VStr` per element, in order. */
  function Strings(ss: seq<string>): (vs: seq<Value>)
    ensures |vs| == |ss|
    ensures forall i :: 0 <= i < |ss| ==> vs[i] == VStr(ss[i])
  {
    seq(|ss|, i requires 0 <= i < |ss| => VStr(ss[i]))
  }

  /** The element-wise part of `as? [String]`: succeeds exactly when every
      element is a string, and then gives back the strings in their order. */
  function StringsOf(vs: seq<Value>): (r: Option<seq<string>>)
    ensures r.Some? <==> forall i :: 0 <= i < |vs| ==> vs[i].VStr?
    ensures r.Some? ==> Strings(r.value) == vs
  {
    if vs == [] then Some([])
    else match vs[0]
      case VStr(s) =>
        var rest := StringsOf(vs[1..]);
        if rest.None? then None else Some([s] + rest.value)
      case _ => None
  }

  /** `v as? String` */
  function AsString(v: Option<Value>): (r: Option<string>)
    ensures r.Some? <==> v.Some? && HasKind(v.value, StringKind)
    ensures r.Some? ==> v.value == VStr(r.value)
  {
    match v
    case Some(VStr(s)) => Some(s)
    case _ => None
  }

  /** `v as? Int` */
  function AsInt(v: Option<Value>): (r: Option<Int64>)
    ensures r.Some? <==> v.Some? && HasKind(v.value, IntKind)
    ensures r.Some? ==> v.value == VInt(r.value)
  {
    match v
    case Some(VInt(n)) => Some(n)
    case _ => None
  }

  /** `v as? [String]` */
  function AsStringArray(v: Option<Value>): (r: Option<seq<string>>)
    ensures r.Some? <==> v.Some? && HasKind(v.value, StringArrayKind)
    ensures r.Some? ==> v.value == VArray(Strings(r.value))
  {
    match v
    case Some(VArray(vs)) => StringsOf(vs)
    case _ => None
  }

  /** `v as? DocumentReference` */
  function AsRef(v: Option<Value>): (r: Option<Ref>)
    ensures r.Some? <==> v.Some? && HasKind(v.value, RefKind)
    ensures r.Some? ==> v.value == VRef(r.value)
  {
    match v
    case Some(VRef(d)) => Some(d)
    case _ => None
  }

  /** Storing strings and casting them back gives the same strings. */
  lemma {:induction false} StringsRoundTrip(ss: seq<string>)
    ensures StringsOf(Strings(ss)) == Some(ss)
  {
    if ss != [] {
      StringsRoundTrip(ss[1..]);
      var vs := Strings(ss);
      assert vs[1..] == Strings(ss[1..]);
      assert [ss[0]] + ss[1..] == ss;
    }
  }
}
