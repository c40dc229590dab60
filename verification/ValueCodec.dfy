/**
 Values in their three forms: canonical protocol values, engine values and tagged JSON. Floats are
 their IEEE 754 bit patterns; the text of a record id and its parser are parameters.
 */
module ValueCodec {
  import opened Common

  const I64_MIN: int := -0x8000_0000_0000_0000
  const I64_MAX: int := 0x7FFF_FFFF_FFFF_FFFF
  type I64 = n: int | I64_MIN <= n <= I64_MAX

  // ---------------------------------------------------------------- floats

  const NEGATIVE_ZERO: U64 := 0x8000_0000_0000_0000

  predicate Finite(bits: U64) { bits / 0x10_0000_0000_0000 % 2048 != 2047 }

  /** `CanonicalFloat`: finite, and zero has one form. */
  type CanonicalBits = b: U64 | Finite(b) && b != NEGATIVE_ZERO

  function CanonicalFloat(bits: U64): Option<CanonicalBits>
  {
    if !Finite(bits) then None else if bits == NEGATIVE_ZERO then Some(0) else Some(bits)
  }

  // ---------------------------------------------------------------- values

  datatype Canonical =
    | CNone
    | CNull
    | CBool(b: bool)
    | CInt(i: I64)
    | CFloat(bits: CanonicalBits)
    | CString(s: string)
    | CBytes(raw: Bytes)
    | CArray(items: seq<Canonical>)
    | CObject(fields: map<string, Canonical>)
    | CRecord(table: string, key: Canonical)

  /** Engine values; `SOther` stands for every kind the protocol has no form for. */
  datatype Surreal =
    | SNone
    | SNull
    | SBool(b: bool)
    | SInt(i: I64)
    | SFloat(bits: U64)
    | SDecimal(text: string)
    | SString(s: string)
    | SBytes(raw: Bytes)
    | SArray(a: SurrealArray)
    | SObject(o: SurrealObject)
    | SRecord(table: string, key: SurrealKey)
    | SOther(kind: string, text: string)

  datatype SurrealArray = SurrealArray(items: seq<Surreal>)
  datatype SurrealObject = SurrealObject(fields: map<string, Surreal>)

  datatype SurrealKey =
    | KNumber(i: I64)
    | KString(s: string)
    | KArray(a: SurrealArray)
    | KObject(o: SurrealObject)
    | KOther(text: string)

  datatype Json =
    | JNull
    | JBool(b: bool)
    | JInt(i: I64)
    | JFloat(bits: U64)
    | JString(s: string)
    | JArray(items: seq<Json>)
    | JObject(fields: map<string, Json>)

  // ---------------------------------------------------------------- all or nothing

  predicate AllSome<T>(xs: seq<Option<T>>) { forall i | 0 <= i < |xs| :: xs[i].Some? }

  function Collect<T>(xs: seq<Option<T>>): Option<seq<T>>
  {
    if AllSome(xs) then Some(seq(|xs|, i requires 0 <= i < |xs| => xs[i].value)) else None
  }

  predicate AllFields<T>(m: map<string, Option<T>>) { forall k | k in m :: m[k].Some? }

  function CollectFields<T>(m: map<string, Option<T>>): Option<map<string, T>>
  {
    if AllFields(m) then Some(map k | k in m :: m[k].value) else None
  }

  // ---------------------------------------------------------------- engine to canonical

  function FromSurreal(v: Surreal): Option<Canonical>
  {
    match v
    case SNone => Some(CNone)
    case SNull => Some(CNull)
    case SBool(b) => Some(CBool(b))
    case SInt(i) => Some(CInt(i))
    case SFloat(bits) => if CanonicalFloat(bits).None? then None else Some(CFloat(CanonicalFloat(bits).value))
    case SDecimal(_) => None
    case SString(s) => Some(CString(s))
    case SBytes(raw) => Some(CBytes(raw))
    case SArray(a) => FromArray(a)
    case SObject(o) => FromObject(o)
    case SRecord(table, key) =>
      var k := FromKey(key);
      if k.None? then None else Some(CRecord(table, k.value))
    case SOther(_, _) => None
  }

  function FromKey(key: SurrealKey): Option<Canonical>
  {
    match key
    case KNumber(i) => Some(CInt(i))
    case KString(s) => Some(CString(s))
    case KArray(a) => FromArray(a)
    case KObject(o) => FromObject(o)
    case KOther(_) => None
  }

  function FromArray(a: SurrealArray): (r: Option<Canonical>)
    ensures r.Some? <==> forall i | 0 <= i < |a.items| :: FromSurreal(a.items[i]).Some?
    ensures r.Some? ==> r.value.CArray? && |r.value.items| == |a.items|
                        && forall i | 0 <= i < |a.items| :: FromSurreal(a.items[i]) == Some(r.value.items[i])
  {
    var all := seq(|a.items|, i requires 0 <= i < |a.items| => FromSurreal(a.items[i]));
    assert forall i | 0 <= i < |a.items| :: all[i] == FromSurreal(a.items[i]);
    var r := Collect(all);
    if r.None? then None else Some(CArray(r.value))
  }

  function FromObject(o: SurrealObject): (r: Option<Canonical>)
    ensures r.Some? <==> forall k | k in o.fields :: FromSurreal(o.fields[k]).Some?
    ensures r.Some? ==> r.value.CObject? && (forall k :: k in r.value.fields <==> k in o.fields)
                        && forall k | k in o.fields :: FromSurreal(o.fields[k]) == Some(r.value.fields[k])
  {
    var all := map k | k in o.fields :: FromSurreal(o.fields[k]);
    assert forall k | k in o.fields :: k in all && all[k] == FromSurreal(o.fields[k]);
    var r := CollectFields(all);
    if r.None? then None else Some(CObject(r.value))
  }

  // ---------------------------------------------------------------- canonical to engine

  function ToSurreal(v: Canonical): Option<Surreal>
    decreases v, 1
  {
    match v
    case CNone => Some(SNone)
    case CNull => Some(SNull)
    case CBool(b) => Some(SBool(b))
    case CInt(i) => Some(SInt(i))
    case CFloat(bits) => Some(SFloat(bits))
    case CString(s) => Some(SString(s))
    case CBytes(raw) => Some(SBytes(raw))
    case CArray(_) => var r := ToArray(v); if r.None? then None else Some(SArray(r.value))
    case CObject(_) => var r := ToObject(v); if r.None? then None else Some(SObject(r.value))
    case CRecord(table, key) => var k := ToKey(key); if k.None? then None else Some(SRecord(table, k.value))
  }

  /** Only integers, strings, arrays and objects can be record keys. */
  function ToKey(v: Canonical): Option<SurrealKey>
    decreases v, 1
  {
    match v
    case CInt(i) => Some(KNumber(i))
    case CString(s) => Some(KString(s))
    case CArray(_) => var r := ToArray(v); if r.None? then None else Some(KArray(r.value))
    case CObject(_) => var r := ToObject(v); if r.None? then None else Some(KObject(r.value))
    case _ => None
  }

  function ToArray(v: Canonical): (r: Option<SurrealArray>)
    requires v.CArray?
    ensures r.Some? <==> forall i | 0 <= i < |v.items| :: ToSurreal(v.items[i]).Some?
    ensures r.Some? ==> |r.value.items| == |v.items|
                        && forall i | 0 <= i < |v.items| :: ToSurreal(v.items[i]) == Some(r.value.items[i])
    decreases v, 0
  {
    var all := seq(|v.items|, i requires 0 <= i < |v.items| => ToSurreal(v.items[i]));
    assert forall i | 0 <= i < |v.items| :: all[i] == ToSurreal(v.items[i]);
    var r := Collect(all);
    if r.None? then None else Some(SurrealArray(r.value))
  }

  function ToObject(v: Canonical): (r: Option<SurrealObject>)
    requires v.CObject?
    ensures r.Some? <==> forall k | k in v.fields :: ToSurreal(v.fields[k]).Some?
    ensures r.Some? ==> (forall k :: k in r.value.fields <==> k in v.fields)
                        && forall k | k in v.fields :: ToSurreal(v.fields[k]) == Some(r.value.fields[k])
    decreases v, 0
  {
    var all := map k | k in v.fields :: ToSurreal(v.fields[k]);
    assert forall k | k in v.fields :: k in all && all[k] == ToSurreal(v.fields[k]);
    var r := CollectFields(all);
    if r.None? then None else Some(SurrealObject(r.value))
  }

  // ---------------------------------------------------------------- who can be translated

  predicate KeyShape(v: Canonical) { v.CInt? || v.CString? || v.CArray? || v.CObject? }

  /** Every record inside has a key of a kind the engine has. */
  predicate WellKeyed(v: Canonical) {
    match v
    case CArray(items) => forall i | 0 <= i < |items| :: WellKeyed(items[i])
    case CObject(fields) => forall k | k in fields :: WellKeyed(fields[k])
    case CRecord(_, key) => KeyShape(key) && WellKeyed(key)
    case _ => true
  }

  /** Only finite floats and kinds the protocol knows, at any depth. */
  predicate Supported(v: Surreal) {
    match v
    case SFloat(bits) => Finite(bits)
    case SDecimal(_) => false
    case SOther(_, _) => false
    case SArray(a) => forall i | 0 <= i < |a.items| :: Supported(a.items[i])
    case SObject(o) => forall k | k in o.fields :: Supported(o.fields[k])
    case SRecord(_, KArray(a)) => forall i | 0 <= i < |a.items| :: Supported(a.items[i])
    case SRecord(_, KObject(o)) => forall k | k in o.fields :: Supported(o.fields[k])
    case SRecord(_, KOther(_)) => false
    case _ => true
  }

  /** No negative zero at any depth. */
  predicate NoNegativeZero(v: Surreal) {
    match v
    case SFloat(bits) => bits != NEGATIVE_ZERO
    case SArray(a) => forall i | 0 <= i < |a.items| :: NoNegativeZero(a.items[i])
    case SObject(o) => forall k | k in o.fields :: NoNegativeZero(o.fields[k])
    case SRecord(_, key) => NoNegativeZeroKey(key)
    case _ => true
  }

  predicate NoNegativeZeroKey(key: SurrealKey) {
    match key
    case KArray(a) => forall i | 0 <= i < |a.items| :: NoNegativeZero(a.items[i])
    case KObject(o) => forall k | k in o.fields :: NoNegativeZero(o.fields[k])
    case _ => true
  }

  // ---------------------------------------------------------------- canonical, engine, canonical

  /** Translation to the engine succeeds exactly on well-keyed values, and is undone by the way back. */
  lemma {:induction false} ThereAndBack(v: Canonical)
    ensures ToSurreal(v).Some? <==> WellKeyed(v)
    ensures ToSurreal(v).Some? ==> FromSurreal(ToSurreal(v).value) == Some(v)
    ensures ToKey(v).Some? <==> KeyShape(v) && WellKeyed(v)
    ensures ToKey(v).Some? ==> FromKey(ToKey(v).value) == Some(v)
  {
    match v
    case CArray(items) =>
      forall i | 0 <= i < |items| ensures Returns(items[i]) { ThereAndBack(items[i]); }
      ArrayReturns(v);
    case CObject(fields) =>
      forall k | k in fields ensures Returns(fields[k]) { ThereAndBack(fields[k]); }
      ObjectReturns(v);
    case CRecord(_, key) => ThereAndBack(key);
    case _ =>
  }

  predicate Returns(v: Canonical) {
    && (ToSurreal(v).Some? <==> WellKeyed(v))
    && (ToSurreal(v).Some? ==> FromSurreal(ToSurreal(v).value) == Some(v))
  }

  lemma ArrayReturns(v: Canonical)
    requires v.CArray? && forall i | 0 <= i < |v.items| :: Returns(v.items[i])
    ensures ToArray(v).Some? <==> WellKeyed(v)
    ensures ToArray(v).Some? ==> FromArray(ToArray(v).value) == Some(v)
  {
    assert forall i | 0 <= i < |v.items| :: Returns(v.items[i]);
    if ToArray(v).Some? {
      var back := ToArray(v).value;
      assert forall i | 0 <= i < |v.items| :: FromSurreal(back.items[i]) == Some(v.items[i]);
      assert FromArray(back).value.items == v.items;
    }
  }

  lemma ObjectReturns(v: Canonical)
    requires v.CObject? && forall k | k in v.fields :: Returns(v.fields[k])
    ensures ToObject(v).Some? <==> WellKeyed(v)
    ensures ToObject(v).Some? ==> FromObject(ToObject(v).value) == Some(v)
  {
    assert forall k | k in v.fields :: Returns(v.fields[k]);
    if ToObject(v).Some? {
      var back := ToObject(v).value;
      assert forall k | k in v.fields :: FromSurreal(back.fields[k]) == Some(v.fields[k]);
      assert FromObject(back).value.fields == v.fields;
    }
  }

  // ---------------------------------------------------------------- engine, canonical, engine

  /** Translation from the engine succeeds exactly on supported values. */
  lemma {:induction false} SupportedTranslates(v: Surreal)
    ensures FromSurreal(v).Some? <==> Supported(v)
  {
    match v
    case SArray(a) => ItemsTranslate(a);
    case SObject(o) => FieldsTranslate(o);
    case SRecord(_, KArray(a)) => ItemsTranslate(a);
    case SRecord(_, KObject(o)) => FieldsTranslate(o);
    case _ =>
  }

  lemma {:induction false} ItemsTranslate(a: SurrealArray)
    ensures FromArray(a).Some? <==> forall i | 0 <= i < |a.items| :: Supported(a.items[i])
  {
    forall i | 0 <= i < |a.items| ensures FromSurreal(a.items[i]).Some? <==> Supported(a.items[i]) {
      SupportedTranslates(a.items[i]);
    }
  }

  lemma {:induction false} FieldsTranslate(o: SurrealObject)
    ensures FromObject(o).Some? <==> forall k | k in o.fields :: Supported(o.fields[k])
  {
    forall k | k in o.fields ensures FromSurreal(o.fields[k]).Some? <==> Supported(o.fields[k]) {
      SupportedTranslates(o.fields[k]);
    }
  }

  /** The way to canonical and back always exists and returns the value itself unless a negative zero is in it. */
  lemma {:induction false} BackAndThere(v: Surreal)
    requires FromSurreal(v).Some?
    ensures ToSurreal(FromSurreal(v).value).Some?
    ensures ToSurreal(FromSurreal(v).value) == Some(v) <==> NoNegativeZero(v)
  {
    match v
    case SArray(a) => ItemsBackAndThere(a);
    case SObject(o) => FieldsBackAndThere(o);
    case SRecord(_, key) => KeyBackAndThere(key);
    case _ =>
  }

  lemma {:induction false} KeyBackAndThere(key: SurrealKey)
    requires FromKey(key).Some?
    ensures ToKey(FromKey(key).value).Some?
    ensures ToKey(FromKey(key).value) == Some(key) <==> NoNegativeZeroKey(key)
  {
    match key
    case KArray(a) =>
      ItemsBackAndThere(a);
      ArrayKey(a, FromArray(a).value);
    case KObject(o) =>
      FieldsBackAndThere(o);
      ObjectKey(o, FromObject(o).value);
    case _ =>
  }

  lemma ArrayKey(a: SurrealArray, c: Canonical)
    requires c.CArray?
    ensures ToKey(c) == (if ToArray(c).None? then None else Some(KArray(ToArray(c).value)))
    ensures FromKey(KArray(a)) == FromArray(a)
  {
  }

  lemma ObjectKey(o: SurrealObject, c: Canonical)
    requires c.CObject?
    ensures ToKey(c) == (if ToObject(c).None? then None else Some(KObject(ToObject(c).value)))
    ensures FromKey(KObject(o)) == FromObject(o)
  {
  }

  lemma {:induction false} ItemsBackAndThere(a: SurrealArray)
    requires FromArray(a).Some?
    ensures ToArray(FromArray(a).value).Some?
    ensures ToArray(FromArray(a).value) == Some(a) <==> forall i | 0 <= i < |a.items| :: NoNegativeZero(a.items[i])
  {
    var there := FromArray(a).value;
    forall i | 0 <= i < |a.items|
      ensures ToSurreal(there.items[i]).Some?
      ensures ToSurreal(there.items[i]) == Some(a.items[i]) <==> NoNegativeZero(a.items[i])
    {
      BackAndThere(a.items[i]);
    }
    var back := ToArray(there).value;
    if forall i | 0 <= i < |a.items| :: NoNegativeZero(a.items[i]) {
      assert back.items == a.items;
    } else {
      var i :| 0 <= i < |a.items| && !NoNegativeZero(a.items[i]);
      assert back.items[i] != a.items[i];
    }
  }

  lemma {:induction false} FieldsBackAndThere(o: SurrealObject)
    requires FromObject(o).Some?
    ensures ToObject(FromObject(o).value).Some?
    ensures ToObject(FromObject(o).value) == Some(o) <==> forall k | k in o.fields :: NoNegativeZero(o.fields[k])
  {
    var there := FromObject(o).value;
    forall k | k in o.fields
      ensures ToSurreal(there.fields[k]).Some?
      ensures ToSurreal(there.fields[k]) == Some(o.fields[k]) <==> NoNegativeZero(o.fields[k])
    {
      BackAndThere(o.fields[k]);
    }
    var back := ToObject(there).value;
    if forall k | k in o.fields :: NoNegativeZero(o.fields[k]) {
      assert back.fields == o.fields;
    } else {
      var k :| k in o.fields && !NoNegativeZero(o.fields[k]);
      assert back.fields[k] != o.fields[k];
    }
  }

  /** Negative zero is the one value the round trip changes. */
  lemma NegativeZeroIsLost()
    ensures FromSurreal(SFloat(NEGATIVE_ZERO)) == Some(CFloat(0))
    ensures ToSurreal(CFloat(0)) == Some(SFloat(0))
    ensures SFloat(0) != SFloat(NEGATIVE_ZERO)
  {
  }

  // ---------------------------------------------------------------- what the translations mean

  /** The canonical value `c` and the engine value `s` are the same value, kind by kind. */
  ghost predicate Denotes(c: Canonical, s: Surreal) {
    match c
    case CNone => s == SNone
    case CNull => s == SNull
    case CBool(b) => s == SBool(b)
    case CInt(i) => s == SInt(i)
    case CFloat(bits) => s == SFloat(bits) || (bits == 0 && s == SFloat(NEGATIVE_ZERO))
    case CString(text) => s == SString(text)
    case CBytes(raw) => s == SBytes(raw)
    case CArray(items) => s.SArray? && DenotesItems(c, s.a)
    case CObject(fields) => s.SObject? && DenotesFields(c, s.o)
    case CRecord(table, key) =>
      s.SRecord? && s.table == table
      && match key
         case CInt(i) => s.key == KNumber(i)
         case CString(text) => s.key == KString(text)
         case CArray(_) => s.key.KArray? && DenotesItems(key, s.key.a)
         case CObject(_) => s.key.KObject? && DenotesFields(key, s.key.o)
         case _ => false
  }

  ghost predicate DenotesItems(c: Canonical, a: SurrealArray)
    requires c.CArray?
  {
    |a.items| == |c.items| && forall i | 0 <= i < |c.items| :: Denotes(c.items[i], a.items[i])
  }

  ghost predicate DenotesFields(c: Canonical, o: SurrealObject)
    requires c.CObject?
  {
    (forall k :: k in o.fields <==> k in c.fields) && forall k | k in c.fields :: Denotes(c.fields[k], o.fields[k])
  }

  /** Engine to canonical gives the value that denotes it, and gives one whenever there is one. */
  lemma {:induction false} FromSurrealMeaning(s: Surreal, c: Canonical)
    ensures FromSurreal(s) == Some(c) <==> Denotes(c, s)
  {
    match s
    case SArray(a) => if c.CArray? { ItemsMeaning(a, c); }
    case SObject(o) => if c.CObject? { FieldsMeaning(o, c); }
    case SRecord(table, KArray(a)) => if c.CRecord? && c.key.CArray? { ItemsMeaning(a, c.key); }
    case SRecord(table, KObject(o)) => if c.CRecord? && c.key.CObject? { FieldsMeaning(o, c.key); }
    case SFloat(bits) => FloatMeaning(bits, c);
    case _ =>
  }

  lemma FloatMeaning(bits: U64, c: Canonical)
    ensures FromSurreal(SFloat(bits)) == Some(c) <==> Denotes(c, SFloat(bits))
  {
    if c.CFloat? { assert Finite(c.bits) && c.bits != NEGATIVE_ZERO; }
  }

  lemma {:induction false} ItemsMeaning(a: SurrealArray, c: Canonical)
    requires c.CArray?
    ensures FromArray(a) == Some(c) <==> DenotesItems(c, a)
  {
    if |a.items| == |c.items| {
      forall i | 0 <= i < |a.items| ensures FromSurreal(a.items[i]) == Some(c.items[i]) <==> Denotes(c.items[i], a.items[i]) {
        FromSurrealMeaning(a.items[i], c.items[i]);
      }
      if DenotesItems(c, a) { assert FromArray(a).value.items == c.items; }
    }
  }

  lemma {:induction false} FieldsMeaning(o: SurrealObject, c: Canonical)
    requires c.CObject?
    ensures FromObject(o) == Some(c) <==> DenotesFields(c, o)
  {
    if forall k :: k in o.fields <==> k in c.fields {
      forall k | k in o.fields ensures FromSurreal(o.fields[k]) == Some(c.fields[k]) <==> Denotes(c.fields[k], o.fields[k]) {
        FromSurrealMeaning(o.fields[k], c.fields[k]);
      }
      if DenotesFields(c, o) { assert FromObject(o).value.fields == c.fields; }
    }
  }

  /** Canonical to engine gives a value that is denoted, with zero in its positive form. */
  lemma ToSurrealMeaning(c: Canonical)
    ensures ToSurreal(c).Some? ==> Denotes(c, ToSurreal(c).value) && NoNegativeZero(ToSurreal(c).value)
  {
    ThereAndBack(c);
    if ToSurreal(c).Some? {
      FromSurrealMeaning(ToSurreal(c).value, c);
      BackAndThere(ToSurreal(c).value);
    }
  }
}
