/**
 Canonical values as tagged JSON and the wire decoder that reads it back. Objects holding the tag
 key are refused, and a record id is written only if its text decodes to the same record.
 */
module WireCodec {
  import opened Common
  import opened FenceText
  import opened ValueCodec
  import Base64

  const TAG: string := "$surreal"
  const MAX_WIRE_DEPTH: nat := 128

  /** The engine's own printers and parsers. */
  datatype Texts = Texts(
    print_: (string, SurrealKey) -> string,
    parse: string -> Option<(string, SurrealKey)>,
    parseFloat: string -> Option<U64>,
    isDecimal: string -> bool,
    isUuid: string -> bool)

  // ---------------------------------------------------------------- integers

  function IntText(i: I64): string { if i < 0 then "-" + Decimal(0 - i) else Decimal(i) }

  /** Rust's `str::parse::<i64>`. */
  function ParseI64(raw: string): Option<I64>
  {
    var signed := 0 < |raw| && (raw[0] == '-' || raw[0] == '+');
    var digits := if signed then raw[1..] else raw;
    if |digits| == 0 || !AllDigits(digits) then None
    else
      var n: int := if signed && raw[0] == '-' then 0 - ValueOf(digits) else ValueOf(digits);
      if I64_MIN <= n <= I64_MAX then Some(n) else None
  }

  lemma IntReads(i: I64)
    ensures ParseI64(IntText(i)) == Some(i)
  {
    var n: nat := if i < 0 then 0 - i else i;
    ValueOfDecimal(n);
    var text := Decimal(n);
    assert AllDigits(text) && IsDigit(text[0]);
    if i < 0 { assert IntText(i)[1..] == text; }
  }

  // ---------------------------------------------------------------- decoding

  /** How much deeper values may nest; none means without limit. */
  type Room = Option<int>

  predicate Exhausted(room: Room) { room.Some? && room.value < 0 }

  function Deeper(room: Room): Room { if room.None? then None else Some(room.value - 1) }

  function RequiredString(fields: map<string, Json>, key: string): Option<string>
  {
    if key in fields && fields[key].JString? then Some(fields[key].s) else None
  }

  function FromWire(t: Texts, j: Json, room: Room): Option<Surreal>
    decreases j, 1
  {
    if Exhausted(room) then None
    else
      match j
      case JNull => Some(SNull)
      case JBool(b) => Some(SBool(b))
      case JInt(i) => Some(SInt(i))
      case JFloat(bits) => Some(SFloat(bits))
      case JString(s) => Some(SString(s))
      case JArray(_) => var r := WireItems(t, j, room); if r.None? then None else Some(SArray(r.value))
      case JObject(fields) =>
        if TAG in fields then DecodeTagged(t, j, room)
        else
          var r := WireFields(t, j, room);
          if r.None? then None else Some(SObject(r.value))
  }

  function WireItems(t: Texts, j: Json, room: Room): (r: Option<SurrealArray>)
    requires j.JArray?
    ensures r.Some? <==> forall i | 0 <= i < |j.items| :: FromWire(t, j.items[i], Deeper(room)).Some?
    ensures r.Some? ==> |r.value.items| == |j.items|
                        && forall i | 0 <= i < |j.items| :: FromWire(t, j.items[i], Deeper(room)) == Some(r.value.items[i])
    decreases j, 0
  {
    var all := seq(|j.items|, i requires 0 <= i < |j.items| => FromWire(t, j.items[i], Deeper(room)));
    assert forall i | 0 <= i < |j.items| :: all[i] == FromWire(t, j.items[i], Deeper(room));
    var r := Collect(all);
    if r.None? then None else Some(SurrealArray(r.value))
  }

  function WireFields(t: Texts, j: Json, room: Room): (r: Option<SurrealObject>)
    requires j.JObject?
    ensures r.Some? <==> forall k | k in j.fields :: FromWire(t, j.fields[k], Deeper(room)).Some?
    ensures r.Some? ==> (forall k :: k in r.value.fields <==> k in j.fields)
                        && forall k | k in j.fields :: FromWire(t, j.fields[k], Deeper(room)) == Some(r.value.fields[k])
    decreases j, 0
  {
    var all := map k | k in j.fields :: FromWire(t, j.fields[k], Deeper(room));
    assert forall k | k in j.fields :: k in all && all[k] == FromWire(t, j.fields[k], Deeper(room));
    var r := CollectFields(all);
    if r.None? then None else Some(SurrealObject(r.value))
  }

  datatype Tag = TNone | TInt | TFloat | TDecimal | TBytes | TUuid | TRecord | TSet

  function TagName(tag: Tag): string
  {
    match tag
    case TNone => "none"
    case TInt => "int"
    case TFloat => "float"
    case TDecimal => "decimal"
    case TBytes => "bytes"
    case TUuid => "uuid"
    case TRecord => "record"
    case TSet => "set"
  }

  function ReadTag(name: string): Option<Tag>
  {
    if name == "none" then Some(TNone)
    else if name == "int" then Some(TInt)
    else if name == "float" then Some(TFloat)
    else if name == "decimal" then Some(TDecimal)
    else if name == "bytes" then Some(TBytes)
    else if name == "uuid" then Some(TUuid)
    else if name == "record" then Some(TRecord)
    else if name == "set" then Some(TSet)
    else None
  }

  lemma TagReads(tag: Tag)
    ensures ReadTag(TagName(tag)) == Some(tag)
  {
    var name := TagName(tag);
    assert tag == TUuid ==> name[0] == 'u';
    assert tag == TBytes ==> name[0] == 'b';
    assert tag == TSet ==> name[0] == 's';
    assert |name| == 4 && name[0] == 'u' ==> name != "none";
    assert |name| == 5 && name[0] == 'b' ==> name != "float";
    assert |name| == 3 && name[0] == 's' ==> name != "int";
  }

  function DecodeTagged(t: Texts, j: Json, room: Room): Option<Surreal>
    requires j.JObject? && TAG in j.fields
    decreases j, 0
  {
    var name, value := RequiredString(j.fields, TAG), RequiredString(j.fields, "value");
    if name.None? || ReadTag(name.value).None? then None
    else
      match ReadTag(name.value).value
      case TNone => Some(SNone)
      case TBytes =>
        var text := RequiredString(j.fields, "base64");
        if text.None? || Base64.Decode(text.value).None? then None else Some(SBytes(Base64.Decode(text.value).value))
      case TSet =>
        if "values" in j.fields && j.fields["values"].JArray?
           && WireItems(t, j.fields["values"], room).Some? then Some(SOther("set", "")) else None
      case other => if value.None? then None else DecodeText(t, other, value.value)
  }

  /** The tagged kinds that are one text. */
  function DecodeText(t: Texts, tag: Tag, text: string): Option<Surreal>
  {
    match tag
    case TInt => if ParseI64(text).None? then None else Some(SInt(ParseI64(text).value))
    case TFloat => if t.parseFloat(text).None? then None else Some(SFloat(t.parseFloat(text).value))
    case TDecimal => if t.isDecimal(text) then Some(SDecimal(text)) else None
    case TUuid => if t.isUuid(text) then Some(SOther("uuid", text)) else None
    case TRecord => if t.parse(text).None? then None else Some(SRecord(t.parse(text).value.0, t.parse(text).value.1))
    case _ => None
  }

  /** `canonical_json`: the wire decoder, then the engine translation. */
  function FromJson(t: Texts, j: Json, room: Room): Option<Canonical>
  {
    var v := FromWire(t, j, room);
    if v.None? then None else FromSurreal(v.value)
  }

  // ---------------------------------------------------------------- encoding

  function Tagged(tag: Tag, key: string, text: string): Json
  {
    JObject(map[TAG := JString(TagName(tag)), key := JString(text)])
  }

  function RecordJson(t: Texts, table: string, key: SurrealKey): Json
  {
    Tagged(TRecord, "value", t.print_(table, key))
  }

  function ToJson(t: Texts, v: Canonical): Option<Json>
    decreases v, 1
  {
    match v
    case CNone => Some(JObject(map[TAG := JString(TagName(TNone))]))
    case CNull => Some(JNull)
    case CBool(b) => Some(JBool(b))
    case CInt(i) => Some(Tagged(TInt, "value", IntText(i)))
    case CFloat(bits) => Some(JFloat(bits))
    case CString(s) => Some(JString(s))
    case CBytes(raw) => Some(Tagged(TBytes, "base64", Base64.Encode(raw)))
    case CArray(_) => ItemsToJson(t, v)
    case CObject(fields) => if TAG in fields then None else FieldsToJson(t, v)
    case CRecord(table, key) =>
      var k := ToKey(key);
      if k.None? then None
      else if FromJson(t, RecordJson(t, table, k.value), Some(MAX_WIRE_DEPTH)) != Some(v) then None
      else Some(RecordJson(t, table, k.value))
  }

  function ItemsToJson(t: Texts, v: Canonical): (r: Option<Json>)
    requires v.CArray?
    ensures r.Some? <==> forall i | 0 <= i < |v.items| :: ToJson(t, v.items[i]).Some?
    ensures r.Some? ==> r.value.JArray? && |r.value.items| == |v.items|
                        && forall i | 0 <= i < |v.items| :: ToJson(t, v.items[i]) == Some(r.value.items[i])
    decreases v, 0
  {
    var all := seq(|v.items|, i requires 0 <= i < |v.items| => ToJson(t, v.items[i]));
    assert forall i | 0 <= i < |v.items| :: all[i] == ToJson(t, v.items[i]);
    var r := Collect(all);
    if r.None? then None else Some(JArray(r.value))
  }

  function FieldsToJson(t: Texts, v: Canonical): (r: Option<Json>)
    requires v.CObject?
    ensures r.Some? <==> forall k | k in v.fields :: ToJson(t, v.fields[k]).Some?
    ensures r.Some? ==> r.value.JObject? && (forall k :: k in r.value.fields <==> k in v.fields)
                        && forall k | k in v.fields :: ToJson(t, v.fields[k]) == Some(r.value.fields[k])
    decreases v, 0
  {
    var all := map k | k in v.fields :: ToJson(t, v.fields[k]);
    assert forall k | k in v.fields :: k in all && all[k] == ToJson(t, v.fields[k]);
    var r := CollectFields(all);
    if r.None? then None else Some(JObject(r.value))
  }

  // ---------------------------------------------------------------- round trip and injectivity

  /** Arrays and objects nest at most this deep; a record is flat text whatever its key holds. */
  predicate FitsDepth(v: Canonical, room: Room) {
    && !Exhausted(room)
    && match v
       case CArray(items) => forall i | 0 <= i < |items| :: FitsDepth(items[i], Deeper(room))
       case CObject(fields) => forall k | k in fields :: FitsDepth(fields[k], Deeper(room))
       case _ => true
  }

  /** What is written decodes, to the value itself, exactly when its nesting is within the decoder's limit. */
  lemma {:induction false} WrittenDecodes(t: Texts, v: Canonical, room: Room)
    requires ToJson(t, v).Some?
    ensures FromJson(t, ToJson(t, v).value, room) == if FitsDepth(v, room) then Some(v) else None
    ensures FromWire(t, ToJson(t, v).value, room).Some? <==> FitsDepth(v, room)
  {
    if Exhausted(room) { return; }
    match v
    case CNone => NoneDecodes(t, room);
    case CInt(i) => IntDecodes(t, i, room);
    case CFloat(bits) => assert CanonicalFloat(bits) == Some(bits);
    case CBytes(raw) => BytesDecode(t, raw, room);
    case CArray(items) =>
      forall i | 0 <= i < |items| ensures Decodes(t, items[i], Deeper(room)) {
        WrittenDecodes(t, items[i], Deeper(room));
      }
      ArrayDecodes(t, v, room);
    case CObject(fields) =>
      forall k | k in fields ensures Decodes(t, fields[k], Deeper(room)) {
        WrittenDecodes(t, fields[k], Deeper(room));
      }
      ObjectDecodes(t, v, room);
    case CRecord(table, key) => RecordDecodes(t, table, key, room);
    case _ =>
  }

  predicate Decodes(t: Texts, v: Canonical, room: Room) {
    ToJson(t, v).Some? ==>
      && FromJson(t, ToJson(t, v).value, room) == (if FitsDepth(v, room) then Some(v) else None)
      && (FromWire(t, ToJson(t, v).value, room).Some? <==> FitsDepth(v, room))
  }

  lemma TaggedFields(tag: Tag, key: string, text: string)
    requires key == "value" || key == "base64"
    ensures TAG in Tagged(tag, key, text).fields
    ensures RequiredString(Tagged(tag, key, text).fields, TAG) == Some(TagName(tag))
    ensures ReadTag(TagName(tag)) == Some(tag)
    ensures RequiredString(Tagged(tag, key, text).fields, key) == Some(text)
  {
    TagReads(tag);
    assert TAG[0] == '$' && key[0] != '$';
  }

  lemma NoneDecodes(t: Texts, room: Room)
    requires !Exhausted(room)
    ensures Decodes(t, CNone, room)
  {
    TagReads(TNone);
    var j := JObject(map[TAG := JString(TagName(TNone))]);
    assert ToJson(t, CNone) == Some(j);
    assert FromWire(t, j, room) == DecodeTagged(t, j, room) == Some(SNone);
  }

  lemma IntDecodes(t: Texts, i: I64, room: Room)
    requires !Exhausted(room)
    ensures Decodes(t, CInt(i), room)
  {
    IntReads(i);
    TaggedFields(TInt, "value", IntText(i));
    var j := Tagged(TInt, "value", IntText(i));
    assert ToJson(t, CInt(i)) == Some(j);
    assert FromWire(t, j, room) == DecodeTagged(t, j, room) == Some(SInt(i));
  }

  lemma BytesTextDecodes(t: Texts, raw: Bytes, text: string, room: Room)
    requires !Exhausted(room) && Base64.Decode(text) == Some(raw)
    requires ToJson(t, CBytes(raw)) == Some(Tagged(TBytes, "base64", text))
    ensures Decodes(t, CBytes(raw), room)
  {
    TaggedFields(TBytes, "base64", text);
    var j := Tagged(TBytes, "base64", text);
    assert FromWire(t, j, room) == DecodeTagged(t, j, room) == Some(SBytes(raw));
  }

  lemma BytesDecode(t: Texts, raw: Bytes, room: Room)
    requires !Exhausted(room)
    ensures Decodes(t, CBytes(raw), room)
  {
    Base64.DecodeEncode(raw);
    BytesTextDecodes(t, raw, Base64.Encode(raw), room);
  }

  /** The check made when a record was written holds at every depth: its text is not nested. */
  lemma RecordDecodes(t: Texts, table: string, key: Canonical, room: Room)
    requires !Exhausted(room) && ToJson(t, CRecord(table, key)).Some?
    ensures Decodes(t, CRecord(table, key), room)
  {
    var text := t.print_(table, ToKey(key).value);
    TaggedFields(TRecord, "value", text);
    var written := RecordJson(t, table, ToKey(key).value);
    assert FromWire(t, written, room) == FromWire(t, written, Some(MAX_WIRE_DEPTH));
  }

  lemma ItemsFrom(a: SurrealArray, items: seq<Canonical>)
    requires |a.items| == |items| && forall i | 0 <= i < |items| :: FromSurreal(a.items[i]) == Some(items[i])
    ensures FromArray(a) == Some(CArray(items))
  {
    assert FromArray(a).value.items == items;
  }

  lemma FieldsFrom(o: SurrealObject, fields: map<string, Canonical>)
    requires forall k :: k in o.fields <==> k in fields
    requires forall k | k in fields :: FromSurreal(o.fields[k]) == Some(fields[k])
    ensures FromObject(o) == Some(CObject(fields))
  {
    assert FromObject(o).value.fields == fields;
  }

  lemma PartDecodes(t: Texts, v: Canonical, j: Json, room: Room)
    requires Decodes(t, v, room) && ToJson(t, v) == Some(j)
    ensures FromWire(t, j, room).Some? <==> FitsDepth(v, room)
    ensures FromWire(t, j, room).Some? ==> FromSurreal(FromWire(t, j, room).value) == Some(v)
  {
  }

  lemma ItemsDecode(t: Texts, v: Canonical, j: Json, room: Room)
    requires v.CArray? && ItemsToJson(t, v) == Some(j)
    requires forall i | 0 <= i < |v.items| :: Decodes(t, v.items[i], Deeper(room))
    ensures var r := WireItems(t, j, room);
            && (r.Some? <==> forall i | 0 <= i < |v.items| :: FitsDepth(v.items[i], Deeper(room)))
            && (r.Some? ==> FromArray(r.value) == Some(v))
  {
    var r := WireItems(t, j, room);
    forall i | 0 <= i < |v.items|
      ensures FromWire(t, j.items[i], Deeper(room)).Some? <==> FitsDepth(v.items[i], Deeper(room))
      ensures r.Some? ==> FromSurreal(r.value.items[i]) == Some(v.items[i])
    {
      PartDecodes(t, v.items[i], j.items[i], Deeper(room));
    }
    if r.Some? { ItemsFrom(r.value, v.items); }
  }

  lemma FieldsDecode(t: Texts, v: Canonical, j: Json, room: Room)
    requires v.CObject? && FieldsToJson(t, v) == Some(j)
    requires forall k | k in v.fields :: Decodes(t, v.fields[k], Deeper(room))
    ensures var r := WireFields(t, j, room);
            && (r.Some? <==> forall k | k in v.fields :: FitsDepth(v.fields[k], Deeper(room)))
            && (r.Some? ==> FromObject(r.value) == Some(v))
  {
    var r := WireFields(t, j, room);
    forall k | k in v.fields
      ensures FromWire(t, j.fields[k], Deeper(room)).Some? <==> FitsDepth(v.fields[k], Deeper(room))
      ensures r.Some? ==> FromSurreal(r.value.fields[k]) == Some(v.fields[k])
    {
      PartDecodes(t, v.fields[k], j.fields[k], Deeper(room));
    }
    if r.Some? { FieldsFrom(r.value, v.fields); }
  }

  lemma DecodesBy(t: Texts, v: Canonical, j: Json, room: Room, s: Option<Surreal>)
    requires ToJson(t, v) == Some(j) && FromWire(t, j, room) == s
    requires (s.Some? <==> FitsDepth(v, room)) && (s.Some? ==> FromSurreal(s.value) == Some(v))
    ensures Decodes(t, v, room)
  {
  }

  lemma ArrayParts(t: Texts, v: Canonical, j: Json, room: Room)
    requires v.CArray? && j.JArray? && !Exhausted(room)
    ensures ToJson(t, v) == ItemsToJson(t, v)
    ensures FromWire(t, j, room)
         == if WireItems(t, j, room).None? then None else Some(SArray(WireItems(t, j, room).value))
    ensures FitsDepth(v, room) <==> forall i | 0 <= i < |v.items| :: FitsDepth(v.items[i], Deeper(room))
  {
  }

  lemma ObjectParts(t: Texts, v: Canonical, j: Json, room: Room)
    requires v.CObject? && j.JObject? && TAG !in v.fields && TAG !in j.fields && !Exhausted(room)
    ensures ToJson(t, v) == FieldsToJson(t, v)
    ensures FromWire(t, j, room)
         == if WireFields(t, j, room).None? then None else Some(SObject(WireFields(t, j, room).value))
    ensures FitsDepth(v, room) <==> forall k | k in v.fields :: FitsDepth(v.fields[k], Deeper(room))
  {
  }

  lemma ArrayDecodes(t: Texts, v: Canonical, room: Room)
    requires v.CArray? && ToJson(t, v).Some? && !Exhausted(room)
    requires forall i | 0 <= i < |v.items| :: Decodes(t, v.items[i], Deeper(room))
    ensures Decodes(t, v, room)
  {
    var j := ToJson(t, v).value;
    assert ItemsToJson(t, v) == Some(j);
    ItemsDecode(t, v, j, room);
    ArrayParts(t, v, j, room);
    var r := WireItems(t, j, room);
    DecodesBy(t, v, j, room, if r.None? then None else Some(SArray(r.value)));
  }

  lemma ObjectDecodes(t: Texts, v: Canonical, room: Room)
    requires v.CObject? && ToJson(t, v).Some? && !Exhausted(room)
    requires forall k | k in v.fields :: Decodes(t, v.fields[k], Deeper(room))
    ensures Decodes(t, v, room)
  {
    var j := ToJson(t, v).value;
    assert FieldsToJson(t, v) == Some(j);
    FieldsDecode(t, v, j, room);
    ObjectParts(t, v, j, room);
    var r := WireFields(t, j, room);
    DecodesBy(t, v, j, room, if r.None? then None else Some(SObject(r.value)));
  }

  lemma {:induction false} NoLimitFits(v: Canonical)
    ensures FitsDepth(v, None)
  {
    match v
    case CArray(items) => forall i | 0 <= i < |items| ensures FitsDepth(items[i], None) { NoLimitFits(items[i]); }
    case CObject(fields) => forall k | k in fields ensures FitsDepth(fields[k], None) { NoLimitFits(fields[k]); }
    case _ =>
  }

  /** Different values never share a JSON form, whatever the record printer does. */
  lemma ToJsonInjective(t: Texts, a: Canonical, b: Canonical)
    requires ToJson(t, a).Some? && ToJson(t, a) == ToJson(t, b)
    ensures a == b
  {
    NoLimitFits(a);
    NoLimitFits(b);
    WrittenDecodes(t, a, None);
    WrittenDecodes(t, b, None);
  }

  // ---------------------------------------------------------------- what can be written

  /** The text of this record parses to the same table and to a key with the same canonical form. */
  predicate TextReturns(t: Texts, table: string, key: Canonical)
    requires ToKey(key).Some?
  {
    var id := t.parse(t.print_(table, ToKey(key).value));
    id.Some? && id.value.0 == table && FromKey(id.value.1) == Some(key)
  }

  /**
   No object outside a record key holds the tag key, every record key is one the engine has, and
   the engine reads that record's text back.
   */
  predicate Writable(t: Texts, v: Canonical) {
    match v
    case CArray(items) => forall i | 0 <= i < |items| :: Writable(t, items[i])
    case CObject(fields) => TAG !in fields && forall k | k in fields :: Writable(t, fields[k])
    case CRecord(table, key) => KeyShape(key) && WellKeyed(key) && ToKey(key).Some? && TextReturns(t, table, key)
    case _ => true
  }

  lemma RecordWrites(t: Texts, table: string, key: Canonical)
    ensures ToJson(t, CRecord(table, key)).Some? <==> Writable(t, CRecord(table, key))
  {
    ThereAndBack(key);
    if ToKey(key).Some? {
      var text := t.print_(table, ToKey(key).value);
      TaggedFields(TRecord, "value", text);
      var id := t.parse(text);
      assert FromWire(t, RecordJson(t, table, ToKey(key).value), Some(MAX_WIRE_DEPTH))
          == if id.None? then None else Some(SRecord(id.value.0, id.value.1));
    }
  }

  /** A value can be written if and only if each part of it can, whatever the record printer does elsewhere. */
  lemma {:induction false} WritableWrites(t: Texts, v: Canonical)
    ensures ToJson(t, v).Some? <==> Writable(t, v)
  {
    match v
    case CArray(items) =>
      forall i | 0 <= i < |items| ensures ToJson(t, items[i]).Some? <==> Writable(t, items[i]) {
        WritableWrites(t, items[i]);
      }
    case CObject(fields) =>
      forall k | k in fields ensures ToJson(t, fields[k]).Some? <==> Writable(t, fields[k]) {
        WritableWrites(t, fields[k]);
      }
    case CRecord(table, key) => RecordWrites(t, table, key);
    case _ =>
  }

  /** A printer whose text returns the keys it is ever asked to print refuses no well-formed record. */
  lemma FaithfulTextReturns(t: Texts, table: string, key: Canonical)
    requires ToKey(key).Some?
    requires t.parse(t.print_(table, ToKey(key).value)) == Some((table, ToKey(key).value))
    ensures TextReturns(t, table, key) && ToJson(t, CRecord(table, key)).Some?
  {
    ThereAndBack(key);
    RecordWrites(t, table, key);
  }

  // ---------------------------------------------------------------- the written form, kind by kind

  /** The canonical decimal of an integer: a sign only if negative, no leading zero, the right value. */
  predicate DecimalOf(text: string, i: int) {
    var digits := if i < 0 && |text| > 0 then text[1..] else text;
    && (i < 0 ==> |text| > 0 && text[0] == '-')
    && 1 <= |digits| && AllDigits(digits) && (digits[0] == '0' ==> |digits| == 1)
    && ValueOf(digits) == (if i < 0 then 0 - i else i)
  }

  lemma IntTextIsDecimal(i: I64)
    ensures DecimalOf(IntText(i), i)
  {
    var n: nat := if i < 0 then 0 - i else i;
    ValueOfDecimal(n);
    assert AllDigits(Decimal(n));
    if i < 0 { assert IntText(i)[1..] == Decimal(n); }
  }

  /** An object with exactly these two string fields. */
  ghost predicate TwoFields(j: Json, first: string, a: string, second: string, b: string) {
    && j.JObject? && (forall k :: k in j.fields <==> k == first || k == second)
    && j.fields[first] == JString(a) && j.fields[second] == JString(b)
  }

  /** How each kind of value is written. An integer is text, so that no reader loses digits to a double. */
  ghost predicate WrittenAs(t: Texts, v: Canonical, j: Json) {
    match v
    case CNone => j.JObject? && (forall k :: k in j.fields <==> k == "$surreal") && j.fields["$surreal"] == JString("none")
    case CNull => j == JNull
    case CBool(b) => j == JBool(b)
    case CInt(i) => exists text :: DecimalOf(text, i) && TwoFields(j, "$surreal", "int", "value", text)
    case CFloat(bits) => j == JFloat(bits)
    case CString(s) => j == JString(s)
    case CBytes(raw) =>
      exists text :: Base64.Decode(text) == Some(raw) && TwoFields(j, "$surreal", "bytes", "base64", text)
    case CArray(items) =>
      j.JArray? && |j.items| == |items| && forall i | 0 <= i < |items| :: WrittenAs(t, items[i], j.items[i])
    case CObject(fields) =>
      j.JObject? && "$surreal" !in fields && (forall k :: k in j.fields <==> k in fields)
      && forall k | k in fields :: WrittenAs(t, fields[k], j.fields[k])
    case CRecord(table, key) =>
      ToKey(key).Some? && TwoFields(j, "$surreal", "record", "value", t.print_(table, ToKey(key).value))
  }

  lemma TaggedIsTwoFields(tag: Tag, key: string, text: string)
    requires key == "value" || key == "base64"
    ensures TwoFields(Tagged(tag, key, text), "$surreal", TagName(tag), key, text)
  {
    assert "$surreal"[0] == '$' && key[0] != '$';
  }

  lemma {:induction false} WrittenForm(t: Texts, v: Canonical)
    requires ToJson(t, v).Some?
    ensures WrittenAs(t, v, ToJson(t, v).value)
  {
    match v
    case CInt(i) =>
      IntTextIsDecimal(i);
      TaggedIsTwoFields(TInt, "value", IntText(i));
    case CBytes(raw) =>
      Base64.DecodeEncode(raw);
      BytesForm(t, raw, Base64.Encode(raw));
    case CArray(items) =>
      forall i | 0 <= i < |items| ensures WrittenAs(t, items[i], ToJson(t, v).value.items[i]) {
        WrittenForm(t, items[i]);
      }
    case CObject(fields) =>
      forall k | k in fields ensures WrittenAs(t, fields[k], ToJson(t, v).value.fields[k]) {
        WrittenForm(t, fields[k]);
      }
    case CRecord(table, key) => TaggedIsTwoFields(TRecord, "value", t.print_(table, ToKey(key).value));
    case _ =>
  }

  lemma BytesForm(t: Texts, raw: Bytes, text: string)
    requires Base64.Decode(text) == Some(raw)
    ensures WrittenAs(t, CBytes(raw), Tagged(TBytes, "base64", text))
  {
    TaggedIsTwoFields(TBytes, "base64", text);
  }

  predicate NoBareInteger(j: Json) {
    match j
    case JInt(_) => false
    case JArray(items) => forall i | 0 <= i < |items| :: NoBareInteger(items[i])
    case JObject(fields) => forall k | k in fields :: NoBareInteger(fields[k])
    case _ => true
  }

  lemma {:induction false} FormHasNoBareInteger(t: Texts, v: Canonical, j: Json)
    requires WrittenAs(t, v, j)
    ensures NoBareInteger(j)
  {
    match v
    case CInt(i) => var text :| DecimalOf(text, i) && TwoFields(j, "$surreal", "int", "value", text);
    case CBytes(raw) =>
      var text :| Base64.Decode(text) == Some(raw) && TwoFields(j, "$surreal", "bytes", "base64", text);
    case CArray(items) =>
      forall i | 0 <= i < |items| ensures NoBareInteger(j.items[i]) { FormHasNoBareInteger(t, items[i], j.items[i]); }
    case CObject(fields) =>
      forall k | k in fields ensures NoBareInteger(j.fields[k]) { FormHasNoBareInteger(t, fields[k], j.fields[k]); }
    case _ =>
  }

  /** No bare integer occurs at any depth of anything written. */
  lemma NothingBareIsWritten(t: Texts, v: Canonical)
    requires ToJson(t, v).Some?
    ensures NoBareInteger(ToJson(t, v).value)
  {
    WrittenForm(t, v);
    FormHasNoBareInteger(t, v, ToJson(t, v).value);
  }

  // ---------------------------------------------------------------- what the decoder makes of each tag

  /** An object with this tag and this text under `key`; other fields are ignored. */
  predicate HasTag(j: Json, tag: string, key: string, text: string) {
    && j.JObject? && "$surreal" in j.fields && j.fields["$surreal"] == JString(tag)
    && key in j.fields && j.fields[key] == JString(text)
  }

  lemma TaggedTextDecodes(t: Texts, j: Json, room: Room, text: string)
    requires !Exhausted(room)
    ensures HasTag(j, "int", "value", text) ==>
              FromWire(t, j, room) == if ParseI64(text).None? then None else Some(SInt(ParseI64(text).value))
    ensures HasTag(j, "float", "value", text) ==>
              FromWire(t, j, room) == if t.parseFloat(text).None? then None else Some(SFloat(t.parseFloat(text).value))
    ensures HasTag(j, "decimal", "value", text) ==>
              FromWire(t, j, room) == if t.isDecimal(text) then Some(SDecimal(text)) else None
    ensures HasTag(j, "uuid", "value", text) ==>
              FromWire(t, j, room) == if t.isUuid(text) then Some(SOther("uuid", text)) else None
    ensures HasTag(j, "record", "value", text) ==>
              FromWire(t, j, room) == if t.parse(text).None? then None
                                      else Some(SRecord(t.parse(text).value.0, t.parse(text).value.1))
    ensures HasTag(j, "bytes", "base64", text) ==>
              FromWire(t, j, room) == if Base64.Decode(text).None? then None
                                      else Some(SBytes(Base64.Decode(text).value))
  {
    TagReads(TInt);
    TagReads(TFloat);
    TagReads(TDecimal);
    TagReads(TUuid);
    TagReads(TRecord);
    TagReads(TBytes);
  }
}
