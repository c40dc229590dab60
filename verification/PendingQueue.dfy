/**
 The bounded FIFO window over pending commits and the admission of one more. Both charge the exact
 JSON text of an array of strings, each string being a commit's own JSON escaped once more.
 */
module PendingQueue {
  import opened Common

  const MAX_COMMITS: nat := 64
  const MAX_BYTES: nat := 4 * 1024 * 1024
  const U32_MAX: nat := 0xFFFF_FFFF

  datatype QueueError = InvalidInput | QueueCapacity | Internal

  datatype PendingWindow = PendingWindow(
    revision: U64, commits: seq<Bytes>, bytes: nat, remaining: nat, firstTooLarge: bool)

  // ---------------------------------------------------------------- JSON strings and arrays

  const QUOTE: Byte := 34
  const BACKSLASH: Byte := 92
  const COMMA: Byte := 44
  const OPEN: Byte := 91
  const CLOSE: Byte := 93

  function HexDigit(n: int): Byte
    requires 0 <= n < 16
  {
    if n < 10 then 48 + n else 87 + n
  }

  /** Section 7 of RFC 8259, with the short escapes where they exist. */
  function Escape(b: Byte): (e: Bytes)
    ensures 1 <= |e| <= 6
  {
    if b == QUOTE then [BACKSLASH, QUOTE]
    else if b == BACKSLASH then [BACKSLASH, BACKSLASH]
    else if b == 8 then [BACKSLASH, 98]
    else if b == 9 then [BACKSLASH, 116]
    else if b == 10 then [BACKSLASH, 110]
    else if b == 12 then [BACKSLASH, 102]
    else if b == 13 then [BACKSLASH, 114]
    else if b < 32 then [BACKSLASH, 117, 48, 48, HexDigit(b / 16), HexDigit(b % 16)]
    else [b]
  }

  function EscapeAll(s: Bytes): Bytes
  {
    if s == [] then [] else Escape(s[0]) + EscapeAll(s[1..])
  }

  function Quote(s: Bytes): Bytes { [QUOTE] + EscapeAll(s) + [QUOTE] }

  function Tail(items: seq<Bytes>): Bytes
  {
    if items == [] then [CLOSE] else [COMMA] + (Quote(items[0]) + Tail(items[1..]))
  }

  function ArrayJson(items: seq<Bytes>): Bytes
  {
    if items == [] then [OPEN, CLOSE] else [OPEN] + (Quote(items[0]) + Tail(items[1..]))
  }

  // ---------------------------------------------------------------- reading it back

  function HexValue(b: Byte): Option<Byte>
  {
    if 48 <= b <= 57 then Some(b - 48) else if 97 <= b <= 102 then Some(b - 87) else None
  }

  /** One character of a string body: the byte it denotes and how much text it takes. */
  function Unescape(t: Bytes): (r: Option<(Byte, nat)>)
    ensures r.Some? ==> 1 <= r.value.1 <= |t|
  {
    if t == [] || t[0] == QUOTE || t[0] < 32 then None
    else if t[0] != BACKSLASH then Some((t[0], 1))
    else if |t| < 2 then None
    else if t[1] == QUOTE || t[1] == BACKSLASH then Some((t[1], 2))
    else if t[1] == 98 then Some((8, 2))
    else if t[1] == 116 then Some((9, 2))
    else if t[1] == 110 then Some((10, 2))
    else if t[1] == 102 then Some((12, 2))
    else if t[1] == 114 then Some((13, 2))
    else if t[1] == 117 && |t| >= 6 && t[2] == 48 && t[3] == 48 && HexValue(t[4]).Some? && HexValue(t[5]).Some?
      then Some((16 * HexValue(t[4]).value + HexValue(t[5]).value, 6))
    else None
  }

  /** The rest of a string after its opening quote: what it denotes and the text that follows. */
  function ReadString(t: Bytes): (r: Option<(Bytes, Bytes)>)
    ensures r.Some? ==> |r.value.1| < |t|
    decreases |t|
  {
    if t == [] then None
    else if t[0] == QUOTE then Some(([], t[1..]))
    else
      var u := Unescape(t);
      if u.None? then None
      else
        var rest := ReadString(t[u.value.1..]);
        if rest.None? then None else Some(([u.value.0] + rest.value.0, rest.value.1))
  }

  /** A whole string: what it denotes and the text that follows. */
  function ReadItem(t: Bytes): (r: Option<(Bytes, Bytes)>)
    ensures r.Some? ==> |r.value.1| < |t|
  {
    if t == [] || t[0] != QUOTE then None else ReadString(t[1..])
  }

  function ReadTail(t: Bytes): Option<seq<Bytes>>
    decreases |t|
  {
    if t == [CLOSE] then Some([])
    else if t == [] || t[0] != COMMA || ReadItem(t[1..]).None? then None
    else
      var (item, after) := ReadItem(t[1..]).value;
      var rest := ReadTail(after);
      if rest.None? then None else Some([item] + rest.value)
  }

  function ReadArray(t: Bytes): Option<seq<Bytes>>
  {
    if t == [OPEN, CLOSE] then Some([])
    else if t == [] || t[0] != OPEN || ReadItem(t[1..]).None? then None
    else
      var (item, after) := ReadItem(t[1..]).value;
      var rest := ReadTail(after);
      if rest.None? then None else Some([item] + rest.value)
  }

  lemma EscapeReads(b: Byte, rest: Bytes)
    ensures Unescape(Escape(b) + rest) == Some((b, |Escape(b)|))
    ensures (Escape(b) + rest)[0] != QUOTE
  {
    if b < 32 {
      assert HexValue(HexDigit(b / 16)) == Some(b / 16) && HexValue(HexDigit(b % 16)) == Some(b % 16);
    }
  }

  lemma CharacterReads(b: Byte, after: Bytes, s: Bytes, rest: Bytes)
    requires ReadString(after) == Some((s, rest))
    ensures ReadString(Escape(b) + after) == Some(([b] + s, rest))
  {
    EscapeReads(b, after);
    assert (Escape(b) + after)[|Escape(b)|..] == after;
  }

  lemma EscapeSplits(s: Bytes, rest: Bytes)
    requires s != []
    ensures EscapeAll(s) + [QUOTE] + rest == Escape(s[0]) + (EscapeAll(s[1..]) + [QUOTE] + rest)
  {
  }

  lemma {:induction false} StringReads(s: Bytes, rest: Bytes)
    ensures ReadString(EscapeAll(s) + [QUOTE] + rest) == Some((s, rest))
  {
    if s == [] {
      assert EscapeAll(s) + [QUOTE] + rest == [QUOTE] + rest;
    } else {
      var after := EscapeAll(s[1..]) + [QUOTE] + rest;
      StringReads(s[1..], rest);
      CharacterReads(s[0], after, s[1..], rest);
      EscapeSplits(s, rest);
      assert s == [s[0]] + s[1..];
    }
  }

  lemma ItemReads(s: Bytes, rest: Bytes)
    ensures ReadItem(Quote(s) + rest) == Some((s, rest))
  {
    var after := EscapeAll(s) + [QUOTE] + rest;
    StringReads(s, rest);
    assert Quote(s) + rest == [QUOTE] + after && ([QUOTE] + after)[1..] == after;
  }

  lemma {:induction false} TailReads(items: seq<Bytes>)
    ensures ReadTail(Tail(items)) == Some(items)
  {
    if items != [] {
      var after := Quote(items[0]) + Tail(items[1..]);
      assert Tail(items) == [COMMA] + after && Tail(items)[1..] == after;
      ItemReads(items[0], Tail(items[1..]));
      TailReads(items[1..]);
      assert items == [items[0]] + items[1..];
    }
  }

  /** The charged text is a faithful encoding: reading it back gives the strings. */
  lemma ArrayReads(items: seq<Bytes>)
    ensures ReadArray(ArrayJson(items)) == Some(items)
  {
    if items != [] {
      var after := Quote(items[0]) + Tail(items[1..]);
      var t := [OPEN] + after;
      assert ArrayJson(items) == t && t[1..] == after && t[0] == OPEN && t[1] == QUOTE;
      ItemReads(items[0], Tail(items[1..]));
      TailReads(items[1..]);
      assert items == [items[0]] + items[1..];
    }
  }

  // ---------------------------------------------------------------- lengths

  /** No text for a byte is shorter than the one written: every charged length is the least possible. */
  lemma EscapeIsShortest(b: Byte, t: Bytes)
    requires Unescape(t).Some? && Unescape(t).value.0 == b
    ensures |Escape(b)| <= Unescape(t).value.1
  {
  }

  /** Quote, backslash, backspace, tab, line feed, form feed and carriage return. */
  predicate HasShortEscape(b: Byte) { b == 34 || b == 92 || b == 8 || b == 9 || b == 10 || b == 12 || b == 13 }

  /** The texts of section 7 of RFC 8259, byte by byte. */
  lemma EscapeTexts(b: Byte)
    ensures b == 34 ==> Escape(b) == [92, 34]
    ensures b == 92 ==> Escape(b) == [92, 92]
    ensures b == 8 ==> Escape(b) == [92, 98]
    ensures b == 9 ==> Escape(b) == [92, 116]
    ensures b == 10 ==> Escape(b) == [92, 110]
    ensures b == 12 ==> Escape(b) == [92, 102]
    ensures b == 13 ==> Escape(b) == [92, 114]
    ensures b < 32 && !HasShortEscape(b) ==> |Escape(b)| == 6 && Escape(b)[..4] == [92, 117, 48, 48]
    ensures b >= 32 && !HasShortEscape(b) ==> Escape(b) == [b]
  {
  }

  /** What the escapes of a text add to its length. */
  function Extra(s: Bytes): nat
  {
    if s == [] then 0
    else (if HasShortEscape(s[0]) then 1 else if s[0] < 32 then 5 else 0) + Extra(s[1..])
  }

  /** The charge of a string: its bytes, two quotes, one more per short escape and five per other control byte. */
  lemma {:induction false} QuotedLength(s: Bytes)
    ensures |Quote(s)| == 2 + |s| + Extra(s)
  {
    if s != [] {
      EscapeTexts(s[0]);
      QuotedLength(s[1..]);
    }
  }

  /** An ordinary commit, `{"a":1}`, is charged its seven bytes, its two escapes and two quotes. */
  lemma OrdinaryCommitCharge()
    ensures |Quote([123, 34, 97, 34, 58, 49, 125])| == 11
    ensures |ArrayJson([[123, 34, 97, 34, 58, 49, 125]])| == 13
  {
    var s: Bytes := [123, 34, 97, 34, 58, 49, 125];
    QuotedLength(s);
    assert s[1..] == [34, 97, 34, 58, 49, 125] && s[1..][1..] == [97, 34, 58, 49, 125];
    assert [97, 34, 58, 49, 125][1..] == [34, 58, 49, 125] && [34, 58, 49, 125][1..] == [58, 49, 125];
    assert [58, 49, 125][1..] == [49, 125] && [49, 125][1..] == [125] && [125][1..] == [];
    var rest: Bytes := [34, 58, 49, 125];
    assert Extra(rest) == 1;
    assert Extra(s) == 2;
    assert ArrayJson([s]) == [OPEN] + (Quote(s) + Tail([]));
  }

  lemma {:induction false} EscapeGrows(s: Bytes)
    ensures |EscapeAll(s)| >= |s|
  {
    if s != [] { EscapeGrows(s[1..]); }
  }

  lemma {:induction false} TailGrows(items: seq<Bytes>, x: Bytes)
    ensures |Tail(items + [x])| == |Tail(items)| + 1 + |Quote(x)|
  {
    if items == [] {
      assert items + [x] == [x] && Tail([x]) == [COMMA] + (Quote(x) + Tail([]));
    } else {
      assert (items + [x])[0] == items[0] && (items + [x])[1..] == items[1..] + [x];
      TailGrows(items[1..], x);
    }
  }

  /** One more string costs its quoted text, and a comma unless it is the first. */
  lemma ArrayGrows(items: seq<Bytes>, x: Bytes)
    ensures |ArrayJson(items + [x])| == |ArrayJson(items)| + |Quote(x)| + (if items == [] then 0 else 1)
  {
    if items == [] {
      assert items + [x] == [x] && ArrayJson([x]) == [OPEN] + (Quote(x) + Tail([]));
    } else {
      assert (items + [x])[0] == items[0] && (items + [x])[1..] == items[1..] + [x];
      TailGrows(items[1..], x);
    }
  }

  /** The length of the array of the first `k` strings, added up string by string. */
  ghost function Size(items: seq<Bytes>, k: nat): nat
    requires k <= |items|
  {
    if k == 0 then 2 else Size(items, k - 1) + |Quote(items[k - 1])| + (if k == 1 then 0 else 1)
  }

  lemma OneMore(shorter: seq<Bytes>, x: Bytes, longer: seq<Bytes>)
    requires longer == shorter + [x]
    ensures |ArrayJson(longer)| == |ArrayJson(shorter)| + |Quote(x)| + (if |longer| == 1 then 0 else 1)
  {
    ArrayGrows(shorter, x);
  }

  lemma {:induction false} SizeIsLength(items: seq<Bytes>, k: nat, first: seq<Bytes>)
    requires k <= |items| && first == items[..k]
    ensures |ArrayJson(first)| == Size(items, k)
    decreases k
  {
    if k > 0 {
      var shorter := items[..k - 1];
      SizeIsLength(items, k - 1, shorter);
      OneMore(shorter, items[k - 1], first);
    }
  }

  lemma {:induction false} SizeRises(items: seq<Bytes>, j: nat, k: nat)
    requires j <= k <= |items|
    ensures Size(items, j) <= Size(items, k)
    decreases k
  {
    if j < k { SizeRises(items, j, k - 1); }
  }

  // ---------------------------------------------------------------- the budget writer

  function Concat(chunks: seq<Bytes>): Bytes
  {
    if chunks == [] then [] else chunks[0] + Concat(chunks[1..])
  }

  class BudgetWriter {
    var bytes: Bytes
    const limit: nat

    constructor (limit: nat)
      ensures bytes == [] && this.limit == limit
    {
      bytes := [];
      this.limit := limit;
    }

    /** All of the input or nothing. */
    method Write(input: Bytes) returns (ok: bool)
      modifies this
      ensures ok <==> |input| <= (if |old(bytes)| <= limit then limit - |old(bytes)| else 0)
      ensures bytes == if ok then old(bytes) + input else old(bytes)
    {
      var room := if |bytes| <= limit then limit - |bytes| else 0;
      if |input| > room { return false; }
      bytes := bytes + input;
      return true;
    }
  }

  /** However the serializer splits its output into writes, it succeeds exactly when the whole fits. */
  method BoundedJson(chunks: seq<Bytes>, limit: nat) returns (r: Option<Bytes>)
    ensures r == if |Concat(chunks)| <= limit then Some(Concat(chunks)) else None
  {
    var writer := new BudgetWriter(limit);
    var i := 0;
    while i < |chunks|
      invariant 0 <= i <= |chunks|
      invariant writer.bytes + Concat(chunks[i..]) == Concat(chunks)
      invariant |writer.bytes| <= limit && writer.limit == limit
    {
      assert chunks[i..][1..] == chunks[i + 1..];
      var ok := writer.Write(chunks[i]);
      if !ok { return None; }
      i := i + 1;
    }
    assert chunks[i..] == [] && writer.bytes + [] == writer.bytes;
    return Some(writer.bytes);
  }

  function QuotedChunks(s: Bytes): seq<Bytes>
  {
    [[QUOTE]] + seq(|s|, i requires 0 <= i < |s| => Escape(s[i])) + [[QUOTE]]
  }

  lemma {:induction false} EscapesConcat(s: Bytes, tail: seq<Bytes>)
    ensures Concat(seq(|s|, i requires 0 <= i < |s| => Escape(s[i])) + tail) == EscapeAll(s) + Concat(tail)
  {
    var chunks := seq(|s|, i requires 0 <= i < |s| => Escape(s[i]));
    if s == [] {
      assert chunks + tail == tail;
    } else {
      var rest := seq(|s[1..]|, i requires 0 <= i < |s[1..]| => Escape(s[1..][i]));
      assert (chunks + tail)[1..] == rest + tail;
      EscapesConcat(s[1..], tail);
    }
  }

  lemma QuotedConcat(s: Bytes)
    ensures Concat(QuotedChunks(s)) == Quote(s)
  {
    var escapes := seq(|s|, i requires 0 <= i < |s| => Escape(s[i]));
    assert QuotedChunks(s)[1..] == escapes + [[QUOTE]];
    EscapesConcat(s, [[QUOTE]]);
    assert Concat([[QUOTE]]) == [QUOTE] + Concat([]);
  }

  // ---------------------------------------------------------------- window and admission

  /** A pending commit, as the writes its serializer makes. */
  type Item = seq<Bytes>

  function Texts(items: seq<Item>): (t: seq<Bytes>)
    ensures |t| == |items|
  {
    seq(|items|, i requires 0 <= i < |items| => Concat(items[i]))
  }

  predicate ValidLimits(count: nat, bytes: nat) { 1 <= count <= MAX_COMMITS && 2 <= bytes <= MAX_BYTES }

  /** The first `k` commits are within both limits. */
  predicate Fits(items: seq<Item>, k: nat, count: nat, bytes: nat)
    requires k <= |items|
  {
    k <= count && |ArrayJson(Texts(items)[..k])| <= bytes
  }

  /** Charge one more commit against what is left, as both loops do. */
  method Charge(item: Item, charged: nat, first: bool, limit: nat) returns (r: Option<(Bytes, nat)>)
    requires charged <= limit
    ensures var sum := charged + |Quote(Concat(item))| + (if first then 0 else 1);
            r == if sum <= limit then Some((Concat(item), sum)) else None
  {
    EscapeGrows(Concat(item));
    var available := limit - charged;
    var raw := BoundedJson(item, available);
    if raw.None? { return None; }
    var comma := if first then 0 else 1;
    QuotedConcat(raw.value);
    var quoted := BoundedJson(QuotedChunks(raw.value), if available >= comma then available - comma else 0);
    if quoted.None? { return None; }
    return Some((raw.value, charged + |quoted.value| + comma));
  }

  method Window(revision: U64, items: seq<Item>, count: nat, maxBytes: nat)
    returns (r: Result<PendingWindow, QueueError>)
    ensures r == Err(InvalidInput) <==> count < 1 || count > 64 || maxBytes < 2 || maxBytes > 4194304
    ensures r.Err? ==> r.error == InvalidInput || (r.error == Internal && |items| > 4294967295)
    ensures r.Ok? ==>
              var w, k := r.value, |r.value.commits|;
              && w.revision == revision && k <= |items|
              && w.commits == Texts(items)[..k] && w.bytes == |ArrayJson(w.commits)|
              && Fits(items, k, count, maxBytes)
              && (forall j: nat | j <= |items| && Fits(items, j, count, maxBytes) :: j <= k)
              && w.remaining == |items| - k
              && (w.firstTooLarge <==> |items| > 0 && !Fits(items, 1, count, maxBytes))
  {
    if !ValidLimits(count, maxBytes) { return Err(InvalidInput); }
    var most := if |items| <= count then |items| else count;
    var commits, bytes := TakeFitting(items, most, maxBytes);
    LongestPrefix(items, |commits|, most, count, maxBytes);
    if |items| - |commits| > U32_MAX { return Err(Internal); }
    var tooLarge := |commits| < most && commits == [];
    return Ok(PendingWindow(revision, commits, bytes, |items| - |commits|, tooLarge));
  }

  /** The loop: take commits from the front until one does not fit in what is left. */
  method TakeFitting(items: seq<Item>, most: nat, maxBytes: nat) returns (commits: seq<Bytes>, bytes: nat)
    requires most <= |items| && 2 <= maxBytes
    ensures |commits| <= most && commits == Texts(items)[..|commits|]
    ensures bytes == Size(Texts(items), |commits|) <= maxBytes
    ensures |commits| < most ==> Size(Texts(items), |commits| + 1) > maxBytes
  {
    ghost var texts := Texts(items);
    var i := 0;
    commits, bytes := [], 2;
    while i < most
      invariant 0 <= i <= most && commits == texts[..i]
      invariant bytes == Size(texts, i) <= maxBytes
    {
      var charged := Charge(items[i], bytes, i == 0, maxBytes);
      if charged.None? { return; }
      assert texts[i] == charged.value.0 && texts[..i + 1] == texts[..i] + [texts[i]];
      commits, bytes, i := commits + [charged.value.0], charged.value.1, i + 1;
    }
  }

  /** Whether a prefix fits, by its size. */
  lemma FitsBySize(items: seq<Item>, k: nat, count: nat, bytes: nat)
    requires k <= |items|
    ensures Fits(items, k, count, bytes) <==> k <= count && Size(Texts(items), k) <= bytes
    ensures |ArrayJson(Texts(items)[..k])| == Size(Texts(items), k)
  {
    SizeIsLength(Texts(items), k, Texts(items)[..k]);
  }

  lemma NothingLongerFits(items: seq<Item>, k: nat, j: nat, count: nat, maxBytes: nat)
    requires k < j <= |items|
    requires k < count ==> Size(Texts(items), k + 1) > maxBytes
    ensures !Fits(items, j, count, maxBytes)
  {
    if j <= count {
      SizeRises(Texts(items), k + 1, j);
      assert Size(Texts(items), j) > maxBytes;
      FitsBySize(items, j, count, maxBytes);
    }
  }

  /** The first refusal ends it: nothing longer fits either, and the flag is about the very first. */
  lemma LongestPrefix(items: seq<Item>, k: nat, most: nat, count: nat, maxBytes: nat)
    requires ValidLimits(count, maxBytes) && most == (if |items| <= count then |items| else count)
    requires k <= most && Size(Texts(items), k) <= maxBytes
    requires k < most ==> Size(Texts(items), k + 1) > maxBytes
    ensures Fits(items, k, count, maxBytes) && |ArrayJson(Texts(items)[..k])| == Size(Texts(items), k)
    ensures forall j: nat | j <= |items| && Fits(items, j, count, maxBytes) :: j <= k
    ensures |items| > 0 ==> (Fits(items, 1, count, maxBytes) <==> k > 0)
  {
    FitsBySize(items, k, count, maxBytes);
    forall j: nat | k < j <= |items| ensures !Fits(items, j, count, maxBytes) {
      NothingLongerFits(items, k, j, count, maxBytes);
    }
    if k > 0 {
      FitsBySize(items, 1, count, maxBytes);
      SizeRises(Texts(items), 1, k);
    }
  }

  method Admits(items: seq<Item>, candidate: Item, count: nat, bytes: nat) returns (r: Result<(), QueueError>)
    ensures r == Err(InvalidInput) <==> count < 1 || count > 64 || bytes < 2 || bytes > 4194304
    ensures r != Err(InvalidInput) ==>
              r == if Fits(items + [candidate], |items| + 1, count, bytes) then Ok(()) else Err(QueueCapacity)
  {
    if !ValidLimits(count, bytes) { return Err(InvalidInput); }
    if |items| >= count { return Err(QueueCapacity); }
    var all := items + [candidate];
    SizeIsLength(Texts(all), |all|, Texts(all)[..|all|]);
    var fits := ChargeAll(all, bytes);
    return if fits then Ok(()) else Err(QueueCapacity);
  }

  /** The loop: charge every commit in turn, and stop at the first that does not fit. */
  method ChargeAll(all: seq<Item>, bytes: nat) returns (fits: bool)
    requires 2 <= bytes
    ensures fits <==> Size(Texts(all), |all|) <= bytes
  {
    ghost var texts := Texts(all);
    var charged, i := 2, 0;
    while i < |all|
      invariant 0 <= i <= |all| && charged == Size(texts, i) <= bytes
    {
      var next := Charge(all[i], charged, i == 0, bytes);
      if next.None? {
        SizeRises(texts, i + 1, |all|);
        return false;
      }
      charged, i := next.value.1, i + 1;
    }
    return true;
  }

  /** The two loops agree: a commit is admitted exactly when the window would then show the whole queue. */
  method AdmissionAgreesWithWindow(revision: U64, items: seq<Item>, candidate: Item, count: nat, bytes: nat)
    returns (admitted: bool, shown: bool)
    requires ValidLimits(count, bytes)
    ensures admitted == shown
    ensures shown <==> Fits(items + [candidate], |items| + 1, count, bytes)
  {
    var a := Admits(items, candidate, count, bytes);
    var w := Window(revision, items + [candidate], count, bytes);
    admitted := a.Ok?;
    shown := w.Ok? && |w.value.commits| == |items| + 1;
  }
}
