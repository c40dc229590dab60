/**
 Decimal text of counters and the rotating metadata fence "counter:a" / "counter:i".
 A parser accepts a text only if printing the parsed value gives the same text back.
 */
module FenceText {
  import opened Common

  datatype Fence = Fence(counter: U64, active: bool)
  datatype FenceError = Corrupt | TooLarge

  predicate IsDigit(c: char) { '0' <= c <= '9' }

  function DigitChar(d: nat): (c: char)
    requires d < 10
    ensures IsDigit(c) && c as int - '0' as int == d
  {
    '0' + d as char
  }

  /** Rust's `to_string` of an unsigned integer. */
  function Decimal(n: nat): (s: string)
    ensures 1 <= |s|
    ensures forall i | 0 <= i < |s| :: IsDigit(s[i])
    ensures s[0] == '0' ==> s == "0"
    decreases n
  {
    if n < 10 then [DigitChar(n)] else Decimal(n / 10) + [DigitChar(n % 10)]
  }

  predicate AllDigits(s: string) { forall i | 0 <= i < |s| :: IsDigit(s[i]) }

  /** The number a digit string denotes, leading zeros included. */
  function ValueOf(s: string): (n: nat)
    requires AllDigits(s)
  {
    if s == [] then 0
    else
      var last := s[|s| - 1];
      assert IsDigit(last);
      10 * ValueOf(s[..|s| - 1]) + (last as int - '0' as int)
  }

  /** Rust's `str::parse::<u64>`: an optional plus sign, at least one digit, no overflow. */
  function ParseU64(raw: string): (r: Option<U64>)
  {
    var digits := if 0 < |raw| && raw[0] == '+' then raw[1..] else raw;
    if |digits| == 0 || !AllDigits(digits) || ValueOf(digits) > U64_MAX then None
    else Some(ValueOf(digits))
  }

  function ParseFence(raw: string): (r: Result<U64, FenceError>)
  {
    match ParseU64(raw)
    case None => Err(Corrupt)
    case Some(number) => if Decimal(number) != raw then Err(Corrupt) else Ok(number)
  }

  /** A text with no redundant character: the condition a writer could check before storing it. */
  predicate Canonical(raw: string) {
    && 1 <= |raw|
    && AllDigits(raw)
    && (raw[0] == '0' ==> |raw| == 1)
    && ValueOf(raw) <= U64_MAX
  }

  function PrintFence(f: Fence): (s: string)
  {
    Decimal(f.counter) + (if f.active then ":a" else ":i")
  }

  /** Position of the first colon, if any (`split_once`). */
  function FirstColon(s: string): (r: Option<nat>)
    ensures r.Some? ==> r.value < |s| && s[r.value] == ':' && ':' !in s[..r.value]
    ensures r.None? ==> ':' !in s
  {
    if s == [] then None
    else if s[0] == ':' then Some(0)
    else
      match FirstColon(s[1..])
      case None => None
      case Some(i) =>
        assert s[..i + 1] == [s[0]] + s[1..][..i];
        Some(i + 1)
  }

  lemma {:induction false} FirstColonAt(s: string, k: nat)
    requires k < |s| && s[k] == ':' && forall i | 0 <= i < k :: s[i] != ':'
    ensures FirstColon(s) == Some(k)
  {
    if k > 0 {
      FirstColonAt(s[1..], k - 1);
    }
  }

  function ParseMetadataFence(raw: string): (r: Result<Fence, FenceError>)
  {
    match FirstColon(raw)
    case None => Err(Corrupt)
    case Some(at) =>
      var suffix := raw[at + 1..];
      if suffix != "a" && suffix != "i" then Err(Corrupt)
      else
        match ParseFence(raw[..at])
        case Err(e) => Err(e)
        case Ok(counter) => Ok(Fence(counter, suffix == "a"))
  }

  /** `read_fence` selects at most the first 24 characters of the stored text. */
  function ReadFenceText(stored: string): (r: Result<Fence, FenceError>)
  {
    ParseMetadataFence(if |stored| <= 24 then stored else stored[..24])
  }

  function NextFence(raw: Option<string>): (r: Result<string, FenceError>)
  {
    var parsed := if raw.None? then Ok(Fence(0, true)) else ParseMetadataFence(raw.value);
    match parsed
    case Err(e) => Err(e)
    case Ok(f) =>
      if f.counter == U64_MAX then Err(TooLarge)
      else Ok(PrintFence(Fence(f.counter + 1, f.active)))
  }

  lemma {:induction false} ValueOfDecimal(n: nat)
    ensures ValueOf(Decimal(n)) == n
    decreases n
  {
    if n >= 10 {
      ValueOfDecimal(n / 10);
      assert Decimal(n)[..|Decimal(n)| - 1] == Decimal(n / 10);
    }
  }

  lemma {:induction false} DecimalOfValue(s: string)
    requires 1 <= |s| && AllDigits(s) && (s[0] == '0' ==> |s| == 1)
    ensures Decimal(ValueOf(s)) == s
    decreases |s|
  {
    var p := s[..|s| - 1];
    if |s| == 1 {
      assert p == [];
    } else {
      DecimalOfValue(p);
      assert s == p + [s[|s| - 1]];
      if ValueOf(p) == 0 {
        assert false;
      }
    }
  }

  /** Printing is injective, so equal texts mean equal counters. */
  lemma DecimalInjective(a: nat, b: nat)
    ensures Decimal(a) == Decimal(b) <==> a == b
  {
    ValueOfDecimal(a);
    ValueOfDecimal(b);
  }

  ghost function Pow10(k: nat): nat { if k == 0 then 1 else 10 * Pow10(k - 1) }

  lemma {:induction false} DecimalLength(n: nat, k: nat)
    requires 1 <= k && n < Pow10(k)
    ensures |Decimal(n)| <= k
    decreases k
  {
    if k > 1 && n >= 10 {
      DecimalLength(n / 10, k - 1);
    }
  }

  lemma U64HasAtMostTwentyDigits(n: U64)
    ensures |Decimal(n)| <= 20
  {
    assert Pow10(20) == 10000000000 * 10000000000 by {
      assert Pow10(5) == 100000;
      assert Pow10(10) == 100000 * Pow10(5);
      assert Pow10(15) == 100000 * Pow10(10);
      assert Pow10(20) == 100000 * Pow10(15);
    }
    DecimalLength(n, 20);
  }

  /** Canonical decimals are exactly the texts the parser accepts, and it returns their value. */
  lemma ParseFenceExact(raw: string)
    ensures ParseFence(raw).Ok? <==> Canonical(raw)
    ensures ParseFence(raw).Ok? ==> ParseFence(raw).value == ValueOf(raw) && Decimal(ValueOf(raw)) == raw
  {
    if Canonical(raw) {
      assert raw[0] != '+';
      DecimalOfValue(raw);
    }
    if ParseFence(raw).Ok? {
      ValueOfDecimal(ParseFence(raw).value);
    }
  }

  lemma ParseFenceOfDecimal(n: U64)
    ensures ParseFence(Decimal(n)) == Ok(n)
  {
    ValueOfDecimal(n);
    ParseFenceExact(Decimal(n));
  }

  /** Printing then parsing gives the fence back. */
  lemma ParsePrinted(f: Fence)
    ensures ParseMetadataFence(PrintFence(f)) == Ok(f)
  {
    var s, d := PrintFence(f), Decimal(f.counter);
    assert s[|d|] == ':' && s[|d| + 1..] == (if f.active then "a" else "i");
    assert forall i | 0 <= i < |d| :: IsDigit(d[i]) && s[i] == d[i];
    FirstColonAt(s, |d|);
    assert s[..|d|] == d;
    ParseFenceOfDecimal(f.counter);
  }

  /** Parsing then printing gives the text back: no second text denotes the same fence. */
  lemma PrintParsed(raw: string)
    requires ParseMetadataFence(raw).Ok?
    ensures PrintFence(ParseMetadataFence(raw).value) == raw
  {
    var at := FirstColon(raw).value;
    ParseFenceExact(raw[..at]);
    assert raw == raw[..at] + [raw[at]] + raw[at + 1..];
  }

  /** Cutting the stored text at 24 characters changes no verdict, for any stored text at all. */
  lemma TruncatedReadIsExact(stored: string)
    ensures ReadFenceText(stored).Ok? <==> ParseMetadataFence(stored).Ok?
    ensures ReadFenceText(stored).Ok? ==> ReadFenceText(stored) == ParseMetadataFence(stored)
  {
    if |stored| > 24 {
      if ParseMetadataFence(stored).Ok? { WellFormedIsShort(stored); }
      if ReadFenceText(stored).Ok? { WellFormedIsShort(stored[..24]); }
    }
  }

  lemma WellFormedIsShort(raw: string)
    requires ParseMetadataFence(raw).Ok?
    ensures |raw| <= 22
  {
    PrintParsed(raw);
    U64HasAtMostTwentyDigits(ParseMetadataFence(raw).value.counter);
  }

  /** The fence only ever counts up by one and keeps its activity, or refuses at the last counter. */
  lemma NextFenceAdvances(f: Fence)
    ensures NextFence(Some(PrintFence(f))) ==
            if f.counter == U64_MAX then Err(TooLarge) else Ok(PrintFence(Fence(f.counter + 1, f.active)))
    ensures NextFence(None) == Ok(PrintFence(Fence(1, true)))
  {
    ParsePrinted(f);
  }

  /** Along every number of rotations, each stored text is new: a fence text is never reused. */
  lemma {:induction false} RotationNeverRepeats(f: Fence, texts: seq<string>)
    requires |texts| > 0 && texts[0] == PrintFence(f)
    requires forall i | 0 <= i < |texts| - 1 :: NextFence(Some(texts[i])) == Ok(texts[i + 1])
    ensures f.counter + |texts| - 1 <= U64_MAX
    ensures forall i | 0 <= i < |texts| :: texts[i] == PrintFence(Fence(f.counter + i, f.active))
    ensures forall i, j | 0 <= i < j < |texts| :: texts[i] != texts[j]
  {
    RotationCounts(f, texts, |texts|);
    forall i, j | 0 <= i < j < |texts| ensures texts[i] != texts[j] {
      ParsePrinted(Fence(f.counter + i, f.active));
      ParsePrinted(Fence(f.counter + j, f.active));
    }
  }

  lemma {:induction false} RotationCounts(f: Fence, texts: seq<string>, n: nat)
    requires 0 < n <= |texts| && texts[0] == PrintFence(f)
    requires forall i | 0 <= i < |texts| - 1 :: NextFence(Some(texts[i])) == Ok(texts[i + 1])
    ensures f.counter + n - 1 <= U64_MAX
    ensures forall i | 0 <= i < n :: texts[i] == PrintFence(Fence(f.counter + i, f.active))
    decreases n
  {
    if n > 1 {
      RotationCounts(f, texts, n - 1);
      assert texts[n - 2] == PrintFence(Fence(f.counter + n - 2, f.active));
      NextFenceAdvances(Fence(f.counter + n - 2, f.active));
      assert NextFence(Some(texts[n - 2])) == Ok(texts[n - 2 + 1]);
    }
  }
}
