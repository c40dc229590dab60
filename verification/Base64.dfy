/** Base 64 with padding, section 4 of RFC 4648; trailing bits must be zero when decoding. */
module Base64 {
  import opened Common

  type Sextet = n: int | 0 <= n < 64

  function Symbol(n: Sextet): char
  {
    if n < 26 then 'A' + n as char
    else if n < 52 then 'a' + (n - 26) as char
    else if n < 62 then '0' + (n - 52) as char
    else if n == 62 then '+'
    else '/'
  }

  function SymbolValue(ch: char): (r: Option<Sextet>)
    ensures r.Some? ==> Symbol(r.value) == ch
    ensures ch == '=' ==> r.None?
  {
    if 'A' <= ch <= 'Z' then Some((ch - 'A') as int)
    else if 'a' <= ch <= 'z' then Some((ch - 'a') as int + 26)
    else if '0' <= ch <= '9' then Some((ch - '0') as int + 52)
    else if ch == '+' then Some(62)
    else if ch == '/' then Some(63)
    else None
  }

  /** Table 1 of RFC 4648, by code point: A to Z, a to z, 0 to 9, plus and slash. */
  lemma SymbolCodes(n: Sextet)
    ensures Symbol(n) as int == if n < 26 then 65 + n
                                else if n < 52 then 71 + n
                                else if n < 62 then n - 4
                                else if n == 62 then 43
                                else 47
  {
  }

  lemma SymbolReads(n: Sextet)
    ensures SymbolValue(Symbol(n)) == Some(n)
  {
  }

  /** Three bytes as four symbols. */
  function Group(a: Byte, b: Byte, c: Byte): (g: string)
    ensures |g| == 4
  {
    [Symbol(a / 4), Symbol(a % 4 * 16 + b / 16), Symbol(b % 16 * 4 + c / 64), Symbol(c % 64)]
  }

  function Encode(s: Bytes): (t: string)
    ensures |t| % 4 == 0
  {
    if |s| == 0 then ""
    else if |s| == 1 then [Symbol(s[0] / 4), Symbol(s[0] % 4 * 16), '=', '=']
    else if |s| == 2 then [Symbol(s[0] / 4), Symbol(s[0] % 4 * 16 + s[1] / 16), Symbol(s[1] % 16 * 4), '=']
    else Group(s[0], s[1], s[2]) + Encode(s[3..])
  }

  function DecodeGroup(t: string): Option<Bytes>
    requires |t| == 4
  {
    var a, b, c, d := SymbolValue(t[0]), SymbolValue(t[1]), SymbolValue(t[2]), SymbolValue(t[3]);
    if a.None? || b.None? then None
    else
      var first: Byte := a.value * 4 + b.value / 16;
      if c.Some? then
        var second: Byte := b.value % 16 * 16 + c.value / 4;
        if d.Some? then Some([first, second, c.value % 4 * 64 + d.value])
        else if t[3] == '=' && c.value % 4 == 0 then Some([first, second])
        else None
      else if t[2] == '=' && t[3] == '=' && b.value % 16 == 0 then Some([first])
      else None
  }

  /** Only the last group may be padded. */
  function Decode(t: string): Option<Bytes>
  {
    if t == "" then Some([])
    else if |t| < 4 then None
    else
      var g := DecodeGroup(t[..4]);
      if g.None? then None
      else if |t| == 4 then g
      else if |g.value| < 3 then None
      else
        var rest := Decode(t[4..]);
        if rest.None? then None else Some(g.value + rest.value)
  }

  /** Bytes split into six-bit digits and put together again. */
  lemma Rejoin(a: Byte, b: Byte)
    ensures a / 4 * 4 + (a % 4 * 16 + b / 16) / 16 == a && (a % 4 * 16 + b / 16) % 16 == b / 16
    ensures a % 16 * 4 + b / 64 < 64 && (a % 16 * 4 + b / 64) / 4 == a % 16 && (a % 16 * 4 + b / 64) % 4 == b / 64
    ensures a / 16 * 16 + a % 16 == a && a / 64 * 64 + a % 64 == a
  {
  }

  lemma GroupReads(a: Byte, b: Byte, c: Byte)
    ensures DecodeGroup(Group(a, b, c)) == Some([a, b, c])
  {
    Rejoin(a, b);
    Rejoin(b, c);
    Rejoin(c, 0);
    SymbolReads(a / 4);
    SymbolReads(a % 4 * 16 + b / 16);
    SymbolReads(b % 16 * 4 + c / 64);
    SymbolReads(c % 64);
  }

  lemma OneByteReads(a: Byte)
    ensures DecodeGroup([Symbol(a / 4), Symbol(a % 4 * 16), '=', '=']) == Some([a])
  {
    SymbolReads(a / 4);
    SymbolReads(a % 4 * 16);
  }

  lemma TwoBytesRead(a: Byte, b: Byte)
    ensures DecodeGroup([Symbol(a / 4), Symbol(a % 4 * 16 + b / 16), Symbol(b % 16 * 4), '=']) == Some([a, b])
  {
    SymbolReads(a / 4);
    SymbolReads(a % 4 * 16 + b / 16);
    SymbolReads(b % 16 * 4);
  }

  lemma GroupThenRest(a: Byte, b: Byte, c: Byte, rest: string)
    requires Decode(rest).Some?
    ensures Decode(Group(a, b, c) + rest) == Some([a, b, c] + Decode(rest).value)
  {
    var t := Group(a, b, c) + rest;
    GroupReads(a, b, c);
    assert t[..4] == Group(a, b, c) && t[4..] == rest;
    if rest == "" { assert [a, b, c] + Decode(rest).value == [a, b, c]; }
  }

  lemma LastGroupReads(t: string, s: Bytes)
    requires |t| == 4 && DecodeGroup(t) == Some(s)
    ensures Decode(t) == Some(s)
  {
    assert t[..4] == t;
  }

  lemma OneByteEncoded(a: Byte)
    ensures Decode(Encode([a])) == Some([a])
  {
    OneByteReads(a);
    LastGroupReads([Symbol(a / 4), Symbol(a % 4 * 16), '=', '='], [a]);
  }

  lemma TwoBytesEncoded(a: Byte, b: Byte)
    ensures Decode(Encode([a, b])) == Some([a, b])
  {
    TwoBytesRead(a, b);
    LastGroupReads([Symbol(a / 4), Symbol(a % 4 * 16 + b / 16), Symbol(b % 16 * 4), '='], [a, b]);
  }

  lemma LongEncodes(s: Bytes)
    requires |s| >= 3
    ensures Encode(s) == Group(s[0], s[1], s[2]) + Encode(s[3..])
  {
  }

  lemma LongReads(a: Byte, b: Byte, c: Byte, rest: Bytes, text: string, s: Bytes, whole: string)
    requires Decode(text) == Some(rest) && s == [a, b, c] + rest && whole == Group(a, b, c) + text
    ensures Decode(whole) == Some(s)
  {
    GroupThenRest(a, b, c, text);
  }

  lemma SplitThree(s: Bytes)
    requires |s| >= 3
    ensures s == [s[0], s[1], s[2]] + s[3..]
  {
  }

  lemma ShortEncoded(s: Bytes)
    requires |s| == 1 || |s| == 2
    ensures Decode(Encode(s)) == Some(s)
  {
    if |s| == 1 {
      assert s == [s[0]];
      OneByteEncoded(s[0]);
    } else {
      assert s == [s[0], s[1]];
      TwoBytesEncoded(s[0], s[1]);
    }
  }

  lemma {:induction false} DecodeEncode(s: Bytes)
    ensures Decode(Encode(s)) == Some(s)
  {
    if |s| >= 3 {
      DecodeEncode(s[3..]);
      LongEncodes(s);
      SplitThree(s);
      LongReads(s[0], s[1], s[2], s[3..], Encode(s[3..]), s, Encode(s));
    } else if |s| > 0 {
      ShortEncoded(s);
    }
  }

  /** Regrouping six-bit digits into bytes and back. */
  lemma Regroup(hi: Sextet, lo: Sextet)
    ensures (hi * 4 + lo / 16) / 4 == hi && (hi * 4 + lo / 16) % 4 == lo / 16
    ensures (hi % 16 * 16 + lo / 4) / 16 == hi % 16 && (hi % 16 * 16 + lo / 4) % 16 == lo / 4
    ensures (hi % 4 * 64 + lo) / 64 == hi % 4 && (hi % 4 * 64 + lo) % 64 == lo
  {
  }

  lemma FullGroupEncodes(t: string)
    requires |t| == 4 && DecodeGroup(t).Some? && |DecodeGroup(t).value| == 3
    ensures var g := DecodeGroup(t).value; Group(g[0], g[1], g[2]) == t
  {
    var a, b, c, d := SymbolValue(t[0]).value, SymbolValue(t[1]).value, SymbolValue(t[2]).value, SymbolValue(t[3]).value;
    Regroup(a, b);
    Regroup(b, c);
    Regroup(c, d);
    var g := DecodeGroup(t).value;
    assert g[0] / 4 == a && g[0] % 4 * 16 + g[1] / 16 == b && g[1] % 16 * 4 + g[2] / 64 == c && g[2] % 64 == d;
  }

  lemma LastGroupEncodes(t: string)
    requires |t| == 4 && DecodeGroup(t).Some?
    ensures Encode(DecodeGroup(t).value) == t
  {
    var g := DecodeGroup(t).value;
    if |g| == 3 {
      FullGroupEncodes(t);
      assert g[3..] == [];
    } else {
      var a, b := SymbolValue(t[0]).value, SymbolValue(t[1]).value;
      Regroup(a, b);
      if |g| == 2 {
        var c := SymbolValue(t[2]).value;
        Regroup(b, c);
        assert g[0] / 4 == a && g[0] % 4 * 16 + g[1] / 16 == b && g[1] % 16 * 4 == c;
      } else {
        assert g[0] / 4 == a && g[0] % 4 * 16 == b;
      }
    }
  }

  /** Decoding accepts nothing but what encoding produces. */
  lemma {:induction false} EncodeDecode(t: string)
    requires Decode(t).Some?
    ensures Encode(Decode(t).value) == t
  {
    if |t| == 4 {
      assert t[..4] == t;
      LastGroupEncodes(t);
    } else if t != "" {
      var g, rest := DecodeGroup(t[..4]).value, Decode(t[4..]).value;
      FullGroupEncodes(t[..4]);
      EncodeDecode(t[4..]);
      assert (g + rest)[3..] == rest && t == t[..4] + t[4..];
    }
  }

  /** A group is its three bytes as one number, most significant digit first. */
  lemma GroupIsBigEndian(a: Byte, b: Byte, c: Byte)
    ensures ((a / 4 * 64 + (a % 4 * 16 + b / 16)) * 64 + (b % 16 * 4 + c / 64)) * 64 + c % 64 == (a * 256 + b) * 256 + c
    ensures Group(a, b, c) == [Symbol(a / 4), Symbol(a % 4 * 16 + b / 16), Symbol(b % 16 * 4 + c / 64), Symbol(c % 64)]
  {
  }

  /** Four symbols per started group of three bytes. */
  lemma {:induction false} EncodedLength(s: Bytes)
    ensures |Encode(s)| == (|s| + 2) / 3 * 4
  {
    if |s| >= 3 {
      EncodedLength(s[3..]);
      LongEncodes(s);
    }
  }

  lemma EndOfConcat(g: string, t: string, whole: string)
    requires |t| >= 2 && whole == g + t
    ensures |whole| >= 2 && whole[|whole| - 1] == t[|t| - 1] && whole[|whole| - 2] == t[|t| - 2]
  {
  }

  /** A last group of one byte ends in two pads, one of two bytes in one. */
  lemma {:induction false} EncodedPadding(s: Bytes)
    ensures |s| % 3 != 0 ==> |Encode(s)| >= 4 && Encode(s)[|Encode(s)| - 1] == '='
    ensures |s| % 3 == 1 ==> Encode(s)[|Encode(s)| - 2] == '='
  {
    EncodedLength(s);
    if |s| > 3 && |s| % 3 != 0 {
      var rest := s[3..];
      EncodedPadding(rest);
      LongEncodes(s);
      EndOfConcat(Group(s[0], s[1], s[2]), Encode(rest), Encode(s));
    }
  }
}
