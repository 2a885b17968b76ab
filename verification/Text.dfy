/**
 Splitting of text, hexadecimal and base64, as the Rust standard library and the `hex` and `base64` crates do them.
 */
module Text {
  import opened Common

  // ---------------------------------------------------------------- splitting

  /** `str::split`: n separators give n + 1 parts, some possibly empty. */
  function SplitOn(s: string, c: char): (parts: seq<string>)
    ensures |parts| >= 1
  {
    if s == [] then [[]]
    else
      var rest := SplitOn(s[1..], c);
      if s[0] == c then [[]] + rest else Onto(s[0], rest)
  }

  /** A character put in front of the first part. */
  function Onto(c: char, parts: seq<string>): seq<string>
    requires parts != []
  {
    [[c] + parts[0]] + parts[1..]
  }

  lemma OntoConcat(c: char, a: seq<string>, b: seq<string>)
    requires a != []
    ensures Onto(c, a + b) == Onto(c, a) + b
  {
    assert (a + b)[1..] == a[1..] + b;
  }

  lemma {:induction false} SplitAppend(a: string, c: char, b: string)
    ensures SplitOn(a + [c] + b, c) == SplitOn(a, c) + SplitOn(b, c)
    decreases |a|
  {
    var s := a + [c] + b;
    if a == [] {
      assert s == [c] + b && s[1..] == b;
    } else {
      assert s[1..] == a[1..] + [c] + b && s[0] == a[0];
      SplitAppend(a[1..], c, b);
      OntoConcat(a[0], SplitOn(a[1..], c), SplitOn(b, c));
    }
  }

  lemma {:induction false} SplitWhole(s: string, c: char)
    requires c !in s
    ensures SplitOn(s, c) == [s]
  {
    if s != [] {
      SplitWhole(s[1..], c);
      assert s == [s[0]] + s[1..];
    }
  }

  lemma {:induction false} PartsHaveNoSeparator(s: string, c: char, i: nat)
    requires i < |SplitOn(s, c)|
    ensures c !in SplitOn(s, c)[i]
  {
    if s != [] {
      var rest := SplitOn(s[1..], c);
      if s[0] == c {
        if i > 0 { PartsHaveNoSeparator(s[1..], c, i - 1); }
      } else {
        PartsHaveNoSeparator(s[1..], c, i);
      }
    }
  }

  // ---------------------------------------------------------------- hexadecimal

  function HexDigit(v: nat): (c: char)
    requires v < 16
    ensures HexValue(c) == Some(v) && !('A' <= c <= 'F')
  {
    if v < 10 then ('0' as int + v) as char else ('a' as int + v - 10) as char
  }

  function HexValue(c: char): Option<nat> {
    if '0' <= c <= '9' then Some(c as int - '0' as int)
    else if 'a' <= c <= 'f' then Some(c as int - 'a' as int + 10)
    else if 'A' <= c <= 'F' then Some(c as int - 'A' as int + 10)
    else None
  }

  predicate IsHexDigit(c: char) { HexValue(c).Some? }

  function HexEncode(d: seq<byte>): (s: string)
    ensures |s| == 2 * |d|
    ensures forall i :: 0 <= i < |s| ==> IsHexDigit(s[i]) && !('A' <= s[i] <= 'F')
  {
    if d == [] then [] else [HexDigit(d[0] / 16), HexDigit(d[0] % 16)] + HexEncode(d[1..])
  }

  /** Pairs of digits of either case; an odd length or another character is an error. */
  function HexDecode(s: string): Result<seq<byte>> {
    if s == [] then Ok([])
    else if |s| == 1 || HexValue(s[0]).None? || HexValue(s[1]).None? then Err
    else
      match HexDecode(s[2..])
      case Err => Err
      case Ok(rest) => Ok([HexByte(HexValue(s[0]).value, HexValue(s[1]).value)] + rest)
  }

  function HexByte(h: nat, l: nat): byte { (h * 16 + l) % 256 }

  lemma HexByteOf(b: byte)
    ensures HexByte(b / 16, b % 16) == b
  {}

  lemma {:induction false} HexDecodePair(b: byte, t: string)
    requires HexDecode(t).Ok?
    ensures HexDecode([HexDigit(b / 16), HexDigit(b % 16)] + t) == Ok([b] + HexDecode(t).value)
  {
    HexByteOf(b);
    assert ([HexDigit(b / 16), HexDigit(b % 16)] + t)[2..] == t;
  }

  lemma {:induction false} HexRoundTrip(d: seq<byte>)
    ensures HexDecode(HexEncode(d)) == Ok(d)
  {
    if d != [] {
      HexRoundTrip(d[1..]);
      HexDecodePair(d[0], HexEncode(d[1..]));
      assert d == [d[0]] + d[1..];
    }
  }

  lemma {:induction false} HexDecodeLength(s: string)
    requires HexDecode(s).Ok?
    ensures |s| == 2 * |HexDecode(s).value|
  {
    if s != [] { HexDecodeLength(s[2..]); }
  }

  /** Exactly the pairs of hexadecimal digits decode. */
  lemma {:induction false} DecodesIffHex(s: string)
    requires |s| % 2 == 0
    ensures HexDecode(s).Ok? <==> forall i :: 0 <= i < |s| ==> IsHexDigit(s[i])
  {
    if s != [] {
      DecodesIffHex(s[2..]);
      assert forall i :: 2 <= i < |s| ==> s[i] == s[2..][i - 2];
    }
  }

  // ---------------------------------------------------------------- base64, section 4 of RFC 4648

  function Symbol(v: sextet): (c: char)
    ensures SymbolValue(c) == Some(v) && c != '=' && c != ','
  {
    if v < 26 then ('A' as int + v) as char
    else if v < 52 then ('a' as int + v - 26) as char
    else if v < 62 then ('0' as int + v - 52) as char
    else if v == 62 then '+' else '/'
  }

  function SymbolValue(c: char): (v: Option<nat>)
    ensures v.Some? ==> v.value < 64
  {
    if 'A' <= c <= 'Z' then Some(c as int - 'A' as int)
    else if 'a' <= c <= 'z' then Some(c as int - 'a' as int + 26)
    else if '0' <= c <= '9' then Some(c as int - '0' as int + 52)
    else if c == '+' then Some(62)
    else if c == '/' then Some(63)
    else None
  }

  // The four symbols of three bytes, and back.
  type sextet = v: int | 0 <= v < 64
  function Sextet0(a: byte): sextet { a / 4 }
  function Sextet1(a: byte, b: byte): sextet { a % 4 * 16 + b / 16 }
  function Sextet2(b: byte, c: byte): sextet { b % 16 * 4 + c / 64 }
  function Sextet3(c: byte): sextet { c % 64 }
  function Octet0(v0: nat, v1: nat): byte { (v0 * 4 + v1 / 16) % 256 }
  function Octet1(v1: nat, v2: nat): byte { (v1 % 16 * 16 + v2 / 4) % 256 }
  function Octet2(v2: nat, v3: nat): byte { (v2 % 4 * 64 + v3) % 256 }

  function Base64Encode(d: seq<byte>): (s: string)
    ensures ',' !in s
    ensures d != [] ==> s != []
  {
    if d == [] then []
    else if |d| == 1 then [Symbol(Sextet0(d[0])), Symbol(Sextet1(d[0], 0)), '=', '=']
    else if |d| == 2 then [Symbol(Sextet0(d[0])), Symbol(Sextet1(d[0], d[1])), Symbol(Sextet2(d[1], 0)), '=']
    else
      [Symbol(Sextet0(d[0])), Symbol(Sextet1(d[0], d[1])), Symbol(Sextet2(d[1], d[2])), Symbol(Sextet3(d[2]))]
      + Base64Encode(d[3..])
  }

  /** Groups of four; padding only at the end, with zero bits below it. */
  function Base64Decode(s: string): Result<seq<byte>> {
    if s == [] then Ok([])
    else if |s| < 4 || SymbolValue(s[0]).None? || SymbolValue(s[1]).None? then Err
    else
      var v0, v1 := SymbolValue(s[0]).value, SymbolValue(s[1]).value;
      if s[2] == '=' then
        if |s| == 4 && s[3] == '=' && v1 % 16 == 0 then Ok([Octet0(v0, v1)]) else Err
      else if SymbolValue(s[2]).None? then Err
      else
        var v2 := SymbolValue(s[2]).value;
        if s[3] == '=' then
          if |s| == 4 && v2 % 4 == 0 then Ok([Octet0(v0, v1), Octet1(v1, v2)]) else Err
        else if SymbolValue(s[3]).None? then Err
        else
          match Base64Decode(s[4..])
          case Err => Err
          case Ok(rest) => Ok([Octet0(v0, v1), Octet1(v1, v2), Octet2(v2, SymbolValue(s[3]).value)] + rest)
  }

  lemma Unpack16(q: nat, r: nat)
    requires r < 16
    ensures (q * 16 + r) / 16 == q && (q * 16 + r) % 16 == r
  {}

  lemma Unpack4(q: nat, r: nat)
    requires r < 4
    ensures (q * 4 + r) / 4 == q && (q * 4 + r) % 4 == r
  {}

  lemma Octets(a: byte, b: byte, c: byte)
    ensures Octet0(Sextet0(a), Sextet1(a, b)) == a
    ensures Octet1(Sextet1(a, b), Sextet2(b, c)) == b
    ensures Octet2(Sextet2(b, c), Sextet3(c)) == c
    ensures b < 16 ==> Sextet1(a, b) % 16 == 0
    ensures c < 64 ==> Sextet2(b, c) % 4 == 0
  {
    Unpack16(a % 4, b / 16);
    Unpack4(b % 16, c / 64);
  }

  lemma DecodeOne(a: byte, none: byte)
    requires none < 16
    ensures Base64Decode([Symbol(Sextet0(a)), Symbol(Sextet1(a, none)), '=', '=']) == Ok([a])
  {
    Octets(a, none, none);
    var s := [Symbol(Sextet0(a)), Symbol(Sextet1(a, none)), '=', '='];
    assert SymbolValue(s[0]) == Some(Sextet0(a)) && SymbolValue(s[1]) == Some(Sextet1(a, none));
  }

  lemma DecodeTwo(a: byte, b: byte)
    ensures Base64Decode([Symbol(Sextet0(a)), Symbol(Sextet1(a, b)), Symbol(Sextet2(b, 0)), '=']) == Ok([a, b])
  {
    Octets(a, b, 0);
  }

  lemma {:induction false} DecodeGroup(a: byte, b: byte, c: byte, t: string)
    requires Base64Decode(t).Ok?
    ensures Base64Decode([Symbol(Sextet0(a)), Symbol(Sextet1(a, b)), Symbol(Sextet2(b, c)), Symbol(Sextet3(c))] + t)
            == Ok([a, b, c] + Base64Decode(t).value)
  {
    Octets(a, b, c);
    var s := [Symbol(Sextet0(a)), Symbol(Sextet1(a, b)), Symbol(Sextet2(b, c)), Symbol(Sextet3(c))] + t;
    assert s[4..] == t;
  }

  lemma {:induction false} Base64RoundTripShort(d: seq<byte>)
    requires |d| == 1 || |d| == 2
    ensures Base64Decode(Base64Encode(d)) == Ok(d)
  {
    if |d| == 1 {
      DecodeOne(d[0], 0);
      assert d == [d[0]];
    } else {
      DecodeTwo(d[0], d[1]);
      assert d == [d[0], d[1]];
    }
  }

  lemma {:induction false} Base64RoundTrip(d: seq<byte>)
    ensures Base64Decode(Base64Encode(d)) == Ok(d)
  {
    if 0 < |d| < 3 {
      Base64RoundTripShort(d);
    } else if d != [] {
      var t := Base64Encode(d[3..]);
      Base64RoundTrip(d[3..]);
      DecodeGroup(d[0], d[1], d[2], t);
      assert d == [d[0], d[1], d[2]] + d[3..];
    }
  }
}
