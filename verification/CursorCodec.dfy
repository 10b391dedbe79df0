/**
 The cursor of a page: a string as UTF-8 (section 3 of RFC 3629) in base64 (section 4 of
 RFC 4648). The decoders are Python's: UTF-8 strictly, base64 skipping what it does not know.
 */
module CursorCodec {
  import opened Wrappers

  type Byte = b: int | 0 <= b < 256
  type Sextet = v: int | 0 <= v < 64

  /* ----- UTF-8 ----- */

  function Utf8Char(c: char): (bytes: seq<Byte>)
    ensures 1 <= |bytes| <= 4
  {
    var u := c as int;
    if u < 0x80 then [u]
    else if u < 0x800 then [0xC0 + u / 64, 0x80 + u % 64]
    else if u < 0x10000 then [0xE0 + u / 64 / 64, 0x80 + u / 64 % 64, 0x80 + u % 64]
    else [0xF0 + u / 64 / 64 / 64, 0x80 + u / 64 / 64 % 64, 0x80 + u / 64 % 64, 0x80 + u % 64]
  }

  function Utf8Encode(s: string): seq<Byte> {
    if s == "" then [] else Utf8Char(s[0]) + Utf8Encode(s[1..])
  }

  predicate Tail(b: Byte) {
    0x80 <= b < 0xC0
  }

  /** The number a leading byte's payload and the payloads of its continuation bytes spell to base 64. */
  function Number2(x: nat, y: Byte): nat
    requires Tail(y)
  {
    x * 64 + (y as int - 0x80)
  }

  function Number3(x: nat, y: Byte, z: Byte): nat
    requires Tail(y) && Tail(z)
  {
    Number2(Number2(x, y), z)
  }

  function Number4(x: nat, y: Byte, z: Byte, w: Byte): nat
    requires Tail(y) && Tail(z) && Tail(w)
  {
    Number2(Number3(x, y, z), w)
  }

  /** The first character and the bytes it takes; overlong forms, surrogates and stray bytes are refused. */
  function FirstChar(b: seq<Byte>): (r: Option<(char, nat)>)
    ensures r.Some? ==> 1 <= r.value.1 <= |b|
  {
    if |b| >= 1 && b[0] < 0x80 then Some((b[0] as char, 1))
    else if |b| >= 2 && 0xC2 <= b[0] < 0xE0 && Tail(b[1]) then
      Some((Number2(b[0] - 0xC0, b[1]) as char, 2))
    else if |b| >= 3 && 0xE0 <= b[0] < 0xF0 && Tail(b[1]) && Tail(b[2]) then
      var u := Number3(b[0] - 0xE0, b[1], b[2]);
      if u < 0x800 || 0xD800 <= u < 0xE000 then None else Some((u as char, 3))
    else if |b| >= 4 && 0xF0 <= b[0] < 0xF5 && Tail(b[1]) && Tail(b[2]) && Tail(b[3]) then
      var u := Number4(b[0] - 0xF0, b[1], b[2], b[3]);
      if u < 0x10000 || u >= 0x110000 then None else Some((u as char, 4))
    else None
  }

  function Utf8Decode(b: seq<Byte>): Option<string> {
    if b == [] then Some("")
    else
      var first := FirstChar(b);
      if first.None? then None
      else
        var rest := Utf8Decode(b[first.value.1..]);
        if rest.None? then None else Some([first.value.0] + rest.value)
  }

  lemma TwoBytesReadBack(x: nat, y: nat, rest: seq<Byte>)
    requires y < 64 && 0x80 <= x * 64 + y < 0x800
    ensures FirstChar([0xC0 + x, 0x80 + y] + rest) == Some(((x * 64 + y) as char, 2))
  {
  }

  lemma ThreeBytesReadBack(x: nat, y: nat, z: nat, rest: seq<Byte>)
    requires y < 64 && z < 64
    requires var u := (x * 64 + y) * 64 + z; 0x800 <= u < 0xD800 || 0xE000 <= u < 0x10000
    ensures FirstChar([0xE0 + x, 0x80 + y, 0x80 + z] + rest) == Some((((x * 64 + y) * 64 + z) as char, 3))
  {
  }

  lemma FourBytesReadBack(x: nat, y: nat, z: nat, w: nat, rest: seq<Byte>)
    requires y < 64 && z < 64 && w < 64 && 0x10000 <= ((x * 64 + y) * 64 + z) * 64 + w < 0x110000
    ensures FirstChar([0xF0 + x, 0x80 + y, 0x80 + z, 0x80 + w] + rest)
      == Some(((((x * 64 + y) * 64 + z) * 64 + w) as char, 4))
  {
  }

  lemma FirstCharReadsBack(c: char, rest: seq<Byte>)
    ensures FirstChar(Utf8Char(c) + rest) == Some((c, |Utf8Char(c)|))
  {
    var u := c as int;
    assert u < 0xD800 || 0xE000 <= u < 0x110000;
    if u >= 0x80 {
      hide FirstChar;
      if u >= 0x10000 {
        FourBytesReadBack(u / 64 / 64 / 64, u / 64 / 64 % 64, u / 64 % 64, u % 64, rest);
      } else if u >= 0x800 {
        ThreeBytesReadBack(u / 64 / 64, u / 64 % 64, u % 64, rest);
      } else {
        TwoBytesReadBack(u / 64, u % 64, rest);
      }
    }
  }

  lemma {:induction false} Utf8RoundTrip(s: string)
    ensures Utf8Decode(Utf8Encode(s)) == Some(s)
  {
    hide Utf8Char, FirstChar;
    if s != "" {
      var b := Utf8Encode(s);
      FirstCharReadsBack(s[0], Utf8Encode(s[1..]));
      assert b[|Utf8Char(s[0])|..] == Utf8Encode(s[1..]);
      Utf8RoundTrip(s[1..]);
      assert [s[0]] + s[1..] == s;
    }
  }

  lemma FirstCharIsCanonical(b: seq<Byte>)
    requires FirstChar(b).Some?
    ensures b[..FirstChar(b).value.1] == Utf8Char(FirstChar(b).value.0)
  {
    var u := FirstChar(b).value.0 as int;
    if b[0] >= 0xF0 {
      Digits(b[0] - 0xF0, b[1] - 0x80, b[2] - 0x80, b[3] - 0x80);
    } else if b[0] >= 0xE0 {
      Digits(0, b[0] - 0xE0, b[1] - 0x80, b[2] - 0x80);
    } else if b[0] >= 0x80 {
      Digits(0, 0, b[0] - 0xC0, b[1] - 0x80);
    }
  }

  lemma Digits(x: nat, y: nat, z: nat, w: nat)
    requires y < 64 && z < 64 && w < 64
    ensures
      var u := ((x * 64 + y) * 64 + z) * 64 + w;
      u % 64 == w && u / 64 % 64 == z && u / 64 / 64 % 64 == y && u / 64 / 64 / 64 == x
      && u / 64 == (x * 64 + y) * 64 + z && u / 64 / 64 == x * 64 + y
  {
  }

  /** The strict decoder accepts nothing but what the encoder writes. */
  lemma {:induction false} Utf8DecodesOnlyEncodings(b: seq<Byte>)
    requires Utf8Decode(b).Some?
    ensures Utf8Encode(Utf8Decode(b).value) == b
    decreases |b|
  {
    hide Utf8Char, FirstChar;
    if b != [] {
      var n := FirstChar(b).value.1;
      FirstCharIsCanonical(b);
      Utf8DecodesOnlyEncodings(b[n..]);
      var s := Utf8Decode(b).value;
      assert s[1..] == Utf8Decode(b[n..]).value;
      assert b == b[..n] + b[n..];
    }
  }

  /**
   One byte below 128; else a first byte that tells how many follow, and their payloads spell the character to
   base 64 (the table of section 3 of RFC 3629).
   */
  lemma Utf8Spells(c: char)
    ensures
      var u, b := c as int, Utf8Char(c);
      if u < 0x80 then b == [u]
      else if u < 0x800 then
        |b| == 2 && 0xC0 <= b[0] < 0xE0 && Tail(b[1]) && u == 64 * (b[0] as int - 0xC0) + (b[1] as int - 0x80)
      else if u < 0x1_0000 then
        && |b| == 3 && 0xE0 <= b[0] < 0xF0 && Tail(b[1]) && Tail(b[2])
        && u == 4096 * (b[0] as int - 0xE0) + 64 * (b[1] as int - 0x80) + (b[2] as int - 0x80)
      else
        && |b| == 4 && 0xF0 <= b[0] < 0xF5 && Tail(b[1]) && Tail(b[2]) && Tail(b[3])
        && u == 262_144 * (b[0] as int - 0xF0) + 4096 * (b[1] as int - 0x80) + 64 * (b[2] as int - 0x80)
                + (b[3] as int - 0x80)
  {
  }

  /* ----- base64 ----- */

  function Symbol(v: Sextet): char {
    if v < 26 then 'A' + v as char
    else if v < 52 then 'a' + (v - 26) as char
    else if v < 62 then '0' + (v - 52) as char
    else if v == 62 then '+' else '/'
  }

  function Value(c: char): (v: Option<Sextet>)
    ensures v.Some? ==> Symbol(v.value) == c
  {
    if 'A' <= c <= 'Z' then Some((c - 'A') as int)
    else if 'a' <= c <= 'z' then Some((c - 'a') as int + 26)
    else if '0' <= c <= '9' then Some((c - '0') as int + 52)
    else if c == '+' then Some(62)
    else if c == '/' then Some(63)
    else None
  }

  lemma SymbolReadsBack(v: Sextet)
    ensures Value(Symbol(v)) == Some(v) && Symbol(v) != '='
  {
  }

  function B64Encode(b: seq<Byte>): string {
    if b == [] then ""
    else if |b| == 1 then [Symbol(b[0] / 4), Symbol(b[0] % 4 * 16), '=', '=']
    else if |b| == 2 then [Symbol(b[0] / 4), Symbol(b[0] % 4 * 16 + b[1] / 16), Symbol(b[1] % 16 * 4), '=']
    else
      [Symbol(b[0] / 4), Symbol(b[0] % 4 * 16 + b[1] / 16), Symbol(b[1] % 16 * 4 + b[2] / 64), Symbol(b[2] % 64)]
      + B64Encode(b[3..])
  }

  /** Three bytes, read as one number of 24 bits, are its four digits to base 64. */
  lemma B64Spells(x: Byte, y: Byte, z: Byte, rest: seq<Byte>) returns (a: Sextet, b: Sextet, c: Sextet, d: Sextet)
    ensures B64Encode([x, y, z] + rest) == [Symbol(a), Symbol(b), Symbol(c), Symbol(d)] + B64Encode(rest)
    ensures 262_144 * a as int + 4096 * b as int + 64 * c as int + d as int == 65_536 * x as int + 256 * y as int + z
  {
    assert ([x, y, z] + rest)[3..] == rest;
    a, b, c, d := x / 4, x % 4 * 16 + y / 16, y % 16 * 4 + z / 64, z % 64;
    hide Symbol;
  }

  /** One or two bytes at the end are the digits of that number with zeros after it, padded to four signs. */
  lemma B64Pads(x: Byte, y: Byte) returns (a: Sextet, b: Sextet, c: Sextet, p: Sextet, q: Sextet)
    ensures B64Encode([x, y]) == [Symbol(a), Symbol(b), Symbol(c), '=']
    ensures 4096 * a as int + 64 * b as int + c as int == 1024 * x as int + 4 * y as int
    ensures B64Encode([x]) == [Symbol(p), Symbol(q), '=', '='] && 64 * p as int + q as int == 16 * x as int
  {
    a, b, c := x / 4, x % 4 * 16 + y / 16, y % 16 * 4;
    p, q := x / 4, x % 4 * 16;
    hide Symbol;
  }

  /** The alphabet, in the order of table 1 of RFC 4648. */
  lemma AlphabetIs(v: Sextet)
    ensures v < 26 ==> Symbol(v) as int == 'A' as int + v
    ensures 26 <= v < 52 ==> Symbol(v) as int == 'a' as int + v - 26
    ensures 52 <= v < 62 ==> Symbol(v) as int == '0' as int + v - 52
    ensures Symbol(62) == '+' && Symbol(63) == '/'
  {
  }

  function Prepend(b: Byte, rest: Option<seq<Byte>>): Option<seq<Byte>> {
    if rest.None? then None else Some([b] + rest.value)
  }

  /**
   The decoder's automaton: the place in the group of four, the bits carried over (two fewer each
   time a byte is completed) and the padding seen. It stops at a complete padding, skips what is
   not in the alphabet, and fails on an unfinished group.
   */
  function Scan(s: string, quad: nat, left: nat, pads: nat): Option<seq<Byte>>
    requires quad < 4 && (quad == 1 ==> left < 64) && (quad == 2 ==> left < 16) && (quad == 3 ==> left < 4)
    decreases |s|
  {
    if s == "" then (if quad == 0 then Some([]) else None)
    else if s[0] == '=' then
      if quad >= 2 && quad + pads + 1 >= 4 then Some([])
      else Scan(s[1..], quad, left, if quad >= 2 then pads + 1 else pads)
    else
      var v := Value(s[0]);
      if v.None? then Scan(s[1..], quad, left, pads)
      else if quad == 0 then Scan(s[1..], 1, v.value, 0)
      else if quad == 1 then Prepend(left * 4 + v.value / 16, Scan(s[1..], 2, v.value % 16, 0))
      else if quad == 2 then Prepend(left * 16 + v.value / 4, Scan(s[1..], 3, v.value % 4, 0))
      else Prepend(left * 64 + v.value, Scan(s[1..], 0, 0, 0))
  }

  function B64Decode(s: string): Option<seq<Byte>> {
    Scan(s, 0, 0, 0)
  }

  /** Reading one symbol. */
  lemma ScanSymbol(v: Sextet, rest: string, quad: nat, left: nat, pads: nat)
    requires quad < 4 && (quad == 1 ==> left < 64) && (quad == 2 ==> left < 16) && (quad == 3 ==> left < 4)
    ensures
      Scan([Symbol(v)] + rest, quad, left, pads) ==
        if quad == 0 then Scan(rest, 1, v, 0)
        else if quad == 1 then Prepend(left * 4 + v / 16, Scan(rest, 2, v % 16, 0))
        else if quad == 2 then Prepend(left * 16 + v / 4, Scan(rest, 3, v % 4, 0))
        else Prepend(left * 64 + v, Scan(rest, 0, 0, 0))
  {
    SymbolReadsBack(v);
    hide Symbol, Value;
    assert ([Symbol(v)] + rest)[1..] == rest;
  }

  lemma ScanGroup(p: Sextet, q: Sextet, r: Sextet, u: Sextet, rest: string)
    ensures Scan([Symbol(p), Symbol(q), Symbol(r), Symbol(u)] + rest, 0, 0, 0)
      == Prepend(p * 4 + q / 16, Prepend(q % 16 * 16 + r / 4, Prepend(r % 4 * 64 + u, Scan(rest, 0, 0, 0))))
  {
    hide Scan, Symbol, Prepend;
    var s3 := [Symbol(u)] + rest;
    var s2 := [Symbol(r)] + s3;
    var s1 := [Symbol(q)] + s2;
    ScanSymbol(u, rest, 3, r % 4, 0);
    ScanSymbol(r, s3, 2, q % 16, 0);
    ScanSymbol(q, s2, 1, p, 0);
    ScanSymbol(p, s1, 0, 0, 0);
    assert [Symbol(p), Symbol(q), Symbol(r), Symbol(u)] + rest == [Symbol(p)] + s1;
  }

  lemma ScanPadding(left: nat)
    ensures left < 16 ==> Scan("==", 2, left, 0) == Some([])
    ensures left < 4 ==> Scan("=", 3, left, 0) == Some([])
  {
    assert "=="[1..] == "=";
  }

  lemma ScanLastByte(p: Sextet, q: Sextet)
    ensures Scan([Symbol(p), Symbol(q), '=', '='], 0, 0, 0) == Some([p * 4 + q / 16])
  {
    ScanSymbol(q, "==", 1, p, 0);
    ScanSymbol(p, [Symbol(q)] + "==", 0, 0, 0);
    ScanPadding(q % 16);
    assert [p * 4 + q / 16] + [] == [p * 4 + q / 16];
    hide Scan, Symbol;
    assert [Symbol(p), Symbol(q), '=', '='] == [Symbol(p)] + ([Symbol(q)] + "==");
  }

  lemma ScanLastTwoBytes(p: Sextet, q: Sextet, r: Sextet)
    ensures Scan([Symbol(p), Symbol(q), Symbol(r), '='], 0, 0, 0) == Some([p * 4 + q / 16, q % 16 * 16 + r / 4])
  {
    ScanSymbol(r, "=", 2, q % 16, 0);
    ScanPadding(r % 4);
    ScanSymbol(q, [Symbol(r)] + "=", 1, p, 0);
    ScanSymbol(p, [Symbol(q)] + ([Symbol(r)] + "="), 0, 0, 0);
    assert [p * 4 + q / 16] + ([q % 16 * 16 + r / 4] + []) == [p * 4 + q / 16, q % 16 * 16 + r / 4];
    hide Scan, Symbol;
    assert [Symbol(p), Symbol(q), Symbol(r), '='] == [Symbol(p)] + ([Symbol(q)] + ([Symbol(r)] + "="));
  }

  lemma ScanThreeBytes(x: Byte, y: Byte, z: Byte, rest: string)
    ensures Scan([Symbol(x / 4), Symbol(x % 4 * 16 + y / 16), Symbol(y % 16 * 4 + z / 64), Symbol(z % 64)]
      + rest, 0, 0, 0)
      == Prepend(x, Prepend(y, Prepend(z, Scan(rest, 0, 0, 0))))
  {
    hide Scan, Symbol, Prepend;
    ScanGroup(x / 4, x % 4 * 16 + y / 16, y % 16 * 4 + z / 64, z % 64, rest);
    JoinBits(x, y, z);
  }

  lemma {:induction false} B64RoundTrip(b: seq<Byte>)
    ensures B64Decode(B64Encode(b)) == Some(b)
  {
    hide Symbol, Scan;
    if b == [] {
      ScanEnd();
    } else if |b| == 1 {
      ScanLastByte(b[0] / 4, b[0] % 4 * 16);
      assert [b[0] / 4 * 4 + b[0] % 4 * 16 / 16] == b;
    } else if |b| == 2 {
      ScanLastTwoBytes(b[0] / 4, b[0] % 4 * 16 + b[1] / 16, b[1] % 16 * 4);
      JoinBits(b[0], b[1], 0);
      assert b == [b[0], b[1]];
    } else {
      B64RoundTrip(b[3..]);
      ScanThreeBytes(b[0], b[1], b[2], B64Encode(b[3..]));
      assert [b[0]] + ([b[1]] + ([b[2]] + b[3..])) == b;
    }
  }

  lemma ScanEnd()
    ensures Scan("", 0, 0, 0) == Some([])
  {
  }

  lemma JoinBits(x: Byte, y: Byte, z: Byte)
    ensures x / 4 * 4 + (x % 4 * 16 + y / 16) / 16 == x
    ensures (x % 4 * 16 + y / 16) % 16 * 16 + (y % 16 * 4 + z / 64) / 4 == y
    ensures (y % 16 * 4 + z / 64) % 4 * 64 + z % 64 == z
    ensures (y % 16 * 4) / 4 == y % 16
  {
  }

  /** A character outside the alphabet changes nothing wherever it stands. */
  lemma {:induction false} JunkIsSkipped(a: string, c: char, b: string, quad: nat, left: nat, pads: nat)
    requires Value(c).None? && c != '='
    requires quad < 4 && (quad == 1 ==> left < 64) && (quad == 2 ==> left < 16) && (quad == 3 ==> left < 4)
    ensures Scan(a + [c] + b, quad, left, pads) == Scan(a + b, quad, left, pads)
    decreases |a|
  {
    hide Value, Symbol;
    if a == "" {
      assert (a + [c] + b)[1..] == b && a + b == b;
    } else {
      assert (a + [c] + b)[1..] == a[1..] + [c] + b && (a + b)[1..] == a[1..] + b;
      var v := Value(a[0]);
      if a[0] == '=' || v.None? {
        JunkIsSkipped(a[1..], c, b, quad, left, if a[0] == '=' && quad >= 2 then pads + 1 else pads);
      } else if quad == 0 {
        JunkIsSkipped(a[1..], c, b, 1, v.value, 0);
      } else if quad == 3 {
        JunkIsSkipped(a[1..], c, b, 0, 0, 0);
      } else {
        JunkIsSkipped(a[1..], c, b, quad + 1, if quad == 1 then v.value % 16 else v.value % 4, 0);
      }
    }
  }

  /* ----- cursors ----- */

  function EncodeCursor(value: string): string {
    B64Encode(Utf8Encode(value))
  }

  /** None where decoding raises. */
  function DecodeCursor(cursor: string): Option<string> {
    var bytes := B64Decode(cursor);
    if bytes.None? then None else Utf8Decode(bytes.value)
  }

  lemma CursorRoundTrip(value: string)
    ensures DecodeCursor(EncodeCursor(value)) == Some(value)
    ensures value != "" ==> EncodeCursor(value) != ""
  {
    Utf8RoundTrip(value);
    B64RoundTrip(Utf8Encode(value));
  }

  lemma CursorsAreInjective(v: string, w: string)
    ensures EncodeCursor(v) == EncodeCursor(w) <==> v == w
  {
    CursorRoundTrip(v);
    CursorRoundTrip(w);
  }
}
