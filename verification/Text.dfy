/**
 The few string operations the components share: Python's strip, lower, "in",
 splitlines and join, and the decimal notation of an integer.
 */
module Text {

  predicate IsSpace(c: char) {
    c == ' ' || c == '\t' || c == '\n' || c == '\r'
  }

  function StripLeft(s: string): string {
    if s != "" && IsSpace(s[0]) then StripLeft(s[1..]) else s
  }

  function StripRight(s: string): string {
    if s != "" && IsSpace(s[|s| - 1]) then StripRight(s[..|s| - 1]) else s
  }

  function Strip(s: string): string {
    StripRight(StripLeft(s))
  }

  function LowerChar(c: char): char {
    if 'A' <= c <= 'Z' then c - 'A' + 'a' else c
  }

  function Lower(s: string): (r: string)
    ensures |r| == |s|
  {
    if s == "" then "" else [LowerChar(s[0])] + Lower(s[1..])
  }

  /** Python's `needle in s`. */
  predicate Contains(s: string, needle: string) {
    needle <= s || (s != "" && Contains(s[1..], needle))
  }

  /** The pieces between newlines; never empty. */
  function Pieces(s: string): (r: seq<string>)
    ensures |r| > 0
  {
    if s == "" then [""]
    else
      var rest := Pieces(s[1..]);
      if s[0] == '\n' then [""] + rest else [[s[0]] + rest[0]] + rest[1..]
  }

  /** Python's splitlines: the pieces, without an empty last one. */
  function SplitLines(s: string): seq<string> {
    var p := Pieces(s);
    if p[|p| - 1] == "" then p[..|p| - 1] else p
  }

  /** Python's `"\n".join(lines)`. */
  function JoinLines(lines: seq<string>): string {
    if |lines| == 0 then ""
    else if |lines| == 1 then lines[0]
    else lines[0] + "\n" + JoinLines(lines[1..])
  }

  lemma {:induction false} JoinPieces(s: string)
    ensures JoinLines(Pieces(s)) == s
  {
    if s != "" {
      JoinPieces(s[1..]);
      var rest := Pieces(s[1..]);
      if s[0] == '\n' {
        assert Pieces(s)[1..] == rest;
      } else {
        assert Pieces(s)[1..] == rest[1..];
        assert s == [s[0]] + s[1..];
      }
    }
  }

  lemma PiecesCons(c: char, t: string)
    ensures Pieces([c] + t) == if c == '\n' then [""] + Pieces(t) else [[c] + Pieces(t)[0]] + Pieces(t)[1..]
  {
    assert ([c] + t)[1..] == t;
  }

  lemma {:induction false} PiecesAppend(a: string, b: string)
    ensures Pieces(a + ['\n'] + b) == Pieces(a) + Pieces(b)
  {
    if a == "" {
      assert a + ['\n'] + b == ['\n'] + b;
      PiecesCons('\n', b);
    } else {
      var c, t := a[0], a[1..];
      hide Pieces;
      assert a == [c] + t && a + ['\n'] + b == [c] + (t + ['\n'] + b);
      PiecesCons(c, t);
      PiecesCons(c, t + ['\n'] + b);
      PiecesAppend(t, b);
    }
  }

  predicate AllSpace(s: string) {
    forall i :: 0 <= i < |s| ==> IsSpace(s[i])
  }

  /** A strip takes white space only, from both ends, and all of it there. */
  lemma StripIs(s: string) returns (before: string, after: string)
    ensures s == before + Strip(s) + after && AllSpace(before) && AllSpace(after)
    ensures Strip(s) != "" ==> !IsSpace(Strip(s)[0]) && !IsSpace(Strip(s)[|Strip(s)| - 1])
  {
    before := LeftIs(s);
    after := RightIs(StripLeft(s));
  }

  lemma {:induction false} LeftIs(s: string) returns (before: string)
    ensures s == before + StripLeft(s) && AllSpace(before)
    ensures StripLeft(s) != "" ==> !IsSpace(StripLeft(s)[0])
  {
    before := "";
    if s != "" && IsSpace(s[0]) {
      var rest := LeftIs(s[1..]);
      before := [s[0]] + rest;
    }
  }

  lemma {:induction false} RightIs(s: string) returns (after: string)
    ensures s == StripRight(s) + after && AllSpace(after)
    ensures StripRight(s) != "" ==> !IsSpace(StripRight(s)[|StripRight(s)| - 1]) && StripRight(s)[0] == s[0]
  {
    after := "";
    if s != "" && IsSpace(s[|s| - 1]) {
      var rest := RightIs(s[..|s| - 1]);
      after := rest + [s[|s| - 1]];
      assert s == s[..|s| - 1] + [s[|s| - 1]];
    }
  }

  /** Lower case, character by character: the letters A to Z move by 32 and nothing else changes. */
  lemma {:induction false} LowerAt(s: string, i: nat)
    requires i < |s|
    ensures Lower(s)[i] == if 'A' <= s[i] <= 'Z' then (s[i] as int + 32) as char else s[i]
  {
    if i > 0 { LowerAt(s[1..], i - 1); }
  }

  /** Trailing white space after the text never survives a strip. */
  lemma StripRightSpace(s: string, c: char)
    requires IsSpace(c)
    ensures Strip(s + [c]) == Strip(s)
  {
    if s == "" {
      assert s + [c] == [c];
      assert StripLeft([c]) == StripLeft([c][1..]);
    } else {
      StripLeftAppend(s, c);
      var l := StripLeft(s);
      if l != "" {
        assert (l + [c])[..|l + [c]| - 1] == l;
      }
    }
  }

  lemma {:induction false} StripLeftAppend(s: string, c: char)
    requires IsSpace(c)
    ensures StripLeft(s + [c]) == if StripLeft(s) == "" then "" else StripLeft(s) + [c]
  {
    if s == "" {
      assert s + [c] == [c];
      assert StripLeft([c]) == StripLeft([c][1..]);
    } else if IsSpace(s[0]) {
      assert (s + [c])[1..] == s[1..] + [c];
      StripLeftAppend(s[1..], c);
    }
  }

  /** The text before the first colon. */
  function BeforeColon(s: string): string {
    if s == "" || s[0] == ':' then "" else [s[0]] + BeforeColon(s[1..])
  }

  lemma {:induction false} BeforeFirstColon(a: string, b: string)
    requires ':' !in a
    ensures BeforeColon(a + ":" + b) == a
  {
    if a != "" {
      assert a[0] in a && (a + ":" + b)[1..] == a[1..] + ":" + b;
      BeforeFirstColon(a[1..], b);
    }
  }

  lemma ColonSplits(a: string, b: string, c: string, d: string)
    requires ':' !in a && ':' !in c && a + ":" + b == c + ":" + d
    ensures a == c && b == d
  {
    BeforeFirstColon(a, b);
    BeforeFirstColon(c, d);
    assert b == (a + ":" + b)[|a| + 1..] && d == (c + ":" + d)[|c| + 1..];
  }

  /* ----- decimal notation ----- */

  predicate IsDigit(c: char) {
    '0' <= c <= '9'
  }

  function DigitValue(c: char): (d: nat)
    requires IsDigit(c)
    ensures d < 10
  {
    c as int - '0' as int
  }

  predicate AllDigits(s: string) {
    forall i :: 0 <= i < |s| ==> IsDigit(s[i])
  }

  /** Python's int() on a string of digits. */
  function DecimalValue(s: string): nat
    requires AllDigits(s)
  {
    if s == "" then 0 else 10 * DecimalValue(s[..|s| - 1]) + DigitValue(s[|s| - 1])
  }

  /** Python's str() of a non-negative integer. */
  function Decimal(n: nat): (s: string)
    ensures AllDigits(s) && s != ""
  {
    var d := ['0' + (n % 10) as char];
    if n < 10 then d else Decimal(n / 10) + d
  }

  lemma {:induction false} DecimalRoundTrip(n: nat)
    ensures DecimalValue(Decimal(n)) == n
  {
    var s := Decimal(n);
    if n < 10 {
      assert DecimalValue(s[..0]) == 0;
    } else {
      DecimalRoundTrip(n / 10);
      assert s[..|s| - 1] == Decimal(n / 10);
    }
  }

  function Zeros(k: nat): (s: string)
    ensures |s| == k && AllDigits(s) && forall i :: 0 <= i < k ==> s[i] == '0'
  {
    if k == 0 then "" else "0" + Zeros(k - 1)
  }

  lemma {:induction false} ZerosDoNotCount(k: nat, s: string)
    requires AllDigits(s)
    ensures AllDigits(Zeros(k) + s) && DecimalValue(Zeros(k) + s) == DecimalValue(s)
  {
    var t := Zeros(k) + s;
    if s != "" {
      ZerosDoNotCount(k, s[..|s| - 1]);
      assert t[..|t| - 1] == Zeros(k) + s[..|s| - 1];
    } else if k > 0 {
      assert t == Zeros(k);
      ZerosDoNotCount(k - 1, "");
      assert t[..|t| - 1] == Zeros(k - 1) + "";
    }
  }
}
