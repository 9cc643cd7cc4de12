/**
 * The JavaScript string and number primitives the application relies on:
 * `Number.prototype.toString`, `parseInt`, `String.prototype.trim`,
 * `split` on a regular expression or a fixed separator, `padStart` and
 * `substring`. Strings are sequences of characters; a character stands for
 * one UTF-16 code unit of the original.
 */
module Text {
  import opened Wrappers

  predicate IsDigit(c: char) {
    '0' <= c <= '9'
  }

  function DigitValue(c: char): (d: nat)
    requires IsDigit(c)
    ensures d < 10
  {
    c as int - '0' as int
  }

  function DigitChar(d: nat): (c: char)
    requires d < 10
    ensures IsDigit(c) && DigitValue(c) == d
  {
    ('0' as int + d) as char
  }

  predicate AllDigits(s: string) {
    forall i :: 0 <= i < |s| ==> IsDigit(s[i])
  }

  /** The value of a non-empty run of decimal digits, most significant first. */
  function DigitsValue(s: string): nat
    requires AllDigits(s)
    decreases |s|
  {
    if s == [] then 0 else DigitsValue(s[..|s| - 1]) * 10 + DigitValue(s[|s| - 1])
  }

  /** `n.toString()` for a non-negative integer: its decimal digits, no leading zero. */
  function NatToString(n: nat): (s: string)
    ensures |s| >= 1 && AllDigits(s)
    ensures s[0] == '0' ==> n == 0
    ensures n < 10 <==> |s| == 1
    decreases n
  {
    if n < 10 then [DigitChar(n)] else NatToString(n / 10) + [DigitChar(n % 10)]
  }

  /** `i.toString()` for any integer. */
  function IntToString(i: int): string {
    if i < 0 then "-" + NatToString(-i) else NatToString(i)
  }

  lemma {:induction false} NatToStringRoundTrip(n: nat)
    ensures DigitsValue(NatToString(n)) == n
    decreases n
  {
    if n >= 10 {
      var s := NatToString(n);
      assert s[..|s| - 1] == NatToString(n / 10);
      NatToStringRoundTrip(n / 10);
    }
  }

  /** Distinct numbers print differently. */
  lemma NatToStringInjective(a: nat, b: nat)
    ensures NatToString(a) == NatToString(b) ==> a == b
  {
    NatToStringRoundTrip(a);
    NatToStringRoundTrip(b);
  }

  // ---------------------------------------------------------------------
  // White space, as `trim` and the regular expression class `\s` see it
  // (ECMAScript WhiteSpace and LineTerminator code points).

  predicate IsJsSpace(c: char) {
    var n := c as int;
    n == 0x09 || n == 0x0A || n == 0x0B || n == 0x0C || n == 0x0D || n == 0x20
    || n == 0xA0 || n == 0x1680 || (0x2000 <= n <= 0x200A) || n == 0x2028 || n == 0x2029
    || n == 0x202F || n == 0x205F || n == 0x3000 || n == 0xFEFF
  }

  predicate HasSpace(s: string) {
    exists i :: 0 <= i < |s| && IsJsSpace(s[i])
  }

  function TrimStart(s: string): (r: string)
    ensures |r| <= |s| && r == s[|s| - |r|..]
    ensures r == [] || !IsJsSpace(r[0])
    ensures s == [] || !IsJsSpace(s[0]) ==> r == s
    ensures s != [] && IsJsSpace(s[0]) ==> |r| < |s|
    ensures forall i :: 0 <= i < |s| - |r| ==> IsJsSpace(s[i])
    decreases |s|
  {
    if s != [] && IsJsSpace(s[0]) then TrimStart(s[1..]) else s
  }

  function TrimEnd(s: string): (r: string)
    ensures |r| <= |s| && r == s[..|r|]
    ensures r == [] || !IsJsSpace(r[|r| - 1])
    ensures forall i :: |r| <= i < |s| ==> IsJsSpace(s[i])
    decreases |s|
  {
    if s != [] && IsJsSpace(s[|s| - 1]) then TrimEnd(s[..|s| - 1]) else s
  }

  /** `s.trim()`. */
  function Trim(s: string): string {
    TrimEnd(TrimStart(s))
  }

  /** The index of the first white-space character of `s`, if any. */
  function FirstSpace(s: string): (r: Option<nat>)
    ensures r.Some? ==> r.value < |s| && IsJsSpace(s[r.value])
    ensures r.Some? ==> forall i :: 0 <= i < r.value ==> !IsJsSpace(s[i])
    ensures r.None? ==> !HasSpace(s)
    decreases |s|
  {
    if s == [] then None
    else if IsJsSpace(s[0]) then Some(0)
    else
      match FirstSpace(s[1..])
      case None => None
      case Some(i) => Some(i + 1)
  }

  /** `s.split(/\s+/)`: the pieces between maximal runs of white space. */
  function SplitOnSpaces(s: string): (parts: seq<string>)
    ensures |parts| >= 1
    decreases |s|
  {
    match FirstSpace(s)
    case None => [s]
    case Some(i) => [s[..i]] + SplitOnSpaces(TrimStart(s[i..]))
  }

  /** Splitting on white space gives one piece exactly when there is no white space. */
  lemma SplitOnSpacesSingle(s: string)
    ensures |SplitOnSpaces(s)| == 1 <==> !HasSpace(s)
  {
    match FirstSpace(s)
    case None =>
    case Some(i) =>
      assert |SplitOnSpaces(s)| == 1 + |SplitOnSpaces(TrimStart(s[i..]))|;
  }

  // ---------------------------------------------------------------------
  // Splitting on a fixed separator: `s.split(sep)` with a non-empty `sep`.

  predicate OccursAt(s: string, sep: string, k: nat) {
    k + |sep| <= |s| && s[k..k + |sep|] == sep
  }

  /** The first position at or after `from` where `sep` occurs in `s`. */
  function IndexOf(s: string, sep: string, from: nat): (r: Option<nat>)
    requires |sep| > 0
    ensures r.Some? ==> from <= r.value && OccursAt(s, sep, r.value)
    ensures r.Some? ==> forall k :: from <= k < r.value ==> !OccursAt(s, sep, k)
    ensures r.None? ==> forall k :: from <= k ==> !OccursAt(s, sep, k)
    decreases |s| - from
  {
    if from + |sep| > |s| then None
    else if s[from..from + |sep|] == sep then Some(from)
    else IndexOf(s, sep, from + 1)
  }

  function SplitOn(s: string, sep: string): (parts: seq<string>)
    requires |sep| > 0
    ensures |parts| >= 1
    decreases |s|
  {
    match IndexOf(s, sep, 0)
    case None => [s]
    case Some(i) => [s[..i]] + SplitOn(s[i + |sep|..], sep)
  }

  /** A string without the separator is a single piece; one with it splits around its first occurrence. */
  lemma SplitOnFirst(s: string, sep: string)
    requires |sep| > 0
    ensures IndexOf(s, sep, 0).None? ==> SplitOn(s, sep) == [s]
    ensures IndexOf(s, sep, 0).Some? ==>
      var i := IndexOf(s, sep, 0).value;
      |SplitOn(s, sep)| >= 2 && SplitOn(s, sep)[0] == s[..i] && SplitOn(s, sep)[1] == SplitOn(s[i + |sep|..], sep)[0]
  {
    match IndexOf(s, sep, 0)
    case None =>
    case Some(i) =>
      var rest := SplitOn(s[i + |sep|..], sep);
      assert SplitOn(s, sep) == [s[..i]] + rest;
  }

  /** A string in which the separator occurs splits into at least two pieces. */
  lemma SplitOnFound(s: string, sep: string, p: nat)
    requires |sep| > 0 && OccursAt(s, sep, p)
    ensures |SplitOn(s, sep)| >= 2
  {
    SplitOnFirst(s, sep);
  }

  /** The first occurrence at or after `from` is the one IndexOf finds. */
  lemma {:induction false} IndexOfFirst(s: string, sep: string, from: nat, p: nat)
    requires |sep| > 0 && from <= p && OccursAt(s, sep, p)
    requires forall k :: from <= k < p ==> !OccursAt(s, sep, k)
    ensures IndexOf(s, sep, from) == Some(p)
    decreases p - from
  {
    if from < p {
      assert !OccursAt(s, sep, from);
      IndexOfFirst(s, sep, from + 1, p);
    }
  }

  /** `s.startsWith(p)`. */
  predicate StartsWith(s: string, p: string) {
    p <= s
  }

  /** An argument that starts with an option name ending in `=` has a value piece. */
  lemma ValueAfterPrefix(arg: string, prefix: string)
    requires StartsWith(arg, prefix) && |prefix| > 0 && prefix[|prefix| - 1] == '='
    ensures |SplitOn(arg, "=")| >= 2
  {
    assert arg[|prefix| - 1..|prefix|] == "=";
    SplitOnFound(arg, "=", |prefix| - 1);
  }

  /** A separator-free key, the separator, then `v`: piece 1 is the text of `v` up to its own first separator. */
  lemma SplitAfterKey(key: string, sep: char, v: string)
    requires sep !in key
    ensures |SplitOn(key + [sep] + v, [sep])| >= 2
    ensures SplitOn(key + [sep] + v, [sep])[0] == key
    ensures SplitOn(key + [sep] + v, [sep])[1] == SplitOn(v, [sep])[0]
    ensures sep !in v ==> SplitOn(key + [sep] + v, [sep])[1] == v
  {
    var s := key + [sep] + v;
    forall k | 0 <= k < |key|
      ensures !OccursAt(s, [sep], k)
    {
      assert s[k..k + 1] == [key[k]];
    }
    assert s[|key|..|key| + 1] == [sep];
    IndexOfFirst(s, [sep], 0, |key|);
    SplitOnFirst(s, [sep]);
    assert s[|key| + 1..] == v;
    assert s[..|key|] == key;
    if sep !in v {
      forall k | 0 <= k
        ensures !OccursAt(v, [sep], k)
      {
        if k + 1 <= |v| { assert v[k..k + 1] == [v[k]]; }
      }
      SplitOnFirst(v, [sep]);
    }
  }

  // ---------------------------------------------------------------------
  // parseInt with no radix: leading white space, an optional sign, then the
  // longest run of decimal digits, or of hexadecimal digits after "0x"/"0X".

  predicate IsHexDigit(c: char) {
    IsDigit(c) || 'a' <= c <= 'f' || 'A' <= c <= 'F'
  }

  function HexDigitValue(c: char): (r: nat)
    requires IsHexDigit(c)
    ensures r < 16
  {
    if IsDigit(c) then DigitValue(c)
    else if 'a' <= c <= 'f' then c as int - 'a' as int + 10
    else c as int - 'A' as int + 10
  }

  function HexValue(s: string): nat
    requires forall i :: 0 <= i < |s| ==> IsHexDigit(s[i])
    decreases |s|
  {
    if s == [] then 0 else HexValue(s[..|s| - 1]) * 16 + HexDigitValue(s[|s| - 1])
  }

  function DigitRun(s: string): (n: nat)
    ensures n <= |s| && AllDigits(s[..n])
    ensures n < |s| ==> !IsDigit(s[n])
    decreases |s|
  {
    if s == [] || !IsDigit(s[0]) then 0 else 1 + DigitRun(s[1..])
  }

  function HexRun(s: string): (n: nat)
    ensures n <= |s| && forall i :: 0 <= i < n ==> IsHexDigit(s[i])
    ensures n < |s| ==> !IsHexDigit(s[n])
    decreases |s|
  {
    if s == [] || !IsHexDigit(s[0]) then 0 else 1 + HexRun(s[1..])
  }

  /** The magnitude part of parseInt, after the sign; None is NaN. */
  function ParseMagnitude(t: string): Option<nat> {
    if |t| >= 2 && t[0] == '0' && (t[1] == 'x' || t[1] == 'X') then
      var h := HexRun(t[2..]);
      if h == 0 then None else Some(HexValue(t[2..][..h]))
    else
      var d := DigitRun(t);
      if d == 0 then None else Some(DigitsValue(t[..d]))
  }

  /** `parseInt(s)`; None stands for NaN. */
  function ParseInt(s: string): Option<int> {
    var t := TrimStart(s);
    if t != [] && (t[0] == '-' || t[0] == '+') then
      match ParseMagnitude(t[1..])
      case None => None
      case Some(m) => var v: int := m; Some(if t[0] == '-' then -v else v)
    else
      match ParseMagnitude(t)
      case None => None
      case Some(m) => Some(m)
  }

  lemma DigitRunAll(s: string)
    requires AllDigits(s)
    ensures DigitRun(s) == |s|
  {
    if s != [] {
      DigitRunAll(s[1..]);
    }
  }

  lemma ParseMagnitudeOfNat(m: nat)
    ensures ParseMagnitude(NatToString(m)) == Some(m)
  {
    var digits := NatToString(m);
    DigitRunAll(digits);
    NatToStringRoundTrip(m);
    assert digits[..|digits|] == digits;
    assert !(|digits| >= 2 && digits[1] == 'x') && !(|digits| >= 2 && digits[1] == 'X');
  }

  /** parseInt reads back what toString printed. */
  lemma ParseIntOfIntToString(i: int)
    ensures ParseInt(IntToString(i)) == Some(i)
  {
    if i < 0 {
      var m: nat := -i;
      var d := NatToString(m);
      ParseMagnitudeOfNat(m);
      var s := "-" + d;
      assert s[0] == '-' && !IsJsSpace(s[0]);
      assert TrimStart(s) == s;
      assert s[1..] == d;
      assert ParseInt(s) == Some(i);
    } else {
      var d := NatToString(i);
      ParseMagnitudeOfNat(i);
      assert IsDigit(d[0]);
      assert TrimStart(d) == d;
    }
  }

  // ---------------------------------------------------------------------
  // Small string operations.

  /** `s.substring(0, n)` for n >= 0. */
  function Prefix(s: string, n: nat): (r: string)
    ensures |r| <= n && r <= s
    ensures |s| <= n ==> r == s
  {
    if |s| <= n then s else s[..n]
  }

  /** `s.padStart(2, "0")`. */
  function PadTwo(s: string): (r: string)
    ensures |r| >= 2 && |r| >= |s| && r[|r| - |s|..] == s
    ensures |s| >= 2 ==> r == s
  {
    if |s| >= 2 then s else if |s| == 1 then "0" + s else "00"
  }
}
