/**
 * The few Python string and integer conversions the uploader and the image
 * extractor rely on: `str.isspace`/`str.strip`, `int(str)`, `str(int)`,
 * `str.startswith`, `str.lower` on ASCII letters, `str.lstrip(".")`,
 * `", ".join(...)` and the `{n:03d}` format.
 */
module PyStr {
  import opened Wrappers

  /**
   * Python's `str.isspace` for a single character (Py_UNICODE_ISSPACE): the
   * whitespace `str.strip()` removes.
   */
  predicate IsSpace(c: char) {
    || ('\t' <= c <= '\r')
    || ('\U{1C}' <= c <= '\U{1F}')
    || c == ' ' || c == '\U{85}' || c == '\U{A0}' || c == '\U{1680}'
    || ('\U{2000}' <= c <= '\U{200A}')
    || c == '\U{2028}' || c == '\U{2029}' || c == '\U{202F}' || c == '\U{205F}' || c == '\U{3000}'
  }

  /**
   * The whitespace `int()` skips around a number. int() first turns every
   * non-ASCII whitespace character into a space and keeps ASCII as it is,
   * then skips only tab, line feed, vertical tab, form feed, carriage return
   * and space; so it is `str.isspace` without the four ASCII separators
   * U+001C..U+001F, which int() refuses.
   */
  predicate IsIntSpace(c: char) {
    IsSpace(c) && !('\U{1C}' <= c <= '\U{1F}')
  }

  /** One of the two whitespace classes: `str.strip`'s, or int()'s when `forInt`. */
  predicate IsSpaceOf(c: char, forInt: bool) {
    if forInt then IsIntSpace(c) else IsSpace(c)
  }

  function TrimLeft(s: string, forInt: bool): string {
    if s != [] && IsSpaceOf(s[0], forInt) then TrimLeft(s[1..], forInt) else s
  }

  function TrimRight(s: string, forInt: bool): string {
    if s != [] && IsSpaceOf(s[|s| - 1], forInt) then TrimRight(s[..|s| - 1], forInt) else s
  }

  /** `lstrip` drops a leading run of whitespace and keeps the rest. */
  lemma {:induction false} TrimLeftShape(s: string, forInt: bool)
    ensures var r := TrimLeft(s, forInt);
      && |r| <= |s| && r == s[|s| - |r|..]
      && (r == [] || !IsSpaceOf(r[0], forInt))
      && forall i :: 0 <= i < |s| - |r| ==> IsSpaceOf(s[i], forInt)
  {
    if s != [] && IsSpaceOf(s[0], forInt) {
      var t := s[1..];
      TrimLeftShape(t, forInt);
      var r := TrimLeft(t, forInt);
      assert TrimLeft(s, forInt) == r;
      assert s[|s| - |r|..] == t[|t| - |r|..];
      forall i | 0 <= i < |s| - |r| ensures IsSpaceOf(s[i], forInt) {
        if i > 0 {
          assert s[i] == t[i - 1];
        }
      }
    }
  }

  /** `rstrip` drops a trailing run of whitespace and keeps the rest. */
  lemma {:induction false} TrimRightShape(s: string, forInt: bool)
    ensures var r := TrimRight(s, forInt);
      && |r| <= |s| && r == s[..|r|]
      && (r == [] || !IsSpaceOf(r[|r| - 1], forInt))
      && forall i :: |r| <= i < |s| ==> IsSpaceOf(s[i], forInt)
  {
    if s != [] && IsSpaceOf(s[|s| - 1], forInt) {
      var t := s[..|s| - 1];
      TrimRightShape(t, forInt);
      var r := TrimRight(t, forInt);
      assert TrimRight(s, forInt) == r;
      assert s[..|r|] == t[..|r|];
      forall i | |r| <= i < |s| ensures IsSpaceOf(s[i], forInt) {
        if i < |s| - 1 {
          assert s[i] == t[i];
        }
      }
    }
  }

  /** Python's `s.strip()`. */
  function Strip(s: string): string {
    TrimRight(TrimLeft(s, false), false)
  }

  /** What `int(s)` keeps of s after skipping the whitespace around the number. */
  function IntStrip(s: string): string {
    TrimRight(TrimLeft(s, true), true)
  }

  /** `not s.strip()`: the string is empty or made only of whitespace. */
  predicate IsBlank(s: string) {
    Strip(s) == []
  }

  /** A string is blank exactly when every one of its characters is whitespace. */
  lemma BlankIffAllSpace(s: string)
    ensures IsBlank(s) <==> forall i :: 0 <= i < |s| ==> IsSpace(s[i])
  {
    var l := TrimLeft(s, false);
    TrimLeftShape(s, false);
    TrimRightShape(l, false);
    if IsBlank(s) {
      assert |l| == 0;
    } else {
      var r := Strip(s);
      assert r[0] == l[0] == s[|s| - |l|];
    }
  }

  /** A string with no whitespace of the class is its own strip. */
  lemma StripNoSpace(s: string, forInt: bool)
    requires forall i :: 0 <= i < |s| ==> !IsSpaceOf(s[i], forInt)
    ensures TrimRight(TrimLeft(s, forInt), forInt) == s
  {
    TrimLeftShape(s, forInt);
    TrimRightShape(s, forInt);
  }

  predicate IsDigit(c: char) {
    '0' <= c <= '9'
  }

  predicate AllDigits(s: string) {
    forall i :: 0 <= i < |s| ==> IsDigit(s[i])
  }

  function DigitValue(c: char): (d: nat)
    requires IsDigit(c)
    ensures d < 10
  {
    (c as int) - ('0' as int)
  }

  function DigitChar(d: nat): (c: char)
    requires d < 10
    ensures IsDigit(c) && DigitValue(c) == d
  {
    (('0' as int) + d) as char
  }

  /** The value of a string of decimal digits, most significant first. */
  function DigitsValue(s: string): nat
    requires AllDigits(s)
  {
    if s == [] then 0 else DigitsValue(s[..|s| - 1]) * 10 + DigitValue(s[|s| - 1])
  }

  function Pow10(k: nat): (p: nat)
    ensures p >= 1
  {
    if k == 0 then 1 else 10 * Pow10(k - 1)
  }

  /** The decimal digits of a natural number without leading zeros (Python `str(n)` for n >= 0). */
  function NatStr(n: nat): (s: string)
    ensures |s| >= 1
  {
    if n < 10 then [DigitChar(n)] else NatStr(n / 10) + [DigitChar(n % 10)]
  }

  /** Python `str(n)` for an integer: a minus sign for negatives, then the digits. */
  function Str(n: int): string {
    if n < 0 then "-" + NatStr(-n) else NatStr(n)
  }

  /**
   * Python `int(s)` in base 10: the whitespace int() skips around the
   * number, an optional sign and one or more ASCII digits; every other
   * string is a parse failure (None).
   */
  function ParseInt(s: string): Option<int> {
    var t := IntStrip(s);
    var signed := |t| > 0 && (t[0] == '+' || t[0] == '-');
    var body := if signed then t[1..] else t;
    if |body| > 0 && AllDigits(body) then
      Some(if signed && t[0] == '-' then -(DigitsValue(body) as int) else DigitsValue(body))
    else
      None
  }

  /** Text that int() accepts is never blank: it holds a digit, which `str.strip()` keeps. */
  lemma ParsedNotBlank(s: string)
    requires ParseInt(s).Some?
    ensures !IsBlank(s) && s != ""
  {
    var l := TrimLeft(s, true);
    TrimLeftShape(s, true);
    TrimRightShape(l, true);
    var t := IntStrip(s);
    var body := if |t| > 0 && (t[0] == '+' || t[0] == '-') then t[1..] else t;
    assert body[|body| - 1] == t[|t| - 1];
    var k := |s| - |l| + |t| - 1;
    assert s[k] == t[|t| - 1];
    assert !IsSpace(s[k]);
    BlankIffAllSpace(s);
  }

  /**
   * `str.strip()` removes an ASCII separator such as U+001C but int() does
   * not skip it: " \x1c5".strip() is "5", while int("\x1c5") raises.
   */
  lemma SeparatorNotSkipped()
    ensures Strip("\U{1C}5") == "5" && !IsBlank("\U{1C}5")
    ensures ParseInt("\U{1C}5").None?
  {
    var s := "\U{1C}5";
    assert TrimLeft(s, false) == TrimLeft("5", false) == "5";
    assert TrimRight("5", false) == "5";
    assert TrimLeft(s, true) == s && TrimRight(s, true) == s;
    assert !IsDigit(s[0]);
  }

  /** `str(n)` is made of digits, has no leading zero unless n is 0, and reads back as n. */
  lemma {:induction false} NatStrValue(n: nat)
    ensures AllDigits(NatStr(n)) && DigitsValue(NatStr(n)) == n
    ensures NatStr(n)[0] == '0' ==> n == 0
  {
    if n >= 10 {
      NatStrValue(n / 10);
      var s := NatStr(n);
      var t := NatStr(n / 10);
      assert s == t + [DigitChar(n % 10)];
      assert forall i :: 0 <= i < |t| ==> s[i] == t[i];
      assert s[..|s| - 1] == t;
    }
  }

  lemma DigitsNoSpace(d: string)
    requires AllDigits(d)
    ensures forall i :: 0 <= i < |d| ==> !IsSpaceOf(d[i], true)
  {
  }

  /** Plain digits parse to their value. */
  lemma ParseDigits(d: string)
    requires |d| > 0 && AllDigits(d)
    ensures ParseInt(d) == Some(DigitsValue(d) as int)
  {
    DigitsNoSpace(d);
    StripNoSpace(d, true);
  }

  lemma StripNegDigits(d: string)
    requires AllDigits(d)
    ensures IntStrip("-" + d) == "-" + d
  {
    var s := "-" + d;
    DigitsNoSpace(d);
    assert forall i :: 0 <= i < |s| ==> !IsSpaceOf(s[i], true) by {
      forall i | 0 <= i < |s| ensures !IsSpaceOf(s[i], true) {
        if i > 0 { assert s[i] == d[i - 1]; }
      }
    }
    StripNoSpace(s, true);
  }

  /** A minus sign followed by digits parses to the negated value. */
  lemma ParseNegDigits(d: string)
    requires |d| > 0 && AllDigits(d)
    ensures ParseInt("-" + d) == Some(-(DigitsValue(d) as int))
  {
    var s := "-" + d;
    assert s[0] == '-' && s[1..] == d;
    StripNegDigits(d);
    ParseStripped(s, d);
  }

  lemma ParseStripped(s: string, d: string)
    requires |d| > 0 && AllDigits(d)
    requires |s| > 0 && s[0] == '-' && s[1..] == d
    requires IntStrip(s) == s
    ensures ParseInt(s) == Some(-(DigitsValue(d) as int))
  {
  }

  /** `int(str(n)) == n` for every integer. */
  lemma ParseStrRoundTrip(n: int)
    ensures ParseInt(Str(n)) == Some(n)
  {
    var m: nat := if n < 0 then -n else n;
    NatStrValue(m);
    if n < 0 {
      ParseNegDigits(NatStr(m));
    } else {
      ParseDigits(NatStr(m));
    }
  }

  /** `str(n)` has at most k characters exactly when n is below 10^k. */
  lemma {:induction false} NatStrLength(n: nat, k: nat)
    requires k >= 1
    ensures |NatStr(n)| <= k <==> n < Pow10(k)
  {
    if n >= 10 {
      if k == 1 {
      } else {
        NatStrLength(n / 10, k - 1);
      }
    }
  }

  /**
   * `len(str(n)) < 10` (the minus sign counted, no leading zeros) holds
   * exactly for the integers strictly between -10^8 and 10^9.
   */
  lemma ShortStrIff(n: int)
    ensures |Str(n)| < 10 <==> -100000000 < n < 1000000000
  {
    if n < 0 {
      NatStrLength(-n, 8);
      assert Pow10(8) == 100000000;
    } else {
      NatStrLength(n, 9);
      assert Pow10(9) == 1000000000;
    }
  }

  /** Python `s.startswith(p)`. */
  predicate StartsWith(s: string, p: string) {
    |p| <= |s| && s[..|p|] == p
  }

  /** Python `str.lower()` restricted to the ASCII letters; other characters are kept. */
  function AsciiLower(s: string): (r: string)
    ensures |r| == |s|
  {
    if s == [] then []
    else
      var c := s[0];
      [if 'A' <= c <= 'Z' then (c as int + 32) as char else c] + AsciiLower(s[1..])
  }

  /** Each upper-case ASCII letter becomes its lower-case letter; every other character is kept. */
  lemma {:induction false} AsciiLowerChars(s: string)
    ensures forall i :: 0 <= i < |s| ==> (AsciiLower(s)[i] == s[i] <==> !('A' <= s[i] <= 'Z'))
    ensures forall i :: 0 <= i < |s| ==>
      ('A' <= s[i] <= 'Z' ==> 'a' <= AsciiLower(s)[i] <= 'z' && AsciiLower(s)[i] as int == s[i] as int + 32)
  {
    if s != [] {
      AsciiLowerChars(s[1..]);
      assert forall i :: 1 <= i < |s| ==> AsciiLower(s)[i] == AsciiLower(s[1..])[i - 1];
    }
  }

  /** Python `s.lstrip(c)` for a single character c. */
  function LStripChar(s: string, c: char): (r: string)
    ensures |r| <= |s| && r == s[|s| - |r|..]
    ensures r == [] || r[0] != c
    ensures forall i :: 0 <= i < |s| - |r| ==> s[i] == c
  {
    if s != [] && s[0] == c then LStripChar(s[1..], c) else s
  }

  /** Python `sep.join(xs)`. */
  function Join(sep: string, xs: seq<string>): string {
    if xs == [] then ""
    else if |xs| == 1 then xs[0]
    else Join(sep, xs[..|xs| - 1]) + sep + xs[|xs| - 1]
  }

  /** Joining two non-empty lists puts one separator between their joins. */
  lemma {:induction false} JoinConcat(sep: string, xs: seq<string>, ys: seq<string>)
    requires xs != [] && ys != []
    ensures Join(sep, xs + ys) == Join(sep, xs) + sep + Join(sep, ys)
    decreases |ys|
  {
    var all := xs + ys;
    var init := all[..|all| - 1];
    var last := ys[|ys| - 1];
    assert all[|all| - 1] == last;
    assert Join(sep, all) == Join(sep, init) + sep + last;
    if |ys| == 1 {
      assert init == xs;
    } else {
      var ys' := ys[..|ys| - 1];
      assert init == xs + ys';
      JoinConcat(sep, xs, ys');
      assert Join(sep, ys) == Join(sep, ys') + sep + last;
    }
  }

  /**
   * `f"{n:0{width}d}"` for n >= 0: the decimal digits of n, left-padded
   * with zeros to at least `width` characters.
   */
  function PadDigits(n: nat, width: nat): string
    decreases n + width
  {
    var rest := if width > 0 then width - 1 else 0;
    if n < 10 && rest == 0 then [DigitChar(n)]
    else PadDigits(n / 10, rest) + [DigitChar(n % 10)]
  }

  /** With no width to fill, the padded form is `str(n)`. */
  lemma {:induction false} PadDigitsUnpadded(n: nat)
    ensures PadDigits(n, 0) == NatStr(n)
  {
    if n >= 10 {
      PadDigitsUnpadded(n / 10);
    }
  }

  /** `f"{n:03d}"`. */
  function Pad3(n: nat): string {
    PadDigits(n, 3)
  }

  /** Appending one digit keeps a digit string and shifts its value by one place. */
  lemma AppendDigit(t: string, d: nat)
    requires AllDigits(t) && d < 10
    ensures AllDigits(t + [DigitChar(d)])
    ensures DigitsValue(t + [DigitChar(d)]) == DigitsValue(t) * 10 + d
  {
    var s := t + [DigitChar(d)];
    assert s[..|s| - 1] == t;
  }

  /** The padded form is made of digits and reads back as n. */
  lemma {:induction false} PadDigitsValue(n: nat, width: nat)
    ensures AllDigits(PadDigits(n, width)) && DigitsValue(PadDigits(n, width)) == n
    decreases n + width
  {
    var rest := if width > 0 then width - 1 else 0;
    if !(n < 10 && rest == 0) {
      PadDigitsValue(n / 10, rest);
      AppendDigit(PadDigits(n / 10, rest), n % 10);
    }
  }

  /** The padded form is exactly as long as the wider of `width` and `str(n)`. */
  lemma {:induction false} PadDigitsLength(n: nat, width: nat)
    ensures |PadDigits(n, width)| == if |NatStr(n)| < width then width else |NatStr(n)|
    decreases n + width
  {
    var rest := if width > 0 then width - 1 else 0;
    if n >= 10 {
      assert |NatStr(n)| == |NatStr(n / 10)| + 1;
    } else {
      assert |NatStr(n)| == 1 && |NatStr(n / 10)| == 1;
    }
    if !(n < 10 && rest == 0) {
      PadDigitsLength(n / 10, rest);
    }
  }

  /**
   * The zero-padded counter is all digits, reads back as the counter
   * (`int(f"{n:03d}") == n`), and has exactly max(3, len(str(n))) digits.
   */
  lemma Pad3Value(n: nat)
    ensures AllDigits(Pad3(n)) && DigitsValue(Pad3(n)) == n
    ensures |Pad3(n)| == if |NatStr(n)| < 3 then 3 else |NatStr(n)|
  {
    PadDigitsValue(n, 3);
    PadDigitsLength(n, 3);
  }
}
