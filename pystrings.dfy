/**
 * The few Python string built-ins the contributions code relies on:
 * `str.strip()`, `str.lower()`, `str.startswith`/`str.endswith` and
 * `int()` applied to a string.
 */
module PyStrings {

  import opened Wrappers

  /** The characters for which Python 2.7's `unicode.isspace()` holds (its
      Unicode 5.2 database), and hence the ones `strip()` removes. */
  const Whitespace: set<char> := {
    '\t', '\n', '\U{0B}', '\U{0C}', '\r', '\U{1C}', '\U{1D}', '\U{1E}', '\U{1F}', ' ',
    '\U{85}', '\U{A0}', '\U{1680}', '\U{180E}',
    '\U{2000}', '\U{2001}', '\U{2002}', '\U{2003}', '\U{2004}', '\U{2005}',
    '\U{2006}', '\U{2007}', '\U{2008}', '\U{2009}', '\U{200A}',
    '\U{2028}', '\U{2029}', '\U{202F}', '\U{205F}', '\U{3000}'
  }

  predicate IsSpace(c: char) {
    c in Whitespace
  }

  predicate AllSpace(s: string) {
    forall i :: 0 <= i < |s| ==> IsSpace(s[i])
  }

  /** A string with no whitespace at either end, which is what `strip()` yields. */
  predicate Trimmed(s: string) {
    s == [] || (!IsSpace(s[0]) && !IsSpace(s[|s| - 1]))
  }

  /** `s.lstrip()`. */
  function StripLeft(s: string): string {
    if s != [] && IsSpace(s[0]) then StripLeft(s[1..]) else s
  }

  /** `lstrip()` keeps a suffix of `s` that does not start with whitespace and
      drops only whitespace. */
  lemma {:induction false} StripLeftSpec(s: string)
    ensures var r := StripLeft(s);
            && |r| <= |s| && r == s[|s| - |r|..]
            && (r == [] || !IsSpace(r[0]))
            && AllSpace(s[..|s| - |r|])
  {
    if s != [] && IsSpace(s[0]) {
      StripLeftSpec(s[1..]);
      var r := StripLeft(s);
      assert s[..|s| - |r|] == [s[0]] + s[1..][..|s| - 1 - |r|];
    }
  }

  /** `s.rstrip()`. */
  function StripRight(s: string): string {
    if s != [] && IsSpace(s[|s| - 1]) then StripRight(s[..|s| - 1]) else s
  }

  /** `rstrip()` keeps a prefix of `s` that does not end with whitespace and
      drops only whitespace. */
  lemma {:induction false} StripRightSpec(s: string)
    ensures var r := StripRight(s);
            && |r| <= |s| && r == s[..|r|]
            && (r == [] || !IsSpace(r[|r| - 1]))
            && AllSpace(s[|r|..])
  {
    if s != [] && IsSpace(s[|s| - 1]) {
      var p := s[..|s| - 1];
      StripRightSpec(p);
      var r := StripRight(s);
      assert s[|r|..] == p[|r|..] + [s[|s| - 1]];
    }
  }

  /** `s.strip()`. */
  function Strip(s: string): string {
    StripRight(StripLeft(s))
  }

  /** `strip()` leaves no whitespace at either end, and leaves nothing
      exactly when the string is all whitespace. */
  lemma StripSpec(s: string)
    ensures |Strip(s)| <= |s|
    ensures Trimmed(Strip(s))
    ensures Strip(s) == [] <==> AllSpace(s)
  {
    var l := StripLeft(s);
    StripLeftSpec(s);
    StripRightSpec(l);
    if l == [] {
      assert s[..|s|] == s;
    }
    var r := StripRight(l);
    if r != [] {
      assert r[0] == l[0];
    }
  }

  /** Whitespace padding around a trimmed string is exactly what `strip()`
      takes away, so `strip()` is determined by its two ensures above. */
  lemma {:induction false} StripPadding(pre: string, t: string, post: string)
    requires AllSpace(pre) && AllSpace(post) && Trimmed(t)
    ensures Strip(pre + t + post) == t
  {
    var s := pre + t + post;
    if t == [] {
      StripSpec(s);
      forall i | 0 <= i < |s| ensures IsSpace(s[i]) {
        if i < |pre| { assert s[i] == pre[i]; } else { assert s[i] == post[i - |pre|]; }
      }
    } else {
      assert s == pre + (t + post);
      assert (t + post)[0] == t[0];
      StripLeftPadding(pre, t + post);
      StripRightPadding(t, post);
    }
  }

  lemma {:induction false} StripLeftPadding(pre: string, s: string)
    requires AllSpace(pre) && (s == [] || !IsSpace(s[0]))
    ensures StripLeft(pre + s) == s
  {
    if pre == [] {
      assert pre + s == s;
    } else {
      assert (pre + s)[1..] == pre[1..] + s;
      StripLeftPadding(pre[1..], s);
    }
  }

  lemma {:induction false} StripRightPadding(s: string, post: string)
    requires AllSpace(post) && (s == [] || !IsSpace(s[|s| - 1]))
    ensures StripRight(s + post) == s
  {
    if post == [] {
      assert s + post == s;
    } else {
      assert (s + post)[..|s + post| - 1] == s + post[..|post| - 1];
      StripRightPadding(s, post[..|post| - 1]);
    }
  }

  /** Stripping twice is stripping once. */
  lemma StripIdempotent(s: string)
    ensures Strip(Strip(s)) == Strip(s)
  {
    var t := Strip(s);
    StripSpec(s);
    assert StripLeft(t) == t;
    assert StripRight(t) == t;
  }

  /** `c.lower()` on the ASCII letters; every other character is kept. */
  function LowerChar(c: char): char {
    if 'A' <= c <= 'Z' then (c as int + 32) as char else c
  }

  predicate IsUpper(c: char) {
    'A' <= c <= 'Z'
  }

  /** Lower-casing neither makes nor removes whitespace. */
  lemma LowerKeepsSpace(c: char)
    ensures IsSpace(LowerChar(c)) <==> IsSpace(c)
  {
  }

  /** `s.lower()`, character by character. */
  function Lower(s: string): string {
    if s == [] then [] else [LowerChar(s[0])] + Lower(s[1..])
  }

  /** `lower()` maps each character on its own and leaves no upper-case letter. */
  lemma {:induction false} LowerSpec(s: string)
    ensures |Lower(s)| == |s|
    ensures forall i :: 0 <= i < |s| ==> Lower(s)[i] == LowerChar(s[i])
    ensures forall i :: 0 <= i < |s| ==> !IsUpper(Lower(s)[i])
  {
    if s != [] {
      LowerSpec(s[1..]);
    }
  }

  /** Lower-casing twice is lower-casing once. */
  lemma LowerIdempotent(s: string)
    ensures Lower(Lower(s)) == Lower(s)
  {
    LowerSpec(s);
    LowerSpec(Lower(s));
  }

  predicate StartsWith(s: string, prefix: string) {
    |prefix| <= |s| && s[..|prefix|] == prefix
  }

  predicate EndsWith(s: string, suffix: string) {
    |suffix| <= |s| && s[|s| - |suffix|..] == suffix
  }

  predicate IsDigit(c: char) {
    '0' <= c <= '9'
  }

  predicate AllDigits(s: string) {
    forall i :: 0 <= i < |s| ==> IsDigit(s[i])
  }

  /** The decimal value of a run of ASCII digits, most significant first. */
  function DigitsValue(d: string): nat
    requires AllDigits(d)
  {
    if d == [] then 0 else DigitsValue(d[..|d| - 1]) * 10 + (d[|d| - 1] as int - '0' as int)
  }

  /** `s` with one leading sign character removed, if it has one. */
  function Unsigned(s: string): string {
    if s != [] && (s[0] == '+' || s[0] == '-') then s[1..] else s
  }

  /** What Python's `int()` accepts once the string is stripped: an optional
      sign followed by one or more decimal digits. */
  predicate IsIntLiteral(s: string) {
    Unsigned(s) != [] && AllDigits(Unsigned(s))
  }

  /** An integer literal whose every digit is zero: `"0"`, `"-00"`, `"+0"`. */
  predicate IsZeroLiteral(s: string) {
    Unsigned(s) != [] && forall i :: 0 <= i < |Unsigned(s)| ==> Unsigned(s)[i] == '0'
  }

  /** Python's `int(s)` on a stripped string: `None` stands for `ValueError`. */
  function ParseInt(s: string): Option<int> {
    var d := Unsigned(s);
    if d != [] && AllDigits(d) then
      var v: int := DigitsValue(d);
      Some(if s[0] == '-' then -v else v)
    else
      None
  }

  /** `int()` accepts exactly the integer literals, and yields zero exactly
      for the literals whose digits are all zero. */
  lemma ParseIntSpec(s: string)
    ensures ParseInt(s).Some? <==> IsIntLiteral(s)
    ensures ParseInt(s).Some? ==> (ParseInt(s).value == 0 <==> IsZeroLiteral(s))
  {
    if IsIntLiteral(s) {
      DigitsValueZero(Unsigned(s));
    }
  }

  lemma {:induction false} DigitsValueZero(d: string)
    requires AllDigits(d)
    ensures DigitsValue(d) == 0 <==> forall i :: 0 <= i < |d| ==> d[i] == '0'
  {
    if d != [] {
      var p := d[..|d| - 1];
      DigitsValueZero(p);
      assert forall i :: 0 <= i < |p| ==> p[i] == d[i];
    }
  }

  function DigitChar(n: nat): (c: char)
    requires n < 10
    ensures IsDigit(c) && c as int - '0' as int == n
  {
    ('0' as int + n) as char
  }

  /** The decimal spelling of a natural number, as `str(n)` gives it. */
  function FormatNat(n: nat): (s: string)
    ensures s != [] && AllDigits(s)
  {
    if n < 10 then [DigitChar(n)] else FormatNat(n / 10) + [DigitChar(n % 10)]
  }

  /** The decimal spelling of an integer, as `str(n)` gives it. */
  function FormatInt(n: int): string {
    if n < 0 then "-" + FormatNat(-n) else FormatNat(n)
  }

  lemma {:induction false} DigitsValueFormat(n: nat)
    ensures DigitsValue(FormatNat(n)) == n
  {
    if n >= 10 {
      var s := FormatNat(n);
      assert s[..|s| - 1] == FormatNat(n / 10);
      DigitsValueFormat(n / 10);
    }
  }

  /** `int(str(n)) == n`: parsing inverts formatting. */
  lemma ParseIntFormat(n: int)
    ensures ParseInt(FormatInt(n)) == Some(n)
  {
    if n < 0 {
      var s := FormatInt(n);
      assert Unsigned(s) == FormatNat(-n);
      DigitsValueFormat(-n);
    } else {
      var s := FormatNat(n);
      assert s[0] != '+' && s[0] != '-';
      DigitsValueFormat(n);
    }
  }
}
