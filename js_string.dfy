/** The few operations of the JavaScript string library the client relies on:
    `String.prototype.trim`, `Array.prototype.join`, and the decimal text a
    template literal gives an integral `number`. */
module JsString {

  /** The characters `trim` removes: the WhiteSpace and LineTerminator code
      points of ECMAScript (sections 12.2 and 12.3 of ECMA-262), i.e. tab,
      vertical tab, form feed, space, no-break space, the byte order mark, the
      Unicode space separators, and the four line terminators. */
  predicate IsWhitespace(c: char) {
    || c == '\t' || c == '\n' || c == '\U{B}' || c == '\U{C}' || c == '\r' || c == ' '
    || c == '\U{A0}' || c == '\U{1680}' || ('\U{2000}' <= c <= '\U{200A}')
    || c == '\U{2028}' || c == '\U{2029}' || c == '\U{202F}' || c == '\U{205F}'
    || c == '\U{3000}' || c == '\U{FEFF}'
  }

  /** A string is blank when every character is whitespace; `""` is blank. */
  predicate IsBlank(s: string) {
    forall i :: 0 <= i < |s| ==> IsWhitespace(s[i])
  }

  /** The number of whitespace characters `trim` strips from the front. */
  function TrimStartIndex(s: string): (k: nat)
    ensures k <= |s|
    ensures forall i :: 0 <= i < k ==> IsWhitespace(s[i])
    ensures k < |s| ==> !IsWhitespace(s[k])
  {
    if s == [] || !IsWhitespace(s[0]) then 0 else 1 + TrimStartIndex(s[1..])
  }

  /** The length of `s` without the whitespace `trim` strips from the back. */
  function TrimEndIndex(s: string): (k: nat)
    ensures k <= |s|
    ensures forall i :: k <= i < |s| ==> IsWhitespace(s[i])
    ensures 0 < k ==> !IsWhitespace(s[k - 1])
  {
    if s == [] || !IsWhitespace(s[|s| - 1]) then |s| else TrimEndIndex(s[..|s| - 1])
  }

  /** `s.trim()`: `s` without its leading and trailing whitespace. The result
      is empty exactly when `s` is blank, which is what the client's
      `!text.trim()` tests; otherwise it begins and ends with a character
      that is not whitespace. */
  function Trim(s: string): (r: string)
    ensures r == [] <==> IsBlank(s)
    ensures r != [] ==> !IsWhitespace(r[0]) && !IsWhitespace(r[|r| - 1])
  {
    var a := TrimStartIndex(s);
    var t := s[a..];
    var b := TrimEndIndex(t);
    assert IsBlank(s) ==> a == |s|;
    assert forall i :: a <= i < |s| ==> s[i] == t[i - a];
    t[..b]
  }

  /** The bounds of the slice `Trim` keeps. */
  lemma TrimBounds(s: string) returns (a: nat, b: nat)
    ensures a <= b <= |s| && Trim(s) == s[a..b]
    ensures forall i :: 0 <= i < a ==> IsWhitespace(s[i])
    ensures forall i :: b <= i < |s| ==> IsWhitespace(s[i])
    ensures a < b ==> !IsWhitespace(s[a]) && !IsWhitespace(s[b - 1])
    ensures a == b ==> IsBlank(s)
  {
    a := TrimStartIndex(s);
    var t := s[a..];
    b := a + TrimEndIndex(t);
    assert forall i :: b <= i < |s| ==> s[i] == t[i - a];
  }

  /** `Trim` is determined by where the text between whitespace begins and
      ends: any slice `s[a..b]` that has only whitespace outside it and
      non-whitespace at both of its ends is the trimmed string. */
  lemma TrimIsUnique(s: string, a: nat, b: nat)
    requires a <= b <= |s|
    requires forall i :: 0 <= i < a ==> IsWhitespace(s[i])
    requires forall i :: b <= i < |s| ==> IsWhitespace(s[i])
    requires a < b ==> !IsWhitespace(s[a]) && !IsWhitespace(s[b - 1])
    ensures Trim(s) == s[a..b]
  {
    if a == b {
      assert IsBlank(s) by {
        forall i | 0 <= i < |s| ensures IsWhitespace(s[i]) {
          if i >= b {} else {}
        }
      }
    } else {
      var a', b' := TrimBounds(s);
      assert a' == a;
      assert b' == b;
    }
  }

  /** Trimming twice changes nothing. */
  lemma TrimIdempotent(s: string)
    ensures Trim(Trim(s)) == Trim(s)
  {
    var r := Trim(s);
    TrimIsUnique(r, 0, |r|);
  }

  /** Whitespace around a text never reaches what `trim` returns: padding a
      response with spaces or newlines does not change the text parsed. */
  lemma TrimIgnoresPadding(pre: string, t: string, post: string)
    requires IsBlank(pre) && IsBlank(post)
    ensures Trim(pre + t + post) == Trim(t)
  {
    var a, b := TrimBounds(t);
    var s := pre + t + post;
    assert forall i :: |pre| <= i < |pre| + |t| ==> s[i] == t[i - |pre|];
    assert forall i :: |pre| + |t| <= i < |s| ==> s[i] == post[i - |pre| - |t|];
    if a < b {
      assert Trim(t) != [];
      assert !IsWhitespace(t[a]) && !IsWhitespace(t[b - 1]);
    }
    TrimIsUnique(s, |pre| + a, |pre| + b);
    assert s[|pre| + a..|pre| + b] == t[a..b];
  }

  /** `parts.join(sep)`. */
  function Join(parts: seq<string>, sep: string): string
  {
    if |parts| == 0 then ""
    else if |parts| == 1 then parts[0]
    else parts[0] + sep + Join(parts[1..], sep)
  }

  /** Every character of a joined string comes from a part or the separator:
      a character in neither cannot appear in it. */
  lemma {:induction false} JoinAvoids(parts: seq<string>, sep: string, c: char)
    requires c !in sep
    requires forall j :: 0 <= j < |parts| ==> c !in parts[j]
    ensures c !in Join(parts, sep)
  {
    if |parts| > 1 {
      JoinAvoids(parts[1..], sep, c);
    }
  }

  /** The decimal digit character for `d`. */
  function DigitChar(d: nat): (c: char)
    requires d < 10
    ensures '0' <= c <= '9'
  {
    ('0' as int + d) as char
  }

  /** The value of a string of decimal digits. */
  function DigitsValue(s: string): nat
    requires forall i :: 0 <= i < |s| ==> '0' <= s[i] <= '9'
  {
    if s == [] then 0
    else DigitsValue(s[..|s| - 1]) * 10 + (s[|s| - 1] as int - '0' as int)
  }

  /** `${n}` for a non-negative integral number: its decimal digits, at least
      one, with no leading zero. */
  function NatToString(n: nat): (r: string)
    ensures |r| >= 1
    ensures forall i :: 0 <= i < |r| ==> '0' <= r[i] <= '9'
    ensures |r| > 1 ==> r[0] != '0'
  {
    if n < 10 then [DigitChar(n)] else NatToString(n / 10) + [DigitChar(n % 10)]
  }

  /** Reading the digits back gives the number: the text names exactly `n`. */
  lemma {:induction false} NatToStringRoundTrip(n: nat)
    ensures DigitsValue(NatToString(n)) == n
  {
    if n >= 10 {
      NatToStringRoundTrip(n / 10);
      var r := NatToString(n);
      assert r[..|r| - 1] == NatToString(n / 10);
    }
  }

  /** Different numbers are written differently. */
  lemma NatToStringInjective(m: nat, n: nat)
    requires NatToString(m) == NatToString(n)
    ensures m == n
  {
    NatToStringRoundTrip(m);
    NatToStringRoundTrip(n);
  }

  /** `${n}` for an integral number of either sign: a '-' exactly when `n` is
      negative, then the decimal digits of its magnitude with no leading
      zero. */
  function IntToString(n: int): (r: string)
    ensures |r| >= 1
    ensures n >= 0 <==> r[0] != '-'
    ensures forall i :: 0 < i < |r| ==> '0' <= r[i] <= '9'
    ensures n >= 0 ==> '0' <= r[0] <= '9' && DigitsValue(r) == n
    ensures n >= 0 && |r| > 1 ==> r[0] != '0'
    ensures n < 0 ==> |r| >= 2 && DigitsValue(r[1..]) == -n && r[1] != '0'
    ensures n != 0 ==> r != "0"
  {
    if n < 0 then
      NatToStringRoundTrip(-n);
      var digits := NatToString(-n);
      assert ("-" + digits)[1..] == digits;
      "-" + digits
    else
      NatToStringRoundTrip(n);
      NatToString(n)
  }

  /** `t` appears in `s` starting at offset `k`. */
  predicate OccursAt(t: string, s: string, k: int) {
    0 <= k && k + |t| <= |s| && s[k..k + |t|] == t
  }

  /** `s.includes(t)`. */
  predicate Occurs(t: string, s: string) {
    exists k | 0 <= k <= |s| - |t| :: OccursAt(t, s, k)
  }

  /** `s.endsWith(t)`. */
  predicate EndsWith(s: string, t: string) {
    |t| <= |s| && s[|s| - |t|..] == t
  }

  /** A string occurs at the end of any string it is appended to. */
  lemma OccursAfter(pre: string, t: string)
    ensures OccursAt(t, pre + t, |pre|)
  {
    assert (pre + t)[|pre|..|pre| + |t|] == t;
  }

  /** An occurrence survives appending more text. */
  lemma OccursExtended(t: string, s: string, k: int, post: string)
    requires OccursAt(t, s, k)
    ensures OccursAt(t, s + post, k)
  {
    assert (s + post)[k..k + |t|] == s[k..k + |t|];
  }

  /** An occurrence in a prefix is an occurrence in the whole. */
  lemma OccursInLonger(t: string, s: string, k: int, u: string)
    requires OccursAt(t, s, k) && s <= u
    ensures OccursAt(t, u, k)
  {
    assert u == s + u[|s|..];
    OccursExtended(t, s, k, u[|s|..]);
  }

  /** Where a string occurs, so does each of its prefixes. */
  lemma OccursStart(t: string, s: string, k: int, m: string)
    requires OccursAt(t, s, k) && m <= t
    ensures OccursAt(m, s, k)
  {
    assert s[k..k + |m|] == s[k..k + |t|][..|m|];
  }

  /** A string ends with what was appended to it last. */
  lemma EndsWithAppended(pre: string, t: string)
    ensures EndsWith(pre + t, t)
  {
    assert (pre + t)[|pre|..] == t;
  }
}
