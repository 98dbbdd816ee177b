/** The few Python string primitives the worker's option validators and
    formatters rely on: `str.strip`, `str.lower` on ASCII, substring tests,
    ASCII letters and digits, and decimal rendering and reading of naturals. */
module Text {

  /** Python's `str.isspace`: the ASCII whitespace and separator controls
      plus the Unicode space separators and line/paragraph separators. */
  predicate IsSpace(c: char)
  {
    c == ' ' || ('\t' <= c <= '\r') || ('\U{1C}' <= c <= '\U{1F}')
    || c == '\U{85}' || c == '\U{A0}' || c == '\U{1680}'
    || ('\U{2000}' <= c <= '\U{200A}') || c == '\U{2028}' || c == '\U{2029}'
    || c == '\U{202F}' || c == '\U{205F}' || c == '\U{3000}'
  }

  /** Index of the first character of `s` that is not whitespace (|s| if none). */
  function StripStart(s: seq<char>): (i: nat)
    ensures i <= |s|
    ensures forall k :: 0 <= k < i ==> IsSpace(s[k])
    ensures i < |s| ==> !IsSpace(s[i])
  {
    if |s| == 0 || !IsSpace(s[0]) then 0 else 1 + StripStart(s[1..])
  }

  /** One past the last character of `s` that is not whitespace (0 if none). */
  function StripEnd(s: seq<char>): (j: nat)
    ensures j <= |s|
    ensures forall k :: j <= k < |s| ==> IsSpace(s[k])
    ensures 0 < j ==> !IsSpace(s[j - 1])
  {
    if |s| == 0 || !IsSpace(s[|s| - 1]) then |s| else StripEnd(s[..|s| - 1])
  }

  /** Python's `s.strip()`: drop leading and trailing whitespace. */
  function Strip(s: seq<char>): (r: seq<char>)
    ensures |r| <= |s|
    ensures r == [] || (!IsSpace(r[0]) && !IsSpace(r[|r| - 1]))
    ensures r == [] <==> forall k :: 0 <= k < |s| ==> IsSpace(s[k])
  {
    var i := StripStart(s);
    var j := StripEnd(s);
    if i < j then s[i..j] else []
  }

  /** Stripping a string that already has no whitespace at either end
      leaves it as it is; in particular stripping twice is stripping once. */
  lemma {:induction false} StripFixpoint(s: seq<char>)
    requires s == [] || (!IsSpace(s[0]) && !IsSpace(s[|s| - 1]))
    ensures Strip(s) == s
  {
    if s != [] {
      assert StripStart(s) == 0;
      assert StripEnd(s) == |s|;
    }
  }

  lemma StripIdempotent(s: seq<char>)
    ensures Strip(Strip(s)) == Strip(s)
  {
    StripFixpoint(Strip(s));
  }

  /** Surrounding whitespace does not change the stripped text. */
  lemma {:induction false} StripPadded(pre: seq<char>, s: seq<char>, post: seq<char>)
    requires forall k :: 0 <= k < |pre| ==> IsSpace(pre[k])
    requires forall k :: 0 <= k < |post| ==> IsSpace(post[k])
    requires s != [] && !IsSpace(s[0]) && !IsSpace(s[|s| - 1])
    ensures Strip(pre + s + post) == s
  {
    var t := pre + s + post;
    StripStartPadded(pre, s + post);
    assert pre + (s + post) == t;
    StripEndPadded(pre + s, post);
    assert t[|pre|..|pre| + |s|] == s;
  }

  lemma {:induction false} StripStartPadded(pre: seq<char>, s: seq<char>)
    requires forall k :: 0 <= k < |pre| ==> IsSpace(pre[k])
    requires s != [] && !IsSpace(s[0])
    ensures StripStart(pre + s) == |pre|
  {
    if pre != [] {
      assert (pre + s)[1..] == pre[1..] + s;
      StripStartPadded(pre[1..], s);
    } else {
      assert pre + s == s;
    }
  }

  lemma {:induction false} StripEndPadded(s: seq<char>, post: seq<char>)
    requires forall k :: 0 <= k < |post| ==> IsSpace(post[k])
    requires s != [] && !IsSpace(s[|s| - 1])
    ensures StripEnd(s + post) == |s|
  {
    if post != [] {
      var t := s + post;
      assert t[..|t| - 1] == s + post[..|post| - 1];
      StripEndPadded(s, post[..|post| - 1]);
    } else {
      assert s + post == s;
    }
  }

  predicate IsUpper(c: char) { 'A' <= c <= 'Z' }

  /** Python's `str.lower` restricted to ASCII: upper-case ASCII letters
      become lower-case, every other character is kept. */
  function LowerChar(c: char): (d: char)
    ensures IsUpper(c) ==> d as int == c as int + 32
    ensures !IsUpper(c) ==> d == c
  {
    if IsUpper(c) then (c as int + 32) as char else c
  }

  function Lower(s: seq<char>): (r: seq<char>)
    ensures |r| == |s|
    ensures forall k :: 0 <= k < |s| ==> r[k] == LowerChar(s[k])
  {
    seq(|s|, k requires 0 <= k < |s| => LowerChar(s[k]))
  }

  /** `pat in s` for strings: `pat` occurs as a contiguous piece of `s`. */
  predicate Contains(s: seq<char>, pat: seq<char>)
  {
    |pat| <= |s| && (s[..|pat|] == pat || Contains(s[1..], pat))
  }

  /** `Contains` finds exactly the positions where `pat` starts in `s`. */
  lemma {:induction false} ContainsAt(s: seq<char>, pat: seq<char>, i: nat)
    requires i + |pat| <= |s| && s[i..i + |pat|] == pat
    ensures Contains(s, pat)
  {
    if i > 0 {
      assert s[1..][i - 1..i - 1 + |pat|] == s[i..i + |pat|];
      ContainsAt(s[1..], pat, i - 1);
    }
  }

  predicate IsDigit(c: char) { '0' <= c <= '9' }

  predicate IsAsciiLetter(c: char) { 'a' <= c <= 'z' || 'A' <= c <= 'Z' }

  /** `ord(c) < 128` for every character. */
  predicate IsAscii(s: seq<char>)
  {
    forall k :: 0 <= k < |s| ==> s[k] as int < 128
  }

  /** Python's `s.isalnum()` on an ASCII string: non-empty and made of
      letters and digits only. */
  predicate IsAsciiAlnum(s: seq<char>)
  {
    |s| > 0 && forall k :: 0 <= k < |s| ==> IsAsciiLetter(s[k]) || IsDigit(s[k])
  }

  predicate AllDigits(s: seq<char>)
  {
    forall k :: 0 <= k < |s| ==> IsDigit(s[k])
  }

  function DigitChar(d: nat): (c: char)
    requires d < 10
    ensures IsDigit(c)
  {
    ('0' as int + d) as char
  }

  function DigitValue(c: char): (d: nat)
    requires IsDigit(c)
    ensures d < 10 && DigitChar(d) == c
  {
    c as int - '0' as int
  }

  /** `str(n)` for a natural number: its decimal digits, most significant
      first, with no leading zero. */
  function Decimal(n: nat): (r: seq<char>)
    ensures |r| > 0 && AllDigits(r)
    ensures |r| > 1 ==> r[0] != '0'
    ensures n < 10 <==> |r| == 1
  {
    if n < 10 then [DigitChar(n)] else Decimal(n / 10) + [DigitChar(n % 10)]
  }

  /** Reads a string of decimal digits back as a number. */
  function ReadDecimal(s: seq<char>): nat
    requires AllDigits(s)
  {
    if s == [] then 0 else ReadDecimal(s[..|s| - 1]) * 10 + DigitValue(s[|s| - 1])
  }

  /** Reading back what `Decimal` wrote gives the number that was written. */
  lemma {:induction false} ReadDecimalOfDecimal(n: nat)
    ensures ReadDecimal(Decimal(n)) == n
  {
    if n >= 10 {
      var r := Decimal(n);
      assert r[..|r| - 1] == Decimal(n / 10);
      ReadDecimalOfDecimal(n / 10);
    }
  }

  /** Python's `f"{n:02d}"`: the decimal digits, padded on the left with a
      zero to a width of at least two. */
  function Pad2(n: nat): (r: seq<char>)
    ensures |r| >= 2 && AllDigits(r)
    ensures ReadDecimal(r) == n
    ensures n < 100 ==> |r| == 2
  {
    ReadDecimalOfDecimal(n);
    if n < 10 then
      var r := ['0'] + Decimal(n);
      assert r[..1] == ['0'];
      r
    else
      assert n < 100 ==> Decimal(n) == Decimal(n / 10) + [DigitChar(n % 10)] && |Decimal(n / 10)| == 1;
      Decimal(n)
  }
}
