/**
 * The few pieces of Python string behaviour the ingestion pipeline relies on:
 * whitespace as `str.isspace` defines it, `len(s.split())`, `" ".join(parts)`,
 * `s.strip() == ""`, `s.endswith(suffix)` and `str(n)` for an integer `n`.
 */
module Text {

  /** The characters Python's `str.isspace` accepts, which `str.split()` and `str.strip()` use. */
  predicate IsSpace(c: char) {
    || ('\t' <= c <= '\r')                // tab, line feed, vertical tab, form feed, carriage return
    || ('\U{1C}' <= c <= '\U{20}')        // file/group/record/unit separators and space
    || c == '\U{85}' || c == '\U{A0}' || c == '\U{1680}'
    || ('\U{2000}' <= c <= '\U{200A}')
    || c == '\U{2028}' || c == '\U{2029}' || c == '\U{202F}' || c == '\U{205F}' || c == '\U{3000}'
  }

  /** `s.strip() == ""`: the string holds whitespace only. */
  predicate IsBlank(s: string) {
    forall i :: 0 <= i < |s| ==> IsSpace(s[i])
  }

  /**
   * Number of maximal runs of non-whitespace characters in `s`, scanning from
   * the left; `inWord` says whether the character before `s` ended a word.
   */
  function CountFrom(s: string, inWord: bool): nat {
    if s == [] then 0
    else if IsSpace(s[0]) then CountFrom(s[1..], false)
    else (if inWord then 0 else 1) + CountFrom(s[1..], true)
  }

  /** `len(s.split())`: the number of whitespace-separated words of `s`. */
  function WordCount(s: string): nat {
    CountFrom(s, false)
  }

  /** Joining two strings with one space adds their word counts. */
  lemma {:induction false} CountFromSpaceJoin(a: string, b: string, inWord: bool)
    ensures CountFrom(a + " " + b, inWord) == CountFrom(a, inWord) + CountFrom(b, false)
  {
    if a == [] {
      assert a + " " + b == [' '] + b;
      assert ([' '] + b)[1..] == b;
    } else {
      assert (a + " " + b)[0] == a[0];
      assert (a + " " + b)[1..] == a[1..] + " " + b;
      CountFromSpaceJoin(a[1..], b, !IsSpace(a[0]));
    }
  }

  lemma WordCountSpaceJoin(a: string, b: string)
    ensures WordCount(a + " " + b) == WordCount(a) + WordCount(b)
  {
    CountFromSpaceJoin(a, b, false);
  }

  /** `" ".join(parts)`. */
  function Join(parts: seq<string>): string
    decreases |parts|
  {
    if |parts| == 0 then ""
    else if |parts| == 1 then parts[0]
    else Join(parts[..|parts| - 1]) + " " + parts[|parts| - 1]
  }

  /** Total word count of a list of strings, as a running `+=` over `len(x.split())`. */
  function SumWords(parts: seq<string>): nat
    decreases |parts|
  {
    if parts == [] then 0 else SumWords(parts[..|parts| - 1]) + WordCount(parts[|parts| - 1])
  }

  lemma SumWordsAppend(parts: seq<string>, x: string)
    ensures SumWords(parts + [x]) == SumWords(parts) + WordCount(x)
  {
    assert (parts + [x])[..|parts|] == parts;
  }

  /** The words of a space-joined list are exactly the words of its parts. */
  lemma {:induction false} JoinWordCount(parts: seq<string>)
    ensures WordCount(Join(parts)) == SumWords(parts)
    decreases |parts|
  {
    if |parts| == 0 {
    } else if |parts| == 1 {
      assert parts[..0] == [];
    } else {
      var init := parts[..|parts| - 1];
      JoinWordCount(init);
      WordCountSpaceJoin(Join(init), parts[|parts| - 1]);
    }
  }

  /** `s.endswith(suffix)`. */
  predicate EndsWith(s: string, suffix: string) {
    |suffix| <= |s| && s[|s| - |suffix|..] == suffix
  }

  /** A string that ends with `suffix` agrees with it on the `k`-th character from the end. */
  lemma EndsWithCharAt(s: string, suffix: string, k: nat)
    requires EndsWith(s, suffix) && k < |suffix|
    ensures s[|s| - 1 - k] == suffix[|suffix| - 1 - k]
  {
    assert s[|s| - |suffix|..][|suffix| - 1 - k] == s[|s| - 1 - k];
  }

  /** Appending a suffix makes the string end with it. */
  lemma EndsWithAppend(s: string, suffix: string)
    ensures EndsWith(s + suffix, suffix)
  {
    assert (s + suffix)[|s|..] == suffix;
  }

  /**
   * A suffix that starts with `.` cannot reach into a prefix holding no `.`:
   * `prefix + s` ends with it exactly when `s` does.
   */
  lemma EndsWithPastPrefix(prefix: string, s: string, suffix: string)
    requires '.' !in prefix && |suffix| > 0 && suffix[0] == '.'
    ensures EndsWith(prefix + s, suffix) <==> EndsWith(s, suffix)
  {
    var t := prefix + s;
    if |suffix| <= |s| {
      assert t[|t| - |suffix|..] == s[|s| - |suffix|..];
    } else if |suffix| <= |t| {
      var i := |t| - |suffix|;
      assert t[i] == prefix[i];
      assert t[i..][0] != suffix[0];
    }
  }

  function DigitChar(d: nat): (c: char)
    requires d < 10
    ensures '0' <= c <= '9' && c as int - '0' as int == d
  {
    ('0' as int + d) as char
  }

  /** Decimal digits of `n`, most significant first, as `str(n)` gives them for `n >= 0`. */
  function NatToString(n: nat): (s: string)
    ensures 1 <= |s|
    ensures n >= 10 <==> |s| >= 2
    ensures forall i :: 0 <= i < |s| ==> '0' <= s[i] <= '9'
    decreases n
  {
    if n < 10 then [DigitChar(n)] else NatToString(n / 10) + [DigitChar(n % 10)]
  }

  /** `str(n)` for a Python integer. */
  function IntToString(n: int): (s: string)
    ensures |s| >= 1 && (s[0] == '-' <==> n < 0)
  {
    if n < 0 then "-" + NatToString(-n) else NatToString(n)
  }

  lemma {:induction false} NatToStringInjective(a: nat, b: nat)
    requires NatToString(a) == NatToString(b)
    ensures a == b
    decreases a
  {
    if a >= 10 && b >= 10 {
      var sa, sb := NatToString(a), NatToString(b);
      assert sa[|sa| - 1] == DigitChar(a % 10) && sb[|sb| - 1] == DigitChar(b % 10);
      assert sa[..|sa| - 1] == NatToString(a / 10);
      assert sb[..|sb| - 1] == NatToString(b / 10);
      NatToStringInjective(a / 10, b / 10);
    }
  }

  /** Distinct integers have distinct decimal representations. */
  lemma IntToStringInjective(a: int, b: int)
    requires IntToString(a) == IntToString(b)
    ensures a == b
  {
    if a < 0 && b < 0 {
      assert IntToString(a)[1..] == NatToString(-a);
      assert IntToString(b)[1..] == NatToString(-b);
      NatToStringInjective(-a, -b);
    } else if a >= 0 && b >= 0 {
      NatToStringInjective(a, b);
    }
  }
}
