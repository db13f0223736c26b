/**
 * The slice of Python's `str` behaviour the monitor relies on: `isspace`/`strip`,
 * `lower` (ASCII only), substring containment (`k in s`), `str(int)`, `"\n".join`,
 * and the code-point lexicographic order that `sorted` uses on strings.
 */
module Text {

  /** The characters Python's `str.isspace()` accepts. */
  predicate IsSpace(c: char)
  {
    || c == ' '
    || '\t' <= c <= '\r'
    || '\U{1c}' <= c <= '\U{1f}'
    || c == '\U{85}' || c == '\U{a0}' || c == '\U{1680}'
    || '\U{2000}' <= c <= '\U{200a}'
    || c == '\U{2028}' || c == '\U{2029}' || c == '\U{202f}' || c == '\U{205f}' || c == '\U{3000}'
  }

  /** `s.lstrip()`: the suffix left after dropping leading whitespace. */
  function StripLeft(s: string): string
  {
    if |s| > 0 && IsSpace(s[0]) then StripLeft(s[1..]) else s
  }

  /** `s.rstrip()`: the prefix left after dropping trailing whitespace. */
  function StripRight(s: string): string
  {
    if |s| > 0 && IsSpace(s[|s| - 1]) then StripRight(s[..|s| - 1]) else s
  }

  /** `s.strip()`. */
  function Strip(s: string): string
  {
    StripRight(StripLeft(s))
  }

  lemma {:induction false} StripLeftSuffix(s: string)
    ensures var r := StripLeft(s);
      && |r| <= |s| && r == s[|s| - |r|..]
      && (forall i :: 0 <= i < |s| - |r| ==> IsSpace(s[i]))
      && (|r| > 0 ==> !IsSpace(r[0]))
    decreases |s|
  {
    if |s| > 0 && IsSpace(s[0]) {
      StripLeftSuffix(s[1..]);
    }
  }

  lemma {:induction false} StripRightPrefix(s: string)
    ensures var r := StripRight(s);
      && |r| <= |s| && r == s[..|r|]
      && (forall i :: |r| <= i < |s| ==> IsSpace(s[i]))
      && (|r| > 0 ==> !IsSpace(r[|r| - 1]))
    decreases |s|
  {
    if |s| > 0 && IsSpace(s[|s| - 1]) {
      StripRightPrefix(s[..|s| - 1]);
    }
  }

  /** `s.strip()` is the middle of `s` that is left once its whitespace ends are cut off. */
  lemma StripMiddle(s: string)
    ensures exists i, j :: && 0 <= i <= j <= |s| && Strip(s) == s[i..j]
                          && (forall k :: 0 <= k < i ==> IsSpace(s[k]))
                          && (forall k :: j <= k < |s| ==> IsSpace(s[k]))
  {
    var l := StripLeft(s);
    var r := StripRight(l);
    StripLeftSuffix(s);
    StripRightPrefix(l);
    var i := |s| - |l|;
    var j := i + |r|;
    assert l == s[i..];
    assert r == s[i..j];
    forall k | j <= k < |s|
      ensures IsSpace(s[k])
    {
      assert s[k] == l[k - i];
    }
    assert && 0 <= i <= j <= |s| && Strip(s) == s[i..j]
           && (forall k :: 0 <= k < i ==> IsSpace(s[k]))
           && (forall k :: j <= k < |s| ==> IsSpace(s[k]));
  }

  /** `s.strip()` is empty exactly for an all-whitespace line; otherwise it neither starts nor ends with whitespace. */
  lemma StripBlank(s: string)
    ensures Strip(s) == "" <==> forall i :: 0 <= i < |s| ==> IsSpace(s[i])
    ensures Strip(s) != "" ==> !IsSpace(Strip(s)[0]) && !IsSpace(Strip(s)[|Strip(s)| - 1])
  {
    StripLeftSuffix(s);
    StripRightPrefix(StripLeft(s));
  }

  /** ASCII lower-casing of one character. */
  function LowerChar(c: char): char
  {
    if 'A' <= c <= 'Z' then (c as int + 32) as char else c
  }

  /** `s.lower()`, restricted to ASCII letters. */
  function Lower(s: string): (r: string)
    ensures |r| == |s|
  {
    seq(|s|, i requires 0 <= i < |s| => LowerChar(s[i]))
  }

  /** Python's `pat in text`: `pat` occurs somewhere in `text` as a contiguous block. */
  predicate Contains(text: string, pat: string)
    decreases |text|
  {
    pat <= text || (|text| > 0 && Contains(text[1..], pat))
  }

  /** `pat` occupies the window of `text` starting at `i`. */
  predicate OccursAt(text: string, pat: string, i: int)
  {
    0 <= i <= |text| - |pat| && text[i..i + |pat|] == pat
  }

  /** A window holding `pat` makes the recursive `Contains` true. */
  lemma {:induction false} WindowContains(text: string, pat: string, i: int)
    requires OccursAt(text, pat, i)
    ensures Contains(text, pat)
    decreases i
  {
    if i == 0 {
      assert text[..|pat|] == pat;
    } else {
      assert text[1..][i - 1..i - 1 + |pat|] == text[i..i + |pat|];
      WindowContains(text[1..], pat, i - 1);
    }
  }

  /** When the recursive `Contains` holds, some window of `text` holds `pat`. */
  lemma {:induction false} ContainsWindow(text: string, pat: string)
    requires Contains(text, pat)
    ensures exists i :: OccursAt(text, pat, i)
    decreases |text|
  {
    if pat <= text {
      assert OccursAt(text, pat, 0);
    } else {
      ContainsWindow(text[1..], pat);
      var i :| OccursAt(text[1..], pat, i);
      assert text[i + 1..i + 1 + |pat|] == text[1..][i..i + |pat|];
      assert OccursAt(text, pat, i + 1);
    }
  }

  /** The recursive `Contains` agrees with "some window of `text` equals `pat`". */
  lemma ContainsIffWindow(text: string, pat: string)
    ensures Contains(text, pat) <==> exists i :: OccursAt(text, pat, i)
  {
    if Contains(text, pat) {
      ContainsWindow(text, pat);
    }
    if exists i :: OccursAt(text, pat, i) {
      var i :| OccursAt(text, pat, i);
      WindowContains(text, pat, i);
    }
  }

  function DigitChar(d: nat): char
    requires d < 10
  {
    "0123456789"[d]
  }

  predicate IsDigit(c: char)
  {
    '0' <= c <= '9'
  }

  /** The number a string of decimal digits denotes (`int(s)` for such a string). */
  function DigitsValue(s: string): int
  {
    if s == [] then 0 else 10 * DigitsValue(s[..|s| - 1]) + (s[|s| - 1] as int - '0' as int)
  }

  /** `str(n)` for a non-negative integer: decimal digits, no leading zero. */
  function NatToString(n: nat): (r: string)
    ensures |r| > 0 && forall i :: 0 <= i < |r| ==> IsDigit(r[i])
    ensures |r| > 1 ==> r[0] != '0'
  {
    if n < 10 then [DigitChar(n)] else NatToString(n / 10) + [DigitChar(n % 10)]
  }

  /** Reading the digits back gives the number: `int(str(n)) == n`. */
  lemma {:induction false} NatToStringValue(n: nat)
    ensures DigitsValue(NatToString(n)) == n
  {
    var r := NatToString(n);
    if n < 10 {
      assert r[..0] == [];
      assert DigitChar(n) as int - '0' as int == n;
    } else {
      NatToStringValue(n / 10);
      var p := NatToString(n / 10);
      assert r == p + [DigitChar(n % 10)];
      assert r[..|r| - 1] == p;
      assert DigitChar(n % 10) as int - '0' as int == n % 10;
    }
  }

  /** `str(n)` for any integer: the digits of `|n|`, after a `-` when `n` is negative. */
  function IntToString(n: int): (r: string)
    ensures |r| > 0
  {
    if n < 0 then "-" + NatToString(-n) else NatToString(n)
  }

  /** A minus sign before a string of digits: the sign, then exactly those digits. */
  lemma MinusDigits(t: string)
    requires forall i :: 0 <= i < |t| ==> IsDigit(t[i])
    ensures ("-" + t)[0] == '-' && ("-" + t)[1..] == t
    ensures forall i :: 1 <= i < |"-" + t| ==> IsDigit(("-" + t)[i])
  {
    var r := "-" + t;
    assert r[1..] == t;
    forall i | 1 <= i < |r|
      ensures IsDigit(r[i])
    {
      assert r[i] == t[i - 1];
    }
  }

  /** `int(str(n)) == n`: the text is all digits denoting `n`, or `-` and the digits of `-n`. */
  lemma IntToStringValue(n: int)
    ensures n >= 0 ==> (forall i :: 0 <= i < |IntToString(n)| ==> IsDigit(IntToString(n)[i]))
                       && DigitsValue(IntToString(n)) == n
    ensures n < 0 ==> IntToString(n)[0] == '-'
                      && (forall i :: 1 <= i < |IntToString(n)| ==> IsDigit(IntToString(n)[i]))
                      && DigitsValue(IntToString(n)[1..]) == -n
  {
    if n < 0 {
      NatToStringValue(-n);
      MinusDigits(NatToString(-n));
    } else {
      NatToStringValue(n);
    }
  }

  /** `sep.join(parts)`. */
  function Join(parts: seq<string>, sep: string): string
  {
    if |parts| == 0 then ""
    else if |parts| == 1 then parts[0]
    else Join(parts[..|parts| - 1], sep) + sep + parts[|parts| - 1]
  }

  // ---------------- string order (Python's `<` on str) ----------------

  /** `a < b` on Python strings: code point by code point, a proper prefix first. */
  predicate LexLess(a: string, b: string)
    decreases |a|
  {
    if |a| == 0 then |b| > 0
    else |b| > 0 && (a[0] < b[0] || (a[0] == b[0] && LexLess(a[1..], b[1..])))
  }

  lemma {:induction false} LexLessIrreflexive(a: string)
    ensures !LexLess(a, a)
    decreases |a|
  {
    if |a| > 0 {
      LexLessIrreflexive(a[1..]);
    }
  }

  lemma {:induction false} LexLessTransitive(a: string, b: string, c: string)
    requires LexLess(a, b) && LexLess(b, c)
    ensures LexLess(a, c)
    decreases |a|
  {
    if |a| > 0 && a[0] == b[0] && b[0] == c[0] {
      LexLessTransitive(a[1..], b[1..], c[1..]);
    }
  }

  lemma {:induction false} LexLessTotal(a: string, b: string)
    requires a != b
    ensures LexLess(a, b) || LexLess(b, a)
    decreases |a|
  {
    if |a| > 0 && |b| > 0 && a[0] == b[0] {
      assert a == [a[0]] + a[1..] && b == [b[0]] + b[1..];
      LexLessTotal(a[1..], b[1..]);
    }
  }

  lemma LexLessAsymmetric(a: string, b: string)
    requires LexLess(a, b)
    ensures !LexLess(b, a)
  {
    if LexLess(b, a) {
      LexLessTransitive(a, b, a);
      LexLessIrreflexive(a);
    }
  }

  /** Every element of `r` is strictly below every later one: sorted, with no repeats. */
  predicate StrictlySorted(r: seq<string>)
  {
    forall i, j :: 0 <= i < j < |r| ==> LexLess(r[i], r[j])
  }

  /** `m` is the smallest string of `s`. */
  predicate IsLeast(m: string, s: set<string>)
  {
    m in s && forall x :: x in s && x != m ==> LexLess(m, x)
  }

  lemma {:induction false} LeastExists(s: set<string>)
    requires s != {}
    ensures exists m :: IsLeast(m, s)
    decreases |s|
  {
    var x :| x in s;
    if s - {x} == {} {
      assert s == {x};
      assert IsLeast(x, s);
    } else {
      LeastExists(s - {x});
      var m :| IsLeast(m, s - {x});
      if LexLess(x, m) {
        forall y | y in s && y != x ensures LexLess(x, y) {
          if y != m {
            LexLessTransitive(x, m, y);
          }
        }
        assert IsLeast(x, s);
      } else {
        LexLessTotal(x, m);
        assert IsLeast(m, s);
      }
    }
  }

  lemma LeastUnique(m1: string, m2: string, s: set<string>)
    requires IsLeast(m1, s) && IsLeast(m2, s)
    ensures m1 == m2
  {
    if m1 != m2 {
      LexLessAsymmetric(m1, m2);
    }
  }

  /** The smallest string of a non-empty set. */
  ghost function Least(s: set<string>): (m: string)
    requires s != {}
    ensures IsLeast(m, s)
  {
    LeastExists(s);
    var m :| IsLeast(m, s);
    m
  }

  /** `sorted(s)` for a set of strings: the least element first, then the rest sorted. */
  ghost function SortedSeq(s: set<string>): (r: seq<string>)
    ensures |r| == |s|
    decreases |s|
  {
    if s == {} then []
    else
      var m := Least(s);
      [m] + SortedSeq(s - {m})
  }

  /** Putting a string below every element in front of a sorted sequence keeps it sorted. */
  lemma ConsSorted(m: string, rest: seq<string>)
    requires StrictlySorted(rest)
    requires forall j :: 0 <= j < |rest| ==> LexLess(m, rest[j])
    ensures StrictlySorted([m] + rest)
  {
    var r := [m] + rest;
    forall i, j | 0 <= i < j < |r|
      ensures LexLess(r[i], r[j])
    {
      assert r[j] == rest[j - 1];
      if i > 0 {
        assert r[i] == rest[i - 1];
      }
    }
  }

  /** `SortedSeq(s)` lists the elements of `s` in increasing order, each once. */
  lemma {:induction false} SortedSeqSpec(s: set<string>)
    ensures |SortedSeq(s)| == |s|
    ensures forall x :: x in SortedSeq(s) <==> x in s
    ensures StrictlySorted(SortedSeq(s))
    decreases |s|
  {
    if s != {} {
      var m := Least(s);
      var rest := SortedSeq(s - {m});
      SortedSeqSpec(s - {m});
      assert SortedSeq(s) == [m] + rest;
      forall j | 0 <= j < |rest|
        ensures LexLess(m, rest[j])
      {
        assert rest[j] in s - {m};
      }
      ConsSorted(m, rest);
    }
  }

  /** The sorted listing of a set starts with its least element. */
  lemma SortedSeqFirst(s: set<string>, m: string)
    requires IsLeast(m, s)
    ensures SortedSeq(s) == [m] + SortedSeq(s - {m})
  {
    LeastUnique(m, Least(s), s);
  }

  /** One step of `sorted`: the least remaining string, which its sorted listing starts with. */
  method TakeLeast(s: set<string>) returns (m: string)
    requires s != {}
    ensures m in s && SortedSeq(s) == [m] + SortedSeq(s - {m})
  {
    LeastExists(s);
    m :| IsLeast(m, s);
    SortedSeqFirst(s, m);
  }

  /** `sorted(s)`: repeatedly takes the smallest remaining string. */
  method SortStrings(s: set<string>) returns (r: seq<string>)
    ensures r == SortedSeq(s)
  {
    r := [];
    var rest := s;
    assert [] + SortedSeq(s) == SortedSeq(s);
    while rest != {}
      invariant r + SortedSeq(rest) == SortedSeq(s)
      decreases |rest|
    {
      var m := TakeLeast(rest);
      AppendOne(r, m, SortedSeq(rest - {m}));
      r := r + [m];
      rest := rest - {m};
    }
    assert SortedSeq(rest) == [];
    assert r + [] == r;
  }

  lemma AppendOne<T>(r: seq<T>, m: T, t: seq<T>)
    ensures (r + [m]) + t == r + ([m] + t)
  {
  }
}
