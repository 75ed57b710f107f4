/**
 * The handful of Python string operations the harness relies on:
 * `re.search(r'(\d+)', s)` + `int(...)`, `str.strip()`, `str.split('\n')`,
 * the `in` substring test, `str.startswith`, and the ordering `sorted` uses on str.
 */
module Text {
  import opened Wrappers

  // ---------------------------------------------------------------------------
  // Digits

  predicate IsDigit(c: char) { '0' <= c <= '9' }

  predicate HasDigit(s: string) { exists k :: 0 <= k < |s| && IsDigit(s[k]) }

  predicate AllDigits(s: string) { forall k :: 0 <= k < |s| ==> IsDigit(s[k]) }

  /** `int(ds)` for a string of decimal digits. */
  function DecimalValue(ds: string): nat
    requires AllDigits(ds)
  {
    if ds == [] then 0
    else DecimalValue(ds[..|ds| - 1]) * 10 + (ds[|ds| - 1] as int - '0' as int)
  }

  /** `str(n)` for a natural number: its decimal digits, without a leading zero. */
  function DecimalText(n: nat): (s: string)
    ensures |s| > 0 && AllDigits(s)
    ensures DecimalValue(s) == n
    ensures n > 0 ==> s[0] != '0'
  {
    if n < 10 then [('0' as int + n) as char]
    else
      var init := DecimalText(n / 10);
      var s := init + [('0' as int + n % 10) as char];
      assert s[..|s| - 1] == init;
      s
  }

  /**
   * Reading the digits at the start of s onto acc, as a scanner does: acc
   * shifted one decimal place per digit read, stopping at the first non-digit.
   */
  function ReadDigits(acc: nat, s: string): nat
    decreases |s|
  {
    if s == [] || !IsDigit(s[0]) then acc
    else ReadDigits(acc * 10 + (s[0] as int - '0' as int), s[1..])
  }

  /**
   * `re.search(r'(\d+)', s)` and `int(match.group(1))`: the value of the
   * leftmost maximal run of digits, or None when s holds no digit.
   */
  function FirstDigitRun(s: string): Option<nat>
  {
    if s == [] then None
    else if IsDigit(s[0]) then Some(ReadDigits(0, s))
    else FirstDigitRun(s[1..])
  }

  /** Reading more digits onto the value of p gives the value of p followed by them. */
  lemma {:induction false} ReadDigitsExtends(p: string, ds: string)
    requires AllDigits(p) && AllDigits(ds)
    ensures AllDigits(p + ds)
    ensures ReadDigits(DecimalValue(p), ds) == DecimalValue(p + ds)
    decreases |ds|
  {
    if ds == [] {
      assert p + ds == p;
    } else {
      var p' := p + [ds[0]];
      assert p'[..|p'| - 1] == p;
      assert AllDigits(p');
      ReadDigitsExtends(p', ds[1..]);
      assert p' + ds[1..] == p + ds;
    }
  }

  /** The scan stops at the first non-digit: what follows it is never read. */
  lemma {:induction false} ReadDigitsStops(acc: nat, ds: string, rest: string)
    requires AllDigits(ds)
    requires rest == [] || !IsDigit(rest[0])
    ensures ReadDigits(acc, ds + rest) == ReadDigits(acc, ds)
    decreases |ds|
  {
    if ds != [] {
      assert (ds + rest)[1..] == ds[1..] + rest;
      ReadDigitsStops(acc * 10 + (ds[0] as int - '0' as int), ds[1..], rest);
    }
  }

  /** There is a digit run to read exactly when s holds a digit. */
  lemma {:induction false} FirstDigitRunFindsAnyDigit(s: string)
    ensures FirstDigitRun(s).None? <==> !HasDigit(s)
  {
    if s != [] && !IsDigit(s[0]) {
      FirstDigitRunFindsAnyDigit(s[1..]);
      assert HasDigit(s) ==> HasDigit(s[1..]) by {
        if HasDigit(s) { var k :| 0 <= k < |s| && IsDigit(s[k]); assert s[1..][k - 1] == s[k]; }
      }
      assert HasDigit(s[1..]) ==> HasDigit(s) by {
        if HasDigit(s[1..]) { var k :| 0 <= k < |s[1..]| && IsDigit(s[1..][k]); assert s[k + 1] == s[1..][k]; }
      }
    }
  }

  /**
   * Any leftmost maximal digit run s[i..j] is the one FirstDigitRun reads:
   * no digit before i, digits on [i, j), and no digit at j.
   */
  lemma {:induction false} FirstDigitRunIsLeftmostMaximal(s: string, i: nat, j: nat)
    requires i < j <= |s|
    requires forall k :: 0 <= k < i ==> !IsDigit(s[k])
    requires AllDigits(s[i..j])
    requires j == |s| || !IsDigit(s[j])
    ensures FirstDigitRun(s) == Some(DecimalValue(s[i..j]))
    decreases i
  {
    if i > 0 {
      var t := s[1..];
      assert !IsDigit(s[0]);
      assert FirstDigitRun(s) == FirstDigitRun(t);
      assert t[i - 1..j - 1] == s[i..j];
      assert forall k :: 0 <= k < i - 1 ==> t[k] == s[k + 1];
      assert j - 1 < |t| ==> t[j - 1] == s[j];
      FirstDigitRunIsLeftmostMaximal(t, i - 1, j - 1);
    } else {
      DigitRunAtStart(s, j);
    }
  }

  lemma DigitRunAtStart(s: string, j: nat)
    requires 0 < j <= |s|
    requires AllDigits(s[..j])
    requires j == |s| || !IsDigit(s[j])
    ensures FirstDigitRun(s) == Some(DecimalValue(s[..j]))
  {
    assert IsDigit(s[0]) by { assert s[0] == s[..j][0]; }
    assert s == s[..j] + s[j..];
    ReadDigitsStops(0, s[..j], s[j..]);
    ReadDigitsExtends([], s[..j]);
    assert [] + s[..j] == s[..j];
  }

  // ---------------------------------------------------------------------------
  // Whitespace and str.strip()

  /** Characters Python's `str.isspace` accepts (and `str.strip()` removes). */
  predicate IsSpace(c: char)
  {
    var n := c as int;
    n == 32 || 9 <= n <= 13 || 28 <= n <= 31 || n == 0x85 || n == 0xA0 || n == 0x1680
    || 0x2000 <= n <= 0x200A || n == 0x2028 || n == 0x2029 || n == 0x202F
    || n == 0x205F || n == 0x3000
  }

  function StripLeading(s: string): string
  {
    if s != [] && IsSpace(s[0]) then StripLeading(s[1..]) else s
  }

  function StripTrailing(s: string): string
  {
    if s != [] && IsSpace(s[|s| - 1]) then StripTrailing(s[..|s| - 1]) else s
  }

  /** `s.strip()` */
  function Strip(s: string): string
  {
    StripTrailing(StripLeading(s))
  }

  /** Stripping keeps a slice of s that neither starts nor ends with whitespace. */
  lemma {:induction false} StripLeadingIsSuffix(s: string)
    ensures |StripLeading(s)| <= |s| && StripLeading(s) == s[|s| - |StripLeading(s)|..]
    ensures StripLeading(s) != [] ==> !IsSpace(StripLeading(s)[0])
  {
    if s != [] && IsSpace(s[0]) { StripLeadingIsSuffix(s[1..]); }
  }

  lemma {:induction false} StripTrailingIsPrefix(s: string)
    ensures StripTrailing(s) <= s
    ensures StripTrailing(s) != [] ==> !IsSpace(StripTrailing(s)[|StripTrailing(s)| - 1])
    decreases |s|
  {
    if s != [] && IsSpace(s[|s| - 1]) { StripTrailingIsPrefix(s[..|s| - 1]); }
  }

  lemma {:induction false} FirstDigitRunIgnoresAppendedNonDigit(t: string, c: char)
    requires !IsDigit(c)
    ensures FirstDigitRun(t + [c]) == FirstDigitRun(t)
  {
    if t == [] {
    } else if IsDigit(t[0]) {
      var n := 0;
      while n < |t| && IsDigit(t[n])
        invariant 0 <= n <= |t|
        invariant AllDigits(t[..n])
      {
        assert t[..n + 1] == t[..n] + [t[n]];
        n := n + 1;
      }
      assert t == t[..n] + t[n..];
      assert t + [c] == t[..n] + (t[n..] + [c]);
      ReadDigitsStops(0, t[..n], t[n..]);
      ReadDigitsStops(0, t[..n], t[n..] + [c]);
    } else {
      assert (t + [c])[1..] == t[1..] + [c];
      FirstDigitRunIgnoresAppendedNonDigit(t[1..], c);
    }
  }

  lemma {:induction false} StripLeadingKeepsFirstDigitRun(s: string)
    ensures FirstDigitRun(StripLeading(s)) == FirstDigitRun(s)
  {
    if s != [] && IsSpace(s[0]) { StripLeadingKeepsFirstDigitRun(s[1..]); }
  }

  lemma {:induction false} StripTrailingKeepsFirstDigitRun(s: string)
    ensures FirstDigitRun(StripTrailing(s)) == FirstDigitRun(s)
    decreases |s|
  {
    if s != [] && IsSpace(s[|s| - 1]) {
      assert s == s[..|s| - 1] + [s[|s| - 1]];
      FirstDigitRunIgnoresAppendedNonDigit(s[..|s| - 1], s[|s| - 1]);
      StripTrailingKeepsFirstDigitRun(s[..|s| - 1]);
    }
  }

  /** Whitespace is never a digit, so stripping never changes the first integer of a text. */
  lemma StripKeepsFirstDigitRun(s: string)
    ensures FirstDigitRun(Strip(s)) == FirstDigitRun(s)
  {
    StripTrailingKeepsFirstDigitRun(StripLeading(s));
    StripLeadingKeepsFirstDigitRun(s);
  }

  // ---------------------------------------------------------------------------
  // str.split(sep) and its inverse sep.join(parts)

  function Join(parts: seq<string>, sep: char): string
  {
    if parts == [] then ""
    else if |parts| == 1 then parts[0]
    else parts[0] + [sep] + Join(parts[1..], sep)
  }

  /** `s.split(sep)`: never empty, no part holds sep, and joining the parts gives s back. */
  function Split(s: string, sep: char): (parts: seq<string>)
    ensures |parts| >= 1
    ensures forall i :: 0 <= i < |parts| ==> sep !in parts[i]
    ensures Join(parts, sep) == s
  {
    if s == [] then [""]
    else
      var rest := Split(s[1..], sep);
      if s[0] == sep then
        assert s == [sep] + s[1..];
        [""] + rest
      else
        var parts := [[s[0]] + rest[0]] + rest[1..];
        assert parts[1..] == rest[1..];
        assert s == [s[0]] + s[1..];
        parts
  }

  // ---------------------------------------------------------------------------
  // Substrings

  /** `s.startswith(prefix)` */
  predicate StartsWith(s: string, prefix: string)
  {
    |prefix| <= |s| && s[..|prefix|] == prefix
  }

  /** `pat in s` */
  predicate Contains(s: string, pat: string)
    decreases |s|
  {
    StartsWith(s, pat) || (|s| > 0 && Contains(s[1..], pat))
  }

  /** An occurrence of pat at any position is found. */
  lemma {:induction false} ContainsAt(s: string, pat: string, i: nat)
    requires i + |pat| <= |s| && s[i..i + |pat|] == pat
    ensures Contains(s, pat)
    decreases i
  {
    if i > 0 {
      assert s[1..][i - 1..i - 1 + |pat|] == s[i..i + |pat|];
      ContainsAt(s[1..], pat, i - 1);
    }
  }

  /** A match of a non-empty pattern puts the pattern's first character into s. */
  lemma {:induction false} ContainsHead(s: string, pat: string)
    requires |pat| > 0 && Contains(s, pat)
    ensures pat[0] in s
    decreases |s|
  {
    if StartsWith(s, pat) {
      assert s[0] == s[..|pat|][0];
    } else {
      ContainsHead(s[1..], pat);
      var k :| 0 <= k < |s[1..]| && s[1..][k] == pat[0];
      assert s[k + 1] == pat[0];
    }
  }

  // ---------------------------------------------------------------------------
  // The order of Python's `sorted` on str: code point by code point, a proper
  // prefix first.

  predicate Below(a: string, b: string)
    decreases |a|
  {
    |b| > 0 && (|a| == 0 || a[0] < b[0] || (a[0] == b[0] && Below(a[1..], b[1..])))
  }

  lemma {:induction false} BelowIrreflexive(a: string)
    ensures !Below(a, a)
    decreases |a|
  {
    if |a| > 0 { BelowIrreflexive(a[1..]); }
  }

  lemma {:induction false} BelowTransitive(a: string, b: string, c: string)
    requires Below(a, b) && Below(b, c)
    ensures Below(a, c)
    decreases |a|
  {
    if |a| > 0 && a[0] == b[0] && b[0] == c[0] {
      BelowTransitive(a[1..], b[1..], c[1..]);
    }
  }

  lemma {:induction false} BelowTotal(a: string, b: string)
    requires a != b
    ensures Below(a, b) || Below(b, a)
    decreases |a|
  {
    if |a| > 0 && |b| > 0 && a[0] == b[0] {
      BelowTotal(a[1..], b[1..]);
    }
  }

  lemma {:induction false} BelowAsymmetric(a: string, b: string)
    requires Below(a, b)
    ensures !Below(b, a)
    decreases |a|
  {
    if |a| > 0 && a[0] == b[0] { BelowAsymmetric(a[1..], b[1..]); }
  }

  /** m precedes every other element of s. */
  predicate IsSmallest(m: string, s: set<string>)
  {
    m in s && forall y :: y in s && y != m ==> Below(m, y)
  }

  lemma {:induction false} HasSmallest(s: set<string>)
    requires s != {}
    ensures exists m :: IsSmallest(m, s)
    decreases |s|
  {
    var x :| x in s;
    if s == {x} {
      assert IsSmallest(x, s);
    } else {
      HasSmallest(s - {x});
      var m :| IsSmallest(m, s - {x});
      BelowTotal(x, m);
      if Below(x, m) {
        forall y | y in s && y != x ensures Below(x, y) {
          if y != m { BelowTransitive(x, m, y); }
        }
        assert IsSmallest(x, s);
      } else {
        assert IsSmallest(m, s);
      }
    }
  }

  lemma SmallestUnique(s: set<string>, m1: string, m2: string)
    requires IsSmallest(m1, s) && IsSmallest(m2, s)
    ensures m1 == m2
  {
    if m1 != m2 { BelowAsymmetric(m1, m2); }
  }

  /** `min(s)` */
  function Smallest(s: set<string>): (m: string)
    requires s != {}
    ensures IsSmallest(m, s)
  {
    HasSmallest(s);
    forall m1, m2 | IsSmallest(m1, s) && IsSmallest(m2, s) ensures m1 == m2 {
      SmallestUnique(s, m1, m2);
    }
    var m :| IsSmallest(m, s);
    m
  }

  predicate StrictlyAscending(r: seq<string>)
  {
    forall i, j :: 0 <= i < j < |r| ==> Below(r[i], r[j])
  }

  /** `sorted(s)` for a set of str: every element once, in ascending order. */
  function SortedSet(s: set<string>): (r: seq<string>)
    ensures StrictlyAscending(r)
    ensures forall x :: x in r <==> x in s
    decreases |s|
  {
    if s == {} then []
    else
      var m := Smallest(s);
      var rest := SortedSet(s - {m});
      assert forall j :: 0 <= j < |rest| ==> rest[j] in s - {m};
      [m] + rest
  }

  /** `sorted(s)` lists each element exactly once. */
  lemma {:induction false} SortedSetSize(s: set<string>)
    ensures |SortedSet(s)| == |s|
    decreases |s|
  {
    if s != {} {
      SortedSetSize(s - {Smallest(s)});
    }
  }

  /** The last element of `sorted(s)` is the greatest: no element lies above it. */
  lemma SortedSetLastIsGreatest(s: set<string>, x: string)
    requires x in s
    ensures SortedSet(s) != []
    ensures var r := SortedSet(s); x == r[|r| - 1] || Below(x, r[|r| - 1])
  {
    var r := SortedSet(s);
    var k :| 0 <= k < |r| && r[k] == x;
  }

  /** `sorted(s)[-1]`: the element of a non-empty set that every other element lies below. */
  function LastSorted(s: set<string>): (m: string)
    requires s != {}
    ensures m in s
    ensures forall x :: x in s && x != m ==> Below(x, m)
  {
    SortedSetSize(s);
    SortedSetLastIsAboveAll(s);
    SortedSet(s)[|s| - 1]
  }

  lemma SortedSetLastIsAboveAll(s: set<string>)
    requires s != {}
    ensures |SortedSet(s)| == |s|
    ensures forall x :: x in s && x != SortedSet(s)[|s| - 1] ==> Below(x, SortedSet(s)[|s| - 1])
  {
    SortedSetSize(s);
    forall x | x in s && x != SortedSet(s)[|s| - 1] ensures Below(x, SortedSet(s)[|s| - 1]) {
      SortedSetLastIsGreatest(s, x);
    }
  }
}
