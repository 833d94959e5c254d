/** Small option type used across the model. */
module Wrappers {
  datatype Option<+T> = None | Some(value: T)
}

/**
  The string operations the moderation pipeline applies: Python's `str.strip()`,
  `str.replace(pattern, "")`, `str.upper()` and the decimal rendering of an `int`
  inside an f-string, together with the lemmas that say what they mean.
*/
module Strings {
  import opened Wrappers

  // ---------------------------------------------------------------------------
  // Whitespace and strip()
  // ---------------------------------------------------------------------------

  /** The characters Python's `str.strip()` removes when it is called without an argument. */
  predicate IsSpace(c: char) {
    ('\t' <= c <= '\r') || ('\U{1C}' <= c <= '\U{1F}') || c == ' ' ||
    c == '\U{85}' || c == '\U{A0}' || c == '\U{1680}' ||
    ('\U{2000}' <= c <= '\U{200A}') || c == '\U{2028}' || c == '\U{2029}' ||
    c == '\U{202F}' || c == '\U{205F}' || c == '\U{3000}'
  }

  /** Every character of `s` is whitespace. */
  predicate AllSpace(s: string) {
    forall k :: 0 <= k < |s| ==> IsSpace(s[k])
  }

  /** Removes leading whitespace. */
  function TrimStart(s: string): string {
    if |s| > 0 && IsSpace(s[0]) then TrimStart(s[1..]) else s
  }

  /** Removes trailing whitespace. */
  function TrimEnd(s: string): string {
    if |s| > 0 && IsSpace(s[|s| - 1]) then TrimEnd(s[..|s| - 1]) else s
  }

  /** `TrimStart(s)` is the longest suffix of `s` that does not start with a space. */
  lemma {:induction false} TrimStartSuffix(s: string)
    ensures var r := TrimStart(s);
      && |r| <= |s| && r == s[|s| - |r|..]
      && AllSpace(s[..|s| - |r|])
      && (r != [] ==> !IsSpace(r[0]))
    decreases |s|
  {
    if |s| > 0 && IsSpace(s[0]) {
      TrimStartSuffix(s[1..]);
      var r := TrimStart(s);
      var n := |s| - |r|;
      assert s[1..][|s| - 1 - |r|..] == s[n..];
      forall k | 0 <= k < n ensures IsSpace(s[..n][k]) {
        if k > 0 {
          assert s[..n][k] == s[1..][..n - 1][k - 1];
        }
      }
    }
  }

  /** `TrimEnd(s)` is the longest prefix of `s` that does not end with a space. */
  lemma {:induction false} TrimEndPrefix(s: string)
    ensures var r := TrimEnd(s);
      && |r| <= |s| && r == s[..|r|]
      && AllSpace(s[|r|..])
      && (r != [] ==> !IsSpace(r[|r| - 1]))
    decreases |s|
  {
    if |s| > 0 && IsSpace(s[|s| - 1]) {
      TrimEndPrefix(s[..|s| - 1]);
      var r := TrimEnd(s);
      assert s[..|s| - 1][..|r|] == s[..|r|];
      forall k | 0 <= k < |s| - |r| ensures IsSpace(s[|r|..][k]) {
        if k < |s| - 1 - |r| {
          assert s[|r|..][k] == s[..|s| - 1][|r|..][k];
        }
      }
    }
  }

  /** Python's `s.strip()`. */
  function Strip(s: string): string {
    TrimEnd(TrimStart(s))
  }

  /** A string with no whitespace at either end. */
  predicate IsStripped(s: string) {
    s == [] || (!IsSpace(s[0]) && !IsSpace(s[|s| - 1]))
  }

  /** `Strip(s)` is `s[i..j]` where `s[..i]` and `s[j..]` are whitespace; the slice itself has none at either end. */
  lemma StripBounds(s: string) returns (i: nat, j: nat)
    ensures i <= j <= |s| && Strip(s) == s[i..j]
    ensures AllSpace(s[..i]) && AllSpace(s[j..])
    ensures IsStripped(Strip(s))
  {
    var t := TrimStart(s);
    var r := TrimEnd(t);
    TrimStartSuffix(s);
    TrimEndPrefix(t);
    i := |s| - |t|;
    j := i + |r|;
    assert t == s[i..] && r == t[..|r|];
    assert r == s[i..j];
    assert s[j..] == t[|r|..];
    if r != [] {
      assert r[0] == t[0];
    }
  }


  /** On a string that starts and ends with a non-space character, `strip()` changes nothing. */
  lemma {:induction false} StripUnchanged(s: string)
    requires IsStripped(s)
    ensures Strip(s) == s
  {
    assert TrimStart(s) == s;
  }

  /** `strip()` is idempotent. */
  lemma StripIdempotent(s: string)
    ensures Strip(Strip(s)) == Strip(s)
  {
    var _, _ := StripBounds(s);
    StripUnchanged(Strip(s));
  }

  // ---------------------------------------------------------------------------
  // Occurrences and replace(pattern, "")
  // ---------------------------------------------------------------------------

  /** `p` occurs in `s` starting at index `k`. */
  predicate OccursAt(s: string, p: string, k: nat) {
    k + |p| <= |s| && s[k..k + |p|] == p
  }

  /** Python's `p in s`. */
  predicate Contains(s: string, p: string) {
    exists k: nat | k <= |s| :: OccursAt(s, p, k)
  }

  /**
    Python's `s.replace(p, "")` for a non-empty `p`: occurrences are found from
    left to right, never overlapping, and each is dropped.
  */
  function RemoveAll(s: string, p: string): (r: string)
    requires p != []
    ensures |r| <= |s|
    decreases |s|
  {
    if |s| < |p| then s
    else if s[..|p|] == p then RemoveAll(s[|p|..], p)
    else [s[0]] + RemoveAll(s[1..], p)
  }

  /** An occurrence in a suffix of `s` is an occurrence in `s`, shifted by the length cut off. */
  lemma ShiftOccurrence(s: string, p: string, d: nat, k: nat)
    requires d <= |s|
    ensures OccursAt(s[d..], p, k) <==> OccursAt(s, p, k + d)
  {
    if k + d + |p| <= |s| {
      assert s[k + d..k + d + |p|] == s[d..][k..k + |p|];
    }
  }

  /** Removing a pattern that does not occur changes nothing. */
  lemma {:induction false} RemoveAbsent(s: string, p: string)
    requires p != [] && !Contains(s, p)
    ensures RemoveAll(s, p) == s
    decreases |s|
  {
    if |s| >= |p| {
      assert !OccursAt(s, p, 0);
      assert s[..|p|] != p;
      forall k: nat | k <= |s[1..]| ensures !OccursAt(s[1..], p, k) {
        ShiftOccurrence(s, p, 1, k);
      }
      RemoveAbsent(s[1..], p);
      assert s == [s[0]] + s[1..];
    }
  }

  /** A prefix free of `p`'s first character is copied through unchanged when removing `p`. */
  lemma {:induction false} RemoveAfterFreePrefix(a: string, b: string, p: string)
    requires p != [] && p[0] !in a
    ensures RemoveAll(a + b, p) == a + RemoveAll(b, p)
    decreases |a|
  {
    if a != [] {
      var s := a + b;
      assert s[0] == a[0] && a[0] in a;
      if |s| >= |p| {
        assert s[..|p|][0] == s[0] != p[0];
      }
      assert RemoveAll(s, p) == [a[0]] + RemoveAll(s[1..], p);
      assert s[1..] == a[1..] + b;
      assert forall c :: c in a[1..] ==> c in a;
      RemoveAfterFreePrefix(a[1..], b, p);
      assert a == [a[0]] + a[1..];
    } else {
      assert a + b == b;
    }
  }

  /** A pattern that does not occur in `s` does not occur in any slice of `s`. */
  lemma AbsentInSlice(s: string, p: string, i: nat, j: nat)
    requires i <= j <= |s| && !Contains(s, p)
    ensures !Contains(s[i..j], p)
  {
    forall k: nat | k <= |s[i..j]| ensures !OccursAt(s[i..j], p, k) {
      if k + |p| <= j - i {
        var inner, outer := s[i..j][k..k + |p|], s[k + i..k + i + |p|];
        forall m | 0 <= m < |p| ensures inner[m] == outer[m] {
          assert inner[m] == s[i..j][k + m];
        }
        assert inner == outer;
        assert !OccursAt(s, p, k + i);
      }
    }
  }

  /** Wherever `q` occurs, its prefix `p` occurs too. */
  lemma AbsentPrefixPattern(s: string, p: string, q: string)
    requires |p| <= |q| && q[..|p|] == p && !Contains(s, p)
    ensures !Contains(s, q)
  {
    forall k: nat | k <= |s| ensures !OccursAt(s, q, k) {
      if k + |q| <= |s| {
        assert !OccursAt(s, p, k);
        assert s[k..k + |q|][..|p|] == s[k..k + |p|];
      }
    }
  }

  /** A pattern whose first character does not appear in `s` does not occur in `s`. */
  lemma AbsentFirstChar(s: string, p: string)
    requires p != [] && p[0] !in s
    ensures !Contains(s, p)
  {
    forall k: nat | k <= |s| ensures !OccursAt(s, p, k) {
      if k + |p| <= |s| {
        assert s[k..k + |p|][0] == s[k] && s[k] in s;
      }
    }
  }

  /** Three backticks: the markdown code-fence delimiter. */
  const Fence := "```"

  /** If the result of removing fences starts with a backtick, so did the input. */
  lemma FenceFirst(t: string)
    ensures |RemoveAll(t, Fence)| >= 1 && RemoveAll(t, Fence)[0] == '`' ==> |t| >= 1 && t[0] == '`'
  {
    if |t| >= 3 && t[..3] == Fence {
      assert t[0] == t[..3][0];
    }
  }

  /** If the result of removing fences starts with two backticks, so did the input. */
  lemma FenceFirstTwo(t: string)
    ensures |RemoveAll(t, Fence)| >= 2 && RemoveAll(t, Fence)[0] == '`' && RemoveAll(t, Fence)[1] == '`'
        ==> |t| >= 2 && t[0] == '`' && t[1] == '`'
  {
    if |t| >= 3 && t[..3] == Fence {
      assert t[0] == t[..3][0] && t[1] == t[..3][1];
    } else if |t| >= 3 {
      assert RemoveAll(t, Fence) == [t[0]] + RemoveAll(t[1..], Fence);
      FenceFirst(t[1..]);
    }
  }

  /**
    Removing every fence leaves no fence behind: deleting a run of three
    backticks never brings two backtick runs together into a new one.
  */
  lemma {:induction false} NoFenceAfterRemoval(s: string)
    ensures !Contains(RemoveAll(s, Fence), Fence)
    decreases |s|
  {
    var r := RemoveAll(s, Fence);
    if |s| >= 3 && s[..3] == Fence {
      NoFenceAfterRemoval(s[3..]);
    } else if |s| >= 3 {
      var tail := RemoveAll(s[1..], Fence);
      assert r == [s[0]] + tail;
      NoFenceAfterRemoval(s[1..]);
      FenceFirstTwo(s[1..]);
      assert s[..3] == [s[0], s[1], s[2]];
      forall k: nat | k <= |r| ensures !OccursAt(r, Fence, k) {
        if k == 0 {
          if |r| >= 3 {
            assert r[..3] == [s[0], tail[0], tail[1]];
          }
        } else {
          assert r[1..] == tail;
          ShiftOccurrence(r, Fence, 1, k - 1);
        }
      }
    }
  }

  // ---------------------------------------------------------------------------
  // upper()
  // ---------------------------------------------------------------------------

  predicate IsAsciiLower(c: char) { 'a' <= c <= 'z' }

  predicate IsAscii(c: char) { c < '\U{80}' }

  /** The upper-case form of an ASCII character. */
  function AsciiUpper(c: char): char {
    if IsAsciiLower(c) then (c as int - 32) as char else c
  }

  /**
    Python's upper-case mapping of one character, as a string: ASCII letters,
    and the non-ASCII characters whose upper-case form is pure ASCII (dotless i,
    long s, sharp s and the Latin ligatures U+FB00 to U+FB06). Every other character
    is left as it is.
  */
  function UpperChar(c: char): string {
    if IsAscii(c) then [AsciiUpper(c)]
    else if c == '\U{131}' then "I"
    else if c == '\U{17F}' then "S"
    else if c == '\U{DF}' then "SS"
    else if c == '\U{FB00}' then "FF"
    else if c == '\U{FB01}' then "FI"
    else if c == '\U{FB02}' then "FL"
    else if c == '\U{FB03}' then "FFI"
    else if c == '\U{FB04}' then "FFL"
    else if c == '\U{FB05}' || c == '\U{FB06}' then "ST"
    else [c]
  }

  /** Python's `s.upper()`, character by character. */
  function Upper(s: string): string {
    if s == [] then [] else UpperChar(s[0]) + Upper(s[1..])
  }

  lemma {:induction false} UpperAppend(a: string, b: string)
    ensures Upper(a + b) == Upper(a) + Upper(b)
    decreases |a|
  {
    if a != [] {
      assert (a + b)[0] == a[0] && (a + b)[1..] == a[1..] + b;
      UpperAppend(a[1..], b);
    } else {
      assert a + b == b;
    }
  }

  /** A string each of whose characters upper-cases to itself is left unchanged by `Upper`. */
  lemma {:induction false} UpperFixedChars(u: string)
    requires forall i :: 0 <= i < |u| ==> UpperChar(u[i]) == [u[i]]
    ensures Upper(u) == u
    decreases |u|
  {
    if u != [] {
      UpperFixedChars(u[1..]);
      assert u == [u[0]] + u[1..];
    }
  }

  lemma UpperCharFixed(c: char)
    ensures Upper(UpperChar(c)) == UpperChar(c)
  {
    var u := UpperChar(c);
    forall i | 0 <= i < |u| ensures UpperChar(u[i]) == [u[i]] {
      if !IsAscii(c) && u != [c] {
        assert 'A' <= u[i] <= 'Z';
      }
    }
    UpperFixedChars(u);
  }

  /** Upper-casing twice is upper-casing once. */
  lemma {:induction false} UpperIdempotent(s: string)
    ensures Upper(Upper(s)) == Upper(s)
    decreases |s|
  {
    if s != [] {
      UpperAppend(UpperChar(s[0]), Upper(s[1..]));
      UpperCharFixed(s[0]);
      UpperIdempotent(s[1..]);
    }
  }

  /** On an ASCII string, upper-casing maps each character in place. */
  lemma {:induction false} UpperAscii(s: string)
    requires forall i :: 0 <= i < |s| ==> IsAscii(s[i])
    ensures |Upper(s)| == |s|
    ensures forall i :: 0 <= i < |s| ==> Upper(s)[i] == AsciiUpper(s[i])
    decreases |s|
  {
    if s != [] {
      UpperAscii(s[1..]);
      assert Upper(s) == [AsciiUpper(s[0])] + Upper(s[1..]);
      forall i | 1 <= i < |s| ensures Upper(s)[i] == AsciiUpper(s[i]) {
        assert s[1..][i - 1] == s[i];
      }
    }
  }

  /** An upper-case ASCII word: capital letters and underscores. */
  predicate IsUpperWord(t: string) {
    forall i :: 0 <= i < |t| ==> ('A' <= t[i] <= 'Z' || t[i] == '_')
  }

  /** `c` is `u` in either case. */
  predicate SameLetterIgnoringCase(c: char, u: char) {
    c == u || ('A' <= u <= 'Z' && c as int == u as int + 32)
  }

  /** One ASCII character upper-cases to an upper-case letter or underscore exactly when it is that character in either case. */
  lemma AsciiUpperIs(c: char, u: char)
    requires IsAscii(c) && ('A' <= u <= 'Z' || u == '_')
    ensures AsciiUpper(c) == u <==> SameLetterIgnoringCase(c, u)
  {
  }

  /** `c` spells the upper-case word `w` in any mixture of cases. */
  predicate SpellsIgnoringCase(c: string, w: string) {
    |c| == |w| && forall i :: 0 <= i < |c| ==> SameLetterIgnoringCase(c[i], w[i])
  }

  /**
    An ASCII string upper-cases to an upper-case word exactly when it spells that
    word with any mixture of cases.
  */
  lemma UpperMatchesIgnoringCase(s: string, t: string)
    requires forall i :: 0 <= i < |s| ==> IsAscii(s[i])
    requires IsUpperWord(t)
    ensures Upper(s) == t <==> SpellsIgnoringCase(s, t)
  {
    UpperAscii(s);
    if |s| == |t| {
      forall i | 0 <= i < |s| ensures (Upper(s)[i] == t[i]) == SameLetterIgnoringCase(s[i], t[i]) {
        AsciiUpperIs(s[i], t[i]);
      }
      assert Upper(s) == t <==> forall i :: 0 <= i < |s| ==> Upper(s)[i] == t[i];
    }
  }

  // ---------------------------------------------------------------------------
  // Decimal rendering of integers (an `int` inside an f-string)
  // ---------------------------------------------------------------------------

  predicate IsDigit(c: char) { '0' <= c <= '9' }

  predicate AllDigits(s: string) {
    forall i :: 0 <= i < |s| ==> IsDigit(s[i])
  }

  function DigitChar(d: nat): (c: char)
    requires d < 10
    ensures IsDigit(c) && c as int - '0' as int == d
  {
    ('0' as int + d) as char
  }

  /** The decimal digits of `n`, most significant first, without leading zeros. */
  function NatToString(n: nat): (r: string)
    ensures r != [] && AllDigits(r)
    ensures r[0] == '0' ==> n == 0 && |r| == 1
  {
    if n < 10 then [DigitChar(n)] else NatToString(n / 10) + [DigitChar(n % 10)]
  }

  /** How Python renders an `int` in an f-string: its decimal digits, with a minus sign when negative. */
  function IntToString(i: int): string {
    if i < 0 then "-" + NatToString(-i) else NatToString(i)
  }

  /** The number a string of decimal digits denotes. */
  function DigitsValue(s: string): nat
    requires AllDigits(s)
  {
    if s == [] then 0
    else
      assert IsDigit(s[|s| - 1]);
      DigitsValue(s[..|s| - 1]) * 10 + (s[|s| - 1] as int - '0' as int)
  }

  /** Reads back an optionally signed decimal integer. */
  function ParseInt(s: string): Option<int> {
    if |s| >= 2 && s[0] == '-' && AllDigits(s[1..]) then Some(0 - DigitsValue(s[1..]) as int)
    else if s != [] && AllDigits(s) then Some(DigitsValue(s))
    else None
  }

  lemma {:induction false} NatToStringRoundTrip(n: nat)
    ensures DigitsValue(NatToString(n)) == n
  {
    if n >= 10 {
      var r := NatToString(n);
      assert r[..|r| - 1] == NatToString(n / 10);
      NatToStringRoundTrip(n / 10);
    }
  }

  /** A minus sign followed by digits reads as the negated value of the digits. */
  lemma ParseNegative(d: string)
    requires d != [] && AllDigits(d)
    ensures ParseInt("-" + d) == Some(0 - DigitsValue(d) as int)
  {
    assert ("-" + d)[1..] == d;
  }

  /** Digits alone read as their value. */
  lemma ParseUnsigned(d: string)
    requires d != [] && AllDigits(d)
    ensures ParseInt(d) == Some(DigitsValue(d))
  {
    assert IsDigit(d[0]);
  }

  /** The rendering of an integer reads back as that integer. */
  lemma IntToStringRoundTrip(i: int)
    ensures ParseInt(IntToString(i)) == Some(i)
  {
    if i < 0 {
      ParseNegative(NatToString(-i));
      NatToStringRoundTrip(-i);
    } else {
      ParseUnsigned(NatToString(i));
      NatToStringRoundTrip(i);
    }
  }

  /** A rendered integer contains no line break. */
  lemma IntToStringNoNewline(i: int)
    ensures '\n' !in IntToString(i)
  {
    var s := IntToString(i);
    forall k | 0 <= k < |s| ensures s[k] != '\n' {
      if i < 0 && k > 0 {
        assert s[k] == s[1..][k - 1];
      }
    }
  }

  // ---------------------------------------------------------------------------
  // Finding a character
  // ---------------------------------------------------------------------------

  /** The index of the first `c` in `s`, or `|s|` when there is none. */
  function IndexOf(s: string, c: char): (n: nat)
    ensures n <= |s| && c !in s[..n]
    ensures n < |s| ==> s[n] == c
  {
    if s == [] then 0
    else if s[0] == c then 0
    else
      var n := 1 + IndexOf(s[1..], c);
      assert s[..n] == [s[0]] + s[1..][..n - 1];
      n
  }

  /** The first `c` in `a + b`, when `a` has none and `b` starts with one, is right after `a`. */
  lemma IndexOfAfter(a: string, b: string, c: char)
    requires c !in a && b != [] && b[0] == c
    ensures IndexOf(a + b, c) == |a|
  {
    var x := a + b;
    assert x[|a|] == c;
    assert x[..|a|] == a;
    assert forall k :: 0 <= k < |a| ==> x[k] == a[k] && a[k] in a;
  }
}
