/** The string operations the components rely on: `trim`, `toLowerCase`,
    `toUpperCase`, `includes`, `startsWith` and number-to-text conversion.
    Case mapping covers ASCII letters only. */
module Text {

  /** The characters `String.prototype.trim` strips: ECMAScript's WhiteSpace
      (tab, vertical tab, form feed, no-break space, byte-order mark and every
      space separator) and LineTerminator (line feed, carriage return, line
      and paragraph separators). */
  predicate IsSpace(c: char)
  {
    c == ' ' || c == '\t' || c == '\n' || c == '\r' ||
    c == '\U{000B}' || c == '\U{000C}' || c == '\U{00A0}' || c == '\U{FEFF}' ||
    c == '\U{1680}' || ('\U{2000}' <= c <= '\U{200A}') ||
    c == '\U{2028}' || c == '\U{2029}' || c == '\U{202F}' || c == '\U{205F}' ||
    c == '\U{3000}'
  }

  predicate AllSpace(s: string)
  {
    forall i :: 0 <= i < |s| ==> IsSpace(s[i])
  }

  /** `s` without its leading white space: a suffix of `s`. */
  function TrimStart(s: string): (r: string)
    ensures |r| <= |s| && r == s[|s| - |r|..]
    ensures AllSpace(s[..|s| - |r|])
    ensures r != [] ==> !IsSpace(r[0])
  {
    if s != [] && IsSpace(s[0]) then TrimStart(s[1..]) else s
  }

  /** `s` without its trailing white space: a prefix of `s`. */
  function TrimEnd(s: string): (r: string)
    ensures |r| <= |s| && r == s[..|r|]
    ensures AllSpace(s[|r|..])
    ensures r != [] ==> !IsSpace(r[|r| - 1])
  {
    if s != [] && IsSpace(s[|s| - 1]) then TrimEnd(s[..|s| - 1]) else s
  }

  /** `r` is the slice `s[a..b]`, and everything before `a` and from `b` on
      is white space. */
  ghost predicate StripsTo(s: string, r: string, a: int, b: int)
  {
    0 <= a <= b <= |s| && r == s[a..b] && AllSpace(s[..a]) && AllSpace(s[b..])
  }

  /** `String.prototype.trim`: `s` with only white space dropped, and only at
      its two ends, as much as there is. */
  function Trim(s: string): (r: string)
    ensures exists a, b :: StripsTo(s, r, a, b)
    ensures r != [] ==> !IsSpace(r[0]) && !IsSpace(r[|r| - 1])
    ensures r == [] <==> AllSpace(s)
  {
    var t := TrimStart(s);
    var r := TrimEnd(t);
    TrimSlice(s, t, r);
    TrimEmpty(s, t, r);
    r
  }

  /** The contract of `Trim` pins its result: any non-empty slice with white
      space only outside it and none at its own ends is the trimmed string. */
  lemma TrimIsDetermined(s: string, r: string, a: int, b: int)
    requires StripsTo(s, r, a, b)
    requires r != [] && !IsSpace(r[0]) && !IsSpace(r[|r| - 1])
    ensures r == Trim(s)
  {
    var t := Trim(s);
    assert t != [] by {
      assert s[a] == r[0];
    }
    var a', b' :| StripsTo(s, t, a', b');
    StripsUnique(s, r, a, b, t, a', b');
  }

  lemma StripsUnique(s: string, r: string, a: int, b: int, t: string, a': int, b': int)
    requires StripsTo(s, r, a, b) && r != [] && !IsSpace(r[0]) && !IsSpace(r[|r| - 1])
    requires StripsTo(s, t, a', b') && t != [] && !IsSpace(t[0]) && !IsSpace(t[|t| - 1])
    ensures r == t
  {
    assert !IsSpace(s[a]) by { assert s[a] == r[0]; }
    assert !IsSpace(s[a']) by { assert s[a'] == t[0]; }
    assert !IsSpace(s[b - 1]) by { assert s[b - 1] == r[|r| - 1]; }
    assert !IsSpace(s[b' - 1]) by { assert s[b' - 1] == t[|t| - 1]; }
    SpaceOutside(s, a, b);
    SpaceOutside(s, a', b');
    FirstNonSpace(s, a, a');
    LastNonSpace(s, b, b');
  }

  /** Two positions that each have only white space before them and hold a
      character that is not white space are the same. */
  lemma FirstNonSpace(s: string, a: int, a': int)
    requires 0 <= a < |s| && 0 <= a' < |s| && !IsSpace(s[a]) && !IsSpace(s[a'])
    requires forall i :: 0 <= i < a ==> IsSpace(s[i])
    requires forall i :: 0 <= i < a' ==> IsSpace(s[i])
    ensures a == a'
  {
  }

  /** The same for positions with only white space after them. */
  lemma LastNonSpace(s: string, b: int, b': int)
    requires 0 < b <= |s| && 0 < b' <= |s| && !IsSpace(s[b - 1]) && !IsSpace(s[b' - 1])
    requires forall i :: b <= i < |s| ==> IsSpace(s[i])
    requires forall i :: b' <= i < |s| ==> IsSpace(s[i])
    ensures b == b'
  {
  }

  /** Unfolds `AllSpace` of the two ends of `s` into its indices. */
  lemma SpaceOutside(s: string, a: int, b: int)
    requires 0 <= a <= b <= |s| && AllSpace(s[..a]) && AllSpace(s[b..])
    ensures forall i :: 0 <= i < a ==> IsSpace(s[i])
    ensures forall i :: b <= i < |s| ==> IsSpace(s[i])
  {
    forall i | 0 <= i < a
      ensures IsSpace(s[i])
    {
      assert s[..a][i] == s[i];
    }
    forall i | b <= i < |s|
      ensures IsSpace(s[i])
    {
      assert s[b..][i - b] == s[i];
    }
  }

  lemma TrimSlice(s: string, t: string, r: string)
    requires |t| <= |s| && t == s[|s| - |t|..] && AllSpace(s[..|s| - |t|])
    requires |r| <= |t| && r == t[..|r|] && AllSpace(t[|r|..])
    ensures StripsTo(s, r, |s| - |t|, |s| - |t| + |r|)
  {
    assert s[|s| - |t| + |r|..] == t[|r|..];
  }

  lemma TrimEmpty(s: string, t: string, r: string)
    requires |t| <= |s| && t == s[|s| - |t|..] && AllSpace(s[..|s| - |t|])
    requires t != [] ==> !IsSpace(t[0])
    requires |r| <= |t| && r == t[..|r|] && AllSpace(t[|r|..])
    ensures r == [] <==> AllSpace(s)
  {
    if r == [] {
      assert t[|r|..] == t;
      SpaceLedEmpty(t);
      assert s[..|s| - |t|] == s;
    }
    assert t != [] ==> t[0] == s[|s| - |t|];
  }

  lemma SpaceLedEmpty(t: string)
    requires AllSpace(t) && (t != [] ==> !IsSpace(t[0]))
    ensures t == []
  {
  }

  /** JavaScript's `!s.trim()`: nothing but white space. */
  predicate IsBlank(s: string)
  {
    Trim(s) == []
  }

  /** Non-empty, with no white space at either end: what `trim` leaves of
      a non-blank string. */
  predicate Trimmed(s: string)
  {
    s != [] && !IsSpace(s[0]) && !IsSpace(s[|s| - 1])
  }

  lemma {:induction false} TrimIdempotent(s: string)
    ensures Trim(Trim(s)) == Trim(s)
  {
    var r := Trim(s);
    if r != [] {
      assert TrimStart(r) == r;
      assert TrimEnd(r) == r;
    }
  }

  function LowerChar(c: char): char
  {
    if 'A' <= c <= 'Z' then (c as int + 32) as char else c
  }

  function UpperChar(c: char): char
  {
    if 'a' <= c <= 'z' then (c as int - 32) as char else c
  }

  /** `String.prototype.toLowerCase`, restricted to ASCII letters. */
  function ToLower(s: string): (r: string)
    ensures |r| == |s|
  {
    seq(|s|, i requires 0 <= i < |s| => LowerChar(s[i]))
  }

  /** `String.prototype.toUpperCase`, restricted to ASCII letters. */
  function ToUpper(s: string): (r: string)
    ensures |r| == |s|
  {
    seq(|s|, i requires 0 <= i < |s| => UpperChar(s[i]))
  }

  lemma ToLowerIdempotent(s: string)
    ensures ToLower(ToLower(s)) == ToLower(s)
  {
  }

  /** Lower-casing an upper-cased string gives the lower-cased original. */
  lemma ToLowerOfUpper(s: string)
    ensures ToLower(ToUpper(s)) == ToLower(s)
  {
  }

  /** Case mapping turns no character into white space or out of it, so it
      does not change whether a string is blank. */
  lemma ToLowerKeepsBlank(s: string)
    ensures IsBlank(ToLower(s)) <==> IsBlank(s)
  {
    assert AllSpace(ToLower(s)) <==> AllSpace(s) by {
      forall i | 0 <= i < |s|
        ensures IsSpace(ToLower(s)[i]) <==> IsSpace(s[i])
      {
        assert ToLower(s)[i] == LowerChar(s[i]);
      }
    }
  }

  /** `prefix` is an initial segment of `s` (`String.prototype.startsWith`). */
  predicate StartsWith(s: string, prefix: string)
  {
    |prefix| <= |s| && s[..|prefix|] == prefix
  }

  ghost predicate OccursAt(s: string, sub: string, k: int)
  {
    0 <= k && k + |sub| <= |s| && s[k..k + |sub|] == sub
  }

  /** `String.prototype.includes`: `sub` occurs somewhere in `s`. */
  predicate Includes(s: string, sub: string)
    decreases |s|
  {
    StartsWith(s, sub) || (s != [] && Includes(s[1..], sub))
  }

  lemma {:induction false} IncludesIffOccurs(s: string, sub: string)
    ensures Includes(s, sub) <==> exists k :: OccursAt(s, sub, k)
    decreases |s|
  {
    if s != [] {
      IncludesIffOccurs(s[1..], sub);
      if Includes(s[1..], sub) {
        var k :| OccursAt(s[1..], sub, k);
        assert OccursAt(s, sub, k + 1);
      }
      if k :| OccursAt(s, sub, k) && k > 0 {
        assert OccursAt(s[1..], sub, k - 1);
      }
    }
    if StartsWith(s, sub) {
      assert OccursAt(s, sub, 0);
    }
  }

  /** `sub` sits at offset `k` of `s` when ASCII case is ignored. */
  ghost predicate OccursAtIgnoringCase(s: string, sub: string, k: int)
  {
    0 <= k && k + |sub| <= |s| &&
    forall j :: 0 <= j < |sub| ==> LowerChar(s[k + j]) == LowerChar(sub[j])
  }

  /** Looking for the lower-cased `sub` in the lower-cased `s` is a
      substring search that ignores ASCII case. */
  lemma IncludesIgnoringCase(s: string, sub: string)
    ensures Includes(ToLower(s), ToLower(sub)) <==> exists k :: OccursAtIgnoringCase(s, sub, k)
  {
    IncludesIffOccurs(ToLower(s), ToLower(sub));
    forall k | 0 <= k && k + |sub| <= |s|
      ensures OccursAt(ToLower(s), ToLower(sub), k) <==> OccursAtIgnoringCase(s, sub, k)
    {
      if OccursAt(ToLower(s), ToLower(sub), k) {
        forall j | 0 <= j < |sub|
          ensures LowerChar(s[k + j]) == LowerChar(sub[j])
        {
          assert ToLower(s)[k..k + |sub|][j] == ToLower(sub)[j];
        }
      }
      if OccursAtIgnoringCase(s, sub, k) {
        assert ToLower(s)[k..k + |sub|] == ToLower(sub);
      }
    }
  }

  function Digit(d: nat): (c: char)
    requires d < 10
  {
    ('0' as int + d) as char
  }

  predicate IsDigits(s: string)
  {
    forall i :: 0 <= i < |s| ==> '0' <= s[i] <= '9'
  }

  /** The decimal rendering of `n`, as a template literal `${n}` prints it. */
  function DecimalString(n: nat): (r: string)
    ensures |r| >= 1 && IsDigits(r)
    decreases n
  {
    if n < 10 then [Digit(n)] else DecimalString(n / 10) + [Digit(n % 10)]
  }

  /** The number a string of decimal digits denotes. */
  function DigitsValue(s: string): nat
    requires IsDigits(s)
  {
    if s == [] then 0 else DigitsValue(s[..|s| - 1]) * 10 + (s[|s| - 1] as int - '0' as int)
  }

  lemma {:induction false} DecimalRoundTrip(n: nat)
    ensures DigitsValue(DecimalString(n)) == n
    decreases n
  {
    if n >= 10 {
      DecimalRoundTrip(n / 10);
      var s := DecimalString(n);
      assert s[..|s| - 1] == DecimalString(n / 10);
    }
  }
}
