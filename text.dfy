/** JavaScript string operations the core relies on: `trim`, the white space of the regular-expression
    class `\s`, `toLowerCase` (ASCII letters and the Kelvin sign), `includes`, and `length` and
    `substring` counted in UTF-16 code units. */
module Text {

  /** White space as `String.prototype.trim` and the regular-expression class `\s` see it: the
      ECMAScript WhiteSpace and LineTerminator code points. */
  predicate IsWhitespace(c: char) {
    || c == '\t' || c == '\n' || c == '\U{000B}' || c == '\U{000C}' || c == '\r' || c == ' '
    || c == '\U{00A0}' || c == '\U{1680}' || ('\U{2000}' <= c <= '\U{200A}')
    || c == '\U{2028}' || c == '\U{2029}' || c == '\U{202F}' || c == '\U{205F}'
    || c == '\U{3000}' || c == '\U{FEFF}'
  }

  /** Every character of `s` is white space (so `s.trim()` is empty). */
  predicate IsBlank(s: string) {
    forall i :: 0 <= i < |s| ==> IsWhitespace(s[i])
  }

  /** How many white-space characters `s` starts with. */
  function TrimOffset(s: string): (k: nat)
    ensures k <= |s| && IsBlank(s[..k])
    ensures k < |s| ==> !IsWhitespace(s[k])
  {
    if s != [] && IsWhitespace(s[0]) then
      var k := TrimOffset(s[1..]);
      assert s[..k + 1] == [s[0]] + s[1..][..k];
      k + 1
    else 0
  }

  /** Where the trailing white space of `s` begins. */
  function TrimEndIndex(s: string): (e: nat)
    ensures e <= |s| && IsBlank(s[e..])
    ensures e > 0 ==> !IsWhitespace(s[e - 1])
  {
    if s != [] && IsWhitespace(s[|s| - 1]) then
      var e := TrimEndIndex(s[..|s| - 1]);
      assert s[e..] == s[..|s| - 1][e..] + [s[|s| - 1]];
      e
    else |s|
  }

  /** JavaScript's `s.trim()`: the part of `s` between its leading and its trailing white space. */
  function Trim(s: string): (r: string)
    ensures TrimOffset(s) + |r| <= |s|
    ensures r == s[TrimOffset(s)..TrimOffset(s) + |r|]
    ensures IsBlank(s[..TrimOffset(s)]) && IsBlank(s[TrimOffset(s) + |r|..])
    ensures r != [] ==> !IsWhitespace(r[0]) && !IsWhitespace(r[|r| - 1])
    ensures r == [] <==> IsBlank(s)
  {
    var k := TrimOffset(s);
    var e := TrimEndIndex(s);
    if e <= k then
      BlankCover(s, k, e);
      []
    else
      assert s[k] == s[k..e][0];
      s[k..e]
  }

  /** A string whose head up to `k` and whose tail from `e <= k` are blank is blank. */
  lemma BlankCover(s: string, k: nat, e: nat)
    requires e <= k <= |s| && IsBlank(s[..k]) && IsBlank(s[e..])
    ensures IsBlank(s)
  {
    forall i | 0 <= i < |s| ensures IsWhitespace(s[i]) {
      if i < k { assert s[i] == s[..k][i]; } else { assert s[i] == s[e..][i - e]; }
    }
  }

  lemma BlankConcat(a: string, b: string)
    requires IsBlank(a) && IsBlank(b)
    ensures IsBlank(a + b)
  {
    forall i | 0 <= i < |a + b| ensures IsWhitespace((a + b)[i]) {
      if i < |a| { assert (a + b)[i] == a[i]; } else { assert (a + b)[i] == b[i - |a|]; }
    }
  }

  /** Trimming a trimmed string changes nothing. */
  lemma TrimIdempotent(s: string)
    ensures Trim(Trim(s)) == Trim(s)
  {
    var r := Trim(s);
    if r != [] {
      assert TrimOffset(r) == 0;
      assert TrimEndIndex(r) == |r|;
    }
  }

  /** When everything from index `k` on is white space, `s.trim()` ends before `k`. */
  lemma TrimBeforeBlankTail(s: string, k: nat)
    requires k <= |s| && IsBlank(s[k..])
    ensures |Trim(s)| <= k
    ensures Trim(s) != [] ==> TrimOffset(s) + |Trim(s)| <= k
  {
    var r := Trim(s);
    var off := TrimOffset(s);
    if r != [] {
      var last := off + |r| - 1;
      assert s[last] == r[|r| - 1];
      if last >= k {
        assert false;
      }
    }
  }

  /** `toLowerCase` of one character, for the characters that JavaScript lower-cases to a single
      ASCII letter: `A` to `Z`, and the Kelvin sign U+212A, which becomes `k`. */
  function LowerChar(c: char): (d: char)
    ensures !('A' <= d <= 'Z') && d != '\U{212A}'
    ensures c == '\U{212A}' ==> d == 'k'
    ensures !('A' <= c <= 'Z') && c != '\U{212A}' ==> d == c
  {
    if 'A' <= c <= 'Z' then (c as int + 32) as char
    else if c == '\U{212A}' then 'k'
    else c
  }

  /** `s.toLowerCase()`, restricted to the characters `LowerChar` maps. */
  function Lower(s: string): (r: string)
    ensures |r| == |s|
    ensures forall i :: 0 <= i < |s| ==> r[i] == LowerChar(s[i])
  {
    seq(|s|, i requires 0 <= i < |s| => LowerChar(s[i]))
  }

  /** How many UTF-16 code units JavaScript stores for `c`: two for a character outside the Basic
      Multilingual Plane (a surrogate pair), one otherwise. */
  function CodeUnits(c: char): nat {
    if c as int > 0xFFFF then 2 else 1
  }

  /** The code units of the first `n` characters of `s`. */
  function UnitsUpTo(s: string, n: nat): (u: nat)
    requires n <= |s|
    ensures n <= u <= 2 * n
  {
    if n == 0 then 0 else UnitsUpTo(s, n - 1) + CodeUnits(s[n - 1])
  }

  /** `s.length`, which counts UTF-16 code units rather than characters. */
  function Utf16Length(s: string): (n: nat)
    ensures |s| <= n <= 2 * |s|
  {
    UnitsUpTo(s, |s|)
  }

  lemma {:induction false} UnitsOfPrefix(a: string, b: string, n: nat)
    requires n <= |a|
    ensures UnitsUpTo(a + b, n) == UnitsUpTo(a, n)
  {
    if n > 0 {
      UnitsOfPrefix(a, b, n - 1);
      assert (a + b)[n - 1] == a[n - 1];
    }
  }

  lemma {:induction false} UnitsOfSuffix(a: string, b: string, k: nat)
    requires k <= |b|
    ensures UnitsUpTo(a + b, |a| + k) == Utf16Length(a) + UnitsUpTo(b, k)
  {
    if k == 0 {
      UnitsOfPrefix(a, b, |a|);
    } else {
      UnitsOfSuffix(a, b, k - 1);
      assert (a + b)[|a| + k - 1] == b[k - 1];
    }
  }

  /** The length of a concatenation is the sum of the lengths. */
  lemma Utf16Append(a: string, b: string)
    ensures Utf16Length(a + b) == Utf16Length(a) + Utf16Length(b)
  {
    UnitsOfSuffix(a, b, |b|);
  }

  /** A prefix is no longer than the whole string. */
  lemma Utf16PrefixShorter(s: string, k: nat)
    requires k <= |s|
    ensures Utf16Length(s[..k]) <= Utf16Length(s)
  {
    assert s == s[..k] + s[k..];
    Utf16Append(s[..k], s[k..]);
  }

  /** A string of characters of the Basic Multilingual Plane has one code unit per character. */
  lemma Utf16LengthOfBmp(s: string)
    requires forall i :: 0 <= i < |s| ==> s[i] as int <= 0xFFFF
    ensures Utf16Length(s) == |s|
  {
    UnitsOfBmp(s, |s|);
  }

  lemma {:induction false} UnitsOfBmp(s: string, n: nat)
    requires n <= |s| && forall i :: 0 <= i < |s| ==> s[i] as int <= 0xFFFF
    ensures UnitsUpTo(s, n) == n
  {
    if n > 0 {
      UnitsOfBmp(s, n - 1);
    }
  }

  /** A slice is no longer than a prefix that contains it. */
  lemma Utf16SliceShorter(s: string, i: nat, j: nat, k: nat)
    requires i <= j <= k <= |s|
    ensures Utf16Length(s[i..j]) <= Utf16Length(s[..k])
  {
    assert s[..k] == s[..i] + s[i..j] + s[j..k];
    Utf16Append(s[..i] + s[i..j], s[j..k]);
    Utf16Append(s[..i], s[i..j]);
  }

  /** When everything from index `k` on is white space, `s.trim()` is no longer than `s[..k]`, in
      code units. */
  lemma TrimUtf16BeforeBlankTail(s: string, k: nat)
    requires k <= |s| && IsBlank(s[k..])
    ensures Utf16Length(Trim(s)) <= Utf16Length(s[..k])
  {
    var off, r := TrimOffset(s), Trim(s);
    if r != [] {
      assert off + |r| <= k by {
        TrimBeforeBlankTail(s, k);
      }
      Utf16SliceShorter(s, off, off + |r|, k);
    }
  }

  /** `s.substring(0, n)` as far as it keeps whole characters: the characters of `s` from the start
      while their code units fit in `n`. */
  function Utf16Prefix(s: string, n: nat): string {
    if s == [] || CodeUnits(s[0]) > n then [] else [s[0]] + Utf16Prefix(s[1..], n - CodeUnits(s[0]))
  }

  /** The prefix is a prefix of `s` of at most `n` code units, and it is the longest such: either all
      of `s`, or the next character would not fit. */
  lemma {:induction false} Utf16PrefixSpec(s: string, n: nat)
    ensures var r := Utf16Prefix(s, n);
      && |r| <= |s| && r == s[..|r|]
      && Utf16Length(r) <= n
      && (r == s || Utf16Length(r) + CodeUnits(s[|r|]) > n)
    decreases |s|
  {
    if s != [] && CodeUnits(s[0]) <= n {
      var c, tail := s[0], s[1..];
      var rest := Utf16Prefix(tail, n - CodeUnits(c));
      var r := [c] + rest;
      assert Utf16Prefix(s, n) == r;
      Utf16PrefixSpec(tail, n - CodeUnits(c));
      assert r == s[..|r|] by {
        assert s == [c] + tail;
      }
      assert Utf16Length(r) <= n by {
        Utf16Append([c], rest);
        assert Utf16Length([c]) == CodeUnits(c);
      }
      if r != s {
        assert rest != tail;
        assert s[|r|] == tail[|rest|];
        Utf16Append([c], rest);
        assert Utf16Length([c]) == CodeUnits(c);
      }
    }
  }

  /** A string of at most `n` code units is its own prefix. */
  lemma Utf16PrefixWhole(s: string, n: nat)
    requires Utf16Length(s) <= n
    ensures Utf16Prefix(s, n) == s
  {
    Utf16PrefixSpec(s, n);
    var r := Utf16Prefix(s, n);
    if r != s {
      assert s[..|r| + 1] == r + [s[|r|]];
      Utf16Append(r, [s[|r|]]);
      Utf16PrefixShorter(s, |r| + 1);
      assert false;
    }
  }

  /** `s.includes(sub)`: `sub` occurs in `s` at some position. */
  predicate Contains(s: string, sub: string)
    decreases |s|
  {
    |sub| <= |s| && (s[..|sub|] == sub || Contains(s[1..], sub))
  }

  /** `sub` occurs in `s` at position `i`. */
  predicate OccursAt(s: string, sub: string, i: nat) {
    i + |sub| <= |s| && s[i..i + |sub|] == sub
  }

  /** `Contains` is "occurs at some position", in both directions. */
  lemma {:induction false} ContainsIffOccurs(s: string, sub: string)
    ensures Contains(s, sub) <==> exists i: nat :: OccursAt(s, sub, i)
    decreases |s|
  {
    if |sub| <= |s| && s[..|sub|] != sub && |s| > 0 {
      ContainsIffOccurs(s[1..], sub);
      if Contains(s[1..], sub) {
        var i: nat :| OccursAt(s[1..], sub, i);
        assert OccursAt(s, sub, i + 1);
      }
      if exists i: nat :: OccursAt(s, sub, i) {
        var i: nat :| OccursAt(s, sub, i);
        assert i != 0;
        assert OccursAt(s[1..], sub, i - 1);
      }
    } else if |sub| <= |s| && s[..|sub|] == sub {
      assert OccursAt(s, sub, 0);
    }
  }

  /** A string that contains `big` also contains every prefix of `big`. */
  lemma {:induction false} ContainsPrefix(s: string, big: string, small: string)
    requires Contains(s, big) && |small| <= |big| && big[..|small|] == small
    ensures Contains(s, small)
    decreases |s|
  {
    if s[..|big|] != big {
      ContainsPrefix(s[1..], big, small);
    } else {
      assert s[..|small|] == big[..|small|];
    }
  }

  /** `s.toLowerCase().includes(sub)` for a lower-case `sub`: the case-insensitive test. */
  predicate ContainsIgnoringCase(s: string, sub: string) {
    Contains(Lower(s), Lower(sub))
  }

  /** Code-unit order of strings, shortest prefix first: how Postgres orders canonical UUID text. */
  predicate LexLeq(a: string, b: string)
    decreases |a|
  {
    a == [] || (b != [] && (a[0] < b[0] || (a[0] == b[0] && LexLeq(a[1..], b[1..]))))
  }

  /** Any two strings are comparable. */
  lemma {:induction false} LexTotal(a: string, b: string)
    ensures LexLeq(a, b) || LexLeq(b, a)
    decreases |a|
  {
    if a != [] && b != [] && a[0] == b[0] {
      LexTotal(a[1..], b[1..]);
    }
  }

  /** `xs` ordered by the string `key`. */
  ghost predicate SortedByKey<T>(xs: seq<T>, key: T -> string) {
    forall i, j :: 0 <= i < j < |xs| ==> LexLeq(key(xs[i]), key(xs[j]))
  }

  function InsertByKey<T>(x: T, xs: seq<T>, key: T -> string): (r: seq<T>)
    requires SortedByKey(xs, key)
    ensures SortedByKey(r, key)
    ensures multiset(r) == multiset(xs) + multiset{x}
  {
    if xs == [] || LexLeq(key(x), key(xs[0])) then
      var r := [x] + xs;
      assert forall j :: 0 < j < |r| ==> LexLeq(key(x), key(r[j])) by {
        forall j | 0 < j < |r| ensures LexLeq(key(x), key(r[j])) {
          if j > 1 {
            assert r[j] == xs[j - 1];
            LexTrans(key(x), key(xs[0]), key(r[j]));
          }
        }
      }
      r
    else
      LexTotal(key(x), key(xs[0]));
      var rest := InsertByKey(x, xs[1..], key);
      InsertBehindHeadByKey(x, xs, rest, key);
      [xs[0]] + rest
  }

  lemma InsertBehindHeadByKey<T>(x: T, xs: seq<T>, rest: seq<T>, key: T -> string)
    requires xs != [] && SortedByKey(xs, key) && LexLeq(key(xs[0]), key(x))
    requires SortedByKey(rest, key) && multiset(rest) == multiset(xs[1..]) + multiset{x}
    ensures SortedByKey([xs[0]] + rest, key)
    ensures multiset([xs[0]] + rest) == multiset(xs) + multiset{x}
  {
    assert xs == [xs[0]] + xs[1..];
    forall y | y in rest ensures LexLeq(key(xs[0]), key(y)) {
      assert y in multiset(rest);
      if y != x {
        assert y in multiset(xs[1..]);
        var j :| 0 <= j < |xs[1..]| && xs[1..][j] == y;
        assert xs[j + 1] == y;
      }
    }
    var r := [xs[0]] + rest;
    forall i, j | 0 <= i < j < |r| ensures LexLeq(key(r[i]), key(r[j])) {
      if i == 0 { assert r[j] == rest[j - 1] && rest[j - 1] in rest; }
      else { assert r[i] == rest[i - 1] && r[j] == rest[j - 1]; }
    }
  }

  /** The code-unit order is transitive. */
  lemma {:induction false} LexTrans(a: string, b: string, c: string)
    requires LexLeq(a, b) && LexLeq(b, c)
    ensures LexLeq(a, c)
    decreases |a|
  {
    if a != [] && a[0] == b[0] && b[0] == c[0] {
      LexTrans(a[1..], b[1..], c[1..]);
    }
  }

  /** `xs` reordered by the string `key`: an `ORDER BY key` over a text or UUID column. */
  function SortByKey<T>(xs: seq<T>, key: T -> string): (r: seq<T>)
    ensures SortedByKey(r, key)
    ensures multiset(r) == multiset(xs)
    ensures |r| == |xs|
  {
    if xs == [] then []
    else
      assert xs == [xs[0]] + xs[1..];
      var r := InsertByKey(xs[0], SortByKey(xs[1..], key), key);
      assert |r| == |multiset(r)|;
      r
  }
}
