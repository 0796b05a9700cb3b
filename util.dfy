/** Small value types and sequence helpers shared by every module of the model. */
module Util {

  datatype Option<T> = None | Some(value: T) {
    function GetOr(default: T): T {
      match this
      case Some(v) => v
      case None => default
    }
  }

  /** JavaScript truthiness of an optional string: present and not empty. */
  predicate Truthy(o: Option<string>) {
    o.Some? && o.value != ""
  }

  /** JavaScript's `s || null` for an optional string: an absent or empty string becomes null. */
  function OrNull(o: Option<string>): (r: Option<string>)
    ensures r.Some? <==> Truthy(o)
    ensures r.Some? ==> r == o
  {
    if Truthy(o) then o else None
  }

  /** The index of the first element of `xs` that satisfies `p`: SQL's `SELECT ... WHERE p` read as
      `result[0]`, and JavaScript's `find`. */
  function FirstIndex<T>(xs: seq<T>, p: T -> bool): (r: Option<nat>)
    ensures r.Some? ==> r.value < |xs| && p(xs[r.value])
    ensures r.Some? ==> forall i :: 0 <= i < r.value ==> !p(xs[i])
    ensures r.None? <==> forall i :: 0 <= i < |xs| ==> !p(xs[i])
  {
    if xs == [] then None
    else if p(xs[0]) then Some(0)
    else match FirstIndex(xs[1..], p)
      case None => None
      case Some(i) => Some(i + 1)
  }

  /** The decimal rendering of a natural number, as JavaScript's `String(n)` and `n.toString()` give it. */
  function NatToString(n: nat): (r: string)
    ensures |r| >= 1
    ensures forall i :: 0 <= i < |r| ==> '0' <= r[i] <= '9'
    ensures n == 0 <==> r == "0"
  {
    if n < 10 then [Digit(n)] else NatToString(n / 10) + [Digit(n % 10)]
  }

  function Digit(d: nat): (c: char)
    requires d < 10
    ensures '0' <= c <= '9'
  {
    "0123456789"[d]
  }

  /** The first `n` elements of `xs` (all of them when there are fewer): SQL's `LIMIT n`. */
  function Take<T>(xs: seq<T>, n: nat): (r: seq<T>)
    ensures |r| <= n && |r| <= |xs|
    ensures |r| == if |xs| < n then |xs| else n
    ensures r == xs[..|r|]
  {
    if |xs| <= n then xs else xs[..n]
  }

  /** JavaScript's `xs.slice(start)` for an integer `start`: a negative start counts from the end,
      and a start beyond either end is clamped. */
  function SliceFrom<T>(xs: seq<T>, start: int): (r: seq<T>)
    ensures |r| <= |xs|
    ensures r == xs[|xs| - |r|..]
    ensures start >= 0 ==> |r| == if start >= |xs| then 0 else |xs| - start
    ensures start < 0 ==> |r| == if -start >= |xs| then |xs| else -start
  {
    var from := if start < 0 then (if |xs| + start < 0 then 0 else |xs| + start)
                else (if start > |xs| then |xs| else start);
    xs[from..]
  }

  /** `xs` is ordered by `key`, largest first. */
  ghost predicate SortedDesc<T>(xs: seq<T>, key: T -> real) {
    forall i, j :: 0 <= i < j < |xs| ==> key(xs[i]) >= key(xs[j])
  }

  /** Places `x` into the descending-ordered `xs` in front of the first element whose key is not larger. */
  function InsertDesc<T>(x: T, xs: seq<T>, key: T -> real): (r: seq<T>)
    requires SortedDesc(xs, key)
    ensures SortedDesc(r, key)
    ensures multiset(r) == multiset(xs) + multiset{x}
    ensures |r| == |xs| + 1
  {
    if xs == [] || key(x) >= key(xs[0]) then
      [x] + xs
    else
      var rest := InsertDesc(x, xs[1..], key);
      InsertBehindHead(x, xs, rest, key);
      [xs[0]] + rest
  }

  lemma InsertBehindHead<T>(x: T, xs: seq<T>, rest: seq<T>, key: T -> real)
    requires xs != [] && SortedDesc(xs, key) && key(x) < key(xs[0])
    requires SortedDesc(rest, key) && multiset(rest) == multiset(xs[1..]) + multiset{x}
    ensures SortedDesc([xs[0]] + rest, key)
    ensures multiset([xs[0]] + rest) == multiset(xs) + multiset{x}
  {
    assert xs == [xs[0]] + xs[1..];
    forall y | y in rest ensures key(y) <= key(xs[0]) {
      assert y in multiset(rest);
      assert y == x || y in multiset(xs[1..]);
    }
    var r := [xs[0]] + rest;
    forall i, j | 0 <= i < j < |r| ensures key(r[i]) >= key(r[j]) {
      if i == 0 { assert r[j] == rest[j - 1] && rest[j - 1] in rest; }
      else { assert r[i] == rest[i - 1] && r[j] == rest[j - 1]; }
    }
  }

  /** `xs` reordered by `key`, largest first: an `ORDER BY ... DESC`. The insertion puts an element
      before the equal ones behind it, so elements with equal keys keep their order in `xs`. */
  function SortDesc<T>(xs: seq<T>, key: T -> real): (r: seq<T>)
    ensures SortedDesc(r, key)
    ensures multiset(r) == multiset(xs)
    ensures |r| == |xs|
  {
    if xs == [] then []
    else
      assert xs == [xs[0]] + xs[1..];
      InsertDesc(xs[0], SortDesc(xs[1..], key), key)
  }

  /** `xs` reordered by `key`, smallest first: an `ORDER BY ... ASC`. */
  function SortAsc<T>(xs: seq<T>, key: T -> real): (r: seq<T>)
    ensures forall i, j :: 0 <= i < j < |r| ==> key(r[i]) <= key(r[j])
    ensures multiset(r) == multiset(xs)
    ensures |r| == |xs|
  {
    var neg := (x: T) => -key(x);
    var r := SortDesc(xs, neg);
    assert forall i, j :: 0 <= i < j < |r| ==> neg(r[i]) >= neg(r[j]);
    r
  }

  /** The elements of `xs` that satisfy `p`, in their order: JavaScript's `filter`, SQL's `WHERE`. */
  function Filter<T(!new)>(xs: seq<T>, p: T -> bool): (r: seq<T>)
    ensures |r| <= |xs|
    ensures forall x :: x in r <==> x in xs && p(x)
    ensures forall i :: 0 <= i < |r| ==> p(r[i])
  {
    if xs == [] then []
    else
      var rest := Filter(xs[..|xs| - 1], p);
      var last := xs[|xs| - 1];
      assert xs == xs[..|xs| - 1] + [last];
      if p(last) then rest + [last] else rest
  }

  /** Filtering distributes over concatenation, so the kept elements keep their relative order. */
  lemma {:induction false} FilterAppend<T(!new)>(xs: seq<T>, ys: seq<T>, p: T -> bool)
    ensures Filter(xs + ys, p) == Filter(xs, p) + Filter(ys, p)
    decreases |ys|
  {
    if ys == [] {
      assert xs + ys == xs;
    } else {
      var init, last := ys[..|ys| - 1], ys[|ys| - 1];
      assert ys == init + [last];
      assert (xs + ys)[..|xs + ys| - 1] == xs + init;
      FilterAppend(xs, init, p);
    }
  }

  /** JavaScript's `filter(p).pop()`: the last element `Filter` keeps is the last element of `xs`
      that satisfies `p`, and nothing is kept exactly when no element satisfies it. */
  lemma {:induction false} FilterLast<T(!new)>(xs: seq<T>, p: T -> bool, k: nat)
    requires k < |xs| && p(xs[k]) && forall j :: k < j < |xs| ==> !p(xs[j])
    ensures Filter(xs, p) != [] && Filter(xs, p)[|Filter(xs, p)| - 1] == xs[k]
    decreases |xs|
  {
    var init, last := xs[..|xs| - 1], xs[|xs| - 1];
    if k < |xs| - 1 {
      assert !p(last);
      assert init[k] == xs[k];
      FilterLast(init, p, k);
    }
  }

  /** No two elements of `xs` share a `key`: a primary-key or UNIQUE constraint. */
  ghost predicate UniqueBy<T, K>(xs: seq<T>, key: T -> K) {
    forall i, j :: 0 <= i < j < |xs| ==> key(xs[i]) != key(xs[j])
  }

  /** Appending an element whose key is new keeps the keys unique. */
  lemma UniqueSnoc<T, K>(xs: seq<T>, x: T, key: T -> K)
    requires UniqueBy(xs, key)
    requires forall i :: 0 <= i < |xs| ==> key(xs[i]) != key(x)
    ensures UniqueBy(xs + [x], key)
  {
    var ys := xs + [x];
    forall i, j | 0 <= i < j < |ys| ensures key(ys[i]) != key(ys[j]) {
      assert ys[i] == xs[i];
      if j < |xs| { assert ys[j] == xs[j]; }
    }
  }

  /** Sequences with the same multiset hold the same elements. */
  lemma SameElements<T>(xs: seq<T>, ys: seq<T>)
    requires multiset(xs) == multiset(ys)
    ensures forall x :: x in xs <==> x in ys
  {
    forall x ensures x in xs <==> x in ys {
      assert x in xs <==> x in multiset(xs);
      assert x in ys <==> x in multiset(ys);
    }
  }

  /** The first `k` of a descending sort are the top `k`: together with the rest they are all of
      `xs`, and none of the rest ranks above any of them. */
  lemma TopK<T>(xs: seq<T>, key: T -> real, k: nat)
    ensures var sorted := SortDesc(xs, key); var top := Take(sorted, k); var rest := sorted[|top|..];
      && multiset(top) + multiset(rest) == multiset(xs)
      && forall a, b :: a in top && b in rest ==> key(a) >= key(b)
  {
    var sorted := SortDesc(xs, key);
    var top := Take(sorted, k);
    var rest := sorted[|top|..];
    assert sorted == top + rest;
    forall a, b | a in top && b in rest ensures key(a) >= key(b) {
      var i :| 0 <= i < |top| && top[i] == a;
      var j :| 0 <= j < |rest| && rest[j] == b;
      assert sorted[i] == a && sorted[|top| + j] == b;
    }
  }

  /** The first `k` of an ascending sort are the bottom `k`: together with the rest they are all of
      `xs`, and none of the rest ranks below any of them. */
  lemma BottomK<T>(xs: seq<T>, key: T -> real, k: nat)
    ensures var sorted := SortAsc(xs, key); var low := Take(sorted, k); var rest := sorted[|low|..];
      && multiset(low) + multiset(rest) == multiset(xs)
      && forall a, b :: a in low && b in rest ==> key(a) <= key(b)
  {
    var sorted := SortAsc(xs, key);
    var low := Take(sorted, k);
    var rest := sorted[|low|..];
    assert sorted == low + rest;
    forall a, b | a in low && b in rest ensures key(a) <= key(b) {
      var i :| 0 <= i < |low| && low[i] == a;
      var j :| 0 <= j < |rest| && rest[j] == b;
      assert sorted[i] == a && sorted[|low| + j] == b;
    }
  }

  /** The index of the first element whose `key` is `k`: a lookup by a (unique) key column. */
  function IndexOfKey<T, K(==)>(xs: seq<T>, key: T -> K, k: K): (r: Option<nat>)
    ensures r.Some? ==> r.value < |xs| && key(xs[r.value]) == k
    ensures r.None? <==> forall i :: 0 <= i < |xs| ==> key(xs[i]) != k
  {
    FirstIndex(xs, (x: T) => key(x) == k)
  }

  /** Under a unique key, the lookup finds exactly the element that carries the key. */
  lemma IndexOfUniqueKey<T, K>(xs: seq<T>, key: T -> K, i: nat)
    requires UniqueBy(xs, key) && i < |xs|
    ensures IndexOfKey(xs, key, key(xs[i])) == Some(i)
  {
  }

  /** The strings `f(x)` of the elements, concatenated in order. */
  function Concat<T>(xs: seq<T>, f: T -> string): string {
    if xs == [] then "" else Concat(xs[..|xs| - 1], f) + f(xs[|xs| - 1])
  }

  /** Concatenating over two parts is concatenating the two results. */
  lemma {:induction false} ConcatAppend<T>(xs: seq<T>, ys: seq<T>, f: T -> string)
    ensures Concat(xs + ys, f) == Concat(xs, f) + Concat(ys, f)
    decreases |ys|
  {
    if ys == [] {
      assert xs + ys == xs;
    } else {
      var init, last := ys[..|ys| - 1], ys[|ys| - 1];
      assert (xs + ys)[..|xs + ys| - 1] == xs + init;
      ConcatAppend(xs, init, f);
    }
  }

  lemma ConcatSingle<T>(x: T, f: T -> string)
    ensures Concat([x], f) == f(x)
  {
    assert [x][..0] == [];
  }

  /** Every element contributes its string once, between those of the elements before and after
      it. */
  lemma ConcatAt<T>(before: seq<T>, x: T, after: seq<T>, f: T -> string)
    ensures Concat(before + [x] + after, f) == Concat(before, f) + f(x) + Concat(after, f)
  {
    ConcatAppend(before + [x], after, f);
    ConcatAppend(before, [x], f);
    ConcatSingle(x, f);
  }

  /** The elements of a prefix, grown by one index. */
  lemma PrefixElementsSnoc<T>(xs: seq<T>, n: nat)
    requires 0 < n <= |xs|
    ensures (set k | 0 <= k < n :: xs[k]) == (set k | 0 <= k < n - 1 :: xs[k]) + {xs[n - 1]}
  {
    var big, small := set k | 0 <= k < n :: xs[k], set k | 0 <= k < n - 1 :: xs[k];
    forall x | x in big ensures x in small + {xs[n - 1]} {
      var k :| 0 <= k < n && xs[k] == x;
      if k < n - 1 { assert xs[k] in small; }
    }
    forall x | x in small + {xs[n - 1]} ensures x in big {
      if x in small {
        var k :| 0 <= k < n - 1 && xs[k] == x;
        assert xs[k] in big;
      } else {
        assert xs[n - 1] in big;
      }
    }
  }

  /** `f` applied to the first `n` elements, in order; `None` as soon as one application is `None`:
      the outcome of a loop that throws on the first failure. */
  function Collect<A, B>(xs: seq<A>, f: A -> Option<B>, n: nat): Option<seq<B>>
    requires n <= |xs|
  {
    if n == 0 then Some([])
    else match Collect(xs, f, n - 1)
      case None => None
      case Some(ys) =>
        match f(xs[n - 1])
        case None => None
        case Some(y) => Some(ys + [y])
  }

  /** The loop succeeds exactly when every application does, and then it holds exactly one result
      per element, in order. */
  lemma {:induction false} CollectSpec<A, B>(xs: seq<A>, f: A -> Option<B>, n: nat)
    requires n <= |xs|
    ensures var r := Collect(xs, f, n);
      && (r.Some? <==> forall k :: 0 <= k < n ==> f(xs[k]).Some?)
      && (r.Some? ==>
            && |r.value| == n
            && forall k :: 0 <= k < n ==> r.value[k] == f(xs[k]).value)
    decreases n
  {
    if n > 0 {
      CollectSpec(xs, f, n - 1);
    }
  }

  /** One more element: the loop fails if its application does, and otherwise appends its result. */
  lemma CollectNext<A, B>(xs: seq<A>, f: A -> Option<B>, n: nat, ys: seq<B>)
    requires n < |xs| && Collect(xs, f, n) == Some(ys)
    ensures f(xs[n]).None? ==> Collect(xs, f, n + 1).None?
    ensures f(xs[n]).Some? ==> Collect(xs, f, n + 1) == Some(ys + [f(xs[n]).value])
  { }

  /** Once an application has failed, the loop's outcome stays `None`. */
  lemma {:induction false} CollectStops<A, B>(xs: seq<A>, f: A -> Option<B>, m: nat, n: nat)
    requires m <= n <= |xs| && Collect(xs, f, m).None?
    ensures Collect(xs, f, n).None?
    decreases n - m
  {
    if m < n {
      CollectStops(xs, f, m, n - 1);
    }
  }
}
