/** The array operations the components use: `filter`, `some`, `includes`-then-remove-or-append
    toggling, `slice(0, n)`, and `sort` by an integer key. */
module Seqs {

  /** `s.filter(p)`: the elements of s that satisfy p, in their original order. */
  function Select<T>(s: seq<T>, p: T -> bool): (r: seq<T>)
    ensures |r| <= |s|
    decreases |s|
  {
    if s == [] then []
    else
      assert s == [s[0]] + s[1..];
      (if p(s[0]) then [s[0]] else []) + Select(s[1..], p)
  }

  /** Filtering keeps every element that passes with its full multiplicity, and no other. */
  lemma {:induction false} SelectMultiset<T>(s: seq<T>, p: T -> bool, x: T)
    ensures multiset(Select(s, p))[x] == if p(x) then multiset(s)[x] else 0
    decreases |s|
  {
    if s != [] {
      assert s == [s[0]] + s[1..];
      SelectMultiset(s[1..], p, x);
    }
  }

  /** Filtering keeps exactly the elements that pass. */
  lemma {:induction false} SelectMembers<T>(s: seq<T>, p: T -> bool)
    ensures forall x :: x in Select(s, p) <==> x in s && p(x)
    decreases |s|
  {
    if s != [] {
      SelectMembers(s[1..], p);
      assert s == [s[0]] + s[1..];
    }
  }

  /** Filtering yields a sub-multiset of its input. */
  lemma SelectSubMultiset<T>(s: seq<T>, p: T -> bool)
    ensures multiset(Select(s, p)) <= multiset(s)
  {
    forall x ensures multiset(Select(s, p))[x] <= multiset(s)[x] {
      SelectMultiset(s, p, x);
    }
  }

  lemma {:induction false} SelectExt<T>(s: seq<T>, p: T -> bool, q: T -> bool)
    requires forall x :: x in s ==> p(x) == q(x)
    ensures Select(s, p) == Select(s, q)
    decreases |s|
  {
    if s != [] {
      assert forall x :: x in s[1..] ==> x in s;
      SelectExt(s[1..], p, q);
    }
  }

  /** A filter that every element passes changes nothing. */
  lemma {:induction false} SelectAllPass<T>(s: seq<T>, p: T -> bool)
    requires forall x :: x in s ==> p(x)
    ensures Select(s, p) == s
    decreases |s|
  {
    if s != [] {
      assert forall x :: x in s[1..] ==> x in s;
      SelectAllPass(s[1..], p);
      assert s == [s[0]] + s[1..];
    }
  }

  /** Two filters in a row are one filter by the conjunction. */
  lemma {:induction false} SelectFuse<T>(s: seq<T>, p: T -> bool, q: T -> bool, pq: T -> bool)
    requires forall x :: x in s ==> pq(x) == (p(x) && q(x))
    ensures Select(Select(s, p), q) == Select(s, pq)
    decreases |s|
  {
    if s != [] {
      assert forall x :: x in s[1..] ==> x in s;
      SelectFuse(s[1..], p, q, pq);
      var head := if p(s[0]) then [s[0]] else [];
      assert Select(s, p) == head + Select(s[1..], p);
      SelectAppend(head, Select(s[1..], p), q);
    }
  }

  /** Filtering a list with a given first element. */
  lemma SelectCons<T>(x: T, s: seq<T>, p: T -> bool)
    ensures Select([x] + s, p) == (if p(x) then [x] else []) + Select(s, p)
  {
    assert ([x] + s)[1..] == s;
  }

  lemma {:induction false} SelectAppend<T>(a: seq<T>, b: seq<T>, p: T -> bool)
    ensures Select(a + b, p) == Select(a, p) + Select(b, p)
    decreases |a|
  {
    if a != [] {
      var head := if p(a[0]) then [a[0]] else [];
      assert (a + b)[0] == a[0];
      assert (a + b)[1..] == a[1..] + b;
      assert Select(a + b, p) == head + Select(a[1..] + b, p);
      SelectAppend(a[1..], b, p);
      assert head + (Select(a[1..], p) + Select(b, p)) == (head + Select(a[1..], p)) + Select(b, p);
    } else {
      assert a + b == b;
    }
  }

  /** The order in which two filters are applied does not matter. */
  lemma SelectCommute<T>(s: seq<T>, p: T -> bool, q: T -> bool)
    ensures Select(Select(s, p), q) == Select(Select(s, q), p)
  {
    var both := x => p(x) && q(x);
    SelectFuse(s, p, q, both);
    SelectFuse(s, q, p, both);
  }

  /** A filter keeps everything exactly when every element passes. */
  lemma {:induction false} SelectKeepsAll<T>(s: seq<T>, p: T -> bool)
    ensures |Select(s, p)| == |s| <==> forall i :: 0 <= i < |s| ==> p(s[i])
    decreases |s|
  {
    if s != [] {
      var t := s[1..];
      SelectKeepsAll(t, p);
      assert forall i :: 0 <= i < |t| ==> t[i] == s[i + 1];
      if p(s[0]) {
        assert |Select(s, p)| == 1 + |Select(t, p)|;
        if forall i :: 0 <= i < |t| ==> p(t[i]) {
          assert forall i :: 0 <= i < |s| ==> p(s[i]) by {
            forall i | 0 <= i < |s| ensures p(s[i]) {
              if i > 0 { assert s[i] == t[i - 1]; }
            }
          }
        }
      } else {
        assert |Select(s, p)| == |Select(t, p)|;
      }
    }
  }

  /** A filter keeps nothing exactly when no element passes. */
  lemma {:induction false} SelectKeepsNone<T>(s: seq<T>, p: T -> bool)
    ensures |Select(s, p)| == 0 <==> forall i :: 0 <= i < |s| ==> !p(s[i])
    decreases |s|
  {
    if s != [] {
      var t := s[1..];
      SelectKeepsNone(t, p);
      assert forall i :: 0 <= i < |t| ==> t[i] == s[i + 1];
      if !p(s[0]) {
        assert |Select(s, p)| == |Select(t, p)|;
        if forall i :: 0 <= i < |t| ==> !p(t[i]) {
          assert forall i :: 0 <= i < |s| ==> !p(s[i]) by {
            forall i | 0 <= i < |s| ensures !p(s[i]) {
              if i > 0 { assert s[i] == t[i - 1]; }
            }
          }
        }
      }
    }
  }

  /** `s.some(p)`. */
  function Any<T>(s: seq<T>, p: T -> bool): (r: bool)
    ensures r <==> exists i :: 0 <= i < |s| && p(s[i])
    decreases |s|
  {
    if s == [] then false
    else if p(s[0]) then true
    else
      assert forall i :: 1 <= i < |s| ==> s[i] == s[1..][i - 1];
      Any(s[1..], p)
  }

  /** `y => y !== x`. */
  function NotEqual<T(==)>(x: T): T -> bool {
    (y: T) => y != x
  }

  /** `s.filter(y => y !== x)`: every occurrence of x removed, every other element kept as
      often as before. */
  function Without<T(==,!new)>(s: seq<T>, x: T): (r: seq<T>)
    ensures multiset(r) == multiset(s)[x := 0]
    ensures x !in r
    ensures forall y :: y in s && y != x ==> y in r
    ensures forall y :: y in r ==> y in s
    ensures x !in s ==> r == s
  {
    WithoutFacts(s, x);
    Select(s, NotEqual(x))
  }

  lemma WithoutFacts<T(!new)>(s: seq<T>, x: T)
    ensures multiset(Select(s, NotEqual(x))) == multiset(s)[x := 0]
    ensures forall y :: y in Select(s, NotEqual(x)) <==> y in s && y != x
    ensures x !in s ==> Select(s, NotEqual(x)) == s
  {
    var kept := Select(s, NotEqual(x));
    SelectMembers(s, NotEqual(x));
    forall y ensures multiset(kept)[y] == multiset(s)[x := 0][y] {
      assert NotEqual(x)(y) <==> y != x;
      SelectMultiset(s, NotEqual(x), y);
    }
    if x !in s {
      SelectAllPass(s, NotEqual(x));
    }
  }

  /** `s.includes(x) ? s.filter(y => y !== x) : [...s, x]`. */
  function Toggle<T(==,!new)>(s: seq<T>, x: T): (r: seq<T>)
    ensures x in r <==> x !in s
    ensures forall y :: y in s && y != x ==> y in r
    ensures forall y :: y in r && y != x ==> y in s
    ensures x in s ==> multiset(r) == multiset(s)[x := 0]
    ensures x !in s ==> r == s + [x]
  {
    if x in s then Without(s, x)
    else s + [x]
  }

  /** Toggling the same element twice restores membership, and restores the list exactly
      when the element was absent to begin with. */
  lemma ToggleTwice<T(!new)>(s: seq<T>, x: T)
    ensures forall y :: y in Toggle(Toggle(s, x), x) <==> y in s
    ensures x !in s ==> Toggle(Toggle(s, x), x) == s
  {
    if x !in s {
      SelectAppend(s, [x], NotEqual(x));
      assert [x][1..] == [];
      assert Select([x], NotEqual(x)) == [];
      SelectAllPass(s, NotEqual(x));
    }
  }

  function Min(a: int, b: int): int {
    if a < b then a else b
  }

  /** `s.slice(0, n)`. */
  function Take<T>(s: seq<T>, n: nat): (r: seq<T>)
    ensures |r| == Min(n, |s|)
    ensures forall i :: 0 <= i < |r| ==> r[i] == s[i]
  {
    s[..Min(n, |s|)]
  }

  // ---------------------------------------------------------------------------
  // `s.sort((a, b) => key(a) - key(b))`: a stable insertion sort by an integer key
  // ---------------------------------------------------------------------------

  /** Keys are non-decreasing along s. */
  predicate SortedBy<T>(s: seq<T>, key: T -> int) {
    forall i, j :: 0 <= i < j < |s| ==> key(s[i]) <= key(s[j])
  }

  /** Places x before the first element whose key is not smaller than x's. */
  function InsertBy<T>(x: T, s: seq<T>, key: T -> int): (r: seq<T>)
    ensures multiset(r) == multiset(s) + multiset{x}
    ensures |r| == |s| + 1
    decreases |s|
  {
    if s == [] || key(x) <= key(s[0]) then
      [x] + s
    else
      assert s == [s[0]] + s[1..];
      [s[0]] + InsertBy(x, s[1..], key)
  }

  /** A lower bound on the keys of x and of s bounds the keys after insertion. */
  lemma {:induction false} InsertBound<T>(x: T, s: seq<T>, key: T -> int, b: int)
    requires b <= key(x)
    requires forall i :: 0 <= i < |s| ==> b <= key(s[i])
    ensures forall i :: 0 <= i < |InsertBy(x, s, key)| ==> b <= key(InsertBy(x, s, key)[i])
    decreases |s|
  {
    if s != [] && key(x) > key(s[0]) {
      InsertBound(x, s[1..], key, b);
    }
  }

  lemma {:induction false} InsertKeepsSorted<T>(x: T, s: seq<T>, key: T -> int)
    requires SortedBy(s, key)
    ensures SortedBy(InsertBy(x, s, key), key)
    decreases |s|
  {
    if s == [] || key(x) <= key(s[0]) {
      var r := [x] + s;
      assert forall j :: 1 <= j < |r| ==> r[j] == s[j - 1];
    } else {
      var t := s[1..];
      var rest := InsertBy(x, t, key);
      InsertKeepsSorted(x, t, key);
      InsertBound(x, t, key, key(s[0]));
      var r := [s[0]] + rest;
      assert forall j :: 1 <= j < |r| ==> r[j] == rest[j - 1];
    }
  }

  /** The stable sort: x goes in front of the sorted rest, ahead of its ties. */
  function SortBy<T>(s: seq<T>, key: T -> int): (r: seq<T>)
    ensures SortedBy(r, key)
    ensures multiset(r) == multiset(s)
    decreases |s|
  {
    if s == [] then []
    else
      assert s == [s[0]] + s[1..];
      var tail := SortBy(s[1..], key);
      InsertKeepsSorted(s[0], tail, key);
      InsertBy(s[0], tail, key)
  }

  /** `y => key(y) === k`. */
  function KeyIs<T>(key: T -> int, k: int): T -> bool {
    (y: T) => key(y) == k
  }

  /** Two neighbours that the filter cannot both keep may trade places. */
  lemma SwapHeads<T>(a: T, b: T, t: seq<T>, p: T -> bool)
    requires !(p(a) && p(b))
    ensures Select([a] + ([b] + t), p) == Select([b] + ([a] + t), p)
  {
    SelectCons(a, [b] + t, p);
    SelectCons(b, t, p);
    SelectCons(b, [a] + t, p);
    SelectCons(a, t, p);
    var rest := Select(t, p);
    if p(a) {
      assert Select([a] + ([b] + t), p) == [a] + rest;
    } else if p(b) {
      assert Select([b] + ([a] + t), p) == [b] + rest;
    } else {
      assert Select([b] + ([a] + t), p) == rest;
    }
  }

  /** Moving x past a neighbour the filter cannot keep together with x. */
  lemma PassOverStep<T>(y: T, x: T, t: seq<T>, rest: seq<T>, p: T -> bool)
    requires Select(rest, p) == Select([x] + t, p)
    requires !(p(y) && p(x))
    ensures Select([y] + rest, p) == Select([x] + ([y] + t), p)
  {
    SelectCons(y, rest, p);
    SelectCons(y, [x] + t, p);
    SwapHeads(y, x, t, p);
  }

  /** Inserting x leaves the elements with any one key in the order of [x] + s. */
  lemma {:induction false} InsertKeepsTies<T>(x: T, s: seq<T>, key: T -> int, k: int)
    ensures Select(InsertBy(x, s, key), KeyIs(key, k)) == Select([x] + s, KeyIs(key, k))
    decreases |s|
  {
    var p := KeyIs(key, k);
    if s != [] && key(x) > key(s[0]) {
      var t := s[1..];
      var rest := InsertBy(x, t, key);
      InsertKeepsTies(x, t, key, k);
      PassOverStep(s[0], x, t, rest, p);
      assert s == [s[0]] + t;
    }
  }

  /** The sort is stable: the elements with any one key keep their input order. */
  lemma {:induction false} SortIsStable<T>(s: seq<T>, key: T -> int, k: int)
    ensures Select(SortBy(s, key), KeyIs(key, k)) == Select(s, KeyIs(key, k))
    decreases |s|
  {
    if s != [] {
      var p := KeyIs(key, k);
      var tail := SortBy(s[1..], key);
      SortIsStable(s[1..], key, k);
      InsertKeepsTies(s[0], tail, key, k);
      SelectCons(s[0], tail, p);
      assert s == [s[0]] + s[1..];
      SelectCons(s[0], s[1..], p);
    }
  }
}
