/** Shared value types and the list operations every store is built from:
    JavaScript's `Array.prototype.filter` and the "or undefined" of optional fields. */
module Common {

  /** A value that may be absent (`T | undefined`, `T | null`). */
  datatype Option<+T> = None | Some(value: T)

  /** `r` is obtained from `s` by deleting elements, keeping the order of the rest. */
  ghost predicate IsSubsequence<T>(r: seq<T>, s: seq<T>)
  {
    if r == [] then true
    else if s == [] then false
    else if r[0] == s[0] then IsSubsequence(r[1..], s[1..])
    else IsSubsequence(r, s[1..])
  }

  /** The filter step by step: the head if it passes, then the filtered tail. */
  function Keep<T>(p: T -> bool, s: seq<T>): seq<T>
  {
    if s == [] then [] else (if p(s[0]) then [s[0]] else []) + Keep(p, s[1..])
  }

  /** What `Keep` computes, stated without it: a subsequence holding every occurrence of
      each passing value and nothing else. */
  lemma {:induction false} KeepFacts<T(!new)>(p: T -> bool, s: seq<T>)
    ensures IsSubsequence(Keep(p, s), s)
    ensures forall x :: multiset(Keep(p, s))[x] == if p(x) then multiset(s)[x] else 0
  {
    if s != [] {
      var rest := Keep(p, s[1..]);
      KeepFacts(p, s[1..]);
      assert s == [s[0]] + s[1..];
      if p(s[0]) {
        assert Keep(p, s) == [s[0]] + rest;
        assert ([s[0]] + rest)[1..] == rest;
      } else {
        assert Keep(p, s) == rest;
        if rest != [] {
          assert rest[0] in multiset(rest);
        }
      }
    }
  }

  /** `s.filter(p)`: the elements of `s` that satisfy `p`, in their original order.
      The two ensures determine the result uniquely: a subsequence that holds every
      occurrence of every kept element and nothing else. */
  function Filter<T(==,!new)>(p: T -> bool, s: seq<T>): (r: seq<T>)
    ensures IsSubsequence(r, s)
    ensures forall x :: multiset(r)[x] == if p(x) then multiset(s)[x] else 0
  {
    KeepFacts(p, s);
    Keep(p, s)
  }

  /** Membership in a filtered list: exactly the members that satisfy `p`. */
  lemma FilterMembership<T(!new)>(p: T -> bool, s: seq<T>, x: T)
    ensures x in Filter(p, s) <==> x in s && p(x)
  {
    var r := Filter(p, s);
    assert x in r <==> multiset(r)[x] > 0;
    assert x in s <==> multiset(s)[x] > 0;
  }

  lemma {:induction false} KeepAppend<T>(p: T -> bool, a: seq<T>, b: seq<T>)
    ensures Keep(p, a + b) == Keep(p, a) + Keep(p, b)
  {
    if a == [] {
      assert a + b == b;
    } else {
      var h := if p(a[0]) then [a[0]] else [];
      var ab := a + b;
      assert ab != [] && ab[0] == a[0] && ab[1..] == a[1..] + b;
      assert Keep(p, ab) == h + Keep(p, a[1..] + b);
      KeepAppend(p, a[1..], b);
      assert Keep(p, a) == h + Keep(p, a[1..]);
      assert h + (Keep(p, a[1..]) + Keep(p, b)) == (h + Keep(p, a[1..])) + Keep(p, b);
    }
  }

  /** Filtering distributes over concatenation: this is what "keeps the order" means. */
  lemma FilterAppend<T(!new)>(p: T -> bool, a: seq<T>, b: seq<T>)
    ensures Filter(p, a + b) == Filter(p, a) + Filter(p, b)
  {
    KeepAppend(p, a, b);
  }

  lemma {:induction false} KeepAll<T>(p: T -> bool, s: seq<T>)
    requires forall x :: x in s ==> p(x)
    ensures Keep(p, s) == s
  {
    if s != [] {
      assert s[0] in s;
      KeepAll(p, s[1..]);
    }
  }

  /** A one-element list keeps its element exactly when it passes. */
  lemma FilterSingleton<T(!new)>(p: T -> bool, x: T)
    ensures Filter(p, [x]) == if p(x) then [x] else []
  {
    assert [x][1..] == [];
    assert Keep(p, [x]) == (if p(x) then [x] else []) + Keep(p, []);
  }

  /** A filter that keeps every element returns the list unchanged. */
  lemma FilterKeepsAll<T(!new)>(p: T -> bool, s: seq<T>)
    requires forall x :: x in s ==> p(x)
    ensures Filter(p, s) == s
  {
    KeepAll(p, s);
  }

  /** `s.filter(p).length`: how many elements satisfy `p`. */
  function Count<T(==,!new)>(p: T -> bool, s: seq<T>): (n: nat)
    ensures n == |Filter(p, s)|
    ensures n <= |s|
    ensures n == 0 <==> forall x :: x in s ==> !p(x)
  {
    if s == [] then 0
    else
      assert forall x :: x in s <==> x == s[0] || x in s[1..];
      (if p(s[0]) then 1 else 0) + Count(p, s[1..])
  }

  /** Counting over two lists that agree, position by position, on the predicate. */
  lemma {:induction false} CountPointwise<T(!new)>(p: T -> bool, q: T -> bool, a: seq<T>, b: seq<T>)
    requires |a| == |b|
    requires forall i :: 0 <= i < |a| ==> (p(a[i]) <==> q(b[i]))
    ensures Count(p, a) == Count(q, b)
  {
    if a != [] {
      CountPointwise(p, q, a[1..], b[1..]);
    }
  }

  /** Where every position counted in `b` is counted in `a`, `b` counts no more. */
  lemma {:induction false} CountMonotone<T(!new)>(p: T -> bool, q: T -> bool, a: seq<T>, b: seq<T>)
    requires |a| == |b|
    requires forall i :: 0 <= i < |a| ==> (q(b[i]) ==> p(a[i]))
    ensures Count(q, b) <= Count(p, a)
  {
    if a != [] {
      CountMonotone(p, q, a[1..], b[1..]);
    }
  }

  /** Two lists that differ, as far as the predicate sees, at one position only
      differ in count by at most one. */
  lemma {:induction false} CountOneChange<T(!new)>(p: T -> bool, q: T -> bool, a: seq<T>, b: seq<T>, k: nat)
    requires |a| == |b| && k < |a|
    requires forall i :: 0 <= i < |a| && i != k ==> (p(a[i]) <==> q(b[i]))
    ensures Count(q, b) <= Count(p, a) + 1
  {
    if k == 0 {
      CountPointwise(p, q, a[1..], b[1..]);
    } else {
      CountOneChange(p, q, a[1..], b[1..], k - 1);
    }
  }

  /** Counting a concatenation: the counts add up. */
  lemma {:induction false} CountAppend<T(!new)>(p: T -> bool, a: seq<T>, b: seq<T>)
    ensures Count(p, a + b) == Count(p, a) + Count(p, b)
  {
    if a == [] {
      assert a + b == b;
    } else {
      assert (a + b)[1..] == a[1..] + b;
      CountAppend(p, a[1..], b);
    }
  }
}
