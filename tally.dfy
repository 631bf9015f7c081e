/** `filter(...).length` and `reduce((sum, x) => sum + f(x), 0)` over a list of records,
    the two aggregates every dashboard of the client computes. */
module Tally {

  /** `s.filter(p).length`. */
  function Count<T>(s: seq<T>, p: T -> bool): (n: nat)
    ensures n <= |s|
  {
    if s == [] then 0 else (if p(s[0]) then 1 else 0) + Count(s[1..], p)
  }

  /** Nothing is counted exactly when no element satisfies `p`. */
  lemma {:induction false} CountZero<T>(s: seq<T>, p: T -> bool)
    ensures Count(s, p) == 0 <==> forall i :: 0 <= i < |s| ==> !p(s[i])
    decreases |s|
  {
    if s != [] {
      CountZero(s[1..], p);
      assert forall i :: 1 <= i < |s| ==> s[i] == s[1..][i - 1];
    }
  }

  /** Everything is counted exactly when every element satisfies `p`. */
  lemma {:induction false} CountAll<T>(s: seq<T>, p: T -> bool)
    ensures Count(s, p) == |s| <==> forall i :: 0 <= i < |s| ==> p(s[i])
    decreases |s|
  {
    if s != [] {
      CountAll(s[1..], p);
      assert forall i :: 1 <= i < |s| ==> s[i] == s[1..][i - 1];
    }
  }

  /** Counting a non-empty prefix: its first element, then the rest of the prefix. */
  lemma CountPrefixCons<T>(s: seq<T>, i: nat, p: T -> bool)
    requires 0 < i <= |s|
    ensures Count(s[..i], p) == (if p(s[0]) then 1 else 0) + Count(s[1..][..i - 1], p)
  {
    assert s[..i][1..] == s[1..][..i - 1];
  }

  /** `f` of every element that satisfies `p`, in order. */
  function FilterMap<T, U>(s: seq<T>, p: T -> bool, f: T -> U): (r: seq<U>)
    ensures |r| == Count(s, p)
  {
    if s == [] then []
    else (if p(s[0]) then [f(s[0])] else []) + FilterMap(s[1..], p, f)
  }

  /** The image of the element at position `i` sits after the images of the elements
      before it that satisfy `p`. */
  lemma {:induction false} FilterMapAt<T, U>(s: seq<T>, p: T -> bool, f: T -> U, i: nat)
    requires i < |s| && p(s[i])
    ensures Count(s[..i], p) < |FilterMap(s, p, f)|
    ensures FilterMap(s, p, f)[Count(s[..i], p)] == f(s[i])
    decreases i
  {
    if i == 0 {
      assert s[..0] == [];
    } else {
      var tail := s[1..];
      assert tail[i - 1] == s[i];
      CountPrefixCons(s, i, p);
      FilterMapAt(tail, p, f, i - 1);
      var c := Count(tail[..i - 1], p);
      var rest := FilterMap(tail, p, f);
      if p(s[0]) {
        assert ([f(s[0])] + rest)[c + 1] == rest[c];
      } else {
        assert [] + rest == rest;
      }
    }
  }

  /** `s.reduce((sum, x) => sum + f(x), 0)` for number-valued fields read as exact reals. */
  function Sum<T>(s: seq<T>, f: T -> real): real {
    if s == [] then 0.0 else f(s[0]) + Sum(s[1..], f)
  }

  /** The same reduction for integer-valued fields (day counts). */
  function SumInt<T>(s: seq<T>, f: T -> int): int {
    if s == [] then 0 else f(s[0]) + SumInt(s[1..], f)
  }

  /** Records satisfying two exclusive conditions are counted at most once between them. */
  lemma {:induction false} CountDisjoint<T>(s: seq<T>, p: T -> bool, q: T -> bool)
    requires forall i :: 0 <= i < |s| ==> !(p(s[i]) && q(s[i]))
    ensures Count(s, p) + Count(s, q) <= |s|
  {
    if s != [] {
      assert forall i :: 1 <= i < |s| ==> s[1..][i - 1] == s[i];
      CountDisjoint(s[1..], p, q);
    }
  }

  /** Three pairwise exclusive conditions: their counts add up to at most the length. */
  lemma {:induction false} CountDisjoint3<T>(s: seq<T>, p: T -> bool, q: T -> bool, r: T -> bool)
    requires forall i :: 0 <= i < |s| ==> !(p(s[i]) && q(s[i])) && !(p(s[i]) && r(s[i])) && !(q(s[i]) && r(s[i]))
    ensures Count(s, p) + Count(s, q) + Count(s, r) <= |s|
  {
    if s != [] {
      assert forall i :: 1 <= i < |s| ==> s[1..][i - 1] == s[i];
      CountDisjoint3(s[1..], p, q, r);
    }
  }

  /** A condition and its negation split the records between them. */
  lemma {:induction false} CountComplement<T>(s: seq<T>, p: T -> bool, q: T -> bool)
    requires forall i :: 0 <= i < |s| ==> q(s[i]) == !p(s[i])
    ensures Count(s, p) + Count(s, q) == |s|
  {
    if s != [] {
      assert forall i :: 1 <= i < |s| ==> s[1..][i - 1] == s[i];
      CountComplement(s[1..], p, q);
    }
  }

  /** Counting distributes over concatenation. */
  lemma {:induction false} CountAppend<T>(a: seq<T>, b: seq<T>, p: T -> bool)
    ensures Count(a + b, p) == Count(a, p) + Count(b, p)
  {
    if a == [] {
      assert a + b == b;
    } else {
      assert (a + b)[1..] == a[1..] + b;
      CountAppend(a[1..], b, p);
    }
  }

  /** Summing distributes over concatenation. */
  lemma {:induction false} SumAppend<T>(a: seq<T>, b: seq<T>, f: T -> real)
    ensures Sum(a + b, f) == Sum(a, f) + Sum(b, f)
  {
    if a == [] {
      assert a + b == b;
    } else {
      assert (a + b)[1..] == a[1..] + b;
      SumAppend(a[1..], b, f);
    }
  }

  /** A sum of non-negative fields is non-negative. */
  lemma {:induction false} SumIntNonNegative<T>(s: seq<T>, f: T -> int)
    requires forall i :: 0 <= i < |s| ==> f(s[i]) >= 0
    ensures SumInt(s, f) >= 0
  {
    if s != [] {
      assert forall i :: 1 <= i < |s| ==> s[1..][i - 1] == s[i];
      SumIntNonNegative(s[1..], f);
    }
  }

  /** Summing three fields separately and adding gives the sum of the three-field totals. */
  lemma {:induction false} SumInt3<T>(s: seq<T>, f: T -> int, g: T -> int, h: T -> int, fgh: T -> int)
    requires forall i :: 0 <= i < |s| ==> fgh(s[i]) == f(s[i]) + g(s[i]) + h(s[i])
    ensures SumInt(s, f) + SumInt(s, g) + SumInt(s, h) == SumInt(s, fgh)
  {
    if s != [] {
      assert forall i :: 1 <= i < |s| ==> s[1..][i - 1] == s[i];
      SumInt3(s[1..], f, g, h, fgh);
    }
  }

  /** A field that is the sum of two others less a third sums the same way. */
  lemma {:induction false} SumCombination<T>(s: seq<T>, f: T -> real, g: T -> real, h: T -> real, k: T -> real)
    requires forall i :: 0 <= i < |s| ==> k(s[i]) == f(s[i]) + g(s[i]) - h(s[i])
    ensures Sum(s, k) == Sum(s, f) + Sum(s, g) - Sum(s, h)
  {
    if s != [] {
      assert forall i :: 1 <= i < |s| ==> s[1..][i - 1] == s[i];
      SumCombination(s[1..], f, g, h, k);
    }
  }

  /** Two exclusive conditions: the records meeting either are counted by adding. */
  lemma {:induction false} CountUnion<T>(s: seq<T>, p: T -> bool, q: T -> bool, u: T -> bool)
    requires forall i :: 0 <= i < |s| ==> !(p(s[i]) && q(s[i])) && u(s[i]) == (p(s[i]) || q(s[i]))
    ensures Count(s, p) + Count(s, q) == Count(s, u)
  {
    if s != [] {
      assert forall i :: 1 <= i < |s| ==> s[1..][i - 1] == s[i];
      CountUnion(s[1..], p, q, u);
    }
  }
}
