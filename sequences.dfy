/** List comprehensions with a condition, `[x for x in s if p(x)]`, and the facts
    about them the word-list cleaner relies on. */
module Sequences {

  /** r can be obtained from s by deleting elements, keeping the order of the rest. */
  predicate IsSubsequence<T(==)>(r: seq<T>, s: seq<T>)
    decreases |s|
  {
    if |r| == 0 then true
    else if |s| == 0 then false
    else (r[0] == s[0] && IsSubsequence(r[1..], s[1..])) || IsSubsequence(r, s[1..])
  }

  predicate NoDuplicates<T(==)>(s: seq<T>) {
    forall i, j | 0 <= i < j < |s| :: s[i] != s[j]
  }

  /** r is the order-preserving subsequence of s made of exactly the elements that
      satisfy p, each as often as it occurs in s. */
  ghost predicate KeepsExactly<T(!new)>(s: seq<T>, r: seq<T>, p: T -> bool) {
    && IsSubsequence(r, s)
    && (forall x :: multiset(r)[x] == if p(x) then multiset(s)[x] else 0)
  }

  function Filter<T(==,!new)>(p: T -> bool, s: seq<T>): (r: seq<T>)
    ensures KeepsExactly(s, r, p)
    ensures forall x :: x in r <==> x in s && p(x)
    ensures NoDuplicates(s) ==> NoDuplicates(r)
  {
    if |s| == 0 then []
    else
      var rest := Filter(p, s[1..]);
      assert s == [s[0]] + s[1..];
      if p(s[0]) then [s[0]] + rest else rest
  }
}
