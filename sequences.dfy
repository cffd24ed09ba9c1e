/** The array operations the handlers use: `filter`, `find`/`findIndex`, `slice(0, n)`. */
module Sequences {
  import opened Wrappers

  /** `a` is `b` with some elements removed, the rest in their original order. */
  predicate IsSubsequence<T(==)>(a: seq<T>, b: seq<T>)
    decreases |b|
  {
    if |a| == 0 then true
    else if |b| == 0 then false
    else if a[0] == b[0] then IsSubsequence(a[1..], b[1..])
    else IsSubsequence(a, b[1..])
  }

  lemma {:induction false} SubsequenceReflexive<T>(s: seq<T>)
    ensures IsSubsequence(s, s)
    decreases |s|
  {
    if |s| > 0 {
      SubsequenceReflexive(s[1..]);
    }
  }

  /** `s.filter(keep)` */
  function Filter<T(!new)>(s: seq<T>, keep: T -> bool): (r: seq<T>)
    ensures forall x | x in r :: keep(x)
    ensures forall x :: multiset(r)[x] == if keep(x) then multiset(s)[x] else 0
    ensures IsSubsequence(r, s)
    ensures |r| <= |s|
  {
    if |s| == 0 then []
    else
      var rest := Filter(s[1..], keep);
      assert s == [s[0]] + s[1..];
      if keep(s[0]) then [s[0]] + rest else rest
  }
  /** Everything `s.filter(keep)` holds comes from `s`. */
  lemma FilterMember<T(!new)>(s: seq<T>, keep: T -> bool, x: T)
    requires x in Filter(s, keep)
    ensures x in s && keep(x)
  {
    assert multiset(Filter(s, keep))[x] > 0;
  }

  /** Everything in `s` that `keep` accepts is in `s.filter(keep)`. */
  lemma FilterKeeps<T(!new)>(s: seq<T>, keep: T -> bool, x: T)
    requires x in s && keep(x)
    ensures x in Filter(s, keep)
  {
    assert multiset(s)[x] > 0;
  }


  /** `s.findIndex(p)`, with `None` for -1; `s.find(p)` is the element at that index. */
  function FirstIndex<T>(s: seq<T>, p: T -> bool): (r: Option<nat>)
    ensures r.Some? ==> r.value < |s| && p(s[r.value])
    ensures r.Some? ==> forall j | 0 <= j < r.value :: !p(s[j])
    ensures r.None? <==> forall j | 0 <= j < |s| :: !p(s[j])
  {
    if |s| == 0 then None
    else if p(s[0]) then Some(0)
    else
      match FirstIndex(s[1..], p)
      case None => None
      case Some(i) => Some(i + 1)
  }

  /** `s.slice(0, n)` */
  function Prefix<T>(s: seq<T>, n: nat): (r: seq<T>)
    ensures |r| <= n && |r| <= |s|
    ensures r <= s
    ensures |s| <= n ==> r == s
    ensures n <= |s| ==> |r| == n
  {
    if |s| <= n then s else s[..n]
  }

  /** Dropping the first element of a subsequence leaves a subsequence. */
  lemma {:induction false} SubsequenceTail<T>(x: seq<T>, y: seq<T>)
    requires |x| > 0 && IsSubsequence(x, y)
    ensures IsSubsequence(x[1..], y)
    decreases |y|
  {
    if x[0] == y[0] {
      if |x| > 1 && x[1] == y[0] {
        SubsequenceTail(x[1..], y[1..]);
      }
    } else {
      SubsequenceTail(x, y[1..]);
      if |x| > 1 && x[1] == y[0] {
        SubsequenceTail(x[1..], y[1..]);
      }
    }
  }

  /** `s.map(f)` */
  function MapSeq<A, B>(s: seq<A>, f: A -> B): (r: seq<B>)
    ensures |r| == |s|
    ensures forall i | 0 <= i < |s| :: r[i] == f(s[i])
    ensures forall x | x in s :: f(x) in r
    ensures forall y | y in r :: exists x | x in s :: y == f(x)
  {
    if |s| == 0 then []
    else [f(s[0])] + MapSeq(s[1..], f)
  }

  /** Mapping both sides keeps a subsequence a subsequence. */
  lemma {:induction false} SubsequenceMap<A, B>(a: seq<A>, b: seq<A>, f: A -> B)
    requires IsSubsequence(a, b)
    ensures IsSubsequence(MapSeq(a, f), MapSeq(b, f))
    decreases |b|
  {
    if |a| > 0 && |b| > 0 {
      var fa := MapSeq(a, f);
      var fb := MapSeq(b, f);
      assert fa[1..] == MapSeq(a[1..], f);
      assert fb[1..] == MapSeq(b[1..], f);
      if a[0] == b[0] {
        SubsequenceMap(a[1..], b[1..], f);
      } else {
        SubsequenceMap(a, b[1..], f);
        if fa[0] == fb[0] {
          SubsequenceTail(fa, fb[1..]);
        }
      }
    }
  }
}
