/** Optional values, and the list operations the source gets from JavaScript's `Array` and `Set`. */
module Results {

  datatype Option<+T> = None | Some(value: T)

  datatype Result<+T, +E> = Ok(value: T) | Err(error: E)

  /** `Array.prototype.filter`. */
  function Filter<T(!new)>(s: seq<T>, keep: T -> bool): (r: seq<T>)
    ensures forall x :: x in r <==> x in s && keep(x)
    ensures |r| <= |s|
  {
    if s == [] then []
    else (if keep(s[0]) then [s[0]] else []) + Filter(s[1..], keep)
  }

  /** No element occurs twice, as in the insertion order of a JavaScript `Set`. */
  ghost predicate Distinct<T>(s: seq<T>) {
    forall i, j :: 0 <= i < j < |s| ==> s[i] != s[j]
  }

  lemma DistinctConcat<T>(s: seq<T>, t: seq<T>)
    requires Distinct(s) && Distinct(t) && forall x | x in s :: x !in t
    ensures Distinct(s + t)
  {
    forall i, j | 0 <= i < j < |s + t| ensures (s + t)[i] != (s + t)[j] {
      if i < |s| <= j { assert (s + t)[i] in s && (s + t)[j] in t; }
    }
  }

  /** Adding to a JavaScript `Set` held in insertion order. */
  function AddTo<T(==,!new)>(s: seq<T>, x: T): (r: seq<T>)
    ensures forall y :: y in r <==> y in s || y == x
    ensures Distinct(s) ==> Distinct(r)
  {
    if x in s then s else s + [x]
  }

  /** Filtering keeps whatever holds of every ordered pair of elements. */
  lemma {:induction false} FilterKeepsPairs<T(!new)>(s: seq<T>, keep: T -> bool, rel: (T, T) -> bool)
    requires forall i, j :: 0 <= i < j < |s| ==> rel(s[i], s[j])
    ensures forall i, j :: 0 <= i < j < |Filter(s, keep)| ==> rel(Filter(s, keep)[i], Filter(s, keep)[j])
  {
    if s != [] {
      FilterKeepsPairs(s[1..], keep, rel);
      assert forall j :: 0 <= j < |Filter(s[1..], keep)| ==> Filter(s[1..], keep)[j] in s[1..];
    }
  }

  lemma {:induction false} FilterSnoc<T(!new)>(s: seq<T>, keep: T -> bool, n: nat)
    requires n < |s|
    ensures Filter(s[..n + 1], keep) == Filter(s[..n], keep) + (if keep(s[n]) then [s[n]] else [])
  {
    if n > 0 {
      FilterSnoc(s[1..], keep, n - 1);
      assert s[..n + 1][1..] == s[1..][..n] && s[..n][1..] == s[1..][..n - 1];
    } else {
      assert s[..1] == [s[0]] && s[..1][1..] == [];
    }
  }

  lemma FilterKeepsDistinct<T(!new)>(s: seq<T>, keep: T -> bool)
    requires Distinct(s)
    ensures Distinct(Filter(s, keep))
  {
    FilterKeepsPairs(s, keep, (x, y) => x != y);
  }

  /** The insertion-ordered `Set` of a list. */
  function Dedup<T(==,!new)>(s: seq<T>): (r: seq<T>)
    ensures Distinct(r)
    ensures forall x :: x in r <==> x in s
    ensures Distinct(s) ==> r == s
  {
    if s == [] then []
    else
      var last := |s| - 1;
      assert s == s[..last] + [s[last]];
      AddTo(Dedup(s[..last]), s[last])
  }

  /** `Array.prototype.map`. */
  function Map<S, T>(s: seq<S>, f: S -> T): (r: seq<T>)
    ensures |r| == |s| && forall i :: 0 <= i < |s| ==> r[i] == f(s[i])
  {
    seq(|s|, i requires 0 <= i < |s| => f(s[i]))
  }

  /** The first position below `n` where `p` holds. */
  function First(n: nat, p: nat -> bool): (r: Option<nat>)
    ensures r.Some? ==> r.value < n && p(r.value) && forall i: nat :: i < r.value ==> !p(i)
    ensures r.None? <==> forall i: nat :: i < n ==> !p(i)
  {
    if n == 0 then None
    else
      match First(n - 1, p)
      case Some(i) => Some(i)
      case None => if p(n - 1) then Some(n - 1) else None
  }

  lemma FirstStable(m: nat, n: nat, p: nat -> bool)
    requires m <= n && First(m, p).Some?
    ensures First(n, p) == First(m, p)
  {
  }

  lemma FirstAgrees(n: nat, p: nat -> bool, q: nat -> bool)
    requires forall i: nat :: i < n ==> p(i) == q(i)
    ensures First(n, p) == First(n, q)
  {
  }

  /** The last position below `n` where `p` holds. */
  function Last(n: nat, p: nat -> bool): (r: Option<nat>)
    ensures r.Some? ==> r.value < n && p(r.value) && forall i: nat :: r.value < i < n ==> !p(i)
    ensures r.None? <==> forall i: nat :: i < n ==> !p(i)
  {
    if n == 0 then None else if p(n - 1) then Some(n - 1) else Last(n - 1, p)
  }

  lemma LastAgrees(n: nat, p: nat -> bool, q: nat -> bool)
    requires forall i: nat :: i < n ==> p(i) == q(i)
    ensures Last(n, p) == Last(n, q)
  {
  }
}
