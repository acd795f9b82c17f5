/** The read queries the datastores answer: an equality filter (`.eq(...)`, `find({...})`)
    and an ordering on one integer key, a timestamp (`.order(...)`, `.sort(...)`). */
module Query {
  import opened Wrappers

  /** `a` may stand before `b` in the requested order. */
  predicate InOrder<T>(key: T -> int, descending: bool, a: T, b: T) {
    if descending then key(a) >= key(b) else key(a) <= key(b)
  }

  ghost predicate SortedBy<T>(s: seq<T>, key: T -> int, descending: bool) {
    forall i, j :: 0 <= i < j < |s| ==> InOrder(key, descending, s[i], s[j])
  }

  /** The elements of `s` that `keep` accepts, each as often as in `s`. */
  function Where<T(!new)>(s: seq<T>, keep: T -> bool): (r: seq<T>)
    ensures forall x :: multiset(r)[x] == if keep(x) then multiset(s)[x] else 0
  {
    if s == [] then []
    else
      assert s == [s[0]] + s[1..];
      (if keep(s[0]) then [s[0]] else []) + Where(s[1..], keep)
  }

  /** An element the filter returns is one of `s` that `keep` accepts, and conversely. */
  lemma WhereMembers<T(!new)>(s: seq<T>, keep: T -> bool, x: T)
    ensures x in Where(s, keep) <==> x in s && keep(x)
  {
    assert x in Where(s, keep) <==> multiset(Where(s, keep))[x] > 0;
    assert x in s <==> multiset(s)[x] > 0;
  }

  /** Every element of a sorted sequence may follow its first element. */
  lemma HeadFirst<T>(s: seq<T>, key: T -> int, descending: bool)
    requires SortedBy(s, key, descending) && s != []
    ensures forall y :: y in s ==> InOrder(key, descending, s[0], y)
  {
    forall y | y in s ensures InOrder(key, descending, s[0], y) {
      var j :| 0 <= j < |s| && s[j] == y;
      if j > 0 { assert InOrder(key, descending, s[0], s[j]); }
    }
  }

  /** An element that may precede everything in a sorted sequence may be put in front. */
  lemma ConsSorted<T>(h: T, t: seq<T>, key: T -> int, descending: bool)
    requires SortedBy(t, key, descending)
    requires forall y :: y in t ==> InOrder(key, descending, h, y)
    ensures SortedBy([h] + t, key, descending)
  {
    var r := [h] + t;
    forall i, j | 0 <= i < j < |r| ensures InOrder(key, descending, r[i], r[j]) {
      assert r[j] == t[j - 1];
      if i > 0 { assert r[i] == t[i - 1]; } else { assert r[j] in t; }
    }
  }

  /** `x` placed into the sorted `s` before the first element it may precede. */
  function Insert<T>(x: T, s: seq<T>, key: T -> int, descending: bool): (r: seq<T>)
    requires SortedBy(s, key, descending)
    ensures SortedBy(r, key, descending)
    ensures multiset(r) == multiset(s) + multiset{x}
  {
    if s == [] then [x]
    else
      HeadFirst(s, key, descending);
      if InOrder(key, descending, x, s[0]) then
        ConsSorted(x, s, key, descending);
        [x] + s
      else
        assert s == [s[0]] + s[1..];
        assert SortedBy(s[1..], key, descending) by {
          forall i, j | 0 <= i < j < |s| - 1 ensures InOrder(key, descending, s[1..][i], s[1..][j]) {
            assert s[1..][i] == s[i + 1] && s[1..][j] == s[j + 1];
          }
        }
        var t := Insert(x, s[1..], key, descending);
        assert forall y :: y in t ==> InOrder(key, descending, s[0], y) by {
          forall y | y in t ensures InOrder(key, descending, s[0], y) {
            assert y in multiset(t);
            if y != x {
              assert y in multiset(s[1..]);
              assert y in s;
            }
          }
        }
        ConsSorted(s[0], t, key, descending);
        [s[0]] + t
  }

  /** `s` in the requested order: a permutation of `s` that is sorted by `key`. Rows with
      equal keys come in some order; neither datastore promises which. */
  function SortBy<T>(s: seq<T>, key: T -> int, descending: bool): (r: seq<T>)
    ensures SortedBy(r, key, descending)
    ensures multiset(r) == multiset(s)
  {
    if s == [] then []
    else
      assert s == [s[0]] + s[1..];
      Insert(s[0], SortBy(s[1..], key, descending), key, descending)
  }

  /** Filter then order: the shape of every list query of the model. */
  function Select<T(!new)>(s: seq<T>, keep: T -> bool, key: T -> int, descending: bool): (r: seq<T>)
    ensures SortedBy(r, key, descending)
    ensures forall x :: multiset(r)[x] == if keep(x) then multiset(s)[x] else 0
  {
    SortBy(Where(s, keep), key, descending)
  }

  /** A row is listed exactly when it is stored and passes the filter. */
  lemma SelectMembers<T(!new)>(s: seq<T>, keep: T -> bool, key: T -> int, descending: bool, x: T)
    ensures x in Select(s, keep, key, descending) <==> x in s && keep(x)
  {
    var r := Select(s, keep, key, descending);
    assert x in r <==> multiset(r)[x] > 0;
    assert x in s <==> multiset(s)[x] > 0;
  }

  /** How many elements of `s` pass `keep`: what `.single()` insists is exactly one. */
  function Count<T>(s: seq<T>, keep: T -> bool): (n: nat)
    ensures n <= |s|
    ensures n == 0 <==> forall i :: 0 <= i < |s| ==> !keep(s[i])
  {
    if s == [] then 0
    else
      var rest := Count(s[1..], keep);
      assert forall i :: 1 <= i < |s| ==> s[i] == s[1..][i - 1];
      (if keep(s[0]) then 1 else 0) + rest
  }

  /** The position of the first element that passes `keep`, or `|s|` when none does. */
  function FirstIndex<T>(s: seq<T>, keep: T -> bool): (i: nat)
    ensures i <= |s|
    ensures i < |s| ==> keep(s[i])
    ensures forall j :: 0 <= j < i ==> !keep(s[j])
  {
    if s == [] then 0
    else if keep(s[0]) then 0
    else
      var i := FirstIndex(s[1..], keep);
      assert forall j :: 1 <= j < |s| ==> s[j] == s[1..][j - 1];
      1 + i
  }

  /** When exactly one element passes, it is the first one that does and no other does. */
  lemma {:induction false} CountOne<T>(s: seq<T>, keep: T -> bool)
    requires Count(s, keep) == 1
    ensures FirstIndex(s, keep) < |s|
    ensures forall j :: 0 <= j < |s| && j != FirstIndex(s, keep) ==> !keep(s[j])
  {
    assert forall j :: 1 <= j < |s| ==> s[j] == s[1..][j - 1];
    if !keep(s[0]) {
      CountOne(s[1..], keep);
    }
  }

  /** When no two positions pass `keep`, at most one element does. */
  lemma {:induction false} CountAtMostOne<T>(s: seq<T>, keep: T -> bool)
    requires forall i, j :: 0 <= i < |s| && 0 <= j < |s| && keep(s[i]) && keep(s[j]) ==> i == j
    ensures Count(s, keep) <= 1
  {
    if s != [] {
      assert forall j :: 1 <= j < |s| ==> s[j] == s[1..][j - 1];
      CountAtMostOne(s[1..], keep);
    }
  }

  /** Replacing the first element that passes by another that passes keeps it first. */
  lemma FirstIndexAfterUpdate<T>(s: seq<T>, keep: T -> bool, x: T)
    requires FirstIndex(s, keep) < |s| && keep(x)
    ensures FirstIndex(s[FirstIndex(s, keep) := x], keep) == FirstIndex(s, keep)
    ensures Count(s[FirstIndex(s, keep) := x], keep) == Count(s, keep)
  {
    var k := FirstIndex(s, keep);
    var t := s[k := x];
    assert t[k] == x;
    CountUpdate(s, keep, k, x);
  }

  /** Replacing an element by one `keep` judges alike leaves the count as it was. */
  lemma {:induction false} CountUpdate<T>(s: seq<T>, keep: T -> bool, k: nat, x: T)
    requires k < |s| && keep(x) == keep(s[k])
    ensures Count(s[k := x], keep) == Count(s, keep)
  {
    if k > 0 {
      assert s[k := x][1..] == s[1..][k - 1 := x];
      CountUpdate(s[1..], keep, k - 1, x);
    } else {
      assert s[k := x][1..] == s[1..];
    }
  }

  /** `.single()` read without looking at its error: the one element that passes `keep`, or
      nothing when none or several do. */
  function Single<T>(s: seq<T>, keep: T -> bool): (r: Option<T>)
    ensures r.Some? <==> Count(s, keep) == 1
    ensures r.Some? ==> r.value in s && keep(r.value)
  {
    if Count(s, keep) == 1 then
      CountOne(s, keep);
      Some(s[FirstIndex(s, keep)])
    else None
  }
}
