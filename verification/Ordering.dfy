/**
 `ORDER BY rank ASC, priority DESC, id ASC LIMIT k` over a set of rows, as a function with an
 order-free description that determines it.
 */
module Ordering {

  // ---------------------------------------------------------------- least elements

  /** `before` puts any two values one before the other, consistently. */
  ghost predicate Orders<T(!new)>(before: (T, T) -> bool) {
    && (forall x, y :: x != y ==> before(x, y) || before(y, x))
    && (forall x, y, z :: before(x, y) && before(y, z) ==> before(x, z))
  }

  ghost predicate Leads<T(!new)>(before: (T, T) -> bool, x: T, all: set<T>) {
    x in all && forall y :: y in all && y != x ==> before(x, y)
  }

  /** `xs` is the first `k` of `all` (all of them, when there are fewer) in order. */
  ghost predicate IsFirstBy<T(!new)>(before: (T, T) -> bool, xs: seq<T>, all: set<T>, k: nat) {
    && (forall i, j :: 0 <= i < j < |xs| ==> before(xs[i], xs[j]))
    && (forall x :: x in xs ==> x in all)
    && |xs| <= k
    && (|xs| < k ==> forall x :: x in all ==> x in xs)
    && (forall x, y :: x in xs && y in all && y !in xs ==> before(x, y))
  }

  lemma {:induction false} Leader<T(!new)>(before: (T, T) -> bool, all: set<T>) returns (x: T)
    requires Orders(before) && all != {}
    ensures Leads(before, x, all)
    decreases |all|
  {
    x :| x in all;
    var rest := all - {x};
    assert forall y :: y in all ==> y == x || y in rest;
    if rest != {} {
      var first := Leader(before, rest);
      x := if before(x, first) then x else first;
    }
  }

  // ---------------------------------------------------------------- ordered, limited selections

  /** The sort columns of one row; `job` only separates rows that agree on all of them. */
  datatype Entry = Entry(rank: int, priority: int, pk: int, job: int)

  predicate Before(a: Entry, b: Entry) {
    || a.rank < b.rank
    || (a.rank == b.rank && a.priority > b.priority)
    || (a.rank == b.rank && a.priority == b.priority && a.pk < b.pk)
    || (a.rank == b.rank && a.priority == b.priority && a.pk == b.pk && a.job < b.job)
  }

  const Earlier: (Entry, Entry) -> bool := (a: Entry, b: Entry) => Before(a, b)

  ghost predicate Sorted(es: seq<Entry>) {
    forall i, j :: 0 <= i < j < |es| ==> Before(es[i], es[j])
  }

  /** `es` is the first `k` rows of `all` (all of them, when there are fewer) in order. */
  ghost predicate IsFirst(es: seq<Entry>, all: set<Entry>, k: nat) {
    IsFirstBy(Earlier, es, all, k)
  }

  ghost predicate IsLeast(e: Entry, all: set<Entry>) {
    e in all && forall x :: x in all && x != e ==> Before(e, x)
  }

  lemma LeastExists(all: set<Entry>)
    requires all != {}
    ensures exists e :: IsLeast(e, all)
  {
    var before := (x: Entry, y: Entry) => Before(x, y);
    var e := Leader(before, all);
    assert IsLeast(e, all);
  }

  function Least(all: set<Entry>): (e: Entry)
    requires all != {}
    ensures IsLeast(e, all)
  {
    LeastExists(all);
    var e :| e in all && forall x :: x in all && x != e ==> Before(e, x);
    e
  }

  function Take(all: set<Entry>, k: nat): (es: seq<Entry>)
    ensures IsFirst(es, all, k)
    ensures |es| <= |all|
    decreases k
  {
    if k == 0 || all == {} then
      []
    else
      var e := Least(all);
      var es := Take(all - {e}, k - 1);
      ConsFirst(e, es, all, k);
      [e] + es
  }

  lemma ConsFirst(e: Entry, es: seq<Entry>, all: set<Entry>, k: nat)
    requires k > 0 && IsLeast(e, all) && IsFirst(es, all - {e}, k - 1)
    ensures IsFirst([e] + es, all, k)
  {
    var fs := [e] + es;
    assert forall x :: x in fs <==> x == e || x in es;
    forall i, j | 0 <= i < j < |fs|
      ensures Before(fs[i], fs[j])
    {
      assert fs[j] == es[j - 1] && fs[j] in es;
      assert i > 0 ==> fs[i] == es[i - 1];
    }
  }

  /** The description leaves no choice. */
  lemma {:induction false} FirstIsUnique(es: seq<Entry>, fs: seq<Entry>, all: set<Entry>, k: nat)
    requires IsFirst(es, all, k) && IsFirst(fs, all, k)
    ensures es == fs
  {
    SameLength(es, fs, all, k);
    forall i | 0 <= i < |es|
      ensures es[i] == fs[i]
    {
      SameAt(es, fs, all, k, i);
    }
  }

  /** Position `i` of a sorted prefix holds the entry with exactly `i` entries before it. */
  lemma {:induction false} SameAt(es: seq<Entry>, fs: seq<Entry>, all: set<Entry>, k: nat, i: nat)
    requires IsFirst(es, all, k) && IsFirst(fs, all, k)
    requires i < |es| && i < |fs|
    ensures es[i] == fs[i]
    decreases i
  {
    forall j | 0 <= j < i
      ensures es[j] == fs[j]
    {
      SameAt(es, fs, all, k, j);
    }
    NotBefore(es, fs, all, k, i);
    NotBefore(fs, es, all, k, i);
  }

  lemma NotBefore(es: seq<Entry>, fs: seq<Entry>, all: set<Entry>, k: nat, i: nat)
    requires IsFirst(es, all, k) && IsFirst(fs, all, k)
    requires i < |es| && i < |fs|
    requires forall j :: 0 <= j < i ==> es[j] == fs[j]
    ensures !Before(es[i], fs[i])
  {
    assert es[i] in es && fs[i] in fs;
    assert forall j :: 0 <= j < i ==> Before(es[j], es[i]);
    assert forall j :: i < j < |fs| ==> Before(fs[i], fs[j]);
  }

  lemma SameLength(es: seq<Entry>, fs: seq<Entry>, all: set<Entry>, k: nat)
    requires IsFirst(es, all, k) && IsFirst(fs, all, k)
    ensures |es| == |fs|
  {
    PrefixIsShorter(es, fs, all, k);
    PrefixIsShorter(fs, es, all, k);
  }

  lemma PrefixIsShorter(es: seq<Entry>, fs: seq<Entry>, all: set<Entry>, k: nat)
    requires IsFirst(es, all, k) && IsFirst(fs, all, k)
    ensures |es| >= |fs|
  {
    if |es| < k && fs != [] {
      var last := |fs| - 1;
      assert fs[last] in fs;
      var i :| 0 <= i < |es| && es[i] == fs[last];
      if i < last {
        SameAt(es, fs, all, k, i);
      }
    }
  }

  lemma TakeIs(es: seq<Entry>, all: set<Entry>, k: nat)
    requires IsFirst(es, all, k)
    ensures Take(all, k) == es
  {
    FirstIsUnique(es, Take(all, k), all, k);
  }

  /** When all of `a` comes before all of `b`, the rows of `b` fill what `a` leaves of the limit. */
  lemma TakeUnion(a: set<Entry>, b: set<Entry>, k: nat)
    requires forall x, y :: x in a && y in b ==> Before(x, y)
    ensures |Take(a, k)| <= k
    ensures Take(a + b, k) == Take(a, k) + Take(b, k - |Take(a, k)|)
  {
    var xs := Take(a, k);
    var ys := Take(b, k - |xs|);
    ConcatSorted(xs, ys, a, b);
    ConcatFirst(xs, ys, a, b, k);
    hide Take;
    TakeIs(xs + ys, a + b, k);
  }

  lemma ConcatSorted(xs: seq<Entry>, ys: seq<Entry>, a: set<Entry>, b: set<Entry>)
    requires forall x, y :: x in a && y in b ==> Before(x, y)
    requires Sorted(xs) && Sorted(ys)
    requires (forall x :: x in xs ==> x in a) && (forall y :: y in ys ==> y in b)
    ensures Sorted(xs + ys)
  {
    hide Before;
    var es := xs + ys;
    forall i, j | 0 <= i < j < |es|
      ensures Before(es[i], es[j])
    {
      if i < |xs| && |xs| <= j {
        assert es[i] == xs[i] && es[i] in xs && es[j] == ys[j - |xs|] && es[j] in ys;
      } else if j < |xs| {
        assert es[i] == xs[i] && es[j] == xs[j];
      } else {
        assert es[i] == ys[i - |xs|] && es[j] == ys[j - |xs|];
      }
    }
  }

  lemma ConcatFirst(xs: seq<Entry>, ys: seq<Entry>, a: set<Entry>, b: set<Entry>, k: nat)
    requires forall x, y :: x in a && y in b ==> Before(x, y)
    requires IsFirst(xs, a, k) && IsFirst(ys, b, k - |xs|) && Sorted(xs + ys)
    ensures IsFirst(xs + ys, a + b, k)
  {
    hide Before, Sorted;
    assert forall e :: e in xs + ys <==> e in xs || e in ys;
    assert ys != [] ==> |xs| < k;
    forall e, x | e in xs + ys && x in a + b && x !in xs + ys
      ensures Before(e, x)
    {
      if e in ys {
        assert |xs| < k;
      }
    }
  }

  function Jobs(es: seq<Entry>): (ids: seq<int>)
    ensures |ids| == |es|
    ensures forall i :: 0 <= i < |es| ==> ids[i] == es[i].job
  {
    seq(|es|, i requires 0 <= i < |es| => es[i].job)
  }
}
