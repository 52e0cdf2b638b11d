/**
 Which ready rows a claim takes. Every query plan returns the first `limit` eligible rows in the order
 of first matching selector, priority descending, id ascending.
 */
module Claiming {
  import opened Semaphores
  import opened Ordering
  import opened Tables

  // ---------------------------------------------------------------- selectors

  predicate EndsWithStar(selector: string) {
    selector != "" && selector[|selector| - 1] == '*'
  }

  predicate Matches(selector: string, queue: string) {
    if selector == "*" then true
    else if EndsWithStar(selector) then selector[..|selector| - 1] <= queue
    else queue == selector
  }

  /** The position of the first selector that matches, or the number of selectors. */
  function Rank(selectors: seq<string>, queue: string): (r: nat)
    ensures r <= |selectors|
    ensures r < |selectors| ==> Matches(selectors[r], queue)
    ensures forall i :: 0 <= i < r ==> !Matches(selectors[i], queue)
  {
    if selectors == [] || Matches(selectors[0], queue) then 0 else 1 + Rank(selectors[1..], queue)
  }

  // ---------------------------------------------------------------- queries

  type Ready = map<JobId, ReadyRow>

  function RankBy(ready: Ready, selectors: seq<string>): JobId -> int {
    (id: JobId) => if id in ready then Rank(selectors, ready[id].queue) else 0
  }

  const Unranked: JobId -> int := (id: JobId) => 0

  /** The sort columns of the rows `ids`, ranked by `rank`. */
  function Keyed(ready: Ready, rank: JobId -> int, ids: set<JobId>): set<Entry> {
    set id | id in ids && id in ready :: Entry(rank(id), ready[id].priority, ready[id].pk, id)
  }

  function Query(ready: Ready, rank: JobId -> int, ids: set<JobId>, limit: nat): seq<JobId> {
    Jobs(Take(Keyed(ready, rank, ids), limit))
  }

  function Matching(ready: Ready, selectors: seq<string>, ids: set<JobId>): set<JobId> {
    set id | id in ids && id in ready && Rank(selectors, ready[id].queue) < |selectors|
  }

  /** What a claim must return: the first `limit` matching rows. */
  function Selection(ready: Ready, selectors: seq<string>, ids: set<JobId>, limit: nat): seq<JobId> {
    Query(ready, RankBy(ready, selectors), Matching(ready, selectors, ids), limit)
  }

  lemma KeyedMember(ready: Ready, rank: JobId -> int, ids: set<JobId>, e: Entry)
    requires e in Keyed(ready, rank, ids)
    ensures e.job in ids && e.job in ready
    ensures e == Entry(rank(e.job), ready[e.job].priority, ready[e.job].pk, e.job)
  {
  }

  lemma QueryMembers(ready: Ready, rank: JobId -> int, ids: set<JobId>, limit: nat)
    ensures var r := Query(ready, rank, ids, limit);
            && |r| <= limit
            && (forall id :: id in r ==> id in ids && id in ready)
            && (|r| < limit ==> forall id :: id in ids && id in ready ==> id in r)
            && Distinct(r)
  {
    var all := Keyed(ready, rank, ids);
    var es := Take(all, limit);
    forall i | 0 <= i < |es|
      ensures es[i] in all && es[i].job in ids && es[i].job in ready
      ensures es[i] == Entry(rank(es[i].job), ready[es[i].job].priority, ready[es[i].job].pk, es[i].job)
    {
      assert es[i] in es;
      KeyedMember(ready, rank, ids, es[i]);
    }
    if |es| < limit {
      forall id | id in ids && id in ready
        ensures id in Jobs(es)
      {
        var e := Entry(rank(id), ready[id].priority, ready[id].pk, id);
        assert e in all;
        var i :| 0 <= i < |es| && es[i] == e;
        assert Jobs(es)[i] == id;
      }
    }
    forall i, j | 0 <= i < j < |es|
      ensures es[i].job != es[j].job
    {
      assert Before(es[i], es[j]);
    }
  }

  ghost predicate OrderedAlike(ready: Ready, r: JobId -> int, s: JobId -> int, ids: set<JobId>) {
    forall a, b :: a in ids && b in ids && a in ready && b in ready ==> (r(a) < r(b) <==> s(a) < s(b))
  }

  /** Two rows compare alike under both rankings. */
  lemma SameBefore(ready: Ready, r: JobId -> int, s: JobId -> int, ids: set<JobId>, x: Entry, y: Entry)
    requires OrderedAlike(ready, r, s, ids)
    requires x in Keyed(ready, r, ids) && y in Keyed(ready, r, ids) && Before(x, y)
    ensures Before(x.(rank := s(x.job)), y.(rank := s(y.job)))
  {
    KeyedMember(ready, r, ids, x);
    KeyedMember(ready, r, ids, y);
  }

  lemma Rekeyed(ready: Ready, r: JobId -> int, s: JobId -> int, ids: set<JobId>, x: Entry)
    ensures x in Keyed(ready, r, ids) ==> x.(rank := s(x.job)) in Keyed(ready, s, ids)
    ensures x in Keyed(ready, s, ids) ==>
              x.(rank := r(x.job)) in Keyed(ready, r, ids) && x.rank == s(x.job)
  {
    if x in Keyed(ready, r, ids) {
      KeyedMember(ready, r, ids, x);
    }
    if x in Keyed(ready, s, ids) {
      KeyedMember(ready, s, ids, x);
      assert x.(rank := r(x.job)) == Entry(r(x.job), ready[x.job].priority, ready[x.job].pk, x.job);
    }
  }

  function Rerank(es: seq<Entry>, s: JobId -> int): (fs: seq<Entry>)
    ensures |fs| == |es| && forall i :: 0 <= i < |es| ==> fs[i] == es[i].(rank := s(es[i].job))
  {
    seq(|es|, i requires 0 <= i < |es| => es[i].(rank := s(es[i].job)))
  }

  lemma RerankFirst(ready: Ready, r: JobId -> int, s: JobId -> int, ids: set<JobId>, es: seq<Entry>, limit: nat)
    requires OrderedAlike(ready, r, s, ids)
    requires IsFirst(es, Keyed(ready, r, ids), limit)
    ensures IsFirst(Rerank(es, s), Keyed(ready, s, ids), limit)
  {
    hide Before, Keyed;
    var (ra, sa, fs) := (Keyed(ready, r, ids), Keyed(ready, s, ids), Rerank(es, s));
    assert forall i :: 0 <= i < |es| ==> es[i] in es;
    forall i, j | 0 <= i < j < |fs|
      ensures Before(fs[i], fs[j])
    {
      SameBefore(ready, r, s, ids, es[i], es[j]);
    }
    forall e | e in fs
      ensures e in sa
    {
      var i :| 0 <= i < |fs| && fs[i] == e;
      Rekeyed(ready, r, s, ids, es[i]);
    }
    forall x | x in sa
      ensures x in fs || (|es| >= limit && forall i :: 0 <= i < |fs| ==> Before(fs[i], x))
    {
      Rekeyed(ready, r, s, ids, x);
      var y := x.(rank := r(x.job));
      if y in es {
        var i :| 0 <= i < |es| && es[i] == y;
        assert fs[i] == x;
      } else {
        forall i | 0 <= i < |fs|
          ensures Before(fs[i], x)
        {
          SameBefore(ready, r, s, ids, es[i], y);
        }
      }
    }
  }

  /** Rankings that order the rows alike select alike. */
  lemma SameOrder(ready: Ready, r: JobId -> int, s: JobId -> int, ids: set<JobId>, limit: nat)
    requires OrderedAlike(ready, r, s, ids)
    ensures Query(ready, r, ids, limit) == Query(ready, s, ids, limit)
  {
    hide OrderedAlike, Keyed, IsFirst, Take;
    var es := Take(Keyed(ready, r, ids), limit);
    RerankFirst(ready, r, s, ids, es, limit);
    TakeIs(Rerank(es, s), Keyed(ready, s, ids), limit);
    assert Jobs(es) == Jobs(Rerank(es, s));
  }

  // ---------------------------------------------------------------- ranks below a bound

  /** The visible rows whose first matching selector is before position `n`. */
  function Below(ready: Ready, selectors: seq<string>, ids: set<JobId>, n: nat): set<JobId> {
    set id | id in ids && id in ready && Rank(selectors, ready[id].queue) < n
  }

  function At(ready: Ready, selectors: seq<string>, ids: set<JobId>, n: nat): set<JobId> {
    set id | id in ids && id in ready && Rank(selectors, ready[id].queue) == n
  }

  /** Taking up to rank `n`, then rank `n` from what is left of the limit, is taking up to rank `n + 1`. */
  lemma NextRank(ready: Ready, selectors: seq<string>, ids: set<JobId>, n: nat, limit: nat)
    ensures var rank := RankBy(ready, selectors);
            var rows := Query(ready, rank, Below(ready, selectors, ids, n), limit);
            && |rows| <= limit
            && Query(ready, rank, Below(ready, selectors, ids, n + 1), limit)
               == rows + Query(ready, Unranked, At(ready, selectors, ids, n), limit - |rows|)
  {
    hide Query, Keyed;
    var rank := RankBy(ready, selectors);
    var (low, at) := (Below(ready, selectors, ids, n), At(ready, selectors, ids, n));
    assert Below(ready, selectors, ids, n + 1) == low + at;
    assert forall i, j :: i in low && j in at ==> rank(i) < rank(j);
    QueryUnion(ready, rank, low, at, limit);
    RankAt(ready, selectors, ids, n);
    SameOrder(ready, rank, Unranked, at, limit - |Query(ready, rank, low, limit)|);
  }

  /** Rows of lower ranks come first; the others fill what is left of the limit. */
  lemma QueryUnion(ready: Ready, rank: JobId -> int, low: set<JobId>, at: set<JobId>, limit: nat)
    requires forall i, j :: i in low && j in at ==> rank(i) < rank(j)
    ensures |Query(ready, rank, low, limit)| <= limit
    ensures Query(ready, rank, low + at, limit)
         == Query(ready, rank, low, limit) + Query(ready, rank, at, limit - |Query(ready, rank, low, limit)|)
  {
    hide *;
    var (a, b) := (Keyed(ready, rank, low), Keyed(ready, rank, at));
    KeyedUnion(ready, rank, low, at);
    KeyedBefore(ready, rank, low, at);
    TakeUnion(a, b, limit);
    var rest := limit - |Take(a, limit)|;
    JobsConcat(Take(a, limit), Take(b, rest));
    QueryTakes(ready, rank, low, limit);
    QueryTakes(ready, rank, at, rest);
    QueryTakes(ready, rank, low + at, limit);
  }

  lemma QueryTakes(ready: Ready, rank: JobId -> int, ids: set<JobId>, limit: nat)
    ensures Query(ready, rank, ids, limit) == Jobs(Take(Keyed(ready, rank, ids), limit))
    ensures |Query(ready, rank, ids, limit)| == |Take(Keyed(ready, rank, ids), limit)|
  {
  }

  lemma KeyedBefore(ready: Ready, rank: JobId -> int, low: set<JobId>, at: set<JobId>)
    requires forall i, j :: i in low && j in at ==> rank(i) < rank(j)
    ensures forall x, y :: x in Keyed(ready, rank, low) && y in Keyed(ready, rank, at) ==> Before(x, y)
  {
    hide Keyed;
    forall x, y | x in Keyed(ready, rank, low) && y in Keyed(ready, rank, at)
      ensures Before(x, y)
    {
      KeyedMember(ready, rank, low, x);
      KeyedMember(ready, rank, at, y);
    }
  }

  lemma KeyedUnion(ready: Ready, rank: JobId -> int, low: set<JobId>, at: set<JobId>)
    ensures Keyed(ready, rank, low + at) == Keyed(ready, rank, low) + Keyed(ready, rank, at)
  {
    var (a, b, c) := (Keyed(ready, rank, low), Keyed(ready, rank, at), Keyed(ready, rank, low + at));
    forall x
      ensures x in c <==> x in a || x in b
    {
      if x in c {
        KeyedMember(ready, rank, low + at, x);
      }
    }
  }

  lemma JobsConcat(xs: seq<Entry>, ys: seq<Entry>)
    ensures Jobs(xs + ys) == Jobs(xs) + Jobs(ys)
  {
  }

  lemma RankAt(ready: Ready, selectors: seq<string>, ids: set<JobId>, n: nat)
    ensures OrderedAlike(ready, RankBy(ready, selectors), Unranked, At(ready, selectors, ids, n))
  {
  }

  /** Once the limit is reached, later ranks change nothing. */
  lemma {:induction false} FullStaysFull(ready: Ready, selectors: seq<string>, ids: set<JobId>, n: nat, m: nat, limit: nat)
    requires n <= m
    requires |Query(ready, RankBy(ready, selectors), Below(ready, selectors, ids, n), limit)| == limit
    ensures Query(ready, RankBy(ready, selectors), Below(ready, selectors, ids, m), limit)
         == Query(ready, RankBy(ready, selectors), Below(ready, selectors, ids, n), limit)
    decreases m - n
  {
    if n < m {
      NextRank(ready, selectors, ids, n, limit);
      assert Query(ready, Unranked, At(ready, selectors, ids, n), 0) == [];
      FullStaysFull(ready, selectors, ids, n + 1, m, limit);
    }
  }

  // ---------------------------------------------------------------- the query plans

  predicate ExactQueues(selectors: seq<string>) {
    forall i :: 0 <= i < |selectors| ==> !EndsWithStar(selectors[i])
  }

  function InQueue(ready: Ready, queue: string, ids: set<JobId>): set<JobId> {
    set id | id in ids && id in ready && ready[id].queue == queue
  }

  lemma NothingBelowZero(ready: Ready, selectors: seq<string>, ids: set<JobId>, limit: nat)
    ensures Query(ready, RankBy(ready, selectors), Below(ready, selectors, ids, 0), limit) == []
  {
    assert Keyed(ready, RankBy(ready, selectors), Below(ready, selectors, ids, 0)) == {};
  }

  lemma AllBelowIsMatching(ready: Ready, selectors: seq<string>, ids: set<JobId>)
    ensures Below(ready, selectors, ids, |selectors|) == Matching(ready, selectors, ids)
  {
  }

  /** The unselected rows of the next exact queue are the rows it is the first selector of. */
  lemma NextQueue(ready: Ready, selectors: seq<string>, ids: set<JobId>, i: nat, rows: seq<JobId>, limit: nat)
    requires ExactQueues(selectors) && i < |selectors|
    requires rows == Query(ready, RankBy(ready, selectors), Below(ready, selectors, ids, i), limit)
    requires |rows| < limit
    ensures InQueue(ready, selectors[i], ids - Members(rows)) == At(ready, selectors, ids, i)
  {
    hide Query;
    QueryMembers(ready, RankBy(ready, selectors), Below(ready, selectors, ids, i), limit);
    forall id
      ensures id in InQueue(ready, selectors[i], ids - Members(rows)) <==> id in At(ready, selectors, ids, i)
    {
      if id in ids && id in ready {
        var r := Rank(selectors, ready[id].queue);
        assert id in rows <==> r < i;
        assert Matches(selectors[i], ready[id].queue) <==> ready[id].queue == selectors[i];
      }
    }
  }

  /** One query per exact queue, each for what the earlier ones left of the limit. */
  method SelectExactQueueRows(ready: Ready, selectors: seq<string>, ids: set<JobId>, limit: nat)
    returns (rows: seq<JobId>)
    requires ExactQueues(selectors)
    ensures rows == Selection(ready, selectors, ids, limit)
  {
    hide Query, At, Below;
    rows := [];
    var selected: set<JobId> := {};
    ghost var rank := RankBy(ready, selectors);
    NothingBelowZero(ready, selectors, ids, limit);
    AllBelowIsMatching(ready, selectors, ids);
    for i := 0 to |selectors|
      invariant |rows| <= limit
      invariant rows == Query(ready, rank, Below(ready, selectors, ids, i), limit)
      invariant selected == Members(rows)
    {
      var remaining := limit - |rows|;
      if remaining <= 0 {
        FullStaysFull(ready, selectors, ids, i, |selectors|, limit);
        break;
      }
      NextQueue(ready, selectors, ids, i, rows, limit);
      NextRank(ready, selectors, ids, i, limit);
      var more := Query(ready, Unranked, InQueue(ready, selectors[i], ids - selected), remaining);
      QueryMembers(ready, rank, Below(ready, selectors, ids, i + 1), limit);
      assert Members(rows + more) == Members(rows) + Members(more);
      rows := rows + more;
      selected := selected + Members(more);
    }
  }

  // ---------------------------------------------------------------- the chained sub-selects

  /** `dict.fromkeys`: each selector at its first occurrence. */
  function Dedupe(selectors: seq<string>): (r: seq<string>)
    ensures forall s :: s in r <==> s in selectors
    decreases |selectors|
  {
    if selectors == [] then [] else [selectors[0]] + Dedupe(Without(selectors[1..], selectors[0]))
  }

  function Without(selectors: seq<string>, x: string): (r: seq<string>)
    ensures |r| <= |selectors|
    ensures forall s :: s in r <==> s in selectors && s != x
  {
    if selectors == [] then [] else (if selectors[0] == x then [] else [selectors[0]]) + Without(selectors[1..], x)
  }

  /** The position of the first selector equal to the queue, or the number of selectors. */
  function FirstIndex(selectors: seq<string>, queue: string): nat {
    if selectors == [] || selectors[0] == queue then 0 else 1 + FirstIndex(selectors[1..], queue)
  }

  lemma {:induction false} ExactRank(selectors: seq<string>, queue: string)
    requires ExactQueues(selectors)
    ensures Rank(selectors, queue) == FirstIndex(selectors, queue)
    ensures FirstIndex(selectors, queue) < |selectors| <==> queue in selectors
  {
    if selectors != [] {
      ExactRank(selectors[1..], queue);
    }
  }

  lemma {:induction false} WithoutKeepsOrder(selectors: seq<string>, x: string, p: string, q: string)
    requires p != x && q != x && p in selectors && q in selectors
    ensures FirstIndex(selectors, p) < FirstIndex(selectors, q)
       <==> FirstIndex(Without(selectors, x), p) < FirstIndex(Without(selectors, x), q)
  {
    var rest := Without(selectors[1..], x);
    if selectors[0] == x {
      assert Without(selectors, x) == rest;
      WithoutKeepsOrder(selectors[1..], x, p, q);
    } else {
      assert Without(selectors, x) == [selectors[0]] + rest;
      assert Without(selectors, x)[1..] == rest;
      if selectors[0] != p && selectors[0] != q {
        WithoutKeepsOrder(selectors[1..], x, p, q);
      }
    }
  }

  lemma {:induction false} DedupeKeepsOrder(selectors: seq<string>, p: string, q: string)
    requires p in selectors && q in selectors
    ensures FirstIndex(selectors, p) < FirstIndex(selectors, q)
       <==> FirstIndex(Dedupe(selectors), p) < FirstIndex(Dedupe(selectors), q)
    decreases |selectors|
  {
    var x := selectors[0];
    var rest := Without(selectors[1..], x);
    assert Dedupe(selectors)[1..] == Dedupe(rest);
    if p != x && q != x {
      WithoutKeepsOrder(selectors[1..], x, p, q);
      DedupeKeepsOrder(rest, p, q);
    }
  }

  /** Repeated exact selectors select nothing more and in no other order. */
  lemma DedupeSelection(ready: Ready, selectors: seq<string>, ids: set<JobId>, limit: nat)
    requires ExactQueues(selectors)
    ensures ExactQueues(Dedupe(selectors))
    ensures Selection(ready, selectors, ids, limit) == Selection(ready, Dedupe(selectors), ids, limit)
  {
    var once := Dedupe(selectors);
    forall i | 0 <= i < |once|
      ensures !EndsWithStar(once[i])
    {
      assert once[i] in once;
    }
    forall id | id in ids && id in ready
      ensures Rank(selectors, ready[id].queue) < |selectors| <==> ready[id].queue in selectors
      ensures Rank(once, ready[id].queue) < |once| <==> ready[id].queue in selectors
      ensures Rank(selectors, ready[id].queue) == FirstIndex(selectors, ready[id].queue)
      ensures Rank(once, ready[id].queue) == FirstIndex(once, ready[id].queue)
    {
      ExactRank(selectors, ready[id].queue);
      ExactRank(once, ready[id].queue);
    }
    assert Matching(ready, selectors, ids) == Matching(ready, once, ids);
    forall a, b | a in Matching(ready, selectors, ids) && b in Matching(ready, selectors, ids)
      ensures RankBy(ready, selectors)(a) < RankBy(ready, selectors)(b)
         <==> RankBy(ready, once)(a) < RankBy(ready, once)(b)
    {
      DedupeKeepsOrder(selectors, ready[a].queue, ready[b].queue);
    }
    hide Query;
    SameOrder(ready, RankBy(ready, selectors), RankBy(ready, once), Matching(ready, selectors, ids), limit);
  }

  /** One statement: a sub-select per queue, limited by the counts of the earlier ones, then ordered. */
  method SelectByChainedSubselects(ready: Ready, selectors: seq<string>, ids: set<JobId>, limit: nat)
    returns (rows: seq<JobId>)
    requires ExactQueues(selectors)
    ensures rows == Selection(ready, selectors, ids, limit)
  {
    hide Query, At, Below, Selection;
    DedupeSelection(ready, selectors, ids, limit);
    var once := Dedupe(selectors);
    ghost var rank := RankBy(ready, once);
    NothingBelowZero(ready, once, ids, limit);
    var selected: set<JobId> := {};
    var counted := 0;
    for i := 0 to |once|
      invariant 0 <= counted <= limit
      invariant counted == |Query(ready, rank, Below(ready, once, ids, i), limit)|
      invariant selected == Members(Query(ready, rank, Below(ready, once, ids, i), limit))
    {
      ghost var before := Query(ready, rank, Below(ready, once, ids, i), limit);
      forall j | 0 <= j < i
        ensures once[j] != once[i]
      {
        DedupeDistinct(selectors, j, i);
      }
      QueueOfDistinct(ready, once, ids, i);
      NextRank(ready, once, ids, i, limit);
      var more := Query(ready, Unranked, InQueue(ready, once[i], ids), Max(0, limit - counted));
      QueryMembers(ready, rank, Below(ready, once, ids, i + 1), limit);
      assert Members(before + more) == Members(before) + Members(more);
      selected := selected + Members(more);
      counted := counted + |more|;
    }
    rows := Query(ready, RankBy(ready, once), selected, limit);
    OrderAgain(ready, once, ids, limit);
  }

  lemma {:induction false} DedupeDistinct(selectors: seq<string>, i: nat, j: nat)
    requires i < j < |Dedupe(selectors)|
    ensures Dedupe(selectors)[i] != Dedupe(selectors)[j]
    decreases |selectors|
  {
    var rest := Without(selectors[1..], selectors[0]);
    if i == 0 {
      assert Dedupe(rest)[j - 1] in Dedupe(rest);
    } else {
      DedupeDistinct(rest, i - 1, j - 1);
    }
  }

  /** Each queue of a list without repetitions is the first selector of its own rows. */
  lemma QueueOfDistinct(ready: Ready, selectors: seq<string>, ids: set<JobId>, i: nat)
    requires ExactQueues(selectors) && i < |selectors|
    requires forall j :: 0 <= j < i ==> selectors[j] != selectors[i]
    ensures InQueue(ready, selectors[i], ids) == At(ready, selectors, ids, i)
  {
    forall id
      ensures id in InQueue(ready, selectors[i], ids) <==> id in At(ready, selectors, ids, i)
    {
      if id in ids && id in ready {
        var r := Rank(selectors, ready[id].queue);
        assert forall j :: 0 <= j < |selectors| ==>
          (Matches(selectors[j], ready[id].queue) <==> ready[id].queue == selectors[j]);
      }
    }
  }

  /** Ordering the selected rows again leaves them as the whole order has them. */
  lemma OrderAgain(ready: Ready, selectors: seq<string>, ids: set<JobId>, limit: nat)
    ensures var rank := RankBy(ready, selectors);
            var rows := Query(ready, rank, Below(ready, selectors, ids, |selectors|), limit);
            && rows == Selection(ready, selectors, ids, limit)
            && Query(ready, rank, Members(rows), limit) == rows
  {
    AllBelowIsMatching(ready, selectors, ids);
    var rank := RankBy(ready, selectors);
    var all := Keyed(ready, rank, Below(ready, selectors, ids, |selectors|));
    var es := Take(all, limit);
    forall i | 0 <= i < |es|
      ensures es[i] in all && es[i].job in ready
      ensures es[i] == Entry(rank(es[i].job), ready[es[i].job].priority, ready[es[i].job].pk, es[i].job)
    {
      assert es[i] in es;
      KeyedMember(ready, rank, Below(ready, selectors, ids, |selectors|), es[i]);
    }
    var chosen := Keyed(ready, rank, Members(Jobs(es)));
    forall x
      ensures x in chosen <==> x in es
    {
      if x in chosen {
        KeyedMember(ready, rank, Members(Jobs(es)), x);
        var i :| 0 <= i < |es| && Jobs(es)[i] == x.job;
        assert es[i] == x;
      }
      if x in es {
        var i :| 0 <= i < |es| && es[i] == x;
        assert Jobs(es)[i] in Members(Jobs(es));
      }
    }
    TakeIs(es, chosen, limit);
  }

  // ---------------------------------------------------------------- the whole selection

  datatype Queues = AllQueues | Listed(selectors: seq<string>)

  /** The selectors a claim works through; every queue is the single selector `*`. */
  function SelectorsOf(queues: Queues): seq<string> {
    if queues.AllQueues? then ["*"] else queues.selectors
  }

  function StarIndex(selectors: seq<string>): (r: int)
    ensures -1 <= r < |selectors|
    ensures r >= 0 ==> selectors[r] == "*" && forall i :: 0 <= i < r ==> selectors[i] != "*"
    ensures r == -1 ==> "*" !in selectors
  {
    if selectors == [] then -1
    else if selectors[0] == "*" then 0
    else
      var rest := StarIndex(selectors[1..]);
      if rest == -1 then -1 else rest + 1
  }

  /** Queries see only existing rows. */
  lemma SameVisible(ready: Ready, rank: JobId -> int, a: set<JobId>, b: set<JobId>, limit: nat)
    requires forall id :: id in ready ==> (id in a <==> id in b)
    ensures Query(ready, rank, a, limit) == Query(ready, rank, b, limit)
  {
    assert Keyed(ready, rank, a) == Keyed(ready, rank, b);
  }

  lemma {:induction false} RankOfPrefix(selectors: seq<string>, n: nat, queue: string)
    requires n <= |selectors|
    ensures Rank(selectors[..n], queue) == Min(n, Rank(selectors, queue))
  {
    if n > 0 && !Matches(selectors[0], queue) {
      assert selectors[..n][1..] == selectors[1..][..n - 1];
      RankOfPrefix(selectors[1..], n - 1, queue);
    }
  }

  /** Selecting by the first selectors is selecting the rows of the lower ranks. */
  lemma PrefixSelection(ready: Ready, selectors: seq<string>, n: nat, ids: set<JobId>, limit: nat)
    requires n <= |selectors|
    ensures Selection(ready, selectors[..n], ids, limit)
         == Query(ready, RankBy(ready, selectors), Below(ready, selectors, ids, n), limit)
  {
    forall id | id in ids && id in ready
      ensures Rank(selectors[..n], ready[id].queue) == Min(n, Rank(selectors, ready[id].queue))
    {
      RankOfPrefix(selectors, n, ready[id].queue);
    }
    var low := Below(ready, selectors, ids, n);
    assert Matching(ready, selectors[..n], ids) == low;
    hide Query;
    SameOrder(ready, RankBy(ready, selectors[..n]), RankBy(ready, selectors), low, limit);
  }

  /** Behind the first star there is nothing: the star matches every queue. */
  lemma StarCovers(ready: Ready, selectors: seq<string>, ids: set<JobId>, star: nat)
    requires star < |selectors| && selectors[star] == "*"
    ensures Below(ready, selectors, ids, star + 1) == Matching(ready, selectors, ids)
    ensures forall id :: id in ids && id in ready ==> Rank(selectors, ready[id].queue) <= star
  {
    forall id | id in ids && id in ready
      ensures Rank(selectors, ready[id].queue) <= star
    {
      assert Matches(selectors[star], ready[id].queue);
    }
  }

  /** The unselected rows are those the star is the first selector of. */
  lemma StarRest(ready: Ready, selectors: seq<string>, ids: set<JobId>, star: nat, rows: seq<JobId>, limit: nat)
    requires star < |selectors| && selectors[star] == "*"
    requires rows == Query(ready, RankBy(ready, selectors), Below(ready, selectors, ids, star), limit)
    requires |rows| < limit
    ensures forall id :: id in ready ==> (id in ids - Members(rows) <==> id in At(ready, selectors, ids, star))
  {
    StarCovers(ready, selectors, ids, star);
    QueryMembers(ready, RankBy(ready, selectors), Below(ready, selectors, ids, star), limit);
  }

  /** Every plan of `_select_ready_rows`, whatever the back end, makes the one selection. */
  method SelectReadyRows(ready: Ready, queues: Queues, ids: set<JobId>, limit: nat, family: Family)
    returns (rows: seq<JobId>)
    ensures rows == Selection(ready, SelectorsOf(queues), ids, limit)
  {
    hide Query, At, Below, Selection, Matching;
    if queues.AllQueues? {
      rows := Query(ready, Unranked, ids, limit);
      AllQueuesSelection(ready, ids, limit);
      return;
    }
    var selectors := queues.selectors;
    var star := StarIndex(selectors);
    var ordered := if star == -1 then selectors else selectors[..star];
    assert selectors[..|selectors|] == selectors;
    rows := [];
    if ordered == [] {
      NothingSelected(ready, ids, limit);
    } else if forall i :: 0 <= i < |ordered| ==> !EndsWithStar(ordered[i]) {
      if family.Postgres? {
        rows := SelectByChainedSubselects(ready, ordered, ids, limit);
      } else {
        rows := SelectExactQueueRows(ready, ordered, ids, limit);
      }
    } else {
      rows := Query(ready, RankBy(ready, ordered), Matching(ready, ordered, ids), limit);
      RankedPlan(ready, ordered, ids, limit);
    }
    var remaining := limit - |rows|;
    if star == -1 {
      return;
    }
    PrefixSelection(ready, selectors, star, ids, limit);
    StarSelection(ready, selectors, ids, star, rows, limit);
    if remaining <= 0 {
      return;
    }
    rows := rows + Query(ready, Unranked, ids - Members(rows), remaining);
  }

  lemma RankedPlan(ready: Ready, selectors: seq<string>, ids: set<JobId>, limit: nat)
    ensures Query(ready, RankBy(ready, selectors), Matching(ready, selectors, ids), limit)
         == Selection(ready, selectors, ids, limit)
  {
  }

  lemma NothingSelected(ready: Ready, ids: set<JobId>, limit: nat)
    ensures Selection(ready, [], ids, limit) == []
  {
    NothingBelowZero(ready, [], ids, limit);
    AllBelowIsMatching(ready, [], ids);
  }

  lemma StarSelection(ready: Ready, selectors: seq<string>, ids: set<JobId>, star: nat, rows: seq<JobId>, limit: nat)
    requires star < |selectors| && selectors[star] == "*"
    requires rows == Query(ready, RankBy(ready, selectors), Below(ready, selectors, ids, star), limit)
    ensures |rows| <= limit
    ensures |rows| == limit ==> rows == Selection(ready, selectors, ids, limit)
    ensures |rows| < limit ==>
              rows + Query(ready, Unranked, ids - Members(rows), limit - |rows|) == Selection(ready, selectors, ids, limit)
  {
    hide Query;
    AllBelowIsMatching(ready, selectors, ids);
    NextRank(ready, selectors, ids, star, limit);
    StarCovers(ready, selectors, ids, star);
    if |rows| == limit {
      FullStaysFull(ready, selectors, ids, star, |selectors|, limit);
    } else {
      StarRest(ready, selectors, ids, star, rows, limit);
      SameVisible(ready, Unranked, ids - Members(rows), At(ready, selectors, ids, star), limit - |rows|);
    }
  }

  lemma AllQueuesSelection(ready: Ready, ids: set<JobId>, limit: nat)
    ensures Query(ready, Unranked, ids, limit) == Selection(ready, ["*"], ids, limit)
  {
    NothingBelowZero(ready, ["*"], ids, limit);
    hide Query;
    StarSelection(ready, ["*"], ids, 0, [], limit);
    assert ids - Members([]) == ids;
    if limit == 0 {
      QueryMembers(ready, Unranked, ids, 0);
    }
  }
}
