/**
 Which rows each transaction takes, told from the tables before and after: what a row that was taken was like, and
 why one that was not is still there.
 */
module Selections {
  import opened Results
  import opened Semaphores
  import opened Ordering
  import opened Grouping
  import opened Tables
  import opened Slots
  import opened SlotAccounting
  import opened Dispatch
  import opened Claiming
  import opened Lifecycle
  import opened LifecycleSafety
  import opened Outcomes

  /** Rank, priority and row id of a row. */
  type Columns = (int, int, int)

  /** Lower ranks first, higher priorities first among them, lower row ids first among those. */
  predicate NoLater(a: Columns, b: Columns) {
    || a.0 < b.0
    || (a.0 == b.0 && a.1 > b.1)
    || (a.0 == b.0 && a.1 == b.1 && a.2 <= b.2)
  }

  /** The first `k` of the jobs that are eligible, all of them when they are fewer. */
  ghost predicate AreFirst(taken: set<JobId>, eligible: JobId -> bool, columns: JobId -> Columns, k: nat) {
    && |taken| <= k
    && (forall id :: id in taken ==> eligible(id))
    && (forall id :: eligible(id) && id !in taken ==> |taken| == k)
    && (forall x, y :: x in taken && eligible(y) && y !in taken ==> NoLater(columns(x), columns(y)))
  }

  /** A batch is that, whatever the columns are called. */
  lemma BatchIsFirstOf(
    ids: set<JobId>, entries: JobId -> Entry, k: nat, eligible: JobId -> bool, columns: JobId -> Columns)
    requires forall id :: id in ids <==> eligible(id)
    requires forall id :: id in ids ==>
               columns(id) == (entries(id).rank, entries(id).priority, entries(id).pk)
    ensures AreFirst(Members(Batch(ids, entries, k)), eligible, columns, k)
  {
    var batch := Batch(ids, entries, k);
    BatchMembers(ids, entries, k);
    DistinctMembers(batch);
    hide Batch, Distinct;
    forall x, y | x in batch && eligible(y) && y !in batch
      ensures NoLater(columns(x), columns(y))
    {
      BatchIsFirst(ids, entries, k, x, y);
    }
    forall y | eligible(y) && y !in batch
      ensures |batch| == k
    {
      BatchIsFirst(ids, entries, k, y, y);
    }
  }

  lemma {:induction false} DistinctMembers(ids: seq<JobId>)
    requires Distinct(ids)
    ensures |Members(ids)| == |ids|
    decreases |ids|
  {
    if ids != [] {
      DistinctMembers(ids[1..]);
      assert Members(ids) == Members(ids[1..]) + {ids[0]} by {
        assert forall j :: j in ids <==> j == ids[0] || j in ids[1..];
      }
      assert ids[0] !in ids[1..];
    }
  }

  // ---------------------------------------------------------------- claim

  /** The selector is the queue, or ends in `*` and the queue begins with what stands before it. */
  predicate Serves(selector: string, queue: string) {
    || selector == queue
    || (|selector| > 0 && selector[|selector| - 1] == '*'
        && |queue| >= |selector| - 1 && queue[..|selector| - 1] == selector[..|selector| - 1])
  }

  /** The first selector that serves the queue; a claim of all queues has one that serves any. */
  ghost predicate FirstServes(queues: Queues, queue: string, i: nat) {
    match queues
    case AllQueues => i == 0
    case Listed(selectors) => i < |selectors| && Serves(selectors[i], queue) && forall j :: 0 <= j < i ==> !Serves(selectors[j], queue)
  }

  lemma ServesIsMatches(selector: string, queue: string)
    ensures Serves(selector, queue) <==> Matches(selector, queue)
  {
    if EndsWithStar(selector) {
      var prefix := selector[..|selector| - 1];
      assert prefix <= queue <==> |queue| >= |prefix| && queue[..|prefix|] == prefix;
    }
  }

  lemma FirstServesIsRank(queues: Queues, queue: string, i: nat)
    ensures FirstServes(queues, queue, i) <==> i < |SelectorsOf(queues)| && i == Rank(SelectorsOf(queues), queue)
  {
    forall selector
      ensures Serves(selector, queue) <==> Matches(selector, queue)
    {
      ServesIsMatches(selector, queue);
    }
    hide Serves, Matches;
    if queues.AllQueues? {
      assert Matches("*", queue) by {
        assert Serves("*", queue) by {
          AnyQueue(queue);
        }
      }
    }
  }

  lemma AnyQueue(queue: string)
    ensures Serves("*", queue)
  {
    assert "*"[..0] == queue[..0];
  }

  /** A ready row of the backend, not locked, in a queue that is not paused and that some selector serves. */
  ghost predicate Claimable(db: Db, cfg: Config, queues: Queues, hidden: set<JobId>, id: JobId) {
    && id in db.ready && id !in hidden && db.ready[id].backend == cfg.backend
    && (forall pause :: pause in db.pauses ==> pause.0 != cfg.backend || pause.1 != db.ready[id].queue)
    && exists i: nat :: FirstServes(queues, db.ready[id].queue, i)
  }

  function ReadyColumns(db: Db, queues: Queues): JobId -> Entry {
    (id: JobId) => if id in db.ready then Entry(Rank(SelectorsOf(queues), db.ready[id].queue), db.ready[id].priority, db.ready[id].pk, id)
                   else Entry(0, 0, 0, id)
  }

  lemma SelectionIsBatch(db: Db, queues: Queues, ids: set<JobId>, limit: nat)
    ensures Selection(db.ready, SelectorsOf(queues), ids, limit)
         == Batch(Matching(db.ready, SelectorsOf(queues), ids), ReadyColumns(db, queues), limit)
  {
    var selectors := SelectorsOf(queues);
    var matching := Matching(db.ready, selectors, ids);
    assert Keyed(db.ready, RankBy(db.ready, selectors), matching)
        == set id | id in matching :: ReadyColumns(db, queues)(id).(job := id);
  }

  lemma ClaimableIsMatching(db: Db, cfg: Config, queues: Queues, hidden: set<JobId>, id: JobId)
    ensures Claimable(db, cfg, queues, hidden, id)
       <==> id in Matching(db.ready, SelectorsOf(queues), Visible(db, cfg, hidden))
  {
    if id in db.ready {
      var queue := db.ready[id].queue;
      var rank := Rank(SelectorsOf(queues), queue);
      FirstServesIsRank(queues, queue, rank);
      forall i: nat
        ensures FirstServes(queues, queue, i) ==> i == rank && i < |SelectorsOf(queues)|
      {
        FirstServesIsRank(queues, queue, i);
      }
      hide FirstServes, Rank, SelectorsOf;
      assert (cfg.backend, queue) in db.pauses <==>
               exists pause :: pause in db.pauses && pause.0 == cfg.backend && pause.1 == queue by {
        if (cfg.backend, queue) in db.pauses {
          var pause := (cfg.backend, queue);
          assert pause in db.pauses && pause.0 == cfg.backend && pause.1 == queue;
        }
      }
    }
  }

  ghost predicate NewlyClaimed(db: Db, after: Db, id: JobId) {
    id in after.claimed && id !in db.claimed
  }

  /** The rows a claim locks, some of whose queues may be paused by then. */
  function Locked(db: Db, cfg: Config, queues: Queues, limit: nat, hidden: set<JobId>): seq<JobId> {
    Selection(db.ready, SelectorsOf(queues), Visible(db, cfg, hidden), limit)
  }

  lemma NewlyClaimedIffLocked(
    db: Db, cfg: Config, queues: Queues, limit: nat, process: Option<ProcessId>, hidden: set<JobId>,
    paused: set<string>, id: JobId)
    requires Claim(db, cfg, queues, limit, process, hidden, paused).Ok?
    ensures var after := Claim(db, cfg, queues, limit, process, hidden, paused).value;
            && (NewlyClaimed(db, after, id) <==>
                  id in Locked(db, cfg, queues, limit, hidden) && id in db.ready && db.ready[id].queue !in paused)
            && (NewlyClaimed(db, after, id) ==> id !in after.ready && after.claimed[id].process == process)
            && (id in db.claimed ==> id in after.claimed && after.claimed[id] == db.claimed[id])
            && (id in db.ready && !NewlyClaimed(db, after, id) ==> id in after.ready && after.ready[id] == db.ready[id])
  {
    var ids := ClaimedIds(db, cfg, queues, limit, hidden, paused);
    LockedIsFree(db, cfg, queues, limit, process, hidden, paused, id);
    ClaimedIdsAre(db, cfg, queues, limit, hidden, paused, id);
    ClaimOutcome(db, cfg, queues, limit, process, hidden, paused);
    LockedMembers(db, cfg, queues, limit, hidden);
    MembersAre(ids, id);
    hide Claim, Locked, ClaimedIds, Members, SelectorsOf, Visible;
  }

  lemma ClaimedIdsAre(
    db: Db, cfg: Config, queues: Queues, limit: nat, hidden: set<JobId>, paused: set<string>, id: JobId)
    ensures id in ClaimedIds(db, cfg, queues, limit, hidden, paused)
       <==> id in Locked(db, cfg, queues, limit, hidden) && id in db.ready && db.ready[id].queue !in paused
  {
    hide Selection, Where, Visible, SelectorsOf;
  }

  lemma LockedIsFree(
    db: Db, cfg: Config, queues: Queues, limit: nat, process: Option<ProcessId>, hidden: set<JobId>,
    paused: set<string>, id: JobId)
    requires Claim(db, cfg, queues, limit, process, hidden, paused).Ok?
    ensures id in Locked(db, cfg, queues, limit, hidden) ==> id !in db.claimed
  {
    hide Selection, Visible, SelectorsOf, ClaimAll, ClaimedIds;
  }

  /** What was claimed could be claimed, went to the process, and its queue was not paused meanwhile; nothing else moved. */
  lemma ClaimTakesClaimable(
    db: Db, cfg: Config, queues: Queues, limit: nat, process: Option<ProcessId>, hidden: set<JobId>,
    paused: set<string>, id: JobId)
    requires Claim(db, cfg, queues, limit, process, hidden, paused).Ok?
    ensures var after := Claim(db, cfg, queues, limit, process, hidden, paused).value;
            && (NewlyClaimed(db, after, id) ==>
                  && Claimable(db, cfg, queues, hidden, id) && db.ready[id].queue !in paused
                  && id !in after.ready && after.claimed[id].process == process)
            && (id in db.ready && !NewlyClaimed(db, after, id) ==> id in after.ready && after.ready[id] == db.ready[id])
            && (id in db.claimed ==> id in after.claimed && after.claimed[id] == db.claimed[id])
  {
    NewlyClaimedIffLocked(db, cfg, queues, limit, process, hidden, paused, id);
    ClaimableIsMatching(db, cfg, queues, hidden, id);
    LockedMembers(db, cfg, queues, limit, hidden);
    hide Locked, Claimable, Claim, Matching, Visible;
  }

  /**
   A claim is refused exactly for a process that is unknown or of another backend, or when a locked row has no job of
   the backend, or a job with another state row.
   */
  lemma ClaimOkIff(
    db: Db, cfg: Config, queues: Queues, limit: nat, process: Option<ProcessId>, hidden: set<JobId>, paused: set<string>)
    ensures Claim(db, cfg, queues, limit, process, hidden, paused).Ok? <==>
              && (process.Some? ==> process.value in db.processes && db.processes[process.value].backend == cfg.backend)
              && forall id :: id in Locked(db, cfg, queues, limit, hidden) ==>
                   && id in db.jobs && db.jobs[id].backend == cfg.backend
                   && id !in db.scheduled && id !in db.claimed && id !in db.blocked && id !in db.failed
  {
    CheckSelectedIff(db, cfg, Locked(db, cfg, queues, limit, hidden));
    hide Selection, SelectorsOf, Visible, ClaimAll, ClaimedIds, CheckSelected;
  }

  lemma CheckSelectedIff(db: Db, cfg: Config, rows: seq<JobId>)
    ensures CheckSelected(db, cfg, rows).Ok? <==>
              forall id :: id in rows ==>
                && id in db.jobs && db.jobs[id].backend == cfg.backend
                && id !in db.scheduled && id !in db.claimed && id !in db.blocked && id !in db.failed
  {
    forall id
      ensures Live(Evict(db, Ready, id), id)
         <==> id in db.scheduled || id in db.claimed || id in db.blocked || id in db.failed
    {
    }
    hide Live, Evict;
  }

  lemma LockedMembers(db: Db, cfg: Config, queues: Queues, limit: nat, hidden: set<JobId>)
    ensures forall id :: id in Locked(db, cfg, queues, limit, hidden) ==>
              id in Matching(db.ready, SelectorsOf(queues), Visible(db, cfg, hidden))
  {
    var selectors := SelectorsOf(queues);
    QueryMembers(db.ready, RankBy(db.ready, selectors), Matching(db.ready, selectors, Visible(db, cfg, hidden)), limit);
  }

  /**
   A row that could have been claimed and was left behind, its queue not paused meanwhile, comes after every row
   that was claimed: by the first selector that serves it, by priority, by id.
   */
  lemma ClaimTakesFirst(
    db: Db, cfg: Config, queues: Queues, limit: nat, process: Option<ProcessId>, hidden: set<JobId>,
    paused: set<string>, x: JobId, y: JobId, i: nat, j: nat)
    requires Claim(db, cfg, queues, limit, process, hidden, paused).Ok?
    requires NewlyClaimed(db, Claim(db, cfg, queues, limit, process, hidden, paused).value, x)
    requires Claimable(db, cfg, queues, hidden, y) && db.ready[y].queue !in paused
    requires y in Claim(db, cfg, queues, limit, process, hidden, paused).value.ready
    requires x in db.ready && FirstServes(queues, db.ready[x].queue, i) && FirstServes(queues, db.ready[y].queue, j)
    ensures NoLater((i, db.ready[x].priority, db.ready[x].pk), (j, db.ready[y].priority, db.ready[y].pk))
  {
    assert y in db.ready;
    hide *;
    NewlyClaimedIffLocked(db, cfg, queues, limit, process, hidden, paused, x);
    ReadyIsNotClaimed(db, cfg, queues, limit, process, hidden, paused, y);
    NewlyClaimedIffLocked(db, cfg, queues, limit, process, hidden, paused, y);
    LockedBefore(db, cfg, queues, limit, hidden, x, y);
    FirstServesIsRank(queues, db.ready[x].queue, i);
    FirstServesIsRank(queues, db.ready[y].queue, j);
  }

  lemma ReadyIsNotClaimed(
    db: Db, cfg: Config, queues: Queues, limit: nat, process: Option<ProcessId>, hidden: set<JobId>,
    paused: set<string>, id: JobId)
    requires Claim(db, cfg, queues, limit, process, hidden, paused).Ok?
    requires id in Claim(db, cfg, queues, limit, process, hidden, paused).value.ready
    ensures !NewlyClaimed(db, Claim(db, cfg, queues, limit, process, hidden, paused).value, id)
  {
    NewlyClaimedIffLocked(db, cfg, queues, limit, process, hidden, paused, id);
    hide Claim, Locked;
  }

  lemma LockedBefore(db: Db, cfg: Config, queues: Queues, limit: nat, hidden: set<JobId>, x: JobId, y: JobId)
    requires x in Locked(db, cfg, queues, limit, hidden)
    requires Claimable(db, cfg, queues, hidden, y) && y !in Locked(db, cfg, queues, limit, hidden)
    ensures x in db.ready && y in db.ready
    ensures NoLater((Rank(SelectorsOf(queues), db.ready[x].queue), db.ready[x].priority, db.ready[x].pk),
                    (Rank(SelectorsOf(queues), db.ready[y].queue), db.ready[y].priority, db.ready[y].pk))
  {
    LockedIsFirst(db, cfg, queues, limit, hidden);
    LockedMembers(db, cfg, queues, limit, hidden);
    hide Locked, NoLater, Rank, SelectorsOf, Visible, FirstServes;
    assert x in Members(Locked(db, cfg, queues, limit, hidden));
    assert ClaimableIn(db, cfg, queues, hidden)(y);
  }

  /** If no queue was paused meanwhile and a row that could have been claimed was left behind, `limit` rows were claimed. */
  lemma ClaimFillsLimit(
    db: Db, cfg: Config, queues: Queues, limit: nat, process: Option<ProcessId>, hidden: set<JobId>, y: JobId)
    requires Claim(db, cfg, queues, limit, process, hidden, {}).Ok?
    ensures var after := Claim(db, cfg, queues, limit, process, hidden, {}).value;
            && |after.claimed.Keys - db.claimed.Keys| <= limit
            && (Claimable(db, cfg, queues, hidden, y) && y in after.ready ==> |after.claimed.Keys - db.claimed.Keys| == limit)
  {
    hide *;
    var after := Claim(db, cfg, queues, limit, process, hidden, {}).value;
    var rows := Locked(db, cfg, queues, limit, hidden);
    LockedReady(db, cfg, queues, limit, hidden);
    LockedCount(db, cfg, queues, limit, hidden, y);
    forall id
      ensures id in Members(rows) <==> id in after.claimed.Keys - db.claimed.Keys
    {
      NewlyClaimedIffLocked(db, cfg, queues, limit, process, hidden, {}, id);
      ClaimedKeys(db, after, id);
      MembersAre(rows, id);
    }
    assert Members(rows) == after.claimed.Keys - db.claimed.Keys;
    if y in after.ready {
      ReadyIsNotClaimed(db, cfg, queues, limit, process, hidden, {}, y);
      NewlyClaimedIffLocked(db, cfg, queues, limit, process, hidden, {}, y);
    }
  }

  lemma ClaimedKeys(db: Db, after: Db, id: JobId)
    ensures NewlyClaimed(db, after, id) <==> id in after.claimed.Keys - db.claimed.Keys
  {
  }

  lemma MembersAre(ids: seq<JobId>, id: JobId)
    ensures id in Members(ids) <==> id in ids
  {
  }

  lemma LockedReady(db: Db, cfg: Config, queues: Queues, limit: nat, hidden: set<JobId>)
    ensures forall id :: id in Locked(db, cfg, queues, limit, hidden) ==> id in db.ready
  {
    LockedMembers(db, cfg, queues, limit, hidden);
    hide Locked, Visible, SelectorsOf;
  }

  lemma LockedCount(db: Db, cfg: Config, queues: Queues, limit: nat, hidden: set<JobId>, y: JobId)
    ensures |Members(Locked(db, cfg, queues, limit, hidden))| <= limit
    ensures Claimable(db, cfg, queues, hidden, y) ==> y in db.ready
    ensures Claimable(db, cfg, queues, hidden, y) && y !in Locked(db, cfg, queues, limit, hidden) ==>
              |Members(Locked(db, cfg, queues, limit, hidden))| == limit
  {
    LockedIsFirst(db, cfg, queues, limit, hidden);
    hide Locked, FirstServes, ClaimColumns;
    assert ClaimableIn(db, cfg, queues, hidden)(y) == Claimable(db, cfg, queues, hidden, y);
  }

  ghost function ClaimColumns(db: Db, queues: Queues): JobId -> Columns {
    (id: JobId) => if id in db.ready then (Rank(SelectorsOf(queues), db.ready[id].queue), db.ready[id].priority, db.ready[id].pk)
                   else (0, 0, 0)
  }

  ghost function ClaimableIn(db: Db, cfg: Config, queues: Queues, hidden: set<JobId>): JobId -> bool {
    (id: JobId) => Claimable(db, cfg, queues, hidden, id)
  }

  lemma LockedIsFirst(db: Db, cfg: Config, queues: Queues, limit: nat, hidden: set<JobId>)
    ensures AreFirst(Members(Locked(db, cfg, queues, limit, hidden)), ClaimableIn(db, cfg, queues, hidden),
                     ClaimColumns(db, queues), limit)
  {
    var matching := Matching(db.ready, SelectorsOf(queues), Visible(db, cfg, hidden));
    var claimable := ClaimableIn(db, cfg, queues, hidden);
    forall id
      ensures id in matching <==> claimable(id)
    {
      ClaimableIsMatching(db, cfg, queues, hidden, id);
    }
    SelectionIsBatch(db, queues, Visible(db, cfg, hidden), limit);
    hide Claimable, Batch, AreFirst, Selection, Visible;
    BatchIsFirstOf(matching, ReadyColumns(db, queues), limit, claimable, ClaimColumns(db, queues));
  }
}
