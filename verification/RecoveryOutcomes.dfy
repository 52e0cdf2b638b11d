/** What crash recovery and maintenance leave in the tables. */
module RecoveryOutcomes {
  import opened Results
  import opened Semaphores
  import opened Ordering
  import opened Grouping
  import opened Tables
  import opened Slots
  import opened SlotAccounting
  import opened Dispatch
  import opened Claiming
  import opened Lifecycle
  import opened LifecycleSafety
  import opened Outcomes
  import opened Selections

  /** The claims that are gone. */
  function GoneClaims(a: Db, b: Db): set<JobId> {
    a.claimed.Keys - b.claimed.Keys
  }

  function GoneProcesses(a: Db, b: Db): set<ProcessId> {
    a.processes.Keys - b.processes.Keys
  }

  /** Exactly these claims are gone and their jobs have failed now; other failures are as they were. */
  ghost predicate FailedNow(a: Db, b: Db, ids: set<JobId>, now: Time) {
    && ids <= a.claimed.Keys && b.claimed.Keys == a.claimed.Keys - ids
    && b.failed.Keys == a.failed.Keys + ids
    && (forall id :: id in ids ==> b.failed[id].createdAt == now)
    && (forall id :: id in a.failed && id !in ids ==> b.failed[id] == a.failed[id])
    && b.jobs == a.jobs
  }

  function ClaimedPks(db: Db): JobId -> Columns {
    (id: JobId) => (0, 0, if id in db.claimed then db.claimed[id].pk else 0)
  }

  // ---------------------------------------------------------------- orphans and one process

  /** A claim without a process, of the backend, not locked. */
  predicate Orphan(db: Db, cfg: Config, hidden: set<JobId>, id: JobId) {
    id in db.claimed && id !in hidden && db.claimed[id].process == None && id in db.jobs && db.jobs[id].backend == cfg.backend
  }

  function OrphanIn(db: Db, cfg: Config, hidden: set<JobId>): JobId -> bool {
    (id: JobId) => Orphan(db, cfg, hidden, id)
  }

  /** The first orphaned claims fail; all other claims stay as they are. */
  lemma FailOrphanedTakesFirst(db: Db, cfg: Config, tasks: Tasks, batch: nat, hidden: set<JobId>, now: Time)
    requires FailOrphaned(db, cfg, tasks, batch, hidden, now).Ok?
    ensures var after := FailOrphaned(db, cfg, tasks, batch, hidden, now).value;
            && AreFirst(GoneClaims(db, after), OrphanIn(db, cfg, hidden), ClaimedPks(db), batch)
            && FailedNow(db, after, GoneClaims(db, after), now)
            && (forall id :: id in after.claimed ==> id in db.claimed && after.claimed[id] == db.claimed[id])
  {
    var orphans := set id | id in db.claimed && id !in hidden && db.claimed[id].process.None?
                            && id in db.jobs && db.jobs[id].backend == cfg.backend;
    var ids := Batch(orphans, ClaimedColumns(db), batch);
    hide Batch, AreFirst, FailClaimedBatch;
    BatchIsFirstOf(orphans, ClaimedColumns(db), batch, OrphanIn(db, cfg, hidden), ClaimedPks(db));
    FailedBatchIs(db, cfg, tasks, ids, hidden, now);
  }

  lemma FailedBatchIs(db: Db, cfg: Config, tasks: Tasks, ids: seq<JobId>, hidden: set<JobId>, now: Time)
    requires FailClaimedBatch(db, cfg, tasks, ids, hidden, now).Ok?
    ensures var after := FailClaimedBatch(db, cfg, tasks, ids, hidden, now).value;
            && GoneClaims(db, after) == Members(ids) && FailedNow(db, after, Members(ids), now)
            && after.processes == db.processes && after.claimed == db.claimed - Members(ids)
  {
    FailClaimedBatchOutcome(db, cfg, tasks, ids, hidden, now);
    hide FailClaimedBatch;
    assert forall id :: id in Members(ids) ==> id in db.claimed;
  }

  /** All claims of the process fail, and no other claim is touched. */
  lemma FailForProcessTakesAll(db: Db, cfg: Config, tasks: Tasks, process: ProcessId, hidden: set<JobId>, now: Time)
    requires FailForProcess(db, cfg, tasks, process, hidden, now).Ok?
    ensures var after := FailForProcess(db, cfg, tasks, process, hidden, now).value;
            && (forall id :: id in db.claimed ==> (id in after.claimed <==> db.claimed[id].process != Some(process)))
            && FailedNow(db, after, GoneClaims(db, after), now)
            && (forall id :: id in after.claimed ==> id in db.claimed && after.claimed[id] == db.claimed[id])
  {
    var claims := ClaimsOf(db, process);
    var ids := Batch(claims, ClaimedColumns(db), |claims|);
    AllTaken(claims, ClaimedColumns(db));
    hide Batch, FailClaimedBatch;
    FailedBatchIs(db, cfg, tasks, ids, hidden, now);
  }

  /** A batch that has room for all takes all. */
  lemma AllTaken(ids: set<JobId>, columns: JobId -> Entry)
    ensures Members(Batch(ids, columns, |ids|)) == ids
  {
    var batch := Batch(ids, columns, |ids|);
    BatchMembers(ids, columns, |ids|);
    DistinctMembers(batch);
    assert Members(batch) <= ids;
    if id :| id in ids && id !in batch {
      BatchIsFirst(ids, columns, |ids|, id, id);
      assert Members(batch) < ids;
      Smaller(Members(batch), ids);
    }
    hide Batch;
    assert forall id :: id in Members(batch) <==> id in ids;
  }

  lemma Smaller(a: set<JobId>, b: set<JobId>)
    requires a < b
    ensures |a| < |b|
  {
    assert b == a + (b - a);
    assert b - a != {};
  }

  // ---------------------------------------------------------------- pruning

  /** A process of the backend, not locked and not excluded, whose last heartbeat is before the cutoff. */
  predicate Dead(
    db: Db, cfg: Config, cutoff: Time, exclude: Option<ProcessId>, hiddenProcesses: set<ProcessId>, p: ProcessId)
  {
    && p in db.processes && db.processes[p].backend == cfg.backend && p !in hiddenProcesses && exclude != Some(p)
    && db.processes[p].heartbeatAt < cutoff
  }

  function DeadIn(
    db: Db, cfg: Config, cutoff: Time, exclude: Option<ProcessId>, hiddenProcesses: set<ProcessId>): ProcessId -> bool
  {
    (p: ProcessId) => Dead(db, cfg, cutoff, exclude, hiddenProcesses, p)
  }

  /** The claim is of one of these processes. */
  predicate ClaimOf(db: Db, processes: set<ProcessId>, id: JobId) {
    id in db.claimed && db.claimed[id].process.Some? && db.claimed[id].process.value in processes
  }

  /** What is left of the claims. */
  ghost predicate ClaimsPruned(a: Db, b: Db, processes: set<ProcessId>) {
    forall id :: id in b.claimed ==>
      && id in a.claimed
      && b.claimed[id] == if ClaimOf(a, processes, id) then a.claimed[id].(process := None) else a.claimed[id]
  }

  /**
   These processes are gone, and no others; some of their claims have failed, the rest have no process any more; all
   other processes and claims are as they were.
   */
  ghost predicate Pruned(a: Db, b: Db, processes: set<ProcessId>, now: Time) {
    && b.processes == a.processes - processes
    && (forall id :: id in GoneClaims(a, b) ==> ClaimOf(a, processes, id))
    && FailedNow(a, b, GoneClaims(a, b), now)
    && ClaimsPruned(a, b, processes)
  }

  lemma GoneTwice(a: Db, b: Db, c: Db)
    requires b.claimed.Keys <= a.claimed.Keys && c.claimed.Keys <= b.claimed.Keys
    ensures GoneClaims(a, c) == GoneClaims(a, b) + GoneClaims(b, c)
    ensures |GoneClaims(a, c)| == |GoneClaims(a, b)| + |GoneClaims(b, c)|
  {
    KeysTwice(a.claimed.Keys, b.claimed.Keys, c.claimed.Keys);
  }

  lemma KeysTwice(a: set<JobId>, b: set<JobId>, c: set<JobId>)
    requires c <= b <= a
    ensures a - c == (a - b) + (b - c) && |a - c| == |a - b| + |b - c|
  {
    assert a - c == (a - b) + (b - c);
  }

  lemma FailedTwice(a: Db, b: Db, c: Db, first: set<JobId>, second: set<JobId>, now: Time)
    requires FailedNow(a, b, first, now) && FailedNow(b, c, second, now)
    ensures FailedNow(a, c, first + second, now)
  {
    assert a.claimed.Keys - first - second == a.claimed.Keys - (first + second);
    assert a.failed.Keys + first + second == a.failed.Keys + (first + second);
    forall id | id in a.failed && id !in first + second
      ensures c.failed[id] == a.failed[id]
    {
      assert id in b.failed && b.failed[id] == a.failed[id];
    }
  }

  lemma ClaimsTwice(a: Db, b: Db, c: Db, first: set<ProcessId>, second: set<ProcessId>)
    requires ClaimsPruned(a, b, first) && ClaimsPruned(b, c, second)
    ensures ClaimsPruned(a, c, first + second)
    ensures forall id :: ClaimOf(b, second, id) ==> ClaimOf(a, first + second, id)
  {
    forall id | id in c.claimed
      ensures id in a.claimed
      ensures c.claimed[id] == if ClaimOf(a, first + second, id) then a.claimed[id].(process := None) else a.claimed[id]
    {
      assert id in b.claimed;
    }
  }

  lemma PrunedTwice(a: Db, b: Db, c: Db, first: set<ProcessId>, second: set<ProcessId>, now: Time)
    requires Pruned(a, b, first, now) && Pruned(b, c, second, now)
    ensures Pruned(a, c, first + second, now)
    ensures |GoneClaims(a, c)| == |GoneClaims(a, b)| + |GoneClaims(b, c)|
  {
    hide FailedNow, ClaimsPruned, GoneClaims, ClaimOf;
    var (g, h, all) := (GoneClaims(a, b), GoneClaims(b, c), first + second);
    ProcessesTwice(a.processes, first, second);
    ClaimsTwice(a, b, c, first, second);
    FailedTwice(a, b, c, g, h, now);
    FewerClaims(a, b, g, now);
    FewerClaims(b, c, h, now);
    GoneTwice(a, b, c);
    MoreClaims(a, first, second);
    assert forall id :: id in g ==> ClaimOf(a, all, id);
    assert forall id :: id in h ==> ClaimOf(a, all, id);
    hide Pruned;
    ArePruned(a, c, all, g + h, now);
  }

  lemma ArePruned(a: Db, b: Db, processes: set<ProcessId>, gone: set<JobId>, now: Time)
    requires b.processes == a.processes - processes && GoneClaims(a, b) == gone && ClaimsPruned(a, b, processes)
    requires FailedNow(a, b, gone, now) && forall id :: id in gone ==> ClaimOf(a, processes, id)
    ensures Pruned(a, b, processes, now)
  {
    hide FailedNow, ClaimsPruned, GoneClaims, ClaimOf;
  }

  lemma ProcessesTwice(m: map<ProcessId, Process>, first: set<ProcessId>, second: set<ProcessId>)
    ensures m - first - second == m - (first + second)
  {
  }

  lemma FewerClaims(a: Db, b: Db, ids: set<JobId>, now: Time)
    requires FailedNow(a, b, ids, now)
    ensures b.claimed.Keys <= a.claimed.Keys
  {
  }

  lemma MoreClaims(a: Db, first: set<ProcessId>, second: set<ProcessId>)
    ensures forall id :: ClaimOf(a, first, id) ==> ClaimOf(a, first + second, id)
  {
  }

  lemma NothingPruned(a: Db, now: Time)
    ensures Pruned(a, a, {}, now) && GoneClaims(a, a) == {} && forall id :: !ClaimOf(a, {}, id)
  {
    assert GoneClaims(a, a) == {};
    assert a.processes - {} == a.processes;
  }

  /** One stale process. */
  lemma ProcessPruned(db: Db, cfg: Config, tasks: Tasks, p: ProcessId, limit: nat, hidden: set<JobId>, now: Time)
    requires var ids := Batch(ClaimsOf(db, p), ClaimedColumns(db), limit);
             FailClaimedBatch(DeleteProcess(db, p), cfg, tasks, ids, hidden, now).Ok?
    ensures var ids := Batch(ClaimsOf(db, p), ClaimedColumns(db), limit);
            var after := FailClaimedBatch(DeleteProcess(db, p), cfg, tasks, ids, hidden, now).value;
            && Pruned(db, after, {p}, now) && |GoneClaims(db, after)| == |ids| <= limit
            && (|ids| < limit ==> forall id :: id in db.claimed && db.claimed[id].process == Some(p) ==> id !in after.claimed)
  {
    hide *;
    var ids := Batch(ClaimsOf(db, p), ClaimedColumns(db), limit);
    var deleted := DeleteProcess(db, p);
    var after := FailClaimedBatch(deleted, cfg, tasks, ids, hidden, now).value;
    FailedBatchIs(deleted, cfg, tasks, ids, hidden, now);
    ClaimsTaken(db, p, limit);
    DeletedAndFailed(db, after, p, ids, now);
  }

  lemma ClaimsTaken(db: Db, p: ProcessId, limit: nat)
    ensures var ids := Batch(ClaimsOf(db, p), ClaimedColumns(db), limit);
            && |Members(ids)| == |ids| <= limit && (forall id :: id in ids ==> ClaimOf(db, {p}, id))
            && (|ids| < limit ==> forall id :: id in db.claimed && db.claimed[id].process == Some(p) ==> id in ids)
  {
    var ids := Batch(ClaimsOf(db, p), ClaimedColumns(db), limit);
    BatchMembers(ClaimsOf(db, p), ClaimedColumns(db), limit);
    DistinctMembers(ids);
    hide Batch, Distinct, ClaimedColumns;
    if |ids| < limit {
      forall id | id in ClaimsOf(db, p)
        ensures id in ids
      {
        BatchIsFirst(ClaimsOf(db, p), ClaimedColumns(db), limit, id, id);
      }
    }
  }

  lemma DeletedAndFailed(db: Db, after: Db, p: ProcessId, ids: seq<JobId>, now: Time)
    requires var deleted := DeleteProcess(db, p);
             && GoneClaims(deleted, after) == Members(ids) && FailedNow(deleted, after, Members(ids), now)
             && after.processes == deleted.processes && after.claimed == deleted.claimed - Members(ids)
    requires forall id :: id in ids ==> ClaimOf(db, {p}, id)
    ensures Pruned(db, after, {p}, now) && GoneClaims(db, after) == Members(ids)
    ensures forall id :: id in ids ==> id !in after.claimed
  {
    assert DeleteProcess(db, p).claimed.Keys == db.claimed.Keys;
    assert GoneClaims(db, after) == Members(ids);
  }

  /** The loop handles the processes in order until it has failed as many claims as it may. */
  lemma {:induction false} PruneEachOutcome(
    db: Db, cfg: Config, tasks: Tasks, ps: seq<ProcessId>, cutoff: Time, remaining: nat, hidden: set<JobId>, now: Time)
    returns (n: nat)
    requires PruneEach(db, cfg, tasks, ps, cutoff, remaining, hidden, now).Ok?
    requires Distinct(ps) && forall p :: p in ps ==> Stale(db, cfg, p, cutoff)
    ensures var after := PruneEach(db, cfg, tasks, ps, cutoff, remaining, hidden, now).value;
            && n <= |ps| && Pruned(db, after, Members(ps[..n]), now) && |GoneClaims(db, after)| <= remaining
            && (|GoneClaims(db, after)| < remaining ==>
                  n == |ps| && forall id :: ClaimOf(db, Members(ps), id) ==> id !in after.claimed)
    decreases |ps|
  {
    hide Stale, Batch, FailClaimedBatch, Pruned, GoneClaims, ClaimOf, Members, DeleteProcess, ClaimsOf, Distinct;
    if ps == [] {
      n := 0;
      NothingPruned(db, now);
      NoMembers(ps);
    } else {
      var (p, rest) := (ps[0], ps[1..]);
      assert p in ps;
      var ids := Batch(ClaimsOf(db, p), ClaimedColumns(db), remaining);
      var pruned := FailClaimedBatch(DeleteProcess(db, p), cfg, tasks, ids, hidden, now).value;
      ProcessPruned(db, cfg, tasks, p, remaining, hidden, now);
      FirstMember(ps);
      if |ids| >= remaining {
        n := 1;
      } else {
        RestIsStale(db, pruned, cfg, ps, cutoff, now);
        var m := PruneEachOutcome(pruned, cfg, tasks, rest, cutoff, remaining - |ids|, hidden, now);
        n := m + 1;
        var after := PruneEach(pruned, cfg, tasks, rest, cutoff, remaining - |ids|, hidden, now).value;
        PrunedTwice(db, pruned, after, {p}, Members(rest[..m]), now);
        MoreMembers(ps, m);
        if |GoneClaims(db, after)| < remaining {
          assert rest[..m] == rest;
          AllClaimsGone(db, pruned, after, ps, now);
        }
      }
    }
  }

  lemma NoMembers(ps: seq<ProcessId>)
    requires ps == []
    ensures Members(ps[..0]) == {} && Members(ps) == {}
  {
  }

  lemma FirstMember(ps: seq<ProcessId>)
    requires ps != []
    ensures Members(ps[..1]) == {ps[0]}
  {
  }

  lemma MoreMembers(ps: seq<ProcessId>, m: nat)
    requires ps != [] && m <= |ps[1..]|
    ensures Members(ps[..m + 1]) == {ps[0]} + Members(ps[1..][..m])
  {
    assert ps[..m + 1] == [ps[0]] + ps[1..][..m];
    assert forall p :: p in ps[..m + 1] <==> p == ps[0] || p in ps[1..][..m];
  }

  /** The remaining processes are still there, as they were. */
  lemma RestIsStale(db: Db, pruned: Db, cfg: Config, ps: seq<ProcessId>, cutoff: Time, now: Time)
    requires ps != [] && Distinct(ps) && Pruned(db, pruned, {ps[0]}, now)
    requires forall p :: p in ps ==> Stale(db, cfg, p, cutoff)
    ensures Distinct(ps[1..]) && forall p :: p in ps[1..] ==> Stale(pruned, cfg, p, cutoff)
  {
    hide ClaimOf, FailedNow, ClaimsPruned;
    forall p | p in ps[1..]
      ensures Stale(pruned, cfg, p, cutoff)
    {
      assert p in ps && p != ps[0];
    }
  }

  lemma AllClaimsGone(db: Db, pruned: Db, after: Db, ps: seq<ProcessId>, now: Time)
    requires ps != [] && Pruned(db, pruned, {ps[0]}, now) && Pruned(pruned, after, Members(ps[1..]), now)
    requires forall id :: id in db.claimed && db.claimed[id].process == Some(ps[0]) ==> id !in pruned.claimed
    requires forall id :: ClaimOf(pruned, Members(ps[1..]), id) ==> id !in after.claimed
    ensures forall id :: ClaimOf(db, Members(ps), id) ==> id !in after.claimed
  {
    hide FailedNow;
    forall id | ClaimOf(db, Members(ps), id)
      ensures id !in after.claimed
    {
      var p := db.claimed[id].process.value;
      assert p in ps;
      if p != ps[0] && id in pruned.claimed {
        assert p in ps[1..];
        assert ClaimOf(pruned, Members(ps[1..]), id);
      }
    }
  }

  function Heartbeats(db: Db): ProcessId -> Columns {
    (p: ProcessId) => (if p in db.processes then db.processes[p].heartbeatAt else 0, 0, p)
  }

  function StaleBatch(
    db: Db, cfg: Config, cutoff: Time, exclude: Option<ProcessId>, batch: nat, hiddenProcesses: set<ProcessId>): seq<ProcessId>
  {
    var stale := set p | p in db.processes && p !in hiddenProcesses && Some(p) != exclude && Stale(db, cfg, p, cutoff);
    Batch(stale, StaleColumns(db), batch)
  }

  lemma StaleBatchIsFirst(
    db: Db, cfg: Config, cutoff: Time, exclude: Option<ProcessId>, batch: nat, hiddenProcesses: set<ProcessId>)
    ensures var ps := StaleBatch(db, cfg, cutoff, exclude, batch, hiddenProcesses);
            && AreFirst(Members(ps), DeadIn(db, cfg, cutoff, exclude, hiddenProcesses), Heartbeats(db), batch)
            && Distinct(ps) && (forall p :: p in ps ==> Stale(db, cfg, p, cutoff))
            && InOrder(ps, Heartbeats(db))
  {
    var stale := set p | p in db.processes && p !in hiddenProcesses && Some(p) != exclude && Stale(db, cfg, p, cutoff);
    BatchMembers(stale, StaleColumns(db), batch);
    BatchInOrder(stale, StaleColumns(db), batch, Heartbeats(db));
    hide Batch, AreFirst, Distinct, InOrder;
    BatchIsFirstOf(stale, StaleColumns(db), batch, DeadIn(db, cfg, cutoff, exclude, hiddenProcesses), Heartbeats(db));
  }

  ghost predicate InOrder(ids: seq<JobId>, columns: JobId -> Columns) {
    forall i, j :: 0 <= i < j < |ids| ==> NoLater(columns(ids[i]), columns(ids[j]))
  }

  lemma BatchInOrder(ids: set<JobId>, entries: JobId -> Entry, k: nat, columns: JobId -> Columns)
    requires forall id :: id in ids ==> columns(id) == (entries(id).rank, entries(id).priority, entries(id).pk)
    ensures InOrder(Batch(ids, entries, k), columns)
  {
    var all := set id | id in ids :: entries(id).(job := id);
    var es := Take(all, k);
    forall i, j | 0 <= i < j < |es|
      ensures NoLater(columns(es[i].job), columns(es[j].job))
    {
      assert es[i] in es && es[j] in es;
      assert Before(es[i], es[j]);
    }
  }

  /** The beginning of a list that is first is first as well. */
  lemma PrefixBefore(ps: seq<ProcessId>, n: nat, eligible: ProcessId -> bool, columns: ProcessId -> Columns, k: nat)
    requires n <= |ps| && AreFirst(Members(ps), eligible, columns, k) && InOrder(ps, columns)
    ensures forall x, y :: x in Members(ps[..n]) && eligible(y) && y !in Members(ps[..n]) ==> NoLater(columns(x), columns(y))
    ensures forall x :: x in Members(ps[..n]) ==> eligible(x)
  {
    hide NoLater;
    forall x, y | x in Members(ps[..n]) && eligible(y) && y !in Members(ps[..n])
      ensures NoLater(columns(x), columns(y))
    {
      var i :| 0 <= i < n && ps[i] == x;
      assert x in Members(ps);
      if y in ps {
        var j :| 0 <= j < |ps| && ps[j] == y;
        assert j >= n by {
          PrefixMember(ps, n, j);
        }
      }
    }
    forall x | x in Members(ps[..n])
      ensures eligible(x)
    {
      assert x in Members(ps);
    }
  }

  lemma PrefixMember(ps: seq<ProcessId>, n: nat, j: nat)
    requires n <= |ps| && j < |ps|
    ensures j < n ==> ps[j] in Members(ps[..n])
  {
    if j < n {
      assert ps[..n][j] == ps[j];
    }
  }

  lemma PruneStaleUnfold(
    db: Db, cfg: Config, tasks: Tasks, cutoff: Time, exclude: Option<ProcessId>, batch: nat,
    hiddenProcesses: set<ProcessId>, hidden: set<JobId>, now: Time)
    ensures PruneStale(db, cfg, tasks, cutoff, exclude, batch, hiddenProcesses, hidden, now)
         == PruneEach(db, cfg, tasks, StaleBatch(db, cfg, cutoff, exclude, batch, hiddenProcesses), cutoff, batch, hidden, now)
  {
    hide PruneEach, Batch;
  }

  lemma PrunedProcesses(db: Db, after: Db, ps: set<ProcessId>, now: Time)
    requires Pruned(db, after, ps, now) && forall p :: p in ps ==> p in db.processes
    ensures GoneProcesses(db, after) == ps
  {
    assert forall p :: p in GoneProcesses(db, after) <==> p in ps;
  }

  /**
   Only dead processes are gone, the longest silent first. Their claims have failed, as many as the batch allows, and
   what is left of them has no process any more; nothing else has changed. Unless the batch was used up by the claims
   of these processes all of them have failed, and as many dead processes as fit the batch are gone.
   */
  lemma PruneStaleOutcome(
    db: Db, cfg: Config, tasks: Tasks, cutoff: Time, exclude: Option<ProcessId>, batch: nat,
    hiddenProcesses: set<ProcessId>, hidden: set<JobId>, now: Time)
    requires PruneStale(db, cfg, tasks, cutoff, exclude, batch, hiddenProcesses, hidden, now).Ok?
    ensures var after := PruneStale(db, cfg, tasks, cutoff, exclude, batch, hiddenProcesses, hidden, now).value;
            var (gone, dead) := (GoneProcesses(db, after), DeadIn(db, cfg, cutoff, exclude, hiddenProcesses));
            && Pruned(db, after, gone, now) && |GoneClaims(db, after)| <= batch
            && (forall p :: p in gone ==> dead(p))
            && (forall p, q :: p in gone && dead(q) && q !in gone ==> NoLater(Heartbeats(db)(p), Heartbeats(db)(q)))
            && (|GoneClaims(db, after)| < batch ==>
                  && AreFirst(gone, dead, Heartbeats(db), batch)
                  && forall id :: ClaimOf(db, gone, id) ==> id !in after.claimed)
  {
    hide *;
    var after := PruneStale(db, cfg, tasks, cutoff, exclude, batch, hiddenProcesses, hidden, now).value;
    var dead := DeadIn(db, cfg, cutoff, exclude, hiddenProcesses);
    var ps := StaleBatch(db, cfg, cutoff, exclude, batch, hiddenProcesses);
    PruneStaleUnfold(db, cfg, tasks, cutoff, exclude, batch, hiddenProcesses, hidden, now);
    StaleBatchIsFirst(db, cfg, cutoff, exclude, batch, hiddenProcesses);
    var n := PruneEachOutcome(db, cfg, tasks, ps, cutoff, batch, hidden, now);
    PrefixBefore(ps, n, dead, Heartbeats(db), batch);
    DeadAreThere(db, cfg, cutoff, exclude, hiddenProcesses);
    PrunedProcesses(db, after, Members(ps[..n]), now);
    assert n == |ps| ==> ps[..n] == ps;
  }

  lemma DeadAreThere(db: Db, cfg: Config, cutoff: Time, exclude: Option<ProcessId>, hiddenProcesses: set<ProcessId>)
    ensures forall p :: DeadIn(db, cfg, cutoff, exclude, hiddenProcesses)(p) ==> p in db.processes
  {
  }

  // ---------------------------------------------------------------- expired blocked rows

  /** A blocked row of the backend, not locked, that has expired. */
  predicate Expired(db: Db, cfg: Config, hidden: set<JobId>, now: Time, id: JobId) {
    id in db.blocked && id !in hidden && db.blocked[id].backend == cfg.backend && db.blocked[id].expiresAt <= now
  }

  function ExpiredIn(db: Db, cfg: Config, hidden: set<JobId>, now: Time): JobId -> bool {
    (id: JobId) => Expired(db, cfg, hidden, now, id)
  }

  function Expiries(db: Db): JobId -> Columns {
    (id: JobId) => if id in db.blocked then (db.blocked[id].expiresAt, db.blocked[id].priority, db.blocked[id].pk) else (0, 0, 0)
  }

  /** Without a policy the job has failed now; with one it is ready, or blocked for the policy's duration. */
  predicate Handled(after: Db, tasks: Tasks, job: Job, id: JobId, now: Time) {
    match Settings(job, tasks)
    case Err(_) => id !in after.blocked && id in after.failed && after.failed[id].createdAt == now
    case Ok(policy) =>
      if id in after.blocked then after.blocked[id].expiresAt == now + policy.duration else id in after.ready
  }

  /** The job's ready, blocked and failed rows are the same. */
  predicate SameRows(a: Db, b: Db, id: JobId) {
    && (id in a.ready <==> id in b.ready) && (id in a.ready ==> a.ready[id] == b.ready[id])
    && (id in a.blocked <==> id in b.blocked) && (id in a.blocked ==> a.blocked[id] == b.blocked[id])
    && (id in a.failed <==> id in b.failed) && (id in a.failed ==> a.failed[id] == b.failed[id])
  }

  predicate SameElsewhere(a: Db, b: Db) {
    b.jobs == a.jobs && b.scheduled == a.scheduled && b.claimed == a.claimed && b.processes == a.processes && b.pauses == a.pauses
  }

  lemma ExpireOneHandles(db: Db, tasks: Tasks, id: JobId, row: BlockedRow, consumed: bool, now: Time)
    requires ExpireOne(db, tasks, id, row, consumed, now).Ok?
    ensures var after := ExpireOne(db, tasks, id, row, consumed, now).value;
            && id in db.jobs && Handled(after, tasks, db.jobs[id], id, now) && SameElsewhere(db, after)
            && forall j :: j != id ==> SameRows(db, after, j)
  {
    hide *;
    ExpireOneCases(db, tasks, id, row, consumed, now);
    var evicted := if consumed then db else Evict(db, Blocked, id);
    EvictTouches(db, id);
    match Settings(db.jobs[id], tasks)
    case Err(_) =>
      PutTouches(evicted, id, row, now, now);
      TouchesTwice(db, evicted, PutFailed(evicted, id, now), id);
      IsHandled(PutFailed(evicted, id, now), tasks, db.jobs[id], id, now);
    case Ok(policy) =>
      var until := now + policy.duration;
      var taken := AcquireSlot(db, row.key, policy.limit, policy.duration, now).0;
      var free := if consumed then taken else Evict(taken, Blocked, id);
      TakenTouches(db, row.key, policy, now, id);
      EvictTouches(taken, id);
      TouchesTwice(db, taken, free, id);
      PutTouches(free, id, row, now, until);
      TouchesTwice(db, free, PutReady(free, id, row.backend, row.queue, row.priority), id);
      TouchesTwice(db, free, PutBlocked(free, id, row.(expiresAt := until)), id);
      if id in taken.blocked {
        RenewTouches(taken, id, until);
        TouchesTwice(db, taken, Renewed(taken, id, until), id);
      }
      IsHandled(ExpireOne(db, tasks, id, row, consumed, now).value, tasks, db.jobs[id], id, now);
  }

  /** No other job's rows change. */
  ghost predicate Touches(a: Db, b: Db, id: JobId) {
    SameElsewhere(a, b) && forall j :: j != id ==> SameRows(a, b, j)
  }

  function Renewed(db: Db, id: JobId, until: Time): Db
    requires id in db.blocked
  {
    db.(blocked := db.blocked[id := db.blocked[id].(expiresAt := until)])
  }

  lemma ExpireOneCases(db: Db, tasks: Tasks, id: JobId, row: BlockedRow, consumed: bool, now: Time)
    requires ExpireOne(db, tasks, id, row, consumed, now).Ok?
    ensures id in db.jobs
    ensures var after := ExpireOne(db, tasks, id, row, consumed, now).value;
            match Settings(db.jobs[id], tasks)
            case Err(_) =>
              var evicted := if consumed then db else Evict(db, Blocked, id);
              id !in evicted.blocked && after == PutFailed(evicted, id, now)
            case Ok(policy) =>
              var taken := AcquireSlot(db, row.key, policy.limit, policy.duration, now).0;
              var free := if consumed then taken else Evict(taken, Blocked, id);
              || (id !in free.blocked && after == PutReady(free, id, row.backend, row.queue, row.priority))
              || after == PutBlocked(free, id, row.(expiresAt := now + policy.duration))
              || (id in taken.blocked && after == Renewed(taken, id, now + policy.duration))
  {
    hide Acquire, Settings;
  }

  lemma IsHandled(after: Db, tasks: Tasks, job: Job, id: JobId, now: Time)
    requires match Settings(job, tasks)
             case Err(_) => id !in after.blocked && id in after.failed && after.failed[id].createdAt == now
             case Ok(policy) => if id in after.blocked then after.blocked[id].expiresAt == now + policy.duration else id in after.ready
    ensures Handled(after, tasks, job, id, now)
  {
    hide Settings;
  }

  lemma TouchesTwice(a: Db, b: Db, c: Db, id: JobId)
    ensures Touches(a, a, id)
    ensures Touches(a, b, id) && Touches(b, c, id) ==> Touches(a, c, id)
    ensures Touches(a, c, id) ==> SameElsewhere(a, c) && forall j :: j != id ==> SameRows(a, c, j)
  {
    hide SameRows, SameElsewhere;
    SameElsewhereTwice(a, b, c);
    forall j
    {
      SameRowsTwice(a, b, c, j);
    }
  }

  lemma EvictTouches(db: Db, id: JobId)
    ensures Touches(db, Evict(db, Blocked, id), id)
  {
  }

  lemma TakenTouches(db: Db, key: string, policy: Policy, now: Time, id: JobId)
    ensures Touches(db, AcquireSlot(db, key, policy.limit, policy.duration, now).0, id)
  {
    hide Acquire;
  }

  lemma PutTouches(db: Db, id: JobId, row: BlockedRow, now: Time, until: Time)
    ensures Touches(db, PutFailed(db, id, now), id)
    ensures Touches(db, PutReady(db, id, row.backend, row.queue, row.priority), id)
    ensures Touches(db, PutBlocked(db, id, row.(expiresAt := until)), id)
    ensures PutFailed(db, id, now).blocked == db.blocked
    ensures id in PutFailed(db, id, now).failed && PutFailed(db, id, now).failed[id].createdAt == now
    ensures PutReady(db, id, row.backend, row.queue, row.priority).blocked == db.blocked
    ensures id in PutReady(db, id, row.backend, row.queue, row.priority).ready
    ensures var blocked := PutBlocked(db, id, row.(expiresAt := until)).blocked;
            id in blocked && blocked[id].expiresAt == until
  {
  }

  lemma RenewTouches(db: Db, id: JobId, until: Time)
    requires id in db.blocked
    ensures var after := Renewed(db, id, until);
            Touches(db, after, id) && id in after.blocked && after.blocked[id].expiresAt == until
  {
  }

  lemma {:induction false} ExpireEachHandles(
    db: Db, tasks: Tasks, ids: seq<JobId>, rows: map<JobId, BlockedRow>, consumed: bool, now: Time)
    requires Distinct(ids) && ExpireEach(db, tasks, ids, rows, consumed, now).Ok?
    ensures var after := ExpireEach(db, tasks, ids, rows, consumed, now).value;
            && SameElsewhere(db, after)
            && (forall id :: id in ids ==> id in db.jobs && Handled(after, tasks, db.jobs[id], id, now))
            && (forall id :: id !in ids ==> SameRows(db, after, id))
    decreases |ids|
  {
    hide ExpireOne, Handled, SameRows;
    if ids == [] {
      forall id
        ensures SameRows(db, db, id)
      {
        SameRowsTwice(db, db, db, id);
      }
    } else {
      var (id, rest) := (ids[0], ids[1..]);
      var first := ExpireOne(db, tasks, id, rows[id], consumed, now).value;
      ExpireOneHandles(db, tasks, id, rows[id], consumed, now);
      ExpireEachHandles(first, tasks, rest, rows, consumed, now);
      var after := ExpireEach(first, tasks, rest, rows, consumed, now).value;
      forall j
        ensures j == id ==> Handled(after, tasks, db.jobs[id], id, now)
        ensures j !in ids ==> SameRows(db, after, j)
      {
        SameRowsTwice(db, first, after, j);
        HandledStays(first, after, tasks, db.jobs[id], id, now);
      }
    }
  }

  lemma SameRowsTwice(a: Db, b: Db, c: Db, id: JobId)
    ensures SameRows(a, a, id)
    ensures SameRows(a, b, id) && SameRows(b, c, id) ==> SameRows(a, c, id)
  {
  }

  lemma HandledStays(a: Db, b: Db, tasks: Tasks, job: Job, id: JobId, now: Time)
    ensures Handled(a, tasks, job, id, now) && SameRows(a, b, id) ==> Handled(b, tasks, job, id, now)
  {
  }

  function ExpiredIds(db: Db, cfg: Config, batch: nat, hidden: set<JobId>, now: Time): seq<JobId> {
    Batch(ExpiredBlocked(db, cfg, hidden, now), BlockedColumns(db), batch)
  }

  lemma ExpiredIdsAreFirst(db: Db, cfg: Config, batch: nat, hidden: set<JobId>, now: Time)
    ensures var ids := ExpiredIds(db, cfg, batch, hidden, now);
            Distinct(ids) && AreFirst(Members(ids), ExpiredIn(db, cfg, hidden, now), Expiries(db), batch)
  {
    BatchMembers(ExpiredBlocked(db, cfg, hidden, now), BlockedColumns(db), batch);
    hide Batch, AreFirst, Distinct;
    BatchIsFirstOf(ExpiredBlocked(db, cfg, hidden, now), BlockedColumns(db), batch, ExpiredIn(db, cfg, hidden, now), Expiries(db));
  }

  lemma PromoteExpiredUnfold(db: Db, cfg: Config, tasks: Tasks, batch: nat, hidden: set<JobId>, now: Time)
    requires PromoteExpired(db, cfg, tasks, batch, hidden, now).Ok?
    ensures var ids := ExpiredIds(db, cfg, batch, hidden, now);
            var consumed := if cfg.family.Sqlite? then EvictAll(db, Blocked, ids) else db;
            PromoteExpired(db, cfg, tasks, batch, hidden, now)
            == ExpireEach(consumed, tasks, ids, db.blocked, cfg.family.Sqlite?, now)
  {
    hide ExpireEach, EvictAll, Batch;
  }

  /** Before the rows are handled, none but theirs are gone. */
  lemma ConsumedRows(db: Db, ids: seq<JobId>)
    ensures var consumed := EvictAll(db, Blocked, ids);
            SameElsewhere(db, consumed) && forall id :: id !in ids ==> SameRows(db, consumed, id)
  {
    EvictAllIs(db, Blocked, ids);
    hide EvictAll;
  }

  /** The first expired rows by date, priority and id are handled; every other job keeps its rows as they are. */
  lemma PromoteExpiredTakesFirst(db: Db, cfg: Config, tasks: Tasks, batch: nat, hidden: set<JobId>, now: Time)
    returns (taken: set<JobId>)
    requires PromoteExpired(db, cfg, tasks, batch, hidden, now).Ok?
    ensures AreFirst(taken, ExpiredIn(db, cfg, hidden, now), Expiries(db), batch)
    ensures var after := PromoteExpired(db, cfg, tasks, batch, hidden, now).value;
            && SameElsewhere(db, after)
            && (forall id :: id in taken ==> id in db.jobs && Handled(after, tasks, db.jobs[id], id, now))
            && (forall id :: id !in taken ==> SameRows(db, after, id))
  {
    hide *;
    var ids := ExpiredIds(db, cfg, batch, hidden, now);
    taken := Members(ids);
    ExpiredIdsAreFirst(db, cfg, batch, hidden, now);
    PromoteExpiredUnfold(db, cfg, tasks, batch, hidden, now);
    var consumed := if cfg.family.Sqlite? then EvictAll(db, Blocked, ids) else db;
    ConsumedRows(db, ids);
    ExpireEachHandles(consumed, tasks, ids, db.blocked, cfg.family.Sqlite?, now);
    var after := PromoteExpired(db, cfg, tasks, batch, hidden, now).value;
    SameElsewhereTwice(db, consumed, after);
    forall id
      ensures id in taken <==> id in ids
      ensures id in taken ==> id in db.jobs && Handled(after, tasks, db.jobs[id], id, now)
      ensures id !in ids ==> SameRows(db, after, id)
    {
      MembersAre(ids, id);
      SameRowsTwice(db, consumed, after, id);
    }
  }

  lemma SameElsewhereTwice(a: Db, b: Db, c: Db)
    ensures SameElsewhere(a, a)
    ensures SameElsewhere(a, b) ==> a.jobs == b.jobs
    ensures SameElsewhere(a, b) && SameElsewhere(b, c) ==> SameElsewhere(a, c)
  {
  }

  // ---------------------------------------------------------------- semaphore rows

  /** Some ready or claimed job has the key. */
  ghost predicate InUse(db: Db, key: string) {
    exists id :: id in db.jobs && (id in db.ready || id in db.claimed) && db.jobs[id].key == Some(key)
  }

  /** A row goes exactly if it was locked, has expired and its key is not in use; the others stay as they are. */
  lemma CleanupOutcome(db: Db, locked: set<string>, now: Time)
    ensures var after := CleanupSemaphores(db, locked, now);
            && after == db.(semaphores := after.semaphores, forgotten := after.forgotten)
            && (forall key :: key in db.semaphores ==>
                  (key !in after.semaphores <==> key in locked && db.semaphores[key].expiresAt <= now && !InUse(db, key)))
            && (forall key :: key in after.semaphores ==> key in db.semaphores && after.semaphores[key] == db.semaphores[key])
            && (forall key :: key in after.forgotten <==>
                  key in db.forgotten && (key in db.semaphores ==> key in after.semaphores))
  {
    forall key
      ensures InUse(db, key) <==> Holders(db, key) != {}
    {
      InUseIffHeld(db, key);
    }
    hide InUse, Holders;
  }

  lemma InUseIffHeld(db: Db, key: string)
    ensures InUse(db, key) <==> Holders(db, key) != {}
  {
    var holders := Holders(db, key);
    assert forall id :: id in holders <==> id in db.jobs && (id in db.ready || id in db.claimed) && db.jobs[id].key == Some(key);
    hide Holders;
    if !InUse(db, key) {
      assert forall id :: id !in holders;
    }
  }
}
