/**
 Runs: any number of producers, workers, dispatchers and supervisors take their transactions in any
 order. A transaction that raises is rolled back.
 */
module Runs {
  import opened Results
  import opened Semaphores
  import opened Tables
  import opened Slots
  import opened Claiming
  import opened Lifecycle
  import opened LifecycleSafety

  /** `hidden` rows are locked elsewhere; they are left out of a selection that skips locked rows. */
  datatype ProducerStep =
    | DoEnqueue(cfg: Config, tasks: Tasks, id: JobId, submission: Submission, now: Time)
    | DoEnqueueBulk(cfg: Config, tasks: Tasks, items: seq<(JobId, Submission)>, now: Time)
    | DoDispatchNow(cfg: Config, tasks: Tasks, id: JobId, hidden: set<JobId>, now: Time)
    | DoRetryFailed(cfg: Config, tasks: Tasks, only: Option<set<JobId>>, batch: nat, hidden: set<JobId>, now: Time)
    | DoRetryOne(cfg: Config, tasks: Tasks, id: JobId, now: Time)
    | DoScheduleRetry(cfg: Config, id: JobId, at: Time)
    | DoDiscard(cfg: Config, tasks: Tasks, table: Table, only: Option<set<JobId>>, within: Option<string>, batch: nat,
                hidden: set<JobId>, now: Time)
    | DoPause(backend: string, queue: string)
    | DoResume(backend: string, queue: string)

  datatype WorkerStep =
    | DoClaim(cfg: Config, queues: Queues, limit: nat, process: Option<ProcessId>, hidden: set<JobId>,
              paused: set<string>)
    | DoComplete(cfg: Config, tasks: Tasks, id: JobId, hidden: set<JobId>, now: Time)
    | DoFail(cfg: Config, tasks: Tasks, id: JobId, hidden: set<JobId>, now: Time)

  datatype DispatcherStep =
    | DoPromoteScheduled(cfg: Config, tasks: Tasks, batch: nat, hidden: set<JobId>, now: Time)
    | DoPromoteRetries(cfg: Config, tasks: Tasks, batch: nat, hidden: set<JobId>, now: Time)
    | DoPromoteExpired(cfg: Config, tasks: Tasks, batch: nat, hidden: set<JobId>, now: Time)
    | DoCleanupSemaphores(locked: set<string>, now: Time)
    | DoClearFinished(cfg: Config, cutoff: Time, task: Option<string>, batch: nat, hidden: set<JobId>)
    | DoClearFailed(cfg: Config, cutoff: Time, task: Option<string>, batch: nat, hidden: set<JobId>)

  datatype SupervisorStep =
    | DoRegister(process: ProcessId, row: Process)
    | DoUnregister(process: ProcessId)
    | DoFailOrphaned(cfg: Config, tasks: Tasks, batch: nat, hidden: set<JobId>, now: Time)
    | DoFailForProcess(cfg: Config, tasks: Tasks, process: ProcessId, hidden: set<JobId>, now: Time)
    | DoPruneStale(cfg: Config, tasks: Tasks, cutoff: Time, exclude: Option<ProcessId>, batch: nat,
                   hiddenProcesses: set<ProcessId>, hidden: set<JobId>, now: Time)

  datatype Step =
    | Produce(producer: ProducerStep)
    | Work(worker: WorkerStep)
    | Maintain(dispatcher: DispatcherStep)
    | Supervise(supervisor: SupervisorStep)

  function AttemptProduce(db: Db, step: ProducerStep): Result<Db> {
    match step
    case DoEnqueue(cfg, tasks, id, submission, now) => Enqueue(db, cfg, tasks, id, submission, now)
    case DoEnqueueBulk(cfg, tasks, items, now) => EnqueueBulk(db, cfg, tasks, items, now)
    case DoDispatchNow(cfg, tasks, id, hidden, now) => DispatchNow(db, cfg, tasks, id, hidden, now)
    case DoRetryFailed(cfg, tasks, only, batch, hidden, now) => RetryFailed(db, cfg, tasks, only, batch, hidden, now)
    case DoRetryOne(cfg, tasks, id, now) => RetryOne(db, cfg, tasks, id, now)
    case DoScheduleRetry(cfg, id, at) => ScheduleRetry(db, cfg, id, at)
    case DoDiscard(cfg, tasks, table, only, within, batch, hidden, now) =>
      DiscardRows(db, cfg, tasks, table, only, within, batch, hidden, now)
    case DoPause(backend, queue) => Ok(db.(pauses := db.pauses + {(backend, queue)}))
    case DoResume(backend, queue) => Ok(db.(pauses := db.pauses - {(backend, queue)}))
  }

  function AttemptWork(db: Db, step: WorkerStep): Result<Db> {
    match step
    case DoClaim(cfg, queues, limit, process, hidden, paused) => Claim(db, cfg, queues, limit, process, hidden, paused)
    case DoComplete(cfg, tasks, id, hidden, now) => CompleteClaimed(db, cfg, tasks, id, hidden, now)
    case DoFail(cfg, tasks, id, hidden, now) => FailClaimed(db, cfg, tasks, id, hidden, now)
  }

  function AttemptMaintain(db: Db, step: DispatcherStep): Result<Db> {
    match step
    case DoPromoteScheduled(cfg, tasks, batch, hidden, now) => PromoteScheduled(db, cfg, tasks, batch, hidden, now)
    case DoPromoteRetries(cfg, tasks, batch, hidden, now) => PromoteRetries(db, cfg, tasks, batch, hidden, now)
    case DoPromoteExpired(cfg, tasks, batch, hidden, now) => PromoteExpired(db, cfg, tasks, batch, hidden, now)
    case DoCleanupSemaphores(locked, now) => Ok(CleanupSemaphores(db, locked, now))
    case DoClearFinished(cfg, cutoff, task, batch, hidden) => ClearFinished(db, cfg, cutoff, task, batch, hidden)
    case DoClearFailed(cfg, cutoff, task, batch, hidden) => ClearFailed(db, cfg, cutoff, task, batch, hidden)
  }

  function AttemptSupervise(db: Db, step: SupervisorStep): Result<Db> {
    match step
    case DoRegister(process, row) => Ok(db.(processes := db.processes[process := row]))
    case DoUnregister(process) => Ok(DeleteProcess(db, process))
    case DoFailOrphaned(cfg, tasks, batch, hidden, now) => FailOrphaned(db, cfg, tasks, batch, hidden, now)
    case DoFailForProcess(cfg, tasks, process, hidden, now) => FailForProcess(db, cfg, tasks, process, hidden, now)
    case DoPruneStale(cfg, tasks, cutoff, exclude, batch, hiddenProcesses, hidden, now) =>
      PruneStale(db, cfg, tasks, cutoff, exclude, batch, hiddenProcesses, hidden, now)
  }

  function Attempt(db: Db, step: Step): Result<Db> {
    match step
    case Produce(producer) => AttemptProduce(db, producer)
    case Work(worker) => AttemptWork(db, worker)
    case Maintain(dispatcher) => AttemptMaintain(db, dispatcher)
    case Supervise(supervisor) => AttemptSupervise(db, supervisor)
  }

  function After(db: Db, step: Step): Db {
    match Attempt(db, step)
    case Ok(after) => after
    case Err(_) => db
  }

  function Run(db: Db, steps: seq<Step>): Db
    decreases |steps|
  {
    if steps == [] then db else Run(After(db, steps[0]), steps[1..])
  }

  // ---------------------------------------------------------------- safety of every run

  lemma EmptyValid()
    ensures Valid(EmptyDb)
  {
    forall key
      ensures Holders(EmptyDb, key) == {}
    {
    }
  }

  lemma ConfigurationValid(a: Db, b: Db)
    requires Valid(a) && b == a.(processes := b.processes, pauses := b.pauses)
    ensures Valid(b)
  {
    hide Good;
    SameShapeGood(a, b, {}, multiset{});
  }

  lemma ProduceSound(db: Db, step: ProducerStep)
    requires Valid(db)
    ensures Sound(AttemptProduce(db, step))
  {
    hide Valid, Enqueue, EnqueueBulk, DispatchNow, RetryFailed, RetryOne, ScheduleRetry, DiscardRows;
    match step
    case DoEnqueue(cfg, tasks, id, submission, now) => EnqueueSound(db, cfg, tasks, id, submission, now);
    case DoEnqueueBulk(cfg, tasks, items, now) => EnqueueBulkSound(db, cfg, tasks, items, now);
    case DoDispatchNow(cfg, tasks, id, hidden, now) => DispatchNowSound(db, cfg, tasks, id, hidden, now);
    case DoRetryFailed(cfg, tasks, only, batch, hidden, now) => RetryFailedSound(db, cfg, tasks, only, batch, hidden, now);
    case DoRetryOne(cfg, tasks, id, now) => RetryOneSound(db, cfg, tasks, id, now);
    case DoScheduleRetry(cfg, id, at) => ScheduleRetrySound(db, cfg, id, at);
    case DoDiscard(cfg, tasks, table, only, within, batch, hidden, now) =>
      DiscardSound(db, cfg, tasks, table, only, within, batch, hidden, now);
    case DoPause(backend, queue) => ConfigurationValid(db, db.(pauses := db.pauses + {(backend, queue)}));
    case DoResume(backend, queue) => ConfigurationValid(db, db.(pauses := db.pauses - {(backend, queue)}));
  }

  lemma WorkSound(db: Db, step: WorkerStep)
    requires Valid(db)
    ensures Sound(AttemptWork(db, step))
  {
    hide Valid, Claim, CompleteClaimed, FailClaimed;
    match step
    case DoClaim(cfg, queues, limit, process, hidden, paused) =>
      ClaimSound(db, cfg, queues, limit, process, hidden, paused);
    case DoComplete(cfg, tasks, id, hidden, now) => CompleteSound(db, cfg, tasks, id, hidden, now);
    case DoFail(cfg, tasks, id, hidden, now) => FailSound(db, cfg, tasks, id, hidden, now);
  }

  lemma MaintainSound(db: Db, step: DispatcherStep)
    requires Valid(db)
    ensures Sound(AttemptMaintain(db, step))
  {
    hide Valid, PromoteScheduled, PromoteRetries, PromoteExpired, CleanupSemaphores, ClearFinished, ClearFailed;
    match step
    case DoPromoteScheduled(cfg, tasks, batch, hidden, now) => PromoteScheduledSound(db, cfg, tasks, batch, hidden, now);
    case DoPromoteRetries(cfg, tasks, batch, hidden, now) => PromoteRetriesSound(db, cfg, tasks, batch, hidden, now);
    case DoPromoteExpired(cfg, tasks, batch, hidden, now) => PromoteExpiredSound(db, cfg, tasks, batch, hidden, now);
    case DoCleanupSemaphores(locked, now) => CleanupValid(db, locked, now);
    case DoClearFinished(cfg, cutoff, task, batch, hidden) => ClearFinishedSound(db, cfg, cutoff, task, batch, hidden);
    case DoClearFailed(cfg, cutoff, task, batch, hidden) => ClearFailedSound(db, cfg, cutoff, task, batch, hidden);
  }

  lemma SuperviseSound(db: Db, step: SupervisorStep)
    requires Valid(db)
    ensures Sound(AttemptSupervise(db, step))
  {
    hide Valid, FailOrphaned, FailForProcess, PruneStale, DeleteProcess;
    match step
    case DoRegister(process, row) => ConfigurationValid(db, db.(processes := db.processes[process := row]));
    case DoUnregister(process) => DeleteProcessValid(db, process);
    case DoFailOrphaned(cfg, tasks, batch, hidden, now) => FailOrphanedSound(db, cfg, tasks, batch, hidden, now);
    case DoFailForProcess(cfg, tasks, process, hidden, now) =>
      FailForProcessSound(db, cfg, tasks, process, hidden, now);
    case DoPruneStale(cfg, tasks, cutoff, exclude, batch, hiddenProcesses, hidden, now) =>
      PruneStaleSound(db, cfg, tasks, cutoff, exclude, batch, hiddenProcesses, hidden, now);
  }

  /** Every transaction, from every valid database, keeps it valid and finds no inconsistency. */
  lemma AttemptSound(db: Db, step: Step)
    requires Valid(db)
    ensures Sound(Attempt(db, step))
  {
    hide Valid, AttemptProduce, AttemptWork, AttemptMaintain, AttemptSupervise;
    match step
    case Produce(producer) => ProduceSound(db, producer);
    case Work(worker) => WorkSound(db, worker);
    case Maintain(dispatcher) => MaintainSound(db, dispatcher);
    case Supervise(supervisor) => SuperviseSound(db, supervisor);
  }

  lemma {:induction false} RunValid(db: Db, steps: seq<Step>)
    requires Valid(db)
    ensures Valid(Run(db, steps))
    decreases |steps|
  {
    hide Valid, Attempt;
    if steps != [] {
      AttemptSound(db, steps[0]);
      RunValid(After(db, steps[0]), steps[1..]);
    }
  }

  /** In every reachable state each job is in exactly one state, and every state row has its job. */
  lemma EveryRunKeepsOneState(steps: seq<Step>, id: JobId)
    ensures var db := Run(EmptyDb, steps);
            && (id in db.jobs ==> StateCount(db, id) == 1)
            && (Live(db, id) ==> id in db.jobs)
  {
    EmptyValid();
    RunValid(EmptyDb, steps);
  }

  /**
   In every reachable state the slots a semaphore row counts as occupied are the jobs that hold one,
   which are never more than its limit, and a key without a row has no holder, unless since the row
   was last collected some operation offered the key a limit below the slots in use.
   */
  lemma EveryRunCountsSlotsExactly(steps: seq<Step>, key: string)
    ensures var db := Run(EmptyDb, steps);
            && (key in db.semaphores ==> WellFormed(db.semaphores[key]))
            && (key !in db.forgotten ==>
                 if key in db.semaphores then
                   db.semaphores[key].limit - db.semaphores[key].value == |Holders(db, key)| <= db.semaphores[key].limit
                 else
                   Holders(db, key) == {})
  {
    EmptyValid();
    RunValid(EmptyDb, steps);
    GoodSemaphore(Run(EmptyDb, steps), {}, multiset{}, key);
  }

  /** No transaction of any run is stopped by a second state row or by a row of another backend. */
  lemma EveryRunIsConsistent(steps: seq<Step>, step: Step)
    ensures var r := Attempt(Run(EmptyDb, steps), step);
            r != Err(Conflict) && r != Err(ForeignBackend)
  {
    EmptyValid();
    RunValid(EmptyDb, steps);
    AttemptSound(Run(EmptyDb, steps), step);
  }
}
