/**
 Queue latency across pauses. A ready row starts its clock when it is created; resuming a queue moves that
 start forward, so that the time spent paused does not count.
 */
module QueueLatency {
  import opened Results
  import Semaphores
  import Tables

  type Time = Semaphores.Time

  type JobId = Tables.JobId

  /** Backend alias and queue name. */
  type QueueKey = (string, string)

  datatype Row = Row(queue: QueueKey, createdAt: Time, latencyStartedAt: Option<Time>) {
    /** Where the row's clock starts. */
    function Start(): Time {
      if latencyStartedAt.Some? then latencyStartedAt.value else createdAt
    }
  }

  /** `waited` is a history variable: how long each ready row has waited while its queue was not paused. */
  datatype Board = Board(clock: Time, pauses: map<QueueKey, Time>, ready: map<JobId, Row>, waited: map<JobId, int>)

  function EmptyBoard(now: Time): Board {
    Board(now, map[], map[], map[])
  }

  // ---------------------------------------------------------------- steps

  datatype Step =
    | Elapse(time: nat)
    | Arrive(id: JobId, queue: QueueKey)
    | Leave(id: JobId)
    | Pause(queue: QueueKey)
    | Resume(queue: QueueKey)

  /** Where a row's clock starts after a pause from `pausedAt` to `resumedAt`. */
  function Shifted(row: Row, pausedAt: Time, resumedAt: Time): Time {
    if row.latencyStartedAt.None? && row.createdAt < pausedAt then
      row.createdAt + (resumedAt - pausedAt)
    else if row.latencyStartedAt.Some? && row.latencyStartedAt.value < pausedAt then
      row.latencyStartedAt.value + (resumedAt - pausedAt)
    else
      resumedAt
  }

  function Resumed(ready: map<JobId, Row>, queue: QueueKey, pausedAt: Time, resumedAt: Time): map<JobId, Row> {
    map id | id in ready ::
      if ready[id].queue == queue
      then ready[id].(latencyStartedAt := Some(Shifted(ready[id], pausedAt, resumedAt)))
      else ready[id]
  }

  function Apply(b: Board, step: Step): Board {
    match step
    case Elapse(time) =>
      b.(clock := b.clock + time,
         waited := map id | id in b.waited ::
                     if id in b.ready && b.ready[id].queue !in b.pauses then b.waited[id] + time else b.waited[id])
    case Arrive(id, queue) =>
      if id in b.ready then b
      else b.(ready := b.ready[id := Row(queue, b.clock, None)], waited := b.waited[id := 0])
    case Leave(id) => b.(ready := b.ready - {id}, waited := b.waited - {id})
    case Pause(queue) => if queue in b.pauses then b else b.(pauses := b.pauses[queue := b.clock])
    case Resume(queue) =>
      if queue !in b.pauses then b
      else b.(ready := Resumed(b.ready, queue, b.pauses[queue], b.clock), pauses := b.pauses - {queue})
  }

  function Run(b: Board, steps: seq<Step>): Board
    decreases |steps|
  {
    if steps == [] then b else Run(Apply(b, steps[0]), steps[1..])
  }

  // ---------------------------------------------------------------- the invariant

  /** A running row has waited since its start; a paused one up to the pause, or not at all. */
  predicate RowTimed(b: Board, id: JobId)
    requires id in b.ready && id in b.waited
  {
    var start := b.ready[id].Start();
    if b.ready[id].queue in b.pauses then
      b.waited[id] == Semaphores.Max(0, b.pauses[b.ready[id].queue] - start)
    else
      b.waited[id] == b.clock - start && start <= b.clock
  }

  ghost predicate Timed(b: Board) {
    && b.waited.Keys == b.ready.Keys
    && (forall queue :: queue in b.pauses ==> b.pauses[queue] <= b.clock)
    && (forall id :: id in b.ready ==> RowTimed(b, id))
  }

  lemma ApplyTimed(b: Board, step: Step)
    requires Timed(b)
    ensures Timed(Apply(b, step))
  {
    var after := Apply(b, step);
    forall id | id in after.ready
      ensures id in after.waited && RowTimed(after, id)
    {
      if id in b.ready {
        assert RowTimed(b, id);
      }
    }
  }

  lemma {:induction false} RunTimed(b: Board, steps: seq<Step>)
    requires Timed(b)
    ensures Timed(Run(b, steps))
    decreases |steps|
  {
    hide Timed, Apply;
    if steps != [] {
      ApplyTimed(b, steps[0]);
      RunTimed(Apply(b, steps[0]), steps[1..]);
    }
  }

  // ---------------------------------------------------------------- what is reported

  function Latency(b: Board, id: JobId): (seconds: int)
    requires id in b.ready
    ensures seconds >= 0
  {
    Semaphores.Max(b.clock - b.ready[id].Start(), 0)
  }

  /** Over any sequence of pauses, resumes, arrivals and time, latency is the time spent waiting unpaused. */
  lemma LatencyIsUnpausedWait(now: Time, steps: seq<Step>, id: JobId)
    ensures var b := Run(EmptyBoard(now), steps);
            id in b.ready && b.ready[id].queue !in b.pauses ==> id in b.waited && Latency(b, id) == b.waited[id]
  {
    assert Timed(EmptyBoard(now));
    RunTimed(EmptyBoard(now), steps);
    var b := Run(EmptyBoard(now), steps);
    if id in b.ready {
      assert RowTimed(b, id);
    }
  }

  /** Pausing a paused queue changes nothing, whatever happened since. */
  lemma RepeatedPauseChangesNothing(b: Board, queue: QueueKey, more: seq<Step>)
    requires forall step :: step in more ==> step != Resume(queue)
    ensures var later := Run(Apply(b, Pause(queue)), more);
            Apply(later, Pause(queue)) == later
  {
    StaysPaused(Apply(b, Pause(queue)), queue, more);
  }

  lemma {:induction false} StaysPaused(b: Board, queue: QueueKey, more: seq<Step>)
    requires queue in b.pauses && forall step :: step in more ==> step != Resume(queue)
    ensures queue in Run(b, more).pauses
    decreases |more|
  {
    if more != [] {
      assert more[0] in more && more[0] != Resume(queue);
      assert queue in Apply(b, more[0]).pauses;
      assert forall step :: step in more[1..] ==> step in more;
      StaysPaused(Apply(b, more[0]), queue, more[1..]);
    }
  }

  /** The rows and the pauses, updated in place. */
  class Queues {
    var clock: Time
    var pauses: map<QueueKey, Time>
    var ready: map<JobId, Row>
    ghost var waited: map<JobId, int>

    ghost function Snapshot(): Board
      reads this
    {
      Board(clock, pauses, ready, waited)
    }

    constructor (now: Time)
      ensures Snapshot() == EmptyBoard(now)
    {
      clock, pauses, ready, waited := now, map[], map[], map[];
    }

    method PauseQueue(queue: QueueKey)
      modifies this
      ensures Snapshot() == Apply(old(Snapshot()), Pause(queue))
    {
      if queue !in pauses {
        pauses := pauses[queue := clock];
      }
    }

    /**
     The pause goes, and with it the part of it that each row of the queue was waiting for: the row's start moves
     later by the time from the pause, or from the start if that was later, to the resumption.
     */
    method ResumeQueue(queue: QueueKey, resumedAt: Option<Time>) returns (resumed: bool)
      modifies this`ready, this`pauses
      ensures resumed == (queue in old(pauses)) && pauses == old(pauses) - {queue}
      ensures ready.Keys == old(ready).Keys
      ensures forall id :: id in ready && (!resumed || old(ready)[id].queue != queue) ==> ready[id] == old(ready)[id]
      ensures var at := if resumedAt.Some? then resumedAt.value else clock;
              forall id :: id in ready && resumed && old(ready)[id].queue == queue ==>
                && ready[id].queue == queue && ready[id].createdAt == old(ready)[id].createdAt
                && ready[id].Start() - old(ready)[id].Start()
                   == at - Semaphores.Max(old(ready)[id].Start(), old(pauses)[queue])
      ensures resumedAt.None? ==> Snapshot() == Apply(old(Snapshot()), Resume(queue))
    {
      if queue !in pauses {
        return false;
      }
      var at := if resumedAt.Some? then resumedAt.value else clock;
      ready := Resumed(ready, queue, pauses[queue], at);
      pauses := pauses - {queue};
      resumed := true;
    }

    /** The oldest start decides: the reported latency is the longest unpaused wait in the queue. */
    method LatencySeconds(queue: QueueKey, ids: seq<JobId>) returns (r: Option<int>)
      requires Timed(Snapshot())
      requires (forall k :: 0 <= k < |ids| ==> ids[k] in ready) && (forall id :: id in ready ==> id in ids)
      ensures r.None? <==> queue in pauses || forall id :: id in ready ==> ready[id].queue != queue
      ensures r.Some? ==> exists id :: id in ready && ready[id].queue == queue && waited[id] == r.value
      ensures r.Some? ==> forall id :: id in ready && ready[id].queue == queue ==> waited[id] <= r.value
    {
      if queue in pauses {
        return None;
      }
      var oldest: Option<Time> := None;
      for i := 0 to |ids|
        invariant oldest.None? <==> forall k :: 0 <= k < i ==> ready[ids[k]].queue != queue
        invariant oldest.Some? ==> exists k :: 0 <= k < i && ready[ids[k]].queue == queue
                                               && ready[ids[k]].Start() == oldest.value
        invariant oldest.Some? ==> forall k :: 0 <= k < i && ready[ids[k]].queue == queue ==>
                                                 oldest.value <= ready[ids[k]].Start()
      {
        var row := ready[ids[i]];
        if row.queue == queue && (oldest.None? || row.Start() < oldest.value) {
          oldest := Some(row.Start());
        }
      }
      forall id | id in ready
        ensures exists k :: 0 <= k < |ids| && ids[k] == id
        ensures RowTimed(Snapshot(), id)
      {
        assert id in ids;
      }
      if oldest.None? {
        return None;
      }
      ghost var k :| 0 <= k < |ids| && ready[ids[k]].queue == queue && ready[ids[k]].Start() == oldest.value;
      assert ids[k] in ready && RowTimed(Snapshot(), ids[k]);
      assert waited[ids[k]] == clock - oldest.value && oldest.value <= clock;
      r := Some(Semaphores.Max(clock - oldest.value, 0));
    }
  }
}
