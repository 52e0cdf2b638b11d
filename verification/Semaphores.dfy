/**
 The counter row behind one concurrency key, and every update the queue makes to it.

 `value` is the number of free slots and `limit` the number of slots, so `limit - value` slots are
 occupied. Each operation offers its own limit, which replaces the stored one; the free slots are
 moved along with it and clamped into `0..offered`.
 */
module Semaphores {
  import opened Results

  type Time = int

  type Positive = n: int | n >= 1 witness 1

  datatype Semaphore = Semaphore(
    value: int,
    active: Option<int>,
    limit: int,
    expiresAt: Time,
    updatedAt: Time
  )

  function Min(a: int, b: int): int {
    if a <= b then a else b
  }

  function Max(a: int, b: int): int {
    if a >= b then a else b
  }

  /** Free slots once `offered` replaces the stored limit and `returned` slots come back. */
  function Available(s: Semaphore, offered: int, returned: int): int {
    Min(offered, Max(0, s.value + offered - s.limit + returned))
  }

  function Occupied(row: Option<Semaphore>): int {
    if row.Some? then row.value.limit - row.value.value else 0
  }

  /** What the health report calls a possible slot count, with the cached active count exact. */
  predicate WellFormed(s: Semaphore) {
    && 1 <= s.limit
    && 0 <= s.value <= s.limit
    && s.active == Some(s.limit - s.value)
  }

  function Settled(value: int, limit: int, expiresAt: Time, now: Time): Semaphore {
    Semaphore(value, Some(limit - value), limit, expiresAt, now)
  }

  // ---------------------------------------------------------------- operations on one row

  /** One attempt to take a slot; the flag says whether it was taken. */
  function Acquire(row: Option<Semaphore>, limit: Positive, expiresAt: Time, now: Time): (Semaphore, bool) {
    match row
    case None => (Settled(limit - 1, limit, expiresAt, now), true)
    case Some(s) =>
      var free := Available(s, limit, 0);
      if free > 0 then
        (Settled(free - 1, limit, expiresAt, now), true)
      else if s == Settled(free, limit, s.expiresAt, s.updatedAt) then
        (s, false)
      else
        (Settled(free, limit, s.expiresAt, now), false)
  }

  /** Up to `count` slots taken by a single locked read and write. */
  function AcquireMany(row: Option<Semaphore>, count: int, limit: Positive, expiresAt: Time, now: Time)
    : (r: (Option<Semaphore>, nat))
  {
    if count <= 0 then
      (row, 0)
    else
      match row
      case None =>
        var taken := Min(count, limit);
        (Some(Settled(limit - taken, limit, expiresAt, now)), taken)
      case Some(s) =>
        var free := Available(s, limit, 0);
        var taken := Min(count, free);
        var after := Settled(free - taken, limit, s.expiresAt, s.updatedAt);
        if taken != 0 then
          (Some(after.(expiresAt := expiresAt, updatedAt := now)), taken)
        else if s != after then
          (Some(after.(updatedAt := now)), 0)
        else
          (row, 0)
  }

  /** The unconditional release of one slot. */
  function Release(s: Semaphore, limit: Positive, expiresAt: Time, now: Time): Semaphore {
    Settled(Available(s, limit, 1), limit, expiresAt, now)
  }

  /** Release one slot and take it again for a waiting job, when that leaves a slot to take. */
  function Handoff(s: Semaphore, limit: Positive, expiresAt: Time, now: Time): (Semaphore, bool) {
    if s.value > s.limit - limit - 1 then
      (Settled(Available(s, limit, 1) - 1, limit, expiresAt, now), true)
    else
      (s, false)
  }

  /** Take a slot out of `value` without moving it to the offered limit first. */
  function ConsumeReleased(s: Semaphore, limit: Positive, expiresAt: Time, now: Time): (Semaphore, bool) {
    if s.value > 0 then
      (Semaphore(s.value - 1, Some(limit - s.value + 1), limit, expiresAt, now), true)
    else
      (s, false)
  }

  /** Release `count` slots at once and take `promoted` of them again. */
  function ReleaseGroup(s: Semaphore, count: nat, promoted: nat, limit: Positive, expiresAt: Time, now: Time)
    : Semaphore
  {
    Settled(Available(s, limit, count) - promoted, limit, expiresAt, now)
  }

  // ---------------------------------------------------------------- batch equals repetition

  function AcquireTimes(row: Option<Semaphore>, n: nat, limit: Positive, expiresAt: Time, now: Time)
    : (Option<Semaphore>, nat)
  {
    if n == 0 then
      (row, 0)
    else
      var (before, taken) := AcquireTimes(row, n - 1, limit, expiresAt, now);
      var (after, acquired) := Acquire(before, limit, expiresAt, now);
      (Some(after), taken + if acquired then 1 else 0)
  }

  /** Taking `n` slots in one batch is taking one slot `n` times, column for column. */
  lemma {:induction false} AcquireManyIsRepeatedAcquire(
    row: Option<Semaphore>, n: nat, limit: Positive, expiresAt: Time, now: Time)
    ensures AcquireMany(row, n, limit, expiresAt, now) == AcquireTimes(row, n, limit, expiresAt, now)
  {
    if n > 0 {
      AcquireManyIsRepeatedAcquire(row, n - 1, limit, expiresAt, now);
    }
  }

  /** The `i`-th of a run of acquires succeeds exactly when the batch of any `n > i` takes more than `i`. */
  lemma AcquireManyGrants(row: Option<Semaphore>, i: nat, n: nat, limit: Positive, expiresAt: Time, now: Time)
    requires i < n
    ensures var (before, taken) := AcquireMany(row, i, limit, expiresAt, now);
            Acquire(before, limit, expiresAt, now).1 <==> i < AcquireMany(row, n, limit, expiresAt, now).1
    ensures AcquireMany(row, i, limit, expiresAt, now).1 <= AcquireMany(row, n, limit, expiresAt, now).1
  {
  }

  /** A batch that grants less than it was asked for leaves no free slot behind. */
  lemma AcquireManyExhausts(row: Option<Semaphore>, n: nat, limit: Positive, expiresAt: Time, now: Time)
    ensures var (after, taken) := AcquireMany(row, n, limit, expiresAt, now);
            taken <= n && (taken < n ==> after.Some? && after.value.value == 0)
  {
  }

  // ---------------------------------------------------------------- exact counting and where it stops

  /**
   Offered a limit, an acquire keeps `limit - value` equal to the slots in use (one more when it
   succeeds) exactly when the offer is not below the slots already in use.
   */
  lemma AcquireCountsExactlyIff(s: Semaphore, limit: Positive, expiresAt: Time, now: Time)
    requires WellFormed(s)
    ensures var (after, acquired) := Acquire(Some(s), limit, expiresAt, now);
            Occupied(Some(after)) == Occupied(Some(s)) + (if acquired then 1 else 0)
            <==> limit >= Occupied(Some(s))
  {
  }

  /** A release counts down by one exactly when the offer covers the slots that stay in use. */
  lemma ReleaseCountsExactlyIff(s: Semaphore, limit: Positive, expiresAt: Time, now: Time)
    requires WellFormed(s) && Occupied(Some(s)) >= 1
    ensures Occupied(Some(Release(s, limit, expiresAt, now))) == Occupied(Some(s)) - 1
            <==> limit >= Occupied(Some(s)) - 1
  {
  }

  /** Out of its place after a release, the consuming update takes a slot and breaks the row unless the offer covers it. */
  lemma ConsumeReleasedIsSafeIff(s: Semaphore, limit: Positive, expiresAt: Time, now: Time)
    requires WellFormed(s) && s.value > 0
    ensures var (row, taken) := ConsumeReleased(s, limit, expiresAt, now);
            && taken && row == Semaphore(s.value - 1, row.active, limit, expiresAt, now)
            && (WellFormed(row) <==> s.value - 1 <= limit)
  {
  }

  lemma ConsumeReleasedCanOverflow()
    ensures var s := Settled(5, 5, 0, 0);
            WellFormed(s) && !WellFormed(ConsumeReleased(s, 2, 0, 0).0)
  {
  }

  // ---------------------------------------------------------------- every sequence of operations

  /** The operations other code can reach; a consuming update only ever follows its own release. */
  datatype Operation =
    | DoAcquire(limit: Positive, expiresAt: Time, now: Time)
    | DoAcquireMany(count: int, limit: Positive, expiresAt: Time, now: Time)
    | DoHandoff(limit: Positive, expiresAt: Time, now: Time)
    | DoRelease(limit: Positive, expiresAt: Time, now: Time)
    | DoReleaseAndConsume(limit: Positive, expiresAt: Time, now: Time)
    | DoReleaseGroup(returned: nat, waiting: nat, limit: Positive, expiresAt: Time, now: Time)
    | DoCollect

  function Apply(row: Option<Semaphore>, op: Operation): Option<Semaphore> {
    match (row, op)
    case (_, DoAcquire(limit, expiresAt, now)) => Some(Acquire(row, limit, expiresAt, now).0)
    case (_, DoAcquireMany(count, limit, expiresAt, now)) => AcquireMany(row, count, limit, expiresAt, now).0
    case (_, DoCollect) => None
    case (None, _) => None
    case (Some(s), DoHandoff(limit, expiresAt, now)) => Some(Handoff(s, limit, expiresAt, now).0)
    case (Some(s), DoRelease(limit, expiresAt, now)) => Some(Release(s, limit, expiresAt, now))
    case (Some(s), DoReleaseAndConsume(limit, expiresAt, now)) =>
      Some(ConsumeReleased(Release(s, limit, expiresAt, now), limit, expiresAt, now).0)
    case (Some(s), DoReleaseGroup(returned, waiting, limit, expiresAt, now)) =>
      var promoted := Min(returned, Min(Available(s, limit, returned), waiting));
      Some(ReleaseGroup(s, returned, promoted, limit, expiresAt, now))
  }

  function ApplyAll(row: Option<Semaphore>, ops: seq<Operation>): Option<Semaphore>
    decreases |ops|
  {
    if ops == [] then row else ApplyAll(Apply(row, ops[0]), ops[1..])
  }

  /** Whatever positive limits the calls offer, no sequence of them makes an impossible slot count. */
  lemma {:induction false} OperationsKeepWellFormed(row: Option<Semaphore>, ops: seq<Operation>)
    requires row.Some? ==> WellFormed(row.value)
    ensures var after := ApplyAll(row, ops);
            after.Some? ==> WellFormed(after.value)
    decreases |ops|
  {
    if ops != [] {
      OperationsKeepWellFormed(Apply(row, ops[0]), ops[1..]);
    }
  }
}
