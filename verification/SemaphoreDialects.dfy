/** The three ways the database back ends write an acquire, and the batch forms beside them. */
module SemaphoreDialects {
  import opened Results
  import opened Semaphores

  class SemaphoreTable {
    var rows: map<string, Semaphore>

    constructor ()
      ensures rows == map[]
    {
      rows := map[];
    }

    /** Insert, else a guarded update, else a reconciling update (the ORM statements). */
    method AcquireByUpdates(key: string, limit: Positive, expiresAt: Time, now: Time) returns (acquired: bool)
      modifies this
      ensures var (after, ok) := Acquire(Lookup(old(rows), key), limit, expiresAt, now);
              rows == old(rows)[key := after] && acquired == ok
    {
      if key !in rows {
        rows := rows[key := Semaphore(limit - 1, Some(1), limit, expiresAt, now)];
        return true;
      }
      var s := rows[key];
      var available := Available(s, limit, 0);
      if s.value > s.limit - limit {
        rows := rows[key := Semaphore(available - 1, Some(limit - available + 1), limit, expiresAt, now)];
        return true;
      }
      if s.value < available || s.value > available || s.active.None?
         || s.active != Some(limit - available) || s.limit != limit {
        rows := rows[key := s.(value := available, active := Some(limit - available), limit := limit,
                               updatedAt := now)];
      }
      return false;
    }

    /** One statement of two parts: the upsert's guarded update, then the reconcile of what it skipped. */
    method AcquireByUpsertAndReconcile(key: string, limit: Positive, expiresAt: Time, now: Time)
      returns (acquired: bool)
      modifies this
      ensures var (after, ok) := Acquire(Lookup(old(rows), key), limit, expiresAt, now);
              rows == old(rows)[key := after] && acquired == ok
    {
      var snapshot := rows;
      var upserted := false;
      if key !in snapshot {
        rows := rows[key := Semaphore(limit - 1, Some(1), limit, expiresAt, now)];
        upserted := true;
      } else if snapshot[key].value > snapshot[key].limit - limit {
        var free := Available(snapshot[key], limit, 0);
        rows := rows[key := Semaphore(free - 1, Some(limit - (free - 1)), limit, expiresAt, now)];
        upserted := true;
      }
      if key in snapshot && !upserted {
        var s := snapshot[key];
        var free := Available(s, limit, 0);
        if s.value != free || s.active != Some(limit - free) || s.limit != limit {
          rows := rows[key := s.(value := free, active := Some(limit - free), limit := limit, updatedAt := now)];
        }
      }
      acquired := upserted;
    }

    /**
     One upsert whose assignments run left to right, each reading the columns as already assigned:
     `value` and `limit` come last because every other assignment reads them.
     */
    method AcquireByOrderedAssignments(key: string, limit: Positive, expiresAt: Time, now: Time)
      returns (acquired: bool)
      modifies this
      ensures var (after, ok) := Acquire(Lookup(old(rows), key), limit, expiresAt, now);
              rows == old(rows)[key := after] && acquired == ok
    {
      if key !in rows {
        rows := rows[key := Semaphore(limit - 1, Some(1), limit, expiresAt, now)];
        return true;
      }
      var row := rows[key];
      if Available(row, limit, 0) > 0 {
        row := row.(expiresAt := expiresAt);
      }
      if Available(row, limit, 0) > 0 || row.value != Available(row, limit, 0) || row.active.None?
         || row.active != Some(limit - Available(row, limit, 0)) || row.limit != limit {
        row := row.(updatedAt := now);
      }
      acquired := Available(row, limit, 0) > 0;
      row := row.(active := Some(limit - if Available(row, limit, 0) > 0
                                         then Available(row, limit, 0) - 1 else Available(row, limit, 0)));
      row := row.(value := if Available(row, limit, 0) > 0
                           then Available(row, limit, 0) - 1 else Available(row, limit, 0));
      row := row.(limit := limit);
      rows := rows[key := row];
    }

    /** The locked read-modify-write that serves a whole dispatch group. */
    method AcquireManyLocked(key: string, count: int, limit: Positive, expiresAt: Time, now: Time)
      returns (acquired: nat)
      modifies this
      ensures var (after, taken) := AcquireTimes(Lookup(old(rows), key), Max(0, count), limit, expiresAt, now);
              acquired == taken && Lookup(rows, key) == after
      ensures forall k :: k != key ==> Lookup(rows, k) == Lookup(old(rows), k)
    {
      AcquireManyIsRepeatedAcquire(Lookup(rows, key), Max(0, count), limit, expiresAt, now);
      if count <= 0 {
        return 0;
      }
      acquired := Min(count, limit);
      if key !in rows {
        rows := rows[key := Semaphore(limit - acquired, Some(acquired), limit, expiresAt, now)];
        return;
      }
      var s := rows[key];
      var available := Min(limit, Max(0, s.value + limit - s.limit));
      acquired := Min(count, available);
      var value := available - acquired;
      var active := limit - value;
      if acquired != 0 {
        rows := rows[key := Semaphore(value, Some(active), limit, expiresAt, now)];
      } else if s.value != value || s.active != Some(active) || s.limit != limit {
        rows := rows[key := s.(value := value, active := Some(active), limit := limit, updatedAt := now)];
      }
    }
  }

  /** The same upsert on an existing row with the limit assigned first, so that the others read the new one. */
  function LimitAssignedFirst(s: Semaphore, limit: Positive, expiresAt: Time, now: Time): (Semaphore, bool) {
    var row := s.(limit := limit);
    var free := Available(row, limit, 0);
    var touched := free > 0 || row.value != free || row.active != Some(limit - free);
    var value := if free > 0 then free - 1 else free;
    (Semaphore(value, Some(limit - value), limit, if free > 0 then expiresAt else row.expiresAt,
               if touched then now else row.updatedAt), free > 0)
  }

  /**
   Assigned first, the limit gives the specified row and flag exactly when it is unchanged, or falls for a row with
   all its slots free or none: a raised limit always loses the slots it adds.
   */
  lemma AssignmentOrderMattersIff(s: Semaphore, limit: Positive, expiresAt: Time, now: Time)
    requires WellFormed(s)
    ensures LimitAssignedFirst(s, limit, expiresAt, now) == Acquire(Some(s), limit, expiresAt, now)
       <==> || limit == s.limit
            || (limit < s.limit && (s.value == 0 || s.value == s.limit))
  {
  }
}
