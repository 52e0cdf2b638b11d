/** Failure-compatible wrappers shared by the whole model. */
module Results {

  datatype Option<+T> = None | Some(value: T)

  /** The exceptions a transaction can leave with; leaving with one rolls the transaction back. */
  datatype Error =
    | Missing           // the selected row does not exist (DoesNotExist)
    | Conflict          // "already has an execution-state row"
    | ForeignBackend    // a state row's job "belongs to backend ..."
    | ForeignProcess    // the claiming process belongs to another backend
    | PolicyError       // DispatchPolicyError
    | Duplicate         // IntegrityError on a primary key
    | NoRun             // ValueError: no matching datetime in the search window
    | Rejected          // a job of a recurring task cannot be enqueued or attached

  datatype Result<+T> = Ok(value: T) | Err(error: Error) {
    predicate IsFailure() {
      Err?
    }

    function PropagateFailure<U>(): Result<U>
      requires Err?
    {
      Err(error)
    }

    function Extract(): T
      requires Ok?
    {
      value
    }
  }

  /** A checked condition inside a transaction. */
  function Need(condition: bool, error: Error): Result<()> {
    if condition then Ok(()) else Err(error)
  }

  function Lookup<K, V>(m: map<K, V>, k: K): Option<V> {
    if k in m then Some(m[k]) else None
  }
}
