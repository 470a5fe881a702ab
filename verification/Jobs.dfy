/**
 Jobs as the store keeps them: seven states, an attempt counter that fences
 every write, a lease while running and a log of failed attempts.
 */
module Jobs {

  /** Nanoseconds on the store's clock. */
  type Time = int

  /** Queue names, job kinds and unique keys are only ever compared for equality. */
  type Name(==, 0, !new)

  /** Encoded job arguments and attempt errors; their contents play no part in any decision. */
  type Args(==, 0, !new)
  type Detail(==, 0, !new)

  datatype Option<+T> = None | Some(value: T)

  datatype Error = NotFound | InvalidTransition | LeaseLost | DuplicateJob

  datatype Result<+T> = Ok(value: T) | Err(error: Error)

  datatype State = Available | Scheduled | Running | Retryable | Completed | Cancelled | Dead
  {
    /** Queued for execution: never run, awaiting a retry, or snoozed. */
    predicate Waiting() {
      Available? || Retryable? || Scheduled?
    }

    predicate Terminal() {
      Completed? || Cancelled? || Dead?
    }

    /** Occupies its unique slot. */
    predicate UniqueActive() {
      Available? || Scheduled? || Retryable? || Running?
    }

    /** Reported as a queue depth. */
    predicate Counted() {
      Available? || Scheduled? || Retryable? || Running? || Dead?
    }

    predicate Cancellable() {
      Available? || Scheduled? || Retryable? || Dead?
    }
  }

  /** One claim on a job: the row and the attempt its holder executes. */
  datatype Lease = Lease(id: int, attempt: int)

  datatype Row = Row(
    id: int,
    kind: Name,
    queue: Name,
    args: Args,
    state: State,
    attempt: int,
    maxAttempts: int,
    errors: seq<Detail>,
    scheduledAt: Time,
    leasedUntil: Option<Time>,
    createdAt: Time,
    finalizedAt: Option<Time>,
    uniqueKey: Option<Name>)

  function LeaseOf(row: Row): Lease {
    Lease(row.id, row.attempt)
  }

  /** ScheduledAt None is the zero time, which means now; uniqueKey None is the empty key. */
  datatype InsertParams = InsertParams(
    kind: Name,
    queue: Name,
    args: Args,
    scheduledAt: Option<Time>,
    uniqueKey: Option<Name>)

  /** What a Mark method records about the attempt it ends. */
  datatype Outcome =
    | Complete
    | Retry(at: Time, detail: Option<Detail>)
    | Die(detail: Option<Detail>)
    | Cancel(detail: Option<Detail>)
    | Snooze(at: Time)
}
