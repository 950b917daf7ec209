/** The rows the stores read and write: one task, its attempts and its append-only event log. */
module Records {
  import opened Lifecycle

  datatype Option<+T> = None | Some(value: T)

  type Time = int
  type Runner = int

  /** COALESCE(x, y) on nullable columns. */
  function OrElse<T>(x: Option<T>, y: Option<T>): Option<T> {
    if x.Some? then x else y
  }

  /** Idempotency keys; module KeyText shows that their texts are as distinct as these values. */
  datatype Key =
    | NoKey
    | StageKey(attempt: nat, to: Status)
    | FailKey(attempt: nat, code: string)
    | TimeoutKey(attempt: nat)
    | ReviseKey(comment: nat)
    | PullRequestKey(number: nat)

  datatype Kind =
    | TaskCreated
    | Moved(from: Status, to: Status, reason: string)
    | Note(eventType: string)

  /** One activity event; seqno numbers the events of one attempt. */
  datatype Event = Event(attempt: nat, seqno: nat, kind: Kind, source: string, key: Key)

  datatype AttemptStatus = Active | Superseded | Finished(outcome: Status)

  /** lease_owner and lease_expires_at are null together. */
  datatype Lease = Free | Held(owner: Runner, expires: Time)

  /** What a revision command hands to the attempt it starts. */
  datatype Brief = Brief(instructions: string, baseCommit: string, requestedBy: string, comment: nat)

  datatype Attempt = Attempt(
    number: nat,
    status: AttemptStatus,
    startedAt: Option<Time>,
    completedAt: Option<Time>,
    failureCode: string,
    failureMessage: string,
    brief: Option<Brief>,
    baseCommit: Option<string>,
    finalCommit: Option<string>,
    pullRequest: Option<nat>,
    lease: Lease)

  datatype TaskRow = TaskRow(
    status: Status,
    phase: Phase,
    version: nat,
    startedAt: Option<Time>,
    completedAt: Option<Time>,
    cancelRequestedAt: Option<Time>,
    failureCode: string,
    failureMessage: string,
    statusReason: string,
    hasRepository: bool,
    baseCommit: Option<string>,
    workingBranch: Option<string>)

  /** Everything stored about one task. */
  datatype Tables = Tables(task: TaskRow, attempts: seq<Attempt>, events: seq<Event>)

  datatype TransitionParams = TransitionParams(
    to: Status,
    source: string,
    reason: string,
    failureCode: string,
    failureMessage: string,
    key: Key,
    expectedVersion: nat,
    brief: Option<Brief>)

  datatype RevisionParams = RevisionParams(brief: Brief, maxAttempts: int, key: Key, reason: string)

  datatype Error =
    | UnknownSource(source: string)
    | VersionConflict(expected: nat, actual: nat)
    | InvalidTransition(from: Status, to: Status)
    | NoActiveAttempt
    | AttemptNotFound
    | RevisionIncomplete
    | RevisionLimit(used: nat, limit: int)
    | RevisionReplayed
    | LeaseLost

  datatype Result<+T> = Ok(value: T) | Err(error: Error)
}
