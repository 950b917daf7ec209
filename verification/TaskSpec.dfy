/** What each task-store transaction does to the tables; a failed transaction is rolled back. */
module TaskSpec {
  import opened Lifecycle
  import opened Records

  const MAX_STATUS_REASON := 1000

  predicate ValidSource(s: string) {
    s == "api" || s == "system" || s == "runner" || s == "agent"
  }

  predicate KeySeen(events: seq<Event>, key: Key) {
    exists e <- events :: e.key == key
  }

  function Max(a: nat, b: nat): nat {
    if a < b then b else a
  }

  /** COALESCE(MAX(sequence_number), 0) over one attempt's events. */
  function MaxSeq(events: seq<Event>, attempt: nat): nat {
    if events == [] then 0
    else
      var rest := MaxSeq(events[..|events| - 1], attempt);
      var last := events[|events| - 1];
      if last.attempt == attempt then Max(rest, last.seqno) else rest
  }

  function Appended(events: seq<Event>, attempt: nat, kind: Kind, source: string, key: Key): seq<Event> {
    events + [Event(attempt, MaxSeq(events, attempt) + 1, kind, source, key)]
  }

  /** Index of the first active attempt row. */
  function ActiveIndex(attempts: seq<Attempt>): (r: Option<nat>)
    ensures r.Some? ==> r.value < |attempts| && attempts[r.value].status.Active?
    ensures r.None? ==> forall a <- attempts :: !a.status.Active?
  {
    if attempts == [] then None
    else if attempts[0].status.Active? then Some(0)
    else match ActiveIndex(attempts[1..])
         case None => None
         case Some(i) => Some(i + 1)
  }

  function Truncated(s: string, n: nat): string {
    if |s| <= n then s else s[..n]
  }

  function OrOld(s: string, old_: string): string {
    if s == "" then old_ else s
  }

  function NewAttempt(number: nat, brief: Option<Brief>): Attempt {
    Attempt(number, Active, None, None, "", "", brief,
            if brief.Some? then Some(brief.value.baseCommit) else None, None, None, Free)
  }

  function MovedAttempts(t: Tables, p: TransitionParams, i: nat, now: Time): seq<Attempt>
    requires i < |t.attempts|
  {
    var a := t.attempts[i];
    if p.to.Terminal() then
      t.attempts[i := a.(status := Finished(p.to), completedAt := Some(now),
                         failureCode := p.failureCode, failureMessage := p.failureMessage)]
    else if t.task.status == RevisionRequested && p.to == Queued then
      t.attempts[i := a.(status := Superseded, completedAt := Some(now))]
        + [NewAttempt(a.number + 1, p.brief)]
    else if p.to == Provisioning then
      t.attempts[i := a.(startedAt := OrElse(a.startedAt, Some(now)))]
    else
      t.attempts
  }

  function MovedTask(row: TaskRow, p: TransitionParams, now: Time): TaskRow {
    row.(status := p.to,
         phase := p.to.Phase(),
         version := row.version + 1,
         startedAt := if p.to == Provisioning then OrElse(row.startedAt, Some(now)) else row.startedAt,
         completedAt := if p.to.Terminal() then Some(now) else row.completedAt,
         cancelRequestedAt := if p.to == Cancelled then OrElse(row.cancelRequestedAt, Some(now))
                              else row.cancelRequestedAt,
         failureCode := OrOld(p.failureCode, row.failureCode),
         failureMessage := OrOld(p.failureMessage, row.failureMessage),
         statusReason := Truncated(p.reason, MAX_STATUS_REASON))
  }

  /** The attempt that records the move: the one it starts, when it starts one. */
  function EventAttempt(t: Tables, p: TransitionParams, i: nat): nat
    requires i < |t.attempts|
  {
    if !p.to.Terminal() && t.task.status == RevisionRequested && p.to == Queued
    then t.attempts[i].number + 1
    else t.attempts[i].number
  }

  function SourceOf(p: TransitionParams): string {
    if p.source == "" then "system" else p.source
  }

  function Move(t: Tables, p: TransitionParams, i: nat, now: Time): Tables
    requires i < |t.attempts|
  {
    Tables(MovedTask(t.task, p, now),
           MovedAttempts(t, p, i, now),
           Appended(t.events, EventAttempt(t, p, i), Moved(t.task.status, p.to, p.reason), SourceOf(p), p.key))
  }

  predicate Replay(t: Tables, key: Key) {
    key != NoKey && KeySeen(t.events, key)
  }

  function ApplyTransition(t: Tables, p: TransitionParams, now: Time): Result<Tables> {
    if !ValidSource(SourceOf(p)) then Err(UnknownSource(p.source))
    else if Replay(t, p.key) then Ok(t)
    else if p.expectedVersion != 0 && p.expectedVersion != t.task.version then
      Err(VersionConflict(p.expectedVersion, t.task.version))
    else if !CanTransition(t.task.status, p.to) then Err(InvalidTransition(t.task.status, p.to))
    else match ActiveIndex(t.attempts)
         case None => Err(NoActiveAttempt)
         case Some(i) => Ok(Move(t, p, i, now))
  }

  /** The task row, its first attempt and its first event, before it is queued. */
  function Inserted(hasRepository: bool): Tables {
    Tables(TaskRow(Created, Pending, 1, None, None, None, "", "", "", hasRepository, None, None),
           [NewAttempt(1, None)],
           [Event(1, 1, TaskCreated, "api", NoKey)])
  }

  function To(to: Status, source: string, reason: string, key: Key): TransitionParams {
    TransitionParams(to, source, reason, "", "", key, 0, None)
  }

  function Create(hasRepository: bool, now: Time): Result<Tables> {
    ApplyTransition(Inserted(hasRepository), To(Queued, "system", "", NoKey), now)
  }

  /** ValidSHA: forty lower-case hexadecimal digits. */
  predicate ValidSHA(s: string) {
    |s| == 40 && forall c <- s :: '0' <= c <= '9' || 'a' <= c <= 'f'
  }

  predicate Complete(r: RevisionParams) {
    r.brief.instructions != "" && ValidSHA(r.brief.baseCommit) && r.brief.requestedBy != "" &&
    r.brief.comment > 0 && r.maxAttempts >= 1 && r.key != NoKey
  }

  function RevisionStart(r: RevisionParams): TransitionParams {
    To(RevisionRequested, "system", r.reason, r.key)
  }

  function RevisionRequeue(r: RevisionParams): TransitionParams {
    To(Queued, "system", r.reason, NoKey).(brief := Some(r.brief))
  }

  function RequestRevision(t: Tables, r: RevisionParams, now: Time): Result<Tables> {
    if !Complete(r) then Err(RevisionIncomplete)
    else if KeySeen(t.events, r.key) then Err(RevisionReplayed)
    else if |t.attempts| >= r.maxAttempts then Err(RevisionLimit(|t.attempts|, r.maxAttempts))
    else match ApplyTransition(t, RevisionStart(r), now)
         case Err(e) => Err(e)
         case Ok(requested) =>
           if requested.task.status != RevisionRequested then Err(RevisionReplayed)
           else match ApplyTransition(requested, RevisionRequeue(r), now)
                case Err(e) => Err(e)
                case Ok(queued) => if ActiveIndex(queued.attempts).None? then Err(NoActiveAttempt) else Ok(queued)
  }

  function Cancel(t: Tables, reason: string, now: Time): Result<Tables> {
    if t.task.status == Cancelled then Ok(t)
    else ApplyTransition(t, To(Cancelled, "api", reason, NoKey), now)
  }

  function EnsureGitContext(t: Tables, baseCommit: string, branch: string): Tables {
    t.(task := t.task.(baseCommit := OrElse(t.task.baseCommit, Some(baseCommit)),
                       workingBranch := OrElse(t.task.workingBranch, Some(branch)),
                       version := t.task.version + 1))
  }

  predicate HasAttempt(t: Tables, attempt: nat) {
    exists a <- t.attempts :: a.number == attempt
  }

  function AppendAttemptEvent(t: Tables, attempt: nat, eventType: string, source: string): Result<Tables> {
    if !ValidSource(source) then Err(UnknownSource(source))
    else if !HasAttempt(t, attempt) then Err(AttemptNotFound)
    else Ok(t.(events := Appended(t.events, attempt, Note(eventType), source, NoKey)))
  }

  function AppendEvent(t: Tables, eventType: string, source: string): Result<Tables> {
    match ActiveIndex(t.attempts)
    case None => Err(NoActiveAttempt)
    case Some(i) =>
      // the events table itself rejects an unknown source
      if !ValidSource(source) then Err(UnknownSource(source))
      else Ok(t.(events := Appended(t.events, t.attempts[i].number, Note(eventType), source, NoKey)))
  }
}
