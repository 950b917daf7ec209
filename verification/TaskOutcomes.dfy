/** What each call answers and stores, status by status and column by column. */
module TaskOutcomes {
  import opened Lifecycle
  import opened Records
  import opened TaskSpec
  import opened TaskHistory
  import Fleet
  import FleetTheorems
  import Revisions
  import Runners = RunnerSpec
  import TaskRuns

  // ---- which moves there are

  /** The whole transition table, as pairs of statuses. */
  lemma TransitionTable(from: Status, to: Status)
    ensures CanTransition(from, to) <==>
            match to
            case Created => false
            case Queued => from == Created || from == RevisionRequested
            case Provisioning => from == Queued
            case Planning => from == Provisioning
            case Executing => from == Planning
            case Validating => from == Executing
            case Publishing => from == Validating
            case AwaitingReview => from == Publishing
            case RevisionRequested => from == AwaitingReview
            case Completed => from == AwaitingReview || from == RevisionRequested
            case Failed => from in {Provisioning, Planning, Executing, Validating, Publishing}
            case TimedOut => from in {Provisioning, Planning, Executing, Validating, Publishing, AwaitingReview}
            case Cancelled => from !in {Completed, Failed, Cancelled, TimedOut}
  {
  }

  /** The statuses of each phase. */
  lemma PhaseTable(s: Status)
    ensures s.Phase() == Pending <==> s in {Created, Queued}
    ensures s.Phase() == Running <==> s in {Provisioning, Planning, Executing, Validating, Publishing}
    ensures s.Phase() == Review <==> s in {AwaitingReview, RevisionRequested}
    ensures s.Phase() == Ended <==> s in {Completed, Failed, Cancelled, TimedOut}
    ensures s.Terminal() <==> s in {Completed, Failed, Cancelled, TimedOut}
  {
  }

  /** The statuses in which an attempt can be claimed. */
  lemma ClaimableTable(row: TaskRow)
    ensures Runners.Claimable(row) <==>
            || row.status in {Queued, Provisioning, Planning, Executing, Validating, Publishing}
            || (row.status == AwaitingReview && !row.hasRepository)
  {
  }

  // ---- transitions

  /** The four sources there are; none given means the system. */
  lemma SourceTable(p: TransitionParams)
    ensures ValidSource(SourceOf(p)) <==> p.source in {"", "api", "system", "runner", "agent"}
    ensures SourceOf(p) == if p.source == "" then "system" else p.source
  {
  }

  /** The key is on the log. */
  ghost predicate Recorded(t: Tables, key: Key) {
    key != NoKey && exists e <- t.events :: e.key == key
  }

  /** Every answer of a transition, in the order of its guards. */
  lemma TransitionAnswers(t: Tables, p: TransitionParams, now: Time)
    requires Inv(t)
    ensures var r := ApplyTransition(t, p, now);
            if p.source !in {"", "api", "system", "runner", "agent"} then r == Err(UnknownSource(p.source))
            else if Recorded(t, p.key) then r == Ok(t)
            else if p.expectedVersion != 0 && p.expectedVersion != t.task.version then
              r == Err(VersionConflict(p.expectedVersion, t.task.version))
            else if !CanTransition(t.task.status, p.to) then r == Err(InvalidTransition(t.task.status, p.to))
            else r.Ok? && r.value.task.status == p.to && r.value.task.version == t.task.version + 1
  {
    hide Inv, CanTransition, Appended, MovedAttempts;
    FleetTheorems.InvFacts(t);
    SourceTable(p);
    hide ValidSource;
    assert Replay(t, p.key) <==> Recorded(t, p.key);
    Moves(t.task.status, p.to);
  }

  lemma Moves(from: Status, to: Status)
    ensures CanTransition(from, to) ==> !from.Terminal()
  {
  }

  /** A transition that is neither a replay nor out of date, from a known source. */
  ghost predicate Fresh(t: Tables, p: TransitionParams) {
    && p.source in {"", "api", "system", "runner", "agent"} && !Recorded(t, p.key)
    && (p.expectedVersion == 0 || p.expectedVersion == t.task.version)
  }

  /** Failing works from the running statuses and no others. */
  lemma FailSucceeds(t: Tables, p: TransitionParams, now: Time)
    requires Inv(t) && Fresh(t, p) && p.to == Failed
    ensures var r := ApplyTransition(t, p, now);
            if t.task.status in {Provisioning, Planning, Executing, Validating, Publishing}
            then r.Ok? && r.value.task.status == Failed
            else r == Err(InvalidTransition(t.task.status, Failed))
  {
    hide Inv, CanTransition, ApplyTransition;
    TransitionAnswers(t, p, now);
    TransitionTable(t.task.status, Failed);
  }

  /** Timing out works from the running statuses and from review, and from no others. */
  lemma TimeoutSucceeds(t: Tables, p: TransitionParams, now: Time)
    requires Inv(t) && Fresh(t, p) && p.to == TimedOut
    ensures var r := ApplyTransition(t, p, now);
            if t.task.status in {Provisioning, Planning, Executing, Validating, Publishing, AwaitingReview}
            then r.Ok? && r.value.task.status == TimedOut
            else r == Err(InvalidTransition(t.task.status, TimedOut))
  {
    hide Inv, CanTransition, ApplyTransition;
    TransitionAnswers(t, p, now);
    TransitionTable(t.task.status, TimedOut);
  }

  /**
   * Cancelling succeeds exactly on a task that is unfinished or cancelled already, and leaves it cancelled;
   * the second time nothing changes.
   */
  lemma CancelSucceeds(t: Tables, reason: string, now: Time)
    requires Inv(t)
    ensures var r := TaskSpec.Cancel(t, reason, now);
            && (r.Ok? <==> t.task.status !in {Completed, Failed, TimedOut})
            && (r.Ok? ==> r.value.task.status == Cancelled)
            && (r.Err? ==> r == Err(InvalidTransition(t.task.status, Cancelled)))
            && (t.task.status == Cancelled ==> r == Ok(t))
  {
    hide Inv, CanTransition, ApplyTransition;
    TransitionAnswers(t, To(Cancelled, "api", reason, NoKey), now);
    TransitionTable(t.task.status, Cancelled);
  }

  // ---- what a move stores

  /** The event a move records: who, what, why and under which key. */
  ghost predicate MoveRecorded(t: Tables, t': Tables, p: TransitionParams, attempt: nat) {
    && |t'.events| == |t.events| + 1 && t.events <= t'.events
    && var e := t'.events[|t.events|];
       && e.attempt == attempt && e.key == p.key
       && e.source == (if p.source == "" then "system" else p.source)
       && e.kind.Moved? && e.kind.from == t.task.status && e.kind.to == p.to && e.kind.reason == p.reason
  }

  /** The columns of the task row. */
  ghost predicate RowMoved(row: TaskRow, row': TaskRow, p: TransitionParams, now: Time) {
    && row'.status == p.to && row'.version == row.version + 1
    && row'.failureCode == (if p.failureCode != "" then p.failureCode else row.failureCode)
    && row'.failureMessage == (if p.failureMessage != "" then p.failureMessage else row.failureMessage)
    && row'.startedAt == (if p.to == Provisioning && row.startedAt.None? then Some(now) else row.startedAt)
    && row'.completedAt == (if p.to in {Completed, Failed, Cancelled, TimedOut} then Some(now) else row.completedAt)
    && row'.cancelRequestedAt ==
       (if p.to == Cancelled && row.cancelRequestedAt.None? then Some(now) else row.cancelRequestedAt)
    && row'.statusReason <= p.reason
    && |row'.statusReason| == (if |p.reason| <= 1000 then |p.reason| else 1000)
    && row'.hasRepository == row.hasRepository
    && row'.baseCommit == row.baseCommit && row'.workingBranch == row.workingBranch
  }

  /** The columns that no move changes on an attempt. */
  ghost predicate SameWork(a: Attempt, a': Attempt) {
    && a'.number == a.number && a'.brief == a.brief && a'.baseCommit == a.baseCommit
    && a'.finalCommit == a.finalCommit && a'.pullRequest == a.pullRequest && a'.lease == a.lease
  }

  /** The end of an attempt: how, when, and with which code and message. */
  ghost predicate AttemptEnded(a: Attempt, a': Attempt, p: TransitionParams, now: Time) {
    && SameWork(a, a') && a'.status == Finished(p.to) && a'.completedAt == Some(now)
    && a'.startedAt == a.startedAt && a'.failureCode == p.failureCode && a'.failureMessage == p.failureMessage
  }

  ghost predicate AttemptSuperseded(a: Attempt, a': Attempt, now: Time) {
    && SameWork(a, a') && a'.status == Superseded && a'.completedAt == Some(now) && a'.startedAt == a.startedAt
    && a'.failureCode == a.failureCode && a'.failureMessage == a.failureMessage
  }

  /** A new attempt: its number, the brief it was asked with, and nothing else yet. */
  ghost predicate AttemptNew(a: Attempt, number: nat, brief: Option<Brief>) {
    && a.number == number && a.status == Active && a.brief == brief && a.lease == Free
    && a.startedAt == None && a.completedAt == None && a.failureCode == "" && a.failureMessage == ""
    && a.finalCommit == None && a.pullRequest == None
    && (brief.None? ==> a.baseCommit == None) && (brief.Some? ==> a.baseCommit == Some(brief.value.baseCommit))
  }

  /** What a move makes of the last attempt; the ones before it stay. */
  ghost predicate AttemptsMoved(before: seq<Attempt>, after: seq<Attempt>, p: TransitionParams, now: Time) {
    var n := |before|;
    && n >= 1 && (forall i | 0 <= i < n - 1 :: i < |after| && after[i] == before[i])
    && if p.to in {Completed, Failed, Cancelled, TimedOut} then
         |after| == n && AttemptEnded(before[n - 1], after[n - 1], p, now)
       else if p.to == Queued then
         |after| == n + 1 && AttemptSuperseded(before[n - 1], after[n - 1], now) && AttemptNew(after[n], n + 1, p.brief)
       else
         && |after| == n
         && after[n - 1] == (if p.to == Provisioning && before[n - 1].startedAt.None?
                             then before[n - 1].(startedAt := Some(now)) else before[n - 1])
  }

  /** Every column after an accepted, fresh transition. */
  lemma MoveStores(t: Tables, p: TransitionParams, now: Time)
    requires Inv(t) && Fresh(t, p) && CanTransition(t.task.status, p.to)
    ensures match ApplyTransition(t, p, now)
            case Err(_) => false
            case Ok(t') =>
              && RowMoved(t.task, t'.task, p, now) && AttemptsMoved(t.attempts, t'.attempts, p, now)
              && MoveRecorded(t, t', p, if p.to == Queued then |t.attempts| + 1 else |t.attempts|)
  {
    hide Inv, CanTransition, Appended, MovedTask, MovedAttempts, RowMoved, MoveRecorded, AttemptsMoved;
    FleetTheorems.InvFacts(t);
    QueuedFrom(t.task.status, p.to);
    SourceTable(p);
    hide ValidSource;
    assert Replay(t, p.key) <==> Recorded(t, p.key);
    var n := |t.attempts|;
    var t' := Move(t, p, n - 1, now);
    assert ApplyTransition(t, p, now) == Ok(t');
    RowStores(t.task, p, now);
    AttemptsStore(t, p, now);
    AppendStores(t.events, EventAttempt(t, p, n - 1), Moved(t.task.status, p.to, p.reason), SourceOf(p), p.key);
    EventStores(t, t', p, EventAttempt(t, p, n - 1));
  }

  lemma RowStores(row: TaskRow, p: TransitionParams, now: Time)
    ensures RowMoved(row, MovedTask(row, p, now), p, now)
  {
  }

  lemma AttemptsStore(t: Tables, p: TransitionParams, now: Time)
    requires |t.attempts| >= 1 && t.attempts[|t.attempts| - 1].number == |t.attempts|
    requires p.to == Queued ==> t.task.status == RevisionRequested
    ensures AttemptsMoved(t.attempts, MovedAttempts(t, p, |t.attempts| - 1, now), p, now)
  {
  }

  lemma EventStores(t: Tables, t': Tables, p: TransitionParams, attempt: nat)
    requires |t'.events| == |t.events| + 1 && t.events <= t'.events
    requires var e := t'.events[|t.events|];
             && e.attempt == attempt && e.kind == Moved(t.task.status, p.to, p.reason)
             && e.source == SourceOf(p) && e.key == p.key
    ensures MoveRecorded(t, t', p, attempt)
  {
  }

  lemma QueuedFrom(from: Status, to: Status)
    requires CanTransition(from, to) && from != Created
    ensures !from.Terminal() && (to == Queued ==> from == RevisionRequested)
  {
  }

  /** A stage records itself under its own key; a failure stores its code and message on task and attempt. */
  lemma FailureStored(t: Tables, attempt: nat, code: string, message: string, now: Time)
    requires Inv(t) && code != "" && message != "" && !Recorded(t, FailKey(attempt, code))
    requires t.task.status in {Provisioning, Planning, Executing, Validating, Publishing}
    ensures match ApplyTransition(t, Fleet.FailParams(attempt, code, message), now)
            case Err(_) => false
            case Ok(t') =>
              var last := t'.attempts[|t.attempts| - 1];
              && t'.task.failureCode == code && t'.task.failureMessage == message
              && last.failureCode == code && last.failureMessage == message && last.status == Finished(Failed)
              && t'.events[|t.events|].source == "runner" && t'.events[|t.events|].key == FailKey(attempt, code)
  {
    hide Inv, CanTransition, ApplyTransition;
    TransitionTable(t.task.status, Failed);
    MoveStores(t, Fleet.FailParams(attempt, code, message), now);
  }

  /** A stage is recorded by the runner under its own key; the completion of an unpublished task by the system. */
  lemma StageStored(t: Tables, to: Status, now: Time)
    requires Inv(t) && (to.Driven() || to == Completed) && !Recorded(t, StageKey(|t.attempts|, to))
    requires CanTransition(t.task.status, to)
    ensures match ApplyTransition(t, Fleet.StageParams(|t.attempts|, to), now)
            case Err(_) => false
            case Ok(t') =>
              && t'.task.status == to && |t'.events| == |t.events| + 1
              && var e := t'.events[|t.events|];
                 && e.attempt == |t.attempts| && e.key == StageKey(|t.attempts|, to)
                 && e.source == (if to == Completed then "system" else "runner")
                 && e.kind.Moved? && e.kind.from == t.task.status && e.kind.to == to
                 && (to != Completed ==> e.kind.reason == "")
  {
    hide Inv, CanTransition, ApplyTransition;
    MoveStores(t, Fleet.StageParams(|t.attempts|, to), now);
  }

  /** A passed deadline stores its own code. */
  lemma TimeoutStored(t: Tables, attempt: nat, now: Time)
    requires Inv(t) && !Recorded(t, TimeoutKey(attempt))
    requires t.task.status in {Provisioning, Planning, Executing, Validating, Publishing, AwaitingReview}
    ensures match ApplyTransition(t, Fleet.TimeoutParams(attempt), now)
            case Err(_) => false
            case Ok(t') =>
              && t'.task.status == TimedOut && t'.task.failureCode == "task_runtime_exceeded"
              && t'.attempts[|t.attempts| - 1].failureCode == "task_runtime_exceeded"
              && t'.events[|t.events|].source == "runner" && t'.events[|t.events|].key == TimeoutKey(attempt)
  {
    hide Inv, CanTransition, ApplyTransition;
    TransitionTable(t.task.status, TimedOut);
    MoveStores(t, Fleet.TimeoutParams(attempt), now);
  }

  lemma UnfinishedMarks(t: Tables)
    requires Inv(t) && !t.task.status.Terminal()
    ensures t.task.cancelRequestedAt == None && t.task.completedAt == None
  {
    hide AttemptStructure, Numbered, KeysOnce, MovesAtTheTop, AttemptsExist, Chronicle;
  }

  /** A cancellation is the interface's, with the reason it gave, and marks when it was asked for. */
  lemma CancelStored(t: Tables, reason: string, now: Time)
    requires Inv(t) && !t.task.status.Terminal()
    ensures match TaskSpec.Cancel(t, reason, now)
            case Err(_) => false
            case Ok(t') =>
              && t'.task.status == Cancelled && t'.task.version == t.task.version + 1
              && t'.task.cancelRequestedAt == Some(now) && t'.task.completedAt == Some(now)
              && t'.attempts[|t.attempts| - 1].status == Finished(Cancelled)
              && t'.events[|t.events|].source == "api" && t'.events[|t.events|].key == NoKey
              && t'.events[|t.events|].kind == Moved(t.task.status, Cancelled, reason)
  {
    hide Inv, CanTransition, ApplyTransition;
    PhaseTable(t.task.status);
    TransitionTable(t.task.status, Cancelled);
    UnfinishedMarks(t);
    MoveStores(t, To(Cancelled, "api", reason, NoKey), now);
  }

  // ---- creation and revision

  /** Every column of a new task. */
  lemma CreateStores(hasRepository: bool, now: Time)
    ensures match Create(hasRepository, now)
            case Err(_) => false
            case Ok(t) =>
              && t.task == TaskRow(Queued, Pending, 2, None, None, None, "", "", "", hasRepository, None, None)
              && |t.attempts| == 1 && AttemptNew(t.attempts[0], 1, None)
              && t.events == [Event(1, 1, TaskCreated, "api", NoKey),
                              Event(1, 2, Moved(Created, Queued, ""), "system", NoKey)]
  {
    var t := Inserted(hasRepository);
    assert t.attempts[0].status.Active?;
    assert t.events[..0] == [] && MaxSeq([], 1) == 0 && MaxSeq(t.events, 1) == 1;
  }

  /** A commit id is forty hexadecimal digits, the letters in lower case. */
  lemma ShaTable(s: string)
    ensures ValidSHA(s) <==> |s| == 40 && forall c <- s :: c in "0123456789abcdef"
  {
    assert forall c: char :: c in "0123456789abcdef" <==> '0' <= c <= '9' || 'a' <= c <= 'f' by {
      forall c: char
        ensures c in "0123456789abcdef" <==> '0' <= c <= '9' || 'a' <= c <= 'f'
      {
        HexDigit(c);
      }
    }
  }

  lemma HexDigit(c: char)
    ensures c in "0123456789abcdef" <==> '0' <= c <= '9' || 'a' <= c <= 'f'
  {
    var digits := "0123456789abcdef";
    if '0' <= c <= '9' {
      assert digits[c as int - '0' as int] == c;
    }
    if 'a' <= c <= 'f' {
      assert digits[10 + (c as int - 'a' as int)] == c;
    }
  }

  /** What a revision command must bring along. */
  lemma CompleteTable(r: RevisionParams)
    ensures Complete(r) <==>
            && r.brief.instructions != "" && r.brief.requestedBy != "" && r.brief.comment != 0
            && |r.brief.baseCommit| == 40 && (forall c <- r.brief.baseCommit :: c in "0123456789abcdef")
            && r.maxAttempts > 0 && r.key != NoKey
  {
    hide ValidSHA;
    ShaTable(r.brief.baseCommit);
  }

  /** An accepted revision: both events with reason and key, and the brief on the new attempt. */
  lemma RevisionStores(t: Tables, r: RevisionParams, now: Time)
    requires Inv(t) && TaskSpec.RequestRevision(t, r, now).Ok?
    ensures var t' := TaskSpec.RequestRevision(t, r, now).value;
            var n := |t.attempts|;
            && n >= 1 && |t'.attempts| == n + 1 && AttemptNew(t'.attempts[n], n + 1, Some(r.brief))
            && AttemptSuperseded(t.attempts[n - 1], t'.attempts[n - 1], now)
            && |t'.events| == |t.events| + 2 && t.events <= t'.events
            && t'.events[|t.events|].kind == Moved(AwaitingReview, RevisionRequested, r.reason)
            && t'.events[|t.events|].key == r.key && t'.events[|t.events|].attempt == n
            && t'.events[|t.events| + 1].kind == Moved(RevisionRequested, Queued, r.reason)
            && t'.events[|t.events| + 1].key == NoKey && t'.events[|t.events| + 1].attempt == n + 1
  {
    hide Inv, ApplyTransition, Appended, Complete, KeySeen;
    FleetTheorems.InvFacts(t);
    Revisions.StartKeepsAttempts(t, r, now);
    var mid := ApplyTransition(t, RevisionStart(r), now).value;
    TransitionKeeps(t, RevisionStart(r), now);
    Revisions.InvStructure(mid);
    Revisions.RequeueAddsAttempt(mid, r, now);
    AppendStores(t.events, |t.attempts|, Moved(AwaitingReview, RevisionRequested, r.reason), "system", r.key);
    AppendStores(mid.events, |t.attempts| + 1, Moved(RevisionRequested, Queued, r.reason), "system", NoKey);
  }

  lemma AppendStores(events: seq<Event>, attempt: nat, kind: Kind, source: string, key: Key)
    ensures var after := Appended(events, attempt, kind, source, key);
            && |after| == |events| + 1 && events <= after
            && after[|events|].attempt == attempt && after[|events|].kind == kind
            && after[|events|].source == source && after[|events|].key == key
  {
  }

  // ---- columns and notes

  /** Base and branch: the first call's arguments, each in its own column, whatever later calls say. */
  lemma GitContextStores(t: Tables, base: string, branch: string)
    ensures var t' := TaskSpec.EnsureGitContext(t, base, branch);
            && t'.task.baseCommit == Some(if t.task.baseCommit.Some? then t.task.baseCommit.value else base)
            && t'.task.workingBranch == Some(if t.task.workingBranch.Some? then t.task.workingBranch.value else branch)
            && t'.task.version == t.task.version + 1
            && t'.task.status == t.task.status && t'.attempts == t.attempts && t'.events == t.events
  {
  }

  /** The attempt's own columns keep the first commit, base and pull request they were given. */
  lemma RecordStores(t: Tables, n: nat, sha: string, number: nat)
    requires Inv(t) && 1 <= n <= |t.attempts|
    ensures var a := t.attempts[n - 1];
            var final, base := Runners.RecordFinal(t, n, sha), Runners.RecordBase(t, n, sha);
            var pull := Runners.RecordPullRequest(t, n, number);
            && |final.attempts| == |base.attempts| == |pull.attempts| == |t.attempts|
            && final.attempts[n - 1] == a.(finalCommit := if a.finalCommit.Some? then a.finalCommit else Some(sha))
            && base.attempts[n - 1] == a.(baseCommit := if a.baseCommit.Some? then a.baseCommit else Some(sha))
            && pull.attempts[n - 1] == a.(pullRequest := if a.pullRequest.Some? then a.pullRequest else Some(number))
            && (forall i | 0 <= i < |t.attempts| && i != n - 1 ::
                  final.attempts[i] == base.attempts[i] == pull.attempts[i] == t.attempts[i])
  {
    hide Numbered, KeysOnce, MovesAtTheTop, AttemptsExist, Chronicle;
    assert t.attempts[n - 1] in t.attempts;
  }

  /** A later record never replaces an earlier one. */
  lemma FirstRecordStays(t: Tables, n: nat, sha: string, later: string, number: nat, laterNumber: nat)
    requires Inv(t) && 1 <= n <= |t.attempts|
    ensures Runners.RecordFinal(Runners.RecordFinal(t, n, sha), n, later) == Runners.RecordFinal(t, n, sha)
    ensures Runners.RecordBase(Runners.RecordBase(t, n, sha), n, later) == Runners.RecordBase(t, n, sha)
    ensures Runners.RecordPullRequest(Runners.RecordPullRequest(t, n, number), n, laterNumber)
            == Runners.RecordPullRequest(t, n, number)
  {
    hide Inv, Runners.RecordFinal, Runners.RecordBase, Runners.RecordPullRequest;
    var final, base := Runners.RecordFinal(t, n, sha), Runners.RecordBase(t, n, sha);
    var pull := Runners.RecordPullRequest(t, n, number);
    TaskRuns.CallKeepsInv(t, TaskRuns.Call(TaskRuns.RecordFinal(n, sha), 0));
    TaskRuns.CallKeepsInv(t, TaskRuns.Call(TaskRuns.RecordBase(n, sha), 0));
    TaskRuns.CallKeepsInv(t, TaskRuns.Call(TaskRuns.RecordPullRequest(n, number), 0));
    RecordStores(t, n, sha, number);
    RecordStores(final, n, later, 0);
    RecordStores(base, n, later, 0);
    RecordStores(pull, n, "", laterNumber);
    OnlyAttempts(t, n, sha, number);
    OnlyAttempts(final, n, later, 0);
    OnlyAttempts(base, n, later, 0);
    OnlyAttempts(pull, n, "", laterNumber);
    assert Runners.RecordFinal(final, n, later).attempts == final.attempts;
    assert Runners.RecordBase(base, n, later).attempts == base.attempts;
    assert Runners.RecordPullRequest(pull, n, laterNumber).attempts == pull.attempts;
  }

  lemma OnlyAttempts(t: Tables, n: nat, sha: string, number: nat)
    ensures Runners.RecordFinal(t, n, sha) == t.(attempts := Runners.RecordFinal(t, n, sha).attempts)
    ensures Runners.RecordBase(t, n, sha) == t.(attempts := Runners.RecordBase(t, n, sha).attempts)
    ensures Runners.RecordPullRequest(t, n, number) == t.(attempts := Runners.RecordPullRequest(t, n, number).attempts)
  {
  }

  /** A note is accepted exactly for an attempt of the task and a known source, and stored as given. */
  lemma NoteStores(t: Tables, attempt: nat, eventType: string, source: string)
    requires Inv(t)
    ensures var r := TaskSpec.AppendAttemptEvent(t, attempt, eventType, source);
            && (r.Ok? <==> source in {"api", "system", "runner", "agent"} && 1 <= attempt <= |t.attempts|)
            && (r.Ok? ==>
                  && r.value.task == t.task && r.value.attempts == t.attempts
                  && |r.value.events| == |t.events| + 1 && t.events <= r.value.events
                  && var e := r.value.events[|t.events|];
                     e.attempt == attempt && e.kind == Note(eventType) && e.source == source && e.key == NoKey)
  {
    hide Numbered, KeysOnce, MovesAtTheTop, AttemptsExist, Chronicle, MaxSeq;
    if 1 <= attempt <= |t.attempts| {
      assert t.attempts[attempt - 1] in t.attempts;
    }
  }

  /** A note without an attempt goes to the last one, as long as the task is not over. */
  lemma ActiveNoteStores(t: Tables, eventType: string, source: string)
    requires Inv(t)
    ensures var r := TaskSpec.AppendEvent(t, eventType, source);
            && (r.Ok? <==> source in {"api", "system", "runner", "agent"}
                           && t.task.status !in {Completed, Failed, Cancelled, TimedOut})
            && (r.Ok? ==>
                  && r.value.task == t.task && r.value.attempts == t.attempts
                  && |r.value.events| == |t.events| + 1 && t.events <= r.value.events
                  && var e := r.value.events[|t.events|];
                     e.attempt == |t.attempts| && e.kind == Note(eventType) && e.source == source && e.key == NoKey)
  {
    hide Inv, MaxSeq;
    FleetTheorems.InvFacts(t);
  }

  // ---- leases

  /** Only the lease of the n-th attempt differs, and it is this one now. */
  ghost predicate OnlyLease(t: Tables, t': Tables, n: nat, lease: Lease) {
    && 1 <= n <= |t.attempts|
    && t'.task == t.task && t'.events == t.events && |t'.attempts| == |t.attempts|
    && (forall i | 0 <= i < |t.attempts| && i != n - 1 :: t'.attempts[i] == t.attempts[i])
    && t'.attempts[n - 1] == t.attempts[n - 1].(lease := lease)
  }

  /**
   * A claim is granted exactly on the last attempt of a task that waits for a runner, when nobody holds the
   * lease or it ran out before now.
   */
  lemma ClaimAnswers(t: Tables, n: nat, runner: Runner, duration: int, now: Time)
    requires Inv(t)
    ensures var r := Runners.Claim(t, n, runner, duration, now);
            && (r.Some? <==>
                  && n == |t.attempts|
                  && (t.task.status in {Queued, Provisioning, Planning, Executing, Validating, Publishing}
                      || (t.task.status == AwaitingReview && !t.task.hasRepository))
                  && (t.attempts[n - 1].lease == Free || t.attempts[n - 1].lease.expires < now))
            && (r.Some? ==> OnlyLease(t, r.value, n, Held(runner, now + duration)))
  {
    hide Numbered, KeysOnce, MovesAtTheTop, AttemptsExist, Chronicle, RowMarks;
    ClaimableTable(t.task);
    NumberFound(t, n);
  }

  /** An extension is granted exactly to the owner before its lease runs out. */
  lemma ExtendAnswers(t: Tables, n: nat, runner: Runner, duration: int, now: Time)
    requires Inv(t)
    ensures var r := Runners.Extend(t, n, runner, duration, now);
            && (r.Ok? <==>
                  && 1 <= n <= |t.attempts| && t.attempts[n - 1].lease.Held?
                  && t.attempts[n - 1].lease.owner == runner && now < t.attempts[n - 1].lease.expires)
            && (r.Ok? ==> OnlyLease(t, r.value, n, Held(runner, now + duration)))
            && (r.Err? ==> r == Err(LeaseLost))
  {
    hide Numbered, KeysOnce, MovesAtTheTop, AttemptsExist, Chronicle, RowMarks;
    NumberFound(t, n);
  }

  /** A release is granted exactly to the owner, run out or not. */
  lemma ReleaseAnswers(t: Tables, n: nat, runner: Runner)
    requires Inv(t)
    ensures var r := Runners.Release(t, n, runner);
            && (r.Ok? <==>
                  && 1 <= n <= |t.attempts| && t.attempts[n - 1].lease.Held?
                  && t.attempts[n - 1].lease.owner == runner)
            && (r.Ok? ==> OnlyLease(t, r.value, n, Free))
            && (r.Err? ==> r == Err(LeaseLost))
  {
    hide Numbered, KeysOnce, MovesAtTheTop, AttemptsExist, Chronicle, RowMarks;
    NumberFound(t, n);
  }

  lemma NumberFound(t: Tables, n: nat)
    requires Inv(t)
    ensures Runners.Find(t.attempts, n) == if 1 <= n <= |t.attempts| then Some(n - 1) else None
  {
    hide Numbered, KeysOnce, MovesAtTheTop, AttemptsExist, Chronicle, RowMarks;
    if 1 <= n <= |t.attempts| {
      assert t.attempts[n - 1] in t.attempts;
    }
  }
}
