/** Runs of every operation of both stores, in any order and by anyone, and what holds after each. */
module TaskRuns {
  import opened Lifecycle
  import opened Records
  import opened TaskSpec
  import opened TaskHistory
  import Runners = RunnerSpec

  datatype Op =
    | Transition(p: TransitionParams)
    | RequestRevision(r: RevisionParams)
    | Cancel(reason: string)
    | EnsureGitContext(baseCommit: string, branch: string)
    | AppendAttemptEvent(attempt: nat, eventType: string, source: string)
    | AppendEvent(eventType: string, source: string)
    | Claim(attempt: nat, runner: Runner, duration: int)
    | Extend(attempt: nat, runner: Runner, duration: int)
    | Release(attempt: nat, runner: Runner)
    | RecordBase(attempt: nat, sha: string)
    | RecordFinal(attempt: nat, sha: string)
    | RecordPullRequest(attempt: nat, number: nat)

  datatype Call = Call(op: Op, now: Time)

  function Perform(t: Tables, c: Call): Result<Tables> {
    match c.op
    case Transition(p) => TaskSpec.ApplyTransition(t, p, c.now)
    case RequestRevision(r) => TaskSpec.RequestRevision(t, r, c.now)
    case Cancel(reason) => TaskSpec.Cancel(t, reason, c.now)
    case EnsureGitContext(base, branch) => Ok(TaskSpec.EnsureGitContext(t, base, branch))
    case AppendAttemptEvent(a, eventType, source) => TaskSpec.AppendAttemptEvent(t, a, eventType, source)
    case AppendEvent(eventType, source) => TaskSpec.AppendEvent(t, eventType, source)
    case Claim(a, r, d) => (match Runners.Claim(t, a, r, d, c.now) case None => Err(LeaseLost) case Some(t') => Ok(t'))
    case Extend(a, r, d) => Runners.Extend(t, a, r, d, c.now)
    case Release(a, r) => Runners.Release(t, a, r)
    case RecordBase(a, sha) => Ok(Runners.RecordBase(t, a, sha))
    case RecordFinal(a, sha) => Ok(Runners.RecordFinal(t, a, sha))
    case RecordPullRequest(a, number) => Ok(Runners.RecordPullRequest(t, a, number))
  }

  /** A refused call leaves the tables alone. */
  function After(t: Tables, c: Call): Tables {
    match Perform(t, c)
    case Ok(t') => t'
    case Err(_) => t
  }

  function Run(t: Tables, calls: seq<Call>): Tables {
    if calls == [] then t else After(Run(t, calls[..|calls| - 1]), calls[|calls| - 1])
  }

  lemma CreateSucceeds(hasRepository: bool, now: Time)
    ensures Create(hasRepository, now).Ok?
    ensures Inv(Create(hasRepository, now).value)
    ensures Create(hasRepository, now).value.task.version == 2
    ensures Edges(Create(hasRepository, now).value.events) == [Edge(1, Created, Queued)]
  {
    var t := Inserted(hasRepository);
    var p := To(Queued, "system", "", NoKey);
    assert t.attempts[0].status.Active?;
    AppendKeeps(t.events, 1, Moved(Created, Queued, ""), "system", NoKey);
    assert t.events[..0] == [];
    assert Create(hasRepository, now) == Ok(Move(t, p, 0, now));
    assert History(1) == [Edge(1, Created, Queued)];
  }

  /** The tables right after creation: queued, at version 2. */
  function Start(hasRepository: bool, now: Time): Tables {
    CreateSucceeds(hasRepository, now);
    Create(hasRepository, now).value
  }

  lemma NoteKeeps(t: Tables, attempt: nat, eventType: string, source: string)
    requires Inv(t) && 1 <= attempt <= |t.attempts|
    ensures Inv(t.(events := Appended(t.events, attempt, Note(eventType), source, NoKey)))
    ensures Edges(Appended(t.events, attempt, Note(eventType), source, NoKey)) == Edges(t.events)
  {
    AppendKeeps(t.events, attempt, Note(eventType), source, NoKey);
  }

  lemma AppendAttemptEventKeeps(t: Tables, attempt: nat, eventType: string, source: string)
    requires Inv(t)
    ensures match TaskSpec.AppendAttemptEvent(t, attempt, eventType, source)
            case Ok(t') => Inv(t') && Edges(t'.events) == Edges(t.events)
            case Err(_) => true
  {
    if HasAttempt(t, attempt) {
      NoteKeeps(t, attempt, eventType, source);
    }
  }

  lemma AppendEventKeeps(t: Tables, eventType: string, source: string)
    requires Inv(t)
    ensures match TaskSpec.AppendEvent(t, eventType, source)
            case Ok(t') => Inv(t') && Edges(t'.events) == Edges(t.events)
            case Err(_) => true
  {
    hide Numbered, KeysOnce, MovesAtTheTop, AttemptsExist, Chronicle, Appended, Edges;
    ActiveIsLast(t.attempts, t.task.status);
    NoteKeeps(t, |t.attempts|, eventType, source);
  }

  /** Rewriting columns the history does not speak of. */
  ghost predicate SameShape(t: Tables, t': Tables) {
    && t'.events == t.events
    && |t'.attempts| == |t.attempts|
    && (forall i | 0 <= i < |t.attempts| ::
          t'.attempts[i].number == t.attempts[i].number && t'.attempts[i].status == t.attempts[i].status)
    && RowMarks(t'.task) && t'.task.status == t.task.status
  }

  lemma ShapeKeeps(t: Tables, t': Tables)
    requires Inv(t) && SameShape(t, t')
    ensures Inv(t')
  {
  }

  lemma RevisionKeeps(t: Tables, r: RevisionParams, now: Time)
    requires Inv(t)
    ensures match TaskSpec.RequestRevision(t, r, now)
            case Ok(t') => Inv(t')
            case Err(_) => true
  {
    hide Inv, ApplyTransition;
    TransitionKeeps(t, RevisionStart(r), now);
    match ApplyTransition(t, RevisionStart(r), now)
    case Err(_) =>
    case Ok(requested) => TransitionKeeps(requested, RevisionRequeue(r), now);
  }

  lemma CallKeepsInv(t: Tables, c: Call)
    requires Inv(t)
    ensures Inv(After(t, c))
  {
    hide AttemptStructure, Numbered, KeysOnce, MovesAtTheTop, AttemptsExist, Chronicle, ApplyTransition,
         TaskSpec.RequestRevision, TaskSpec.AppendAttemptEvent, TaskSpec.AppendEvent;
    match c.op
    case Transition(p) => TransitionKeeps(t, p, c.now);
    case RequestRevision(r) => RevisionKeeps(t, r, c.now);
    case Cancel(reason) => TransitionKeeps(t, To(Cancelled, "api", reason, NoKey), c.now);
    case AppendAttemptEvent(a, eventType, source) => AppendAttemptEventKeeps(t, a, eventType, source);
    case AppendEvent(eventType, source) => AppendEventKeeps(t, eventType, source);
    case _ => ShapeKeeps(t, After(t, c));
  }

  lemma {:induction false} RunKeepsInv(hasRepository: bool, born: Time, calls: seq<Call>)
    ensures Inv(Run(Start(hasRepository, born), calls))
  {
    if calls == [] {
      CreateSucceeds(hasRepository, born);
    } else {
      RunKeepsInv(hasRepository, born, calls[..|calls| - 1]);
      CallKeepsInv(Run(Start(hasRepository, born), calls[..|calls| - 1]), calls[|calls| - 1]);
    }
  }
}
