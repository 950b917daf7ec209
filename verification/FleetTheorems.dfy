/** What no interleaving of executors and other callers can break. */
module FleetTheorems {
  import opened Lifecycle
  import opened Records
  import opened TaskSpec
  import opened TaskHistory
  import opened Fleet
  import TaskRuns
  import Runners = RunnerSpec

  /**
   * A stage key is recorded by the move it names, and every driven move records its stage key; the keys of a
   * failure or a timeout are recorded by moves that end the task.
   */
  ghost predicate Honest(e: Event) {
    && (Settling(e.key) ==> e.kind.Moved? && e.kind.to.Terminal())
    && (e.key.StageKey? ==>
          e.kind.Moved? && e.kind.to == e.key.to && (e.key.to.Driven() ==> e.attempt == e.key.attempt))
    && (e.kind.Moved? && e.kind.to.Driven() ==> e.key == StageKey(e.attempt, e.kind.to))
  }

  ghost predicate AllHonest(events: seq<Event>) {
    forall e <- events :: Honest(e)
  }

  /** What an executor believes its attempt reached, the log confirms. */
  ghost predicate Truthful(events: seq<Event>, n: nat, x: Exec) {
    && 1 <= x.attempt <= n
    && x.local != Created
    && (if x.local.Terminal() then x.local == Completed && KeySeen(events, StageKey(x.attempt, Completed))
        else HasMove(events, x.attempt, x.local))
  }

  ghost predicate Sound(w: World) {
    && Inv(w.db)
    && AllHonest(w.db.events)
    && (forall x <- w.execs :: Truthful(w.db.events, |w.db.attempts|, x))
  }

  /** The key for a stage of an attempt is recorded exactly when that attempt has reached that stage. */
  lemma KeyIffReached(events: seq<Event>, attempt: nat, to: Status)
    requires AllHonest(events) && to.Driven()
    ensures KeySeen(events, StageKey(attempt, to)) <==> HasMove(events, attempt, to)
  {
    if KeySeen(events, StageKey(attempt, to)) {
      var e :| e in events && e.key == StageKey(attempt, to);
      assert Honest(e);
    }
    if HasMove(events, attempt, to) {
      var e :| e in events && e.kind.Moved? && e.attempt == attempt && e.kind.to == to;
      assert Honest(e);
    }
  }

  /** A transition that is not a replay can only come from an executor of the current attempt whose belief is exact. */
  lemma FreshStageIsCurrent(db: Tables, x: Exec, to: Status)
    requires Inv(db) && AllHonest(db.events) && Truthful(db.events, |db.attempts|, x)
    requires NextStage(x.local, x.publishes) == Some(to) && to.Driven()
    requires !KeySeen(db.events, StageKey(x.attempt, to)) && !db.task.status.Terminal()
    ensures x.attempt == |db.attempts| && db.task.status == x.local
  {
    hide Inv, AllHonest, HasMove, KeySeen, Laps;
    KeyIffReached(db.events, x.attempt, to);
    ReachedIff(db, x.attempt, x.local);
    ReachedIff(db, x.attempt, to);
    EdgesUpToLaps(db);
    InvFacts(db);
    assert Rank(to) == Rank(x.local) + 1;
    assert Laps(db) == 8 * (x.attempt - 1) + Rank(x.local);
    RankInjective(db.task.status, x.local);
  }

  lemma InvFacts(db: Tables)
    requires Inv(db)
    ensures |db.attempts| >= 1 && db.task.status != Created
    ensures ActiveIndex(db.attempts) == if db.task.status.Terminal() then None else Some(|db.attempts| - 1)
    ensures db.attempts[|db.attempts| - 1].number == |db.attempts|
  {
    hide Numbered, KeysOnce, MovesAtTheTop, AttemptsExist, Chronicle;
    ActiveIsLast(db.attempts, db.task.status);
  }

  /** While a task is unfinished nobody has failed it or timed it out. */
  lemma UnsettledWhileUnfinished(db: Tables, key: Key)
    requires Inv(db) && AllHonest(db.events) && Settling(key) && !db.task.status.Terminal()
    ensures !KeySeen(db.events, key)
  {
    hide Inv, Edges, IdealEdge;
    if KeySeen(db.events, key) {
      var e :| e in db.events && e.key == key;
      assert Honest(e) && HasMove(db.events, e.attempt, e.kind.to);
      MovesAreEdges(db.events, e.attempt, e.kind.to);
      EdgesUpToLaps(db);
      var d :| d in Edges(db.events) && d.attempt == e.attempt && d.to == e.kind.to;
      var k :| 0 <= k < |Edges(db.events)| && Edges(db.events)[k] == d;
      IdealNeverEnds(k);
    }
  }

  lemma IdealNeverEnds(k: nat)
    ensures !IdealEdge(k).to.Terminal()
  {
  }

  // ---- one step at a time

  lemma AppendHonest(events: seq<Event>, attempt: nat, kind: Kind, source: string, key: Key)
    requires AllHonest(events) && Honest(Event(attempt, 0, kind, source, key))
    ensures AllHonest(Appended(events, attempt, kind, source, key))
    ensures events <= Appended(events, attempt, kind, source, key)
  {
  }

  /** A stage key names the move it asks for, and for a driven status the current attempt. */
  predicate HonestParams(p: TransitionParams, n: nat) {
    && (p.key.StageKey? ==> p.to == p.key.to && (p.to.Driven() ==> p.key.attempt == n))
    && (p.to.Driven() ==> p.key == StageKey(n, p.to))
    && (Settling(p.key) ==> p.to.Terminal())
  }

  lemma TransitionHonest(db: Tables, p: TransitionParams, now: Time)
    requires Inv(db) && AllHonest(db.events)
    requires Replay(db, p.key) || db.task.status.Terminal() || HonestParams(p, |db.attempts|)
    ensures match ApplyTransition(db, p, now)
            case Err(_) => true
            case Ok(db') => Inv(db') && AllHonest(db'.events) && db.events <= db'.events &&
                            |db.attempts| <= |db'.attempts| &&
                            (p.key == NoKey || KeySeen(db'.events, p.key)) &&
                            (Replay(db, p.key) ==> db' == db) &&
                            (!Replay(db, p.key) ==> db'.task.status == p.to && CanTransition(db.task.status, p.to))
  {
    hide AllHonest, Inv, Appended;
    TransitionKeeps(db, p, now);
    InvFacts(db);
    if !Replay(db, p.key) && CanTransition(db.task.status, p.to) {
      var n := |db.attempts|;
      var a := EventAttempt(db, p, n - 1);
      AppendHonest(db.events, a, Moved(db.task.status, p.to, p.reason), SourceOf(p), p.key);
      AppendSeen(db.events, a, Moved(db.task.status, p.to, p.reason), SourceOf(p), p.key);
    }
  }

  lemma AppendSeen(events: seq<Event>, attempt: nat, kind: Kind, source: string, key: Key)
    ensures KeySeen(Appended(events, attempt, kind, source, key), key)
  {
    var after := Appended(events, attempt, kind, source, key);
    assert after[|events|].key == key;
  }

  /** The log only grows, and what was reached or recorded stays so. */
  ghost predicate Grown(db: Tables, db': Tables) {
    Inv(db') && AllHonest(db'.events) && db.events <= db'.events && |db.attempts| <= |db'.attempts|
  }

  lemma TruthGrows(db: Tables, db': Tables, x: Exec)
    requires db.events <= db'.events && |db.attempts| <= |db'.attempts|
    requires Truthful(db.events, |db.attempts|, x)
    ensures Truthful(db'.events, |db'.attempts|, x)
  {
    if x.local.Terminal() {
      var e :| e in db.events && e.key == StageKey(x.attempt, Completed);
      assert e in db'.events;
    } else {
      var e :| e in db.events && e.kind.Moved? && e.attempt == x.attempt && e.kind.to == x.local;
      assert e in db'.events;
    }
  }

  lemma RevisionHonest(db: Tables, r: RevisionParams, now: Time)
    requires Inv(db) && AllHonest(db.events) && !r.key.StageKey? && !Settling(r.key)
    ensures match TaskSpec.RequestRevision(db, r, now)
            case Err(_) => true
            case Ok(db') => Grown(db, db')
  {
    hide Inv, AllHonest, ApplyTransition, KeySeen;
    TransitionHonest(db, RevisionStart(r), now);
    match ApplyTransition(db, RevisionStart(r), now)
    case Err(_) =>
    case Ok(requested) => TransitionHonest(requested, RevisionRequeue(r), now);
  }

  lemma OtherCallGrows(db: Tables, c: TaskRuns.Call)
    requires Inv(db) && AllHonest(db.events) && Outside(c)
    ensures Grown(db, TaskRuns.After(db, c))
  {
    hide Inv, AllHonest, ApplyTransition, TaskSpec.RequestRevision, Appended;
    TaskRuns.CallKeepsInv(db, c);
    InvFacts(db);
    match c.op
    case Transition(p) => TransitionHonest(db, p, c.now);
    case RequestRevision(r) => RevisionHonest(db, r, c.now);
    case Cancel(reason) => TransitionHonest(db, To(Cancelled, "api", reason, NoKey), c.now);
    case AppendAttemptEvent(a, eventType, source) =>
      AppendHonest(db.events, a, Note(eventType), source, NoKey);
    case AppendEvent(eventType, source) =>
      AppendHonest(db.events, |db.attempts|, Note(eventType), source, NoKey);
    case _ =>
  }

  lemma SoundWith(w: World, w': World)
    requires Sound(w) && Grown(w.db, w'.db)
    requires forall x <- w'.execs :: x in w.execs || Truthful(w'.db.events, |w'.db.attempts|, x)
    ensures Sound(w')
  {
    hide Inv, AllHonest, Truthful;
    forall x | x in w'.execs
      ensures Truthful(w'.db.events, |w'.db.attempts|, x)
    {
      if x in w.execs {
        TruthGrows(w.db, w'.db, x);
      }
    }
  }

  lemma AdvanceSound(w: World, e: nat, now: Time)
    requires Sound(w) && e < |w.execs|
    ensures Sound(Advanced(w, e, now))
  {
    hide Inv, AllHonest, Truthful, HasMove, KeySeen, ApplyTransition;
    var x := w.execs[e];
    assert x in w.execs;
    var w' := Advanced(w, e, now);
    match NextStage(x.local, x.publishes)
    case None =>
      SameBelief(w.db, x, 0);
      SoundWith(w, w');
    case Some(to) =>
      SameBelief(w.db, x, 0);
      AdvanceTruthful(w.db, x, to, now);
      SoundWith(w, w');
  }

  /** Stopping and fencing leave what an executor believes. */
  lemma SameBelief(db: Tables, x: Exec, now: Time)
    requires Truthful(db.events, |db.attempts|, x)
    ensures Truthful(db.events, |db.attempts|, x.(live := false))
    ensures Truthful(db.events, |db.attempts|, x.(fenced := Some(now)))
  {
  }

  lemma FenceSound(w: World, e: nat, now: Time)
    requires Sound(w) && e < |w.execs|
    ensures Sound(Fencing(w, e, now))
  {
    hide Inv, AllHonest, Truthful, TaskRuns.After;
    var x := w.execs[e];
    assert x in w.execs;
    SameBelief(w.db, x, now);
    var call := TaskRuns.Call(TaskRuns.Extend(x.attempt, x.runner, x.duration), now);
    OtherCallGrows(w.db, call);
    ExtendIsCall(w.db, call);
    var w' := Fencing(w, e, now);
    TruthGrows(w.db, w'.db, x.(fenced := Some(now)));
    SoundWith(w, w');
  }

  lemma ExtendIsCall(db: Tables, c: TaskRuns.Call)
    requires c.op.Extend?
    ensures TaskRuns.After(db, c) == match Runners.Extend(db, c.op.attempt, c.op.runner, c.op.duration, c.now)
                                     case Ok(db') => db'
                                     case Err(_) => db
  {
  }

  lemma AdvanceTruthful(db: Tables, x: Exec, to: Status, now: Time)
    requires Inv(db) && AllHonest(db.events) && Truthful(db.events, |db.attempts|, x)
    requires NextStage(x.local, x.publishes) == Some(to)
    ensures match ApplyTransition(db, StageParams(x.attempt, to), now)
            case Err(_) => true
            case Ok(db') => Grown(db, db') && Truthful(db'.events, |db'.attempts|, x.(local := to, fenced := None))
  {
    hide Inv, AllHonest, HasMove, KeySeen, ApplyTransition, StageReason;
    var p := StageParams(x.attempt, to);
    if to.Driven() && !Replay(db, p.key) && !db.task.status.Terminal() {
      FreshStageIsCurrent(db, x, to);
    }
    TransitionHonest(db, p, now);
    match ApplyTransition(db, p, now)
    case Err(_) =>
    case Ok(db') =>
      if to.Driven() {
        KeyIffReached(db'.events, x.attempt, to);
      }
  }

  lemma SettleSound(w: World, e: nat, p: TransitionParams, now: Time)
    requires Sound(w) && e < |w.execs| && p.to.Terminal() && !p.key.StageKey?
    ensures Sound(Settled(w, e, p, now))
  {
    hide Inv, AllHonest, Truthful, ApplyTransition;
    var x := w.execs[e];
    assert x in w.execs;
    TransitionHonest(w.db, p, now);
    SameBelief(w.db, x, 0);
    var w' := Settled(w, e, p, now);
    if ApplyTransition(w.db, p, now).Ok? {
      TruthGrows(w.db, w'.db, x.(live := false));
    }
    SoundWith(w, w');
  }

  /** A claim hands its runner the status the current attempt is really in. */
  lemma LaunchSound(w: World, attempt: nat, runner: Runner, duration: int, publishes: bool, now: Time)
    requires Sound(w)
    ensures Sound(Launched(w, attempt, runner, duration, publishes, now))
  {
    hide AllHonest, HasMove, KeySeen, Numbered, KeysOnce, MovesAtTheTop, AttemptsExist, Chronicle, Laps;
    var w' := Launched(w, attempt, runner, duration, publishes, now);
    OtherCallGrows(w.db, TaskRuns.Call(TaskRuns.Claim(attempt, runner, duration), now));
    if w' != w {
      EdgesUpToLaps(w.db);
      ReachedIff(w.db, attempt, w.db.task.status);
      SoundWith(w, w');
    }
  }

  lemma StepSound(w: World, a: Action)
    requires Sound(w)
    ensures Sound(Step(w, a))
  {
    hide Sound, Fencing, Advanced, Settled, Launched;
    match a
    case Launch(attempt, runner, duration, publishes, now) =>
      LaunchSound(w, attempt, runner, duration, publishes, now);
    case Fence(e, now) => if Alive(w, e) { FenceSound(w, e, now); }
    case Advance(e, now) => if Alive(w, e) { AdvanceSound(w, e, now); }
    case Fail(e, code, message, now) =>
      if Alive(w, e) { SettleSound(w, e, FailParams(w.execs[e].attempt, code, message), now); }
    case TimeOut(e, now) =>
      if Alive(w, e) { SettleSound(w, e, TimeoutParams(w.execs[e].attempt), now); }
    case Crash(e) => if Alive(w, e) { CrashSound(w, e); }
    case Other(call) => if Outside(call) { OtherSound(w, call); }
  }

  lemma CrashSound(w: World, e: nat)
    requires Sound(w) && e < |w.execs|
    ensures Sound(w.(execs := w.execs[e := w.execs[e].(live := false)]))
  {
    hide Inv, AllHonest, Truthful;
    assert w.execs[e] in w.execs;
    SameBelief(w.db, w.execs[e], 0);
    SoundWith(w, w.(execs := w.execs[e := w.execs[e].(live := false)]));
  }

  lemma OtherSound(w: World, call: TaskRuns.Call)
    requires Sound(w) && Outside(call)
    ensures Sound(w.(db := TaskRuns.After(w.db, call)))
  {
    hide Inv, AllHonest, Truthful, TaskRuns.After;
    OtherCallGrows(w.db, call);
    SoundWith(w, w.(db := TaskRuns.After(w.db, call)));
  }

  /** A fresh task that nobody drives yet. */
  function Fresh(hasRepository: bool, born: Time): World {
    World(TaskRuns.Start(hasRepository, born), [])
  }

  lemma {:induction false} RunSound(hasRepository: bool, born: Time, actions: seq<Action>)
    ensures Sound(Run(Fresh(hasRepository, born), actions))
  {
    hide Sound, Step;
    if actions == [] {
      FreshSound(hasRepository, born);
    } else {
      var n := |actions| - 1;
      RunSound(hasRepository, born, actions[..n]);
      StepSound(Run(Fresh(hasRepository, born), actions[..n]), actions[n]);
    }
  }

  lemma FreshSound(hasRepository: bool, born: Time)
    ensures Sound(Fresh(hasRepository, born))
  {
    TaskRuns.CreateSucceeds(hasRepository, born);
  }

  // ---- the theorems

  /**
   * In every interleaving the key for a driven stage of an attempt is recorded exactly when the attempt
   * has reached that stage.
   */
  lemma StageKeyIffReached(hasRepository: bool, born: Time, actions: seq<Action>, attempt: nat, to: Status)
    requires to.Driven()
    ensures var events := Run(Fresh(hasRepository, born), actions).db.events;
            KeySeen(events, StageKey(attempt, to)) <==> HasMove(events, attempt, to)
  {
    hide Run, Fresh, HasMove, KeySeen, AllHonest;
    RunSound(hasRepository, born, actions);
    KeyIffReached(Run(Fresh(hasRepository, born), actions).db.events, attempt, to);
  }

  /**
   * The status an executor carries on with, whatever answer the store gave it, is never ahead of what is
   * durable: its attempt reached it, and while that attempt is current the task is at least as far.
   */
  lemma BeliefNeverAhead(hasRepository: bool, born: Time, actions: seq<Action>, e: nat)
    requires e < |Run(Fresh(hasRepository, born), actions).execs|
    ensures var w := Run(Fresh(hasRepository, born), actions);
            var x := w.execs[e];
            && 1 <= x.attempt <= |w.db.attempts|
            && (!x.local.Terminal() ==> HasMove(w.db.events, x.attempt, x.local))
            && (x.local.Terminal() ==> KeySeen(w.db.events, StageKey(x.attempt, Completed)))
            && (x.attempt == |w.db.attempts| && !x.local.Terminal() && !w.db.task.status.Terminal()
                ==> Rank(x.local) <= Rank(w.db.task.status))
  {
    hide Run, Fresh, HasMove, KeySeen, AllHonest, Inv, Laps;
    RunSound(hasRepository, born, actions);
    var w := Run(Fresh(hasRepository, born), actions);
    var x := w.execs[e];
    assert x in w.execs;
    if !x.local.Terminal() {
      ReachedIff(w.db, x.attempt, x.local);
      EdgesUpToLaps(w.db);
    }
  }
}
