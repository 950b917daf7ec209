/** What an executor of a superseded attempt can still do, and what a lone executor always achieves. */
module StaleExecutors {
  import opened Lifecycle
  import opened Records
  import opened TaskSpec
  import opened TaskHistory
  import opened Fleet
  import opened FleetTheorems
  import Revisions
  import TaskRuns
  import Runners = RunnerSpec

  /** A recorded move to a terminal status means the task is over. */
  lemma TerminalMoveEnds(db: Tables, e: Event)
    requires Inv(db) && e in db.events && e.kind.Moved? && e.kind.to.Terminal()
    ensures db.task.status.Terminal()
  {
    hide Inv, Laps, IdealEdge, Edges;
    MovesAreEdges(db.events, e.attempt, e.kind.to);
    assert HasMove(db.events, e.attempt, e.kind.to);
    EdgesUpToLaps(db);
    var d :| d in Edges(db.events) && d.attempt == e.attempt && d.to == e.kind.to;
    if !db.task.status.Terminal() {
      LapsWithoutEnd(db);
      var k: nat :| k < |Edges(db.events)| && Edges(db.events)[k] == d;
      IdealEdgesDriveOn(k);
    }
  }

  lemma LapsWithoutEnd(db: Tables)
    requires !db.task.status.Terminal()
    ensures Laps(db) == |Edges(db.events)|
  {
  }

  lemma IdealEdgesDriveOn(k: nat)
    ensures !IdealEdge(k).to.Terminal()
  {
  }

  lemma CompletionKeyEnds(db: Tables, attempt: nat)
    requires Inv(db) && AllHonest(db.events) && KeySeen(db.events, StageKey(attempt, Completed))
    ensures db.task.status.Terminal()
  {
    hide Inv;
    var e :| e in db.events && e.key == StageKey(attempt, Completed);
    assert Honest(e);
    TerminalMoveEnds(db, e);
  }

  /** An attempt that was superseded had been through every driven stage. */
  lemma SupersededPassedAll(db: Tables, attempt: nat, to: Status)
    requires Inv(db) && 1 <= attempt < |db.attempts| && to.Driven()
    ensures HasMove(db.events, attempt, to)
  {
    hide Inv, Laps, HasMove;
    EdgesUpToLaps(db);
    ReachedIff(db, attempt, to);
  }

  /** A new key and a legal move are all a transition needs. */
  lemma FreshMove(db: Tables, p: TransitionParams, now: Time)
    requires Inv(db) && !Replay(db, p.key) && CanTransition(db.task.status, p.to)
    requires ValidSource(SourceOf(p)) && p.expectedVersion == 0
    ensures ApplyTransition(db, p, now) == Ok(Move(db, p, |db.attempts| - 1, now))
  {
    hide Inv, KeySeen, Move, CanTransition;
    InvFacts(db);
    EndedIsFinal(db.task.status, p.to);
  }

  lemma EndedIsFinal(from: Status, to: Status)
    requires CanTransition(from, to)
    ensures !from.Terminal()
  {
  }

  // ---- the lease behind the fence

  /** The executor's runner holds an unexpired lease on the executor's own attempt, current or not. */
  predicate HoldsLease(db: Tables, x: Exec, now: Time) {
    && 1 <= x.attempt <= |db.attempts|
    && var l := db.attempts[x.attempt - 1].lease;
       l.Held? && l.owner == x.runner && l.expires > now
  }

  /** Nothing but the lease of attempt n differs. */
  ghost predicate OnlyLease(db: Tables, db': Tables, n: nat)
    requires 1 <= n <= |db.attempts|
  {
    |db'.attempts| == |db.attempts| && db' == Runners.WithLease(db, n - 1, db'.attempts[n - 1].lease)
  }

  lemma FindNumber(attempts: seq<Attempt>, status: Status, n: nat)
    requires AttemptStructure(attempts, status) && 1 <= n <= |attempts|
    ensures Runners.Find(attempts, n) == Some(n - 1)
  {
    assert attempts[n - 1] in attempts;
  }

  /** The statement never looks at the attempt's status: a superseded attempt's lease is extended like any other. */
  lemma ExtendIffHeld(db: Tables, x: Exec, now: Time)
    requires Inv(db) && 1 <= x.attempt <= |db.attempts|
    ensures Runners.Extend(db, x.attempt, x.runner, x.duration, now) ==
            if HoldsLease(db, x, now)
            then Ok(Runners.WithLease(db, x.attempt - 1, Held(x.runner, now + x.duration)))
            else Err(LeaseLost)
  {
    hide Numbered, KeysOnce, MovesAtTheTop, AttemptsExist, Chronicle;
    FindNumber(db.attempts, db.task.status, x.attempt);
  }

  /** A revision leaves every lease as it was, so who held one on the attempt it supersedes still passes the fence. */
  lemma SupersededStillFences(db: Tables, x: Exec, r: RevisionParams, now: Time, at: Time)
    requires Inv(db) && TaskSpec.RequestRevision(db, r, now).Ok? && 1 <= x.attempt <= |db.attempts|
    ensures var db' := TaskSpec.RequestRevision(db, r, now).value;
            && Inv(db') && x.attempt < |db'.attempts|
            && (HoldsLease(db', x, at) <==> HoldsLease(db, x, at))
            && (Runners.Extend(db', x.attempt, x.runner, x.duration, at).Ok? <==> HoldsLease(db, x, at))
  {
    hide Inv, TaskSpec.RequestRevision, Runners.Extend;
    InvFacts(db);
    Revisions.RevisionOutcome(db, r, now);
    TaskRuns.RevisionKeeps(db, r, now);
    ExtendIffHeld(TaskSpec.RequestRevision(db, r, now).value, x, at);
  }

  /** The fence passes exactly for the holder, and changes nothing but that lease. */
  lemma FenceOutcome(w: World, e: nat, now: Time)
    requires Sound(w) && Alive(w, e)
    ensures var x, w' := w.execs[e], Step(w, Fence(e, now));
            && Sound(w') && 1 <= x.attempt <= |w.db.attempts|
            && w' == if HoldsLease(w.db, x, now)
                     then World(Runners.WithLease(w.db, x.attempt - 1, Held(x.runner, now + x.duration)),
                                w.execs[e := x.(fenced := Some(now))])
                     else w.(execs := w.execs[e := x.(live := false)])
  {
    hide Inv, AllHonest, Runners.Extend;
    var x := w.execs[e];
    assert x in w.execs && Truthful(w.db.events, |w.db.attempts|, x);
    ExtendIffHeld(w.db, x, now);
    FenceSound(w, e, now);
  }

  // ---- what a superseded executor can still do

  lemma SupersededReplays(db: Tables, attempt: nat, to: Status, now: Time)
    requires Inv(db) && AllHonest(db.events) && 1 <= attempt < |db.attempts| && to.Driven()
    ensures ApplyTransition(db, StageParams(attempt, to), now) == Ok(db)
  {
    hide Inv, AllHonest, HasMove, KeySeen, Move, CanTransition, StageReason;
    SupersededPassedAll(db, attempt, to);
    KeyIffReached(db.events, attempt, to);
  }

  lemma MoveChanges(db: Tables, p: TransitionParams, i: nat, now: Time)
    requires i < |db.attempts|
    ensures Move(db, p, i, now) != db && Move(db, p, i, now).task.status == p.to
    ensures Move(db, p, i, now).task != db.task
  {
    assert Move(db, p, i, now).task.version == db.task.version + 1;
  }

  /** A transition with a legal source: a replay, a move, or an error. */
  lemma TransitionOutcome(db: Tables, p: TransitionParams, now: Time)
    requires Inv(db) && ValidSource(SourceOf(p)) && p.expectedVersion == 0
    ensures match ApplyTransition(db, p, now)
            case Err(_) => !(!Replay(db, p.key) && CanTransition(db.task.status, p.to))
            case Ok(db') => if Replay(db, p.key) then db' == db
                            else CanTransition(db.task.status, p.to) && db'.task != db.task && db'.task.status == p.to
  {
    hide Inv, KeySeen, Move, CanTransition;
    InvFacts(db);
    if CanTransition(db.task.status, p.to) && !Replay(db, p.key) {
      FreshMove(db, p, now);
      MoveChanges(db, p, |db.attempts| - 1, now);
    }
  }

  lemma CompletesFrom(s: Status)
    ensures CanTransition(s, Completed) <==> s in {AwaitingReview, RevisionRequested}
  {
  }

  lemma LateCompletion(db: Tables, attempt: nat, now: Time)
    requires Inv(db) && AllHonest(db.events)
    ensures db.task.status in {AwaitingReview, RevisionRequested} ==>
              ApplyTransition(db, StageParams(attempt, Completed), now).Ok? &&
              ApplyTransition(db, StageParams(attempt, Completed), now).value.task.status == Completed
    ensures db.task.status !in {AwaitingReview, RevisionRequested} ==>
              ApplyTransition(db, StageParams(attempt, Completed), now) == Ok(db) ||
              ApplyTransition(db, StageParams(attempt, Completed), now).Err?
  {
    hide Inv, AllHonest, KeySeen, ApplyTransition, CanTransition, StageReason;
    CompletesFrom(db.task.status);
    TransitionOutcome(db, StageParams(attempt, Completed), now);
    if KeySeen(db.events, StageKey(attempt, Completed)) {
      CompletionKeyEnds(db, attempt);
    }
  }

  /**
   * Whatever happens between its fence and its write, an executor of a superseded attempt cannot move the
   * task through any driven stage: each such write is a replay that leaves task, attempts and log alone.
   */
  lemma SupersededStage(w: World, e: nat, now: Time)
    requires Sound(w) && e < |w.execs| && w.execs[e].attempt < |w.db.attempts|
    requires match NextStage(w.execs[e].local, w.execs[e].publishes) case None => true case Some(to) => to.Driven()
    ensures Advanced(w, e, now).db == w.db
  {
    hide Inv, AllHonest, HasMove, ApplyTransition, KeySeen, StageReason;
    var x := w.execs[e];
    assert x in w.execs && Truthful(w.db.events, |w.db.attempts|, x);
    match NextStage(x.local, x.publishes)
    case None =>
    case Some(to) => SupersededReplays(w.db, x.attempt, to, now);
  }

  /**
   * The one transition of drive that still gets through is the completion of a task without a publishing
   * target. Fence and write together change the task exactly while the executor still holds the lease on
   * its own, superseded attempt and the newer one is in review; otherwise nothing changes but that lease.
   */
  lemma SupersededAdvance(w: World, e: nat, at: Time, now: Time)
    requires Sound(w) && Alive(w, e) && w.execs[e].attempt < |w.db.attempts|
    requires NextStage(w.execs[e].local, w.execs[e].publishes).Some?
    ensures var x := w.execs[e];
            var to := NextStage(x.local, x.publishes).value;
            var w' := Step(Step(w, Fence(e, at)), Advance(e, now));
            && 1 <= x.attempt
            && (w'.db.task != w.db.task <==>
                  HoldsLease(w.db, x, at) && to == Completed && w.db.task.status in {AwaitingReview, RevisionRequested})
            && (w'.db.task != w.db.task ==> w'.db.task.status == Completed)
            && (w'.db.task == w.db.task ==> OnlyLease(w.db, w'.db, x.attempt))
  {
    hide Inv, AllHonest, HasMove, ApplyTransition, KeySeen, StageReason, Fencing;
    var x := w.execs[e];
    FenceOutcome(w, e, at);
    var fenced := Step(w, Fence(e, at));
    if HoldsLease(w.db, x, at) {
      if x.local == AwaitingReview {
        LateCompletion(fenced.db, x.attempt, now);
      } else {
        SupersededStage(fenced, e, now);
      }
    } else {
      LeaseUnchanged(w.db, x.attempt);
    }
  }

  lemma LeaseUnchanged(db: Tables, n: nat)
    requires 1 <= n <= |db.attempts|
    ensures OnlyLease(db, db, n)
  {
    assert db == Runners.WithLease(db, n - 1, db.attempts[n - 1].lease);
  }

  /** Failing or timing out: the two writes that settle a task, behind the executor's fence. */
  predicate Settles(a: Action, e: nat, x: Exec, p: TransitionParams) {
    || (a.Fail? && a.e == e && p == FailParams(x.attempt, a.code, a.message))
    || (a.TimeOut? && a.e == e && p == TimeoutParams(x.attempt))
  }

  /**
   * Failing and timing out work for superseded executors as well: fence and write change the task exactly
   * while the executor holds the lease on its own attempt, the key is new and the move is legal.
   */
  lemma SettleEffect(w: World, e: nat, at: Time, a: Action, p: TransitionParams)
    requires Sound(w) && Alive(w, e) && Settles(a, e, w.execs[e], p)
    ensures var x := w.execs[e];
            var w' := Step(Step(w, Fence(e, at)), a);
            && 1 <= x.attempt <= |w.db.attempts|
            && (w'.db.task != w.db.task <==>
                  HoldsLease(w.db, x, at) && !Replay(w.db, p.key) && CanTransition(w.db.task.status, p.to))
            && (w'.db.task != w.db.task ==> w'.db.task.status == p.to)
            && (w'.db.task == w.db.task ==> OnlyLease(w.db, w'.db, x.attempt))
  {
    hide Inv, AllHonest, KeySeen, Move, CanTransition, ApplyTransition, Fencing;
    var x := w.execs[e];
    FenceOutcome(w, e, at);
    var fenced := Step(w, Fence(e, at));
    SoundInv(fenced);
    if HoldsLease(w.db, x, at) {
      TransitionOutcome(fenced.db, p, a.now);
    } else {
      LeaseUnchanged(w.db, x.attempt);
    }
  }

  // ---- a lone executor makes progress

  /** The executor drives the current attempt and believes exactly what is stored. */
  ghost predicate InStep(w: World, e: nat) {
    && Sound(w) && Alive(w, e)
    && w.execs[e].attempt == |w.db.attempts|
    && w.execs[e].local == w.db.task.status
  }

  /** And its lease is in force, so that its next fence passes and renews it. */
  ghost predicate Ready(w: World, e: nat, now: Time) {
    InStep(w, e) && HoldsLease(w.db, w.execs[e], now) && w.execs[e].duration > 0
  }

  lemma NextKeyIsNew(db: Tables, x: Exec, to: Status)
    requires Inv(db) && AllHonest(db.events)
    requires x.attempt == |db.attempts| && x.local == db.task.status && NextStage(x.local, x.publishes) == Some(to)
    ensures !KeySeen(db.events, StageKey(x.attempt, to))
  {
    hide Inv, AllHonest, HasMove, KeySeen, Laps;
    InvFacts(db);
    if to.Driven() {
      KeyIffReached(db.events, x.attempt, to);
      ReachedIff(db, x.attempt, to);
      EdgesUpToLaps(db);
    } else if KeySeen(db.events, StageKey(x.attempt, to)) {
      CompletionKeyEnds(db, x.attempt);
    }
  }

  lemma MoveLeavesLeases(db: Tables, p: TransitionParams, i: nat, now: Time)
    requires i < |db.attempts| && p.to != Queued
    ensures var db' := Move(db, p, i, now);
            SameLeases(db, db') && db'.task.status == p.to && db'.task.hasRepository == db.task.hasRepository
  {
  }

  lemma CurrentApplies(db: Tables, x: Exec, to: Status, now: Time)
    requires Inv(db) && AllHonest(db.events)
    requires x.attempt == |db.attempts| && x.local == db.task.status && NextStage(x.local, x.publishes) == Some(to)
    ensures match ApplyTransition(db, StageParams(x.attempt, to), now)
            case Err(_) => false
            case Ok(db') => db'.task.status == to && db'.task.hasRepository == db.task.hasRepository &&
                            SameLeases(db, db')
  {
    hide Inv, AllHonest, KeySeen, Move, SameLeases, ApplyTransition, StageReason;
    NextKeyIsNew(db, x, to);
    InvFacts(db);
    FreshMove(db, StageParams(x.attempt, to), now);
    MoveLeavesLeases(db, StageParams(x.attempt, to), |db.attempts| - 1, now);
  }

  /** A fence that passes, then the move it was for. */
  lemma StrideApplies(w: World, e: nat, now: Time)
    requires Ready(w, e, now) && NextStage(w.execs[e].local, w.execs[e].publishes).Some?
    ensures var w' := Step(Step(w, Fence(e, now)), Advance(e, now));
            var to := NextStage(w.execs[e].local, w.execs[e].publishes).value;
            && Ready(w', e, now) && w'.db.task.status == to && Strode(w, w', e) && Renewed(w', e, now)
  {
    hide Inv, AllHonest, Truthful, ApplyTransition, StageReason, Fencing;
    var x := w.execs[e];
    var to := NextStage(x.local, x.publishes).value;
    FenceOutcome(w, e, now);
    var mid := Step(w, Fence(e, now));
    AdvanceSound(mid, e, now);
    CurrentApplies(mid.db, mid.execs[e], to, now);
  }

  /** The executor's lease was last renewed at this instant. */
  ghost predicate Renewed(w: World, e: nat, now: Time)
    requires e < |w.execs| && 1 <= w.execs[e].attempt <= |w.db.attempts|
  {
    w.db.attempts[w.execs[e].attempt - 1].lease == Held(w.execs[e].runner, now + w.execs[e].duration)
  }

  /** Between the two worlds only this executor acted: its own attempt moved on, other leases stayed. */
  ghost predicate Strode(w: World, w': World, e: nat)
    requires e < |w.execs|
  {
    && |w'.db.attempts| == |w.db.attempts| && w'.db.task.hasRepository == w.db.task.hasRepository
    && w'.execs == w.execs[e := w.execs[e].(local := w'.db.task.status, fenced := None)]
    && OtherLeases(w.db, w'.db, w.execs[e].attempt)
  }

  ghost predicate OtherLeases(db: Tables, db': Tables, n: nat) {
    && |db'.attempts| == |db.attempts|
    && forall i | 0 <= i < |db.attempts| && i != n - 1 :: db'.attempts[i].lease == db.attempts[i].lease
  }

  ghost predicate SameLeases(db: Tables, db': Tables) {
    && |db'.attempts| == |db.attempts|
    && forall i | 0 <= i < |db.attempts| :: db'.attempts[i].lease == db.attempts[i].lease
  }

  /** The executor fences and moves k times. */
  function Strides(e: nat, now: Time, k: nat): seq<Action> {
    if k == 0 then [] else Strides(e, now, k - 1) + [Fence(e, now), Advance(e, now)]
  }

  lemma RunStride(w: World, actions: seq<Action>, a: Action, b: Action)
    ensures Run(w, actions + [a, b]) == Step(Step(Run(w, actions), a), b)
  {
    hide Step;
    RunSplits(w, actions, [a, b]);
    var mid := Run(w, actions);
    assert [a, b][..1] == [a] && [a][..0] == [];
    assert Run(mid, []) == mid;
  }

  lemma {:induction false} DriveStrides(w: World, e: nat, now: Time, k: nat)
    requires Ready(w, e, now) && w.execs[e].fenced.None?
    requires 1 <= Rank(w.db.task.status) && Rank(w.db.task.status) + k <= 7
    ensures var w' := Run(w, Strides(e, now, k));
            && Ready(w', e, now) && Rank(w'.db.task.status) == Rank(w.db.task.status) + k && Strode(w, w', e)
            && (k > 0 ==> Renewed(w', e, now))
  {
    hide Sound, Step, Run, OtherLeases, Renewed;
    if k == 0 {
      NoStride(w, e);
    } else {
      DriveStrides(w, e, now, k - 1);
      var mid := Run(w, Strides(e, now, k - 1));
      RunStride(w, Strides(e, now, k - 1), Fence(e, now), Advance(e, now));
      StrideApplies(mid, e, now);
      LeasesChain(w.db, mid.db, Run(w, Strides(e, now, k)).db, w.execs[e].attempt);
    }
  }

  lemma NoStride(w: World, e: nat)
    requires e < |w.execs| && w.execs[e].local == w.db.task.status && w.execs[e].fenced.None?
    ensures Run(w, []) == w && Strode(w, w, e)
  {
    assert w.execs == w.execs[e := w.execs[e].(local := w.db.task.status, fenced := None)];
  }

  lemma LeasesChain(a: Tables, b: Tables, c: Tables, n: nat)
    requires OtherLeases(a, b, n) && OtherLeases(b, c, n)
    ensures OtherLeases(a, c, n)
  {
  }

  /**
   * Left alone, an executor that holds the lease of a task without a publishing target completes it, from
   * whatever claimable status the crashes before it left behind: as many fenced moves as happy-path ranks
   * remain, each renewing the lease for the next.
   */
  lemma LoneExecutorCompletes(w: World, e: nat, now: Time)
    requires Ready(w, e, now) && w.execs[e].fenced.None? && !w.execs[e].publishes && Runners.Claimable(w.db.task)
    ensures Run(w, Strides(e, now, 8 - Rank(w.db.task.status))).db.task.status == Completed
  {
    hide Sound, Step, Run;
    var k := 7 - Rank(w.db.task.status);
    DriveStrides(w, e, now, k);
    var mid := Run(w, Strides(e, now, k));
    RankInjective(mid.db.task.status, AwaitingReview);
    RunStride(w, Strides(e, now, k), Fence(e, now), Advance(e, now));
    StrideApplies(mid, e, now);
  }

  // ---- crash recovery

  /** Nobody holds the current attempt's lease any more. */
  predicate LeaseGone(db: Tables, now: Time) {
    db.attempts != [] && var l := db.attempts[|db.attempts| - 1].lease; l.Free? || l.expires < now
  }

  /** An accepted status and a lapsed lease are all it takes to be claimed again. */
  lemma ClaimGranted(db: Tables, runner: Runner, duration: int, now: Time)
    requires AttemptStructure(db.attempts, db.task.status) && Runners.Claimable(db.task) && LeaseGone(db, now)
    ensures Runners.Claim(db, |db.attempts|, runner, duration, now) ==
            Some(Runners.WithLease(db, |db.attempts| - 1, Held(runner, now + duration)))
  {
    FindNumber(db.attempts, db.task.status, |db.attempts|);
  }

  lemma LaunchGranted(w: World, runner: Runner, duration: int, publishes: bool, now: Time)
    requires Sound(w) && Runners.Claimable(w.db.task) && LeaseGone(w.db, now) && duration > 0
    ensures var w' := Step(w, Launch(|w.db.attempts|, runner, duration, publishes, now));
            var x := Exec(|w.db.attempts|, runner, duration, w.db.task.status, publishes, true, None);
            && w'.execs == w.execs + [x] && Ready(w', |w.execs|, now)
            && w'.db == Runners.WithLease(w.db, |w.db.attempts| - 1, Held(runner, now + duration))
  {
    hide AllHonest, Truthful, Numbered, KeysOnce, MovesAtTheTop, AttemptsExist, Chronicle, Runners.Claim,
         AttemptStructure;
    LaunchSound(w, |w.db.attempts|, runner, duration, publishes, now);
    ClaimGranted(w.db, runner, duration, now);
  }

  lemma {:induction false} RunSplits(w: World, before: seq<Action>, later: seq<Action>)
    ensures Run(w, before + later) == Run(Run(w, before), later)
  {
    hide Step;
    if later == [] {
      assert before + later == before;
    } else {
      var n := |later| - 1;
      RunSplits(w, before, later[..n]);
      assert (before + later)[..|before| + n] == before + later[..n];
    }
  }

  lemma RunOne(w: World, a: Action)
    ensures Run(w, [a]) == Step(w, a)
  {
    hide Step;
    assert Run(w, [a][..0]) == w;
  }

  /**
   * However the executors before it died, a task without a publishing target whose lease has lapsed in
   * any claimable status is claimed and completed by the next executor: no attempt is stranded.
   */
  lemma RecoveryCompletes(w: World, runner: Runner, duration: int, now: Time)
    requires Sound(w) && Runners.Claimable(w.db.task) && LeaseGone(w.db, now) && duration > 0
    ensures var actions := [Launch(|w.db.attempts|, runner, duration, false, now)]
                           + Strides(|w.execs|, now, 8 - Rank(w.db.task.status));
            Run(w, actions).db.task.status == Completed
  {
    hide Sound, Step, Run;
    LaunchGranted(w, runner, duration, false, now);
    var launch := [Launch(|w.db.attempts|, runner, duration, false, now)];
    RunOne(w, launch[0]);
    LoneExecutorCompletes(Run(w, launch), |w.execs|, now);
    RunSplits(w, launch, Strides(|w.execs|, now, 8 - Rank(w.db.task.status)));
  }

  // ---- published work waits for a human

  /** Executors that publish, and calls of others that do not complete the task themselves. */
  predicate LeavesCompletion(a: Action) {
    match a
    case Launch(_, _, _, publishes, _) => publishes
    case Other(call) => call.op.Transition? ==> call.op.p.to != Completed
    case _ => true
  }

  predicate Uncompleted(w: World) {
    w.db.task.status != Completed && forall x <- w.execs :: x.publishes
  }

  lemma OtherCallUncompleted(db: Tables, c: TaskRuns.Call)
    requires db.task.status != Completed && (c.op.Transition? ==> c.op.p.to != Completed)
    ensures TaskRuns.After(db, c).task.status != Completed
  {
    hide ApplyTransition, Appended;
    match c.op
    case Transition(p) => TransitionTask(db, p, c.now);
    case RequestRevision(r) =>
      TransitionTask(db, RevisionStart(r), c.now);
      if ApplyTransition(db, RevisionStart(r), c.now).Ok? {
        TransitionTask(ApplyTransition(db, RevisionStart(r), c.now).value, RevisionRequeue(r), c.now);
      }
    case Cancel(reason) => TransitionTask(db, To(Cancelled, "api", reason, NoKey), c.now);
    case _ =>
  }

  lemma StepUncompleted(w: World, a: Action)
    requires Uncompleted(w) && LeavesCompletion(a)
    ensures Uncompleted(Step(w, a))
  {
    hide ApplyTransition, StageReason, TaskRuns.After, TaskRuns.Perform;
    match a
    case Launch(attempt, runner, duration, publishes, now) =>
      ClaimTask(w.db, TaskRuns.Call(TaskRuns.Claim(attempt, runner, duration), now));
    case Fence(e, now) =>
    case Advance(e, now) => if Alive(w, e) && NextStage(w.execs[e].local, w.execs[e].publishes).Some? {
      assert w.execs[e] in w.execs;
      var to := NextStage(w.execs[e].local, w.execs[e].publishes).value;
      TransitionTask(w.db, StageParams(w.execs[e].attempt, to), now);
    }
    case Fail(e, code, message, now) => if Alive(w, e) {
      TransitionTask(w.db, FailParams(w.execs[e].attempt, code, message), now);
    }
    case TimeOut(e, now) => if Alive(w, e) {
      TransitionTask(w.db, TimeoutParams(w.execs[e].attempt), now);
    }
    case Crash(e) =>
    case Other(call) => OtherCallUncompleted(w.db, call);
  }

  /** However executors that publish are interleaved and cut off, none of them completes the task. */
  lemma {:induction false} PublishersNeverComplete(hasRepository: bool, born: Time, actions: seq<Action>)
    requires forall a <- actions :: LeavesCompletion(a)
    ensures Uncompleted(Run(Fresh(hasRepository, born), actions))
  {
    hide Step, Uncompleted;
    if actions == [] {
      FreshUncompleted(hasRepository, born);
    } else {
      var n := |actions| - 1;
      assert actions[n] in actions;
      PublishersNeverComplete(hasRepository, born, actions[..n]);
      StepUncompleted(Run(Fresh(hasRepository, born), actions[..n]), actions[n]);
    }
  }

  lemma FreshUncompleted(hasRepository: bool, born: Time)
    ensures Uncompleted(Fresh(hasRepository, born))
  {
    FreshRow(hasRepository, born);
  }

  // ---- where crashes leave a task

  /**
   * Only executors act: they start, fence, advance and crash, append events, record columns and extend or
   * release leases.
   */
  predicate ExecutorsOnly(actions: seq<Action>) {
    forall a <- actions :: OfExecutor(a)
  }

  predicate OfExecutor(a: Action) {
    a.Launch? || a.Fence? || a.Advance? || a.Crash? || (a.Other? && Housekeeping(a.call))
  }

  /** Calls that move no task. */
  predicate Housekeeping(c: TaskRuns.Call) {
    !c.op.Transition? && !c.op.RequestRevision? && !c.op.Cancel?
  }

  lemma HousekeepingRow(db: Tables, c: TaskRuns.Call)
    requires Housekeeping(c)
    ensures var row := TaskRuns.After(db, c).task;
            row.status == db.task.status && row.hasRepository == db.task.hasRepository
  {
    hide Appended;
  }

  lemma TransitionTask(db: Tables, p: TransitionParams, now: Time)
    ensures match ApplyTransition(db, p, now)
            case Err(_) => true
            case Ok(db') => db'.task.hasRepository == db.task.hasRepository &&
                            (db'.task.status == db.task.status || db'.task.status == p.to)
  {
    hide Appended, MovedAttempts, CanTransition, KeySeen;
  }

  lemma ExecutorStepRests(w: World, a: Action)
    requires Sound(w) && OfExecutor(a) && (Resting(w.db.task) || Runners.Claimable(w.db.task))
    ensures var row := Step(w, a).db.task;
            row.hasRepository == w.db.task.hasRepository && (Resting(row) || Runners.Claimable(row))
  {
    hide Sound, ApplyTransition, StageReason, Runners.Extend, Fencing, TaskRuns.Perform, TaskRuns.After;
    match a
    case Launch(attempt, runner, duration, publishes, now) =>
      ClaimTask(w.db, TaskRuns.Call(TaskRuns.Claim(attempt, runner, duration), now));
    case Fence(e, now) => if Alive(w, e) {
      FenceOutcome(w, e, now);
    }
    case Advance(e, now) => if Alive(w, e) && NextStage(w.execs[e].local, w.execs[e].publishes).Some? {
      var to := NextStage(w.execs[e].local, w.execs[e].publishes).value;
      TransitionTask(w.db, StageParams(w.execs[e].attempt, to), now);
    }
    case Crash(e) =>
    case Other(call) => HousekeepingRow(w.db, call);
  }

  lemma ClaimTask(db: Tables, c: TaskRuns.Call)
    requires c.op.Claim?
    ensures TaskRuns.Perform(db, c).Ok? ==> TaskRuns.Perform(db, c).value.task == db.task
  {
  }

  /** Completed, or in review with a repository. */
  predicate Resting(row: TaskRow) {
    row.status == Completed || (row.status == AwaitingReview && row.hasRepository)
  }

  /**
   * After every run of what executors do, crashes included, the task is completed or a claim still accepts it,
   * except exactly for a task with a repository in review. Without a repository no crash strands it.
   */
  lemma {:induction false} CrashNeverStrands(hasRepository: bool, born: Time, actions: seq<Action>)
    requires ExecutorsOnly(actions)
    ensures var row := Run(Fresh(hasRepository, born), actions).db.task;
            && row.hasRepository == hasRepository && (Resting(row) || Runners.Claimable(row))
            && (!(row.status == Completed || Runners.Claimable(row)) <==>
                  hasRepository && row.status == AwaitingReview)
  {
    hide Sound, Step;
    if actions == [] {
      FreshRow(hasRepository, born);
    } else {
      var n := |actions| - 1;
      assert ExecutorsOnly(actions[..n]) && actions[n] in actions;
      CrashNeverStrands(hasRepository, born, actions[..n]);
      RunSound(hasRepository, born, actions[..n]);
      ExecutorStepRests(Run(Fresh(hasRepository, born), actions[..n]), actions[n]);
    }
  }

  /** Every executor of a task in review with a repository is gone. */
  ghost predicate Stranded(w: World) {
    w.db.task.status == AwaitingReview && w.db.task.hasRepository && forall x <- w.execs :: !x.live
  }

  /**
   * No executor ever moves such a task again, whoever is started and whatever the dead would do; at most
   * events, columns and leases change.
   */
  lemma {:induction false} StrandedForGood(w: World, actions: seq<Action>)
    requires Stranded(w) && ExecutorsOnly(actions)
    ensures Stranded(Run(w, actions)) && Run(w, actions).execs == w.execs
    ensures (forall a <- actions :: !a.Other?) ==> Run(w, actions) == w
  {
    hide Stranded, Step;
    if actions != [] {
      var n := |actions| - 1;
      assert ExecutorsOnly(actions[..n]) && actions[n] in actions;
      StrandedForGood(w, actions[..n]);
      StrandedStep(Run(w, actions[..n]), actions[n]);
    }
  }

  lemma StrandedStep(w: World, a: Action)
    requires Stranded(w) && OfExecutor(a)
    ensures Stranded(Step(w, a)) && Step(w, a).execs == w.execs
    ensures !a.Other? ==> Step(w, a) == w
  {
    hide TaskRuns.Perform, TaskRuns.After;
    if a.Launch? {
      NotClaimed(w.db, TaskRuns.Call(TaskRuns.Claim(a.attempt, a.runner, a.duration), a.now));
    } else if a.Other? {
      HousekeepingRow(w.db, a.call);
    }
  }

  lemma NotClaimed(db: Tables, c: TaskRuns.Call)
    requires c.op.Claim? && !Runners.Claimable(db.task)
    ensures TaskRuns.Perform(db, c).Err?
  {
  }

  lemma FreshRow(hasRepository: bool, born: Time)
    ensures var db := Fresh(hasRepository, born).db;
            db.task.status == Queued && db.task.hasRepository == hasRepository &&
            |db.attempts| == 1 && db.attempts[0].lease == Free
  {
    TaskRuns.CreateSucceeds(hasRepository, born);
  }

  /**
   * A run that strands its task: an executor without a publishing target drives a task with a repository to
   * review and dies before it completes it.
   */
  lemma StrandingHappens() returns (actions: seq<Action>)
    ensures ExecutorsOnly(actions) && Stranded(Run(Fresh(true, 0), actions))
    ensures forall x <- Run(Fresh(true, 0), actions).execs :: !x.publishes
  {
    hide Strides, Sound, Step, Run;
    var w := Fresh(true, 0);
    FreshSound(true, 0);
    FreshRow(true, 0);
    LaunchGranted(w, 1, 60, false, 0);
    var launch, crash := Launch(1, 1, 60, false, 0), Crash(0);
    var started := Step(w, launch);
    DriveStrides(started, 0, 0, 6);
    var reviewed := Run(started, Strides(0, 0, 6));
    RankInjective(reviewed.db.task.status, AwaitingReview);
    CrashStops(reviewed, 0);
    RunOne(w, launch);
    RunOne(reviewed, crash);
    RunSplits(w, [launch], Strides(0, 0, 6));
    RunSplits(w, [launch] + Strides(0, 0, 6), [crash]);
    StridesAreSteps(0, 0, 6);
    actions := [launch] + Strides(0, 0, 6) + [crash];
  }

  lemma {:induction false} StridesAreSteps(e: nat, now: Time, k: nat)
    ensures ExecutorsOnly(Strides(e, now, k))
  {
    if k > 0 {
      StridesAreSteps(e, now, k - 1);
    }
  }

  lemma CrashStops(w: World, e: nat)
    requires Sound(w) && Alive(w, e)
    ensures var w' := Step(w, Crash(e));
            Sound(w') && w' == w.(execs := w.execs[e := w.execs[e].(live := false)])
  {
    CrashSound(w, e);
  }

  // ---- the one way a superseded executor gets through

  /** A comment number that no revision of this log was triggered by. */
  lemma {:induction false} UnusedComment(events: seq<Event>) returns (comment: nat)
    ensures comment >= 1 && forall e <- events :: e.key.ReviseKey? ==> e.key.comment < comment
  {
    if events == [] {
      comment := 1;
    } else {
      var n := |events| - 1;
      comment := UnusedComment(events[..n]);
      if events[n].key.ReviseKey? && events[n].key.comment >= comment {
        comment := events[n].key.comment + 1;
      }
      assert events == events[..n] + [events[n]];
    }
  }

  /** A complete revision command from a comment on the pull request. */
  function RevisionOf(comment: nat): RevisionParams {
    RevisionParams(Brief("address the review", seq(40, _ => 'a'), "reviewer", comment), 2, ReviseKey(comment), "")
  }

  /** In review and below the limit, a new comment's revision is accepted. */
  lemma RevisionAccepted(db: Tables) returns (comment: nat)
    requires Inv(db) && |db.attempts| == 1 && db.task.status == AwaitingReview
    ensures var r := RevisionOf(comment);
            TaskSpec.RequestRevision(db, r, 61).Ok? && Complete(r)
  {
    hide Inv, TaskSpec.RequestRevision;
    comment := UnusedComment(db.events);
    Revisions.RevisionOutcome(db, RevisionOf(comment), 61);
  }

  /** Starting the newer attempt keeps the older one's lease. */
  lemma ReviseStep(w: World, comment: nat)
    requires Sound(w) && |w.db.attempts| == 1 && TaskSpec.RequestRevision(w.db, RevisionOf(comment), 61).Ok?
    ensures var w' := Step(w, Other(TaskRuns.Call(TaskRuns.RequestRevision(RevisionOf(comment)), 61)));
            && Sound(w') && w'.execs == w.execs && w'.db.task.status == Queued && |w'.db.attempts| == 2
            && w'.db.attempts[0].lease == w.db.attempts[0].lease && w'.db.attempts[1].lease == Free
  {
    hide Inv, AllHonest, Truthful, TaskSpec.RequestRevision;
    InvFacts(w.db);
    Revisions.RevisionOutcome(w.db, RevisionOf(comment), 61);
    OtherSound(w, TaskRuns.Call(TaskRuns.RequestRevision(RevisionOf(comment)), 61));
  }

  /** Recording the branch or the pull request touches neither status nor leases. */
  lemma ColumnStep(w: World, op: TaskRuns.Op, now: Time)
    requires Sound(w) && (op.EnsureGitContext? || op.RecordPullRequest?)
    ensures var w' := Step(w, Other(TaskRuns.Call(op, now)));
            && Sound(w') && w'.execs == w.execs && w'.db.task.status == w.db.task.status
            && w'.db.task.hasRepository == w.db.task.hasRepository && SameLeases(w.db, w'.db)
  {
    hide Inv, AllHonest, Truthful;
    OtherSound(w, TaskRuns.Call(op, now));
  }

  lemma SoundInv(w: World)
    requires Sound(w)
    ensures Inv(w.db)
  {
  }

  /** The first owner of attempt 1 reaches publishing. */
  lemma ReachedPublishing() returns (w: World, actions: seq<Action>)
    ensures w == Run(Fresh(true, 0), actions) && Sound(w) && |w.execs| == 1 && Alive(w, 0)
    ensures w.db.task.status == Publishing && w.db.task.hasRepository
    ensures |w.db.attempts| == 1 && w.db.attempts[0].lease == Held(1, 60)
  {
    hide Strides, Sound, Step, Run, OtherLeases;
    var newTask := Fresh(true, 0);
    FreshSound(true, 0);
    FreshRow(true, 0);
    var launch := Launch(1, 1, 60, true, 0);
    LaunchGranted(newTask, 1, 60, true, 0);
    var started := Step(newTask, launch);
    DriveStrides(started, 0, 0, 5);
    w := Run(started, Strides(0, 0, 5));
    RankInjective(w.db.task.status, Publishing);
    RunOne(newTask, launch);
    RunSplits(newTask, [launch], Strides(0, 0, 5));
    actions := [launch] + Strides(0, 0, 5);
  }

  /** It pushes its branch, opens the pull request and dies. */
  lemma PublishedAndDied() returns (w: World, actions: seq<Action>)
    ensures w == Run(Fresh(true, 0), actions) && Sound(w) && |w.execs| == 1
    ensures w.db.task.status == Publishing && w.db.task.hasRepository
    ensures |w.db.attempts| == 1 && w.db.attempts[0].lease == Held(1, 60)
  {
    hide Sound, Step, Run;
    var reached, before := ReachedPublishing();
    var context := TaskRuns.EnsureGitContext("base", "agent-trail/task");
    var pull := TaskRuns.RecordPullRequest(1, 7);
    ColumnStep(reached, context, 0);
    var pushed := Step(reached, Other(TaskRuns.Call(context, 0)));
    ColumnStep(pushed, pull, 0);
    var published := Step(pushed, Other(TaskRuns.Call(pull, 0)));
    CrashStops(published, 0);
    w := Step(published, Crash(0));
    var calls := [Other(TaskRuns.Call(context, 0)), Other(TaskRuns.Call(pull, 0)), Crash(0)];
    RunThree(reached, calls[0], calls[1], calls[2]);
    RunSplits(Fresh(true, 0), before, calls);
    actions := before + calls;
  }

  /** A runner without publishing takes over, reaches review and stalls there, its lease still running. */
  lemma StalledInReview() returns (w: World, actions: seq<Action>)
    ensures w == Run(Fresh(true, 0), actions) && Sound(w)
    ensures |w.execs| == 2 && w.execs[1] == Exec(1, 2, 60, AwaitingReview, false, true, None)
    ensures w.db.task.status == AwaitingReview && |w.db.attempts| == 1 && HoldsLease(w.db, w.execs[1], 61)
  {
    hide Strides, Sound, Step, Run, OtherLeases;
    var died, before := PublishedAndDied();
    var launch := Launch(1, 2, 60, false, 61);
    LaunchGranted(died, 2, 60, false, 61);
    var started := Step(died, launch);
    DriveStrides(started, 1, 61, 1);
    w := Run(started, Strides(1, 61, 1));
    RankInjective(w.db.task.status, AwaitingReview);
    RunOne(died, launch);
    RunSplits(Fresh(true, 0), before, [launch]);
    RunSplits(Fresh(true, 0), before + [launch], Strides(1, 61, 1));
    actions := before + [launch] + Strides(1, 61, 1);
  }

  /** A comment on the pull request starts attempt 2, which is claimed at once. */
  lemma RevisedAndStarted(stalled: World) returns (w: World, actions: seq<Action>)
    requires Sound(stalled) && |stalled.execs| == 2 && HoldsLease(stalled.db, stalled.execs[1], 61)
    requires stalled.execs[1].attempt == 1 && stalled.db.task.status == AwaitingReview && |stalled.db.attempts| == 1
    ensures w == Run(stalled, actions) && |w.db.attempts| == 2 && w.db.task.status == Queued
    ensures |w.execs| == 3 && w.execs[1] == stalled.execs[1] && HoldsLease(w.db, w.execs[1], 61)
    ensures Ready(w, 2, 61) && w.execs[2] == Exec(2, 3, 60, Queued, true, true, None)
  {
    hide Sound, Step, Run;
    SoundInv(stalled);
    var comment := RevisionAccepted(stalled.db);
    var revise := Other(TaskRuns.Call(TaskRuns.RequestRevision(RevisionOf(comment)), 61));
    ReviseStep(stalled, comment);
    var revised := Step(stalled, revise);
    var launch := Launch(2, 3, 60, true, 61);
    LaunchGranted(revised, 3, 60, true, 61);
    w := Step(revised, launch);
    RunTwo(stalled, revise, launch);
    actions := [revise, launch];
  }

  /** It is published and goes to review while the older executor stalls. */
  lemma RevisedAndReviewed(stalled: World) returns (w: World, actions: seq<Action>)
    requires Sound(stalled) && |stalled.execs| == 2 && HoldsLease(stalled.db, stalled.execs[1], 61)
    requires stalled.execs[1].attempt == 1 && stalled.db.task.status == AwaitingReview && |stalled.db.attempts| == 1
    ensures w == Run(stalled, actions) && Sound(w) && |w.db.attempts| == 2 && w.db.task.status == AwaitingReview
    ensures |w.execs| == 3 && w.execs[1] == stalled.execs[1] && HoldsLease(w.db, w.execs[1], 61)
  {
    hide Strides, Sound, Step, Run;
    var started, before := RevisedAndStarted(stalled);
    DriveStrides(started, 2, 61, 6);
    w := Run(started, Strides(2, 61, 6));
    RankInjective(w.db.task.status, AwaitingReview);
    RunSplits(stalled, before, Strides(2, 61, 6));
    actions := before + Strides(2, 61, 6);
  }

  /**
   * A reachable world in which an executor of attempt 1, stalled just before its own completion while its
   * lease runs on, completes the task under attempt 2, which was started by a comment on the pull request
   * and has itself been published and awaits review.
   */
  lemma StaleCompletionHappens() returns (w: World, actions: seq<Action>)
    ensures w == Run(Fresh(true, 0), actions)
    ensures Alive(w, 1) && w.execs[1].attempt == 1 && |w.db.attempts| == 2 && HoldsLease(w.db, w.execs[1], 61)
    ensures w.db.task.status == AwaitingReview
    ensures Step(Step(w, Fence(1, 61)), Advance(1, 61)).db.task.status == Completed
  {
    hide Sound, Step, Run;
    var stalled, before := StalledInReview();
    var later;
    w, later := RevisedAndReviewed(stalled);
    SupersededAdvance(w, 1, 61, 61);
    RunSplits(Fresh(true, 0), before, later);
    actions := before + later;
  }

  lemma RunTwo(w: World, a: Action, b: Action)
    ensures Run(w, [a, b]) == Step(Step(w, a), b)
  {
    hide Step;
    RunOne(w, a);
    assert [a, b][..1] == [a];
  }

  lemma RunThree(w: World, a: Action, b: Action, c: Action)
    ensures Run(w, [a, b, c]) == Step(Step(Step(w, a), b), c)
  {
    hide Step;
    RunTwo(w, a, b);
    assert [a, b, c][..2] == [a, b];
  }
}
