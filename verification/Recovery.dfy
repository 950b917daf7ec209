/** A task outlives any number of executions that are cut off under it. */
module Recovery {
  import opened Lifecycle
  import opened Records
  import opened TaskHistory
  import opened Storage
  import opened Itinerary
  import opened FleetTheorems
  import opened StaleExecutors
  import opened Executor
  import TaskRuns
  import TaskStore
  import RunnerStore
  import Runners = RunnerSpec

  /** The instant after the lease in force runs out. */
  function Lapse(l: Lease): Time {
    if l.Free? then 0 else l.expires + 1
  }

  lemma ClaimKeeps(t: Tables, runner: Runner, duration: int, now: Time)
    requires Inv(t) && AllHonest(t.events) && Runners.Claimable(t.task) && LeaseGone(t, now)
    ensures match Runners.Claim(t, |t.attempts|, runner, duration, now)
            case None => false
            case Some(t') => Inv(t') && AllHonest(t'.events) && t'.task == t.task && t'.events == t.events &&
                             |t'.attempts| == |t.attempts| &&
                             t'.attempts[|t.attempts| - 1].lease == Held(runner, now + duration)
  {
    hide Numbered, KeysOnce, MovesAtTheTop, AttemptsExist, Chronicle, AllHonest;
    ClaimGranted(t, runner, duration, now);
    TaskRuns.CallKeepsInv(t, TaskRuns.Call(TaskRuns.Claim(|t.attempts|, runner, duration), now));
  }

  /** Where an execution may leave its task when nothing made the attempt fail. */
  predicate Settled(row: TaskRow, publishes: bool) {
    row.status == if publishes then AwaitingReview else Completed
  }

  /** The stranded case: a repository, no publishing target, in review. */
  predicate StrandedRow(row: TaskRow, publishes: bool) {
    row.status == AwaitingReview && row.hasRepository && !publishes
  }

  /**
   * Claims the current attempt once its lease has lapsed and executes it; what a dead predecessor left
   * behind does not matter.
   */
  method ClaimAndExecute(db: Database, tasks: TaskStore.Store, runners: RunnerStore.Store, publishes: bool,
                         runner: Runner, duration: int, fate: Fate, beat: nat -> Time) returns (outcome: Outcome)
    requires tasks.db == db && runners.db == db
    requires Inv(db.State()) && AllHonest(db.events) && Runners.Claimable(db.task)
    requires (publishes ==> db.task.hasRepository) && duration > 0 && beat(0) == 0
    modifies db
    ensures Inv(db.State()) && AllHonest(db.events) && db.task.hasRepository == old(db.task.hasRepository)
    ensures outcome.Done? ==> Settled(db.task, publishes)
    ensures outcome.Stopped? ==> (!Runners.Claimable(db.task) <==> StrandedRow(db.task, publishes))
    ensures outcome.AttemptFailed? ==> !fate.Able() && (db.task.status == Failed || db.task.status == TimedOut)
    ensures fate.cutAfter.None? && Steady(beat, duration) && fate.Able() ==>
              outcome.Done? && |db.attempts| >= 1 && !OwnedBy(db.attempts[|db.attempts| - 1].lease, runner)
  {
    hide Inv, AllHonest, Kinds, DrivePlan, Driven, Runners.Claimable, Runners.Claim, Steady;
    InvFacts(db.State());
    var attempt := |db.attempts|;
    var now := Lapse(db.attempts[attempt - 1].lease);
    ClaimKeeps(db.State(), runner, duration, now);
    var claimed := runners.ClaimAttempt(attempt, runner, duration, now);
    var running := fate.(clock := (k: nat) => now + beat(k));
    SteadyLater(beat, running.clock, duration, now);
    outcome := ExecuteClaimed(db, tasks, runners, attempt, publishes, runner, duration, running);
  }

  /** Executes the current attempt under a lease that its runner has just been granted. */
  method ExecuteClaimed(db: Database, tasks: TaskStore.Store, runners: RunnerStore.Store, attempt: nat,
                        publishes: bool, runner: Runner, duration: int, fate: Fate) returns (outcome: Outcome)
    requires tasks.db == db && runners.db == db && 1 <= attempt == |db.attempts| && duration > 0
    requires Inv(db.State()) && AllHonest(db.events) && Runners.Claimable(db.task)
    requires db.attempts[attempt - 1].lease == Held(runner, fate.clock(0) + duration)
    requires publishes ==> db.task.hasRepository
    modifies db
    ensures Inv(db.State()) && AllHonest(db.events) && db.task.hasRepository == old(db.task.hasRepository)
    ensures outcome.Done? ==> Settled(db.task, publishes)
    ensures outcome.Done? ==>
              Kinds(db.events) == old(Kinds(db.events)) + DrivePlan(fate, publishes, old(db.task.status))
    ensures outcome.Stopped? ==> (!Runners.Claimable(db.task) <==> StrandedRow(db.task, publishes))
    ensures outcome.AttemptFailed? ==> !fate.Able() && (db.task.status == Failed || db.task.status == TimedOut)
    ensures fate.cutAfter.None? && Steady(fate.clock, duration) && fate.Able() ==>
              outcome.Done? && |db.attempts| >= 1 && !OwnedBy(db.attempts[|db.attempts| - 1].lease, runner)
  {
    hide Inv, AllHonest, Kinds, DrivePlan, Driven, Steady;
    var executor := new Executor(db, tasks, runners, attempt, runner, duration, publishes, fate);
    assert executor.Leased();
    var entered;
    entered, outcome := executor.Execute();
  }

  lemma SteadyLater(beat: nat -> Time, clock: nat -> Time, duration: int, start: Time)
    requires forall k: nat :: clock(k) == start + beat(k)
    ensures Steady(beat, duration) ==> Steady(clock, duration)
  {
  }

  predicate OwnedBy(l: Lease, runner: Runner) {
    l.Held? && l.owner == runner
  }

  /**
   * Any number of executions that are killed or stopped at any call, then one that is not: the task ends
   * published and in review, or completed when it has no repository, unless an execution failed it or ran
   * out of time first. Every runner can publish where there is a repository.
   */
  method OutliveCrashes(db: Database, tasks: TaskStore.Store, runners: RunnerStore.Store,
                        duration: int, lives: seq<Fate>, last: Fate, beat: nat -> Time)
    requires tasks.db == db && runners.db == db
    requires Inv(db.State()) && AllHonest(db.events) && Runners.Claimable(db.task)
    requires duration > 0 && beat(0) == 0 && Steady(beat, duration)
    requires last.cutAfter.None? && last.Able()
    modifies db
    ensures Inv(db.State())
    ensures Settled(db.task, old(db.task.hasRepository)) || exists f <- lives :: !f.Able()
  {
    hide Inv, AllHonest, Steady;
    var publishes := db.task.hasRepository;
    for k := 0 to |lives|
      invariant Inv(db.State()) && AllHonest(db.events) && Runners.Claimable(db.task)
      invariant db.task.hasRepository == publishes
    {
      var outcome := ClaimAndExecute(db, tasks, runners, publishes, k, duration, lives[k], beat);
      if !outcome.Stopped? {
        assert lives[k] in lives;
        return;
      }
    }
    var outcome := ClaimAndExecute(db, tasks, runners, publishes, |lives|, duration, last, beat);
  }
}
