/** The executor that runs one claimed attempt through its stages and may be cut off before any durable call. */
module Executor {
  import opened Lifecycle
  import opened Records
  import opened TaskSpec
  import opened TaskHistory
  import opened Storage
  import opened Itinerary
  import opened Fleet
  import opened FleetTheorems
  import opened StaleExecutors
  import TaskRuns
  import TaskStore
  import RunnerStore
  import Runners = RunnerSpec

  datatype Outcome = Done | Stopped | AttemptFailed

  /** How far a group of stages got, or how the execution ended inside it. */
  datatype Stages = At(status: Status) | Broke(outcome: Outcome)

  /** A task only moves forward along the happy path, or ends. */
  predicate Forward(before: TaskRow, later: TaskRow) {
    && later.hasRepository == before.hasRepository
    && (later.status.Terminal() || Rank(before.status) <= Rank(later.status) <= 7)
  }

  /** Store calls, heartbeats among them, are never a whole lease apart. */
  ghost predicate Steady(clock: nat -> Time, duration: int) {
    forall k: nat :: clock(k) <= clock(k + 1) < clock(k) + duration
  }

  class Executor {
    const db: Database
    const tasks: TaskStore.Store
    const runners: RunnerStore.Store
    const attempt: nat
    const runner: Runner
    const duration: int
    const publishes: bool
    const fate: Fate
    var calls: nat
    var lost: bool

    constructor (db: Database, tasks: TaskStore.Store, runners: RunnerStore.Store,
                 attempt: nat, runner: Runner, duration: int, publishes: bool, fate: Fate)
      requires tasks.db == db && runners.db == db
      ensures this.db == db && this.tasks == tasks && this.runners == runners
      ensures this.attempt == attempt && this.runner == runner && this.duration == duration
      ensures this.publishes == publishes && this.fate == fate && calls == 0 && !lost
    {
      this.db, this.tasks, this.runners := db, tasks, runners;
      this.attempt, this.runner, this.duration := attempt, runner, duration;
      this.publishes, this.fate, calls, lost := publishes, fate, 0, false;
    }

    /** The tables are sound; this executor's attempt may be current or superseded. */
    ghost predicate Healthy()
      reads this, db
    {
      && tasks.db == db && runners.db == db
      && Inv(db.State()) && AllHonest(db.events)
      && 1 <= attempt <= |db.attempts|
    }

    /** Its attempt is the current one. */
    ghost predicate Good()
      reads this, db
    {
      Healthy() && |db.attempts| == attempt
    }

    /** This executor holds the lease at its next call, and never found it gone. */
    ghost predicate Leased()
      reads this, db
    {
      && !lost
      && 1 <= attempt <= |db.attempts|
      && db.attempts[attempt - 1].lease.Held?
      && db.attempts[attempt - 1].lease.owner == runner
      && db.attempts[attempt - 1].lease.expires > fate.clock(calls)
    }

    ghost predicate Faultless() {
      fate.cutAfter.None? && Steady(fate.clock, duration)
    }

    predicate CutOff()
      reads this
    {
      fate.cutAfter.Some? && calls >= fate.cutAfter.value
    }

    predicate Dead()
      reads this
    {
      CutOff() && fate.cut.Dies?
    }

    /** Where an execution may leave its task: moved forward, and unfinished only where it did not fail. */
    ghost predicate LeftAt(outcome: Outcome, before: TaskRow)
      reads this, db
    {
      && Forward(before, db.task)
      && (outcome.Stopped? ==> !db.task.status.Terminal())
      && (outcome.AttemptFailed? ==> !fate.Able() && db.task.status == Failed)
    }

    /** One lease extension: a heartbeat or a fence. */
    method Renew() returns (ok: bool)
      requires Healthy()
      modifies this`calls, this`lost, db
      ensures Healthy() && db.task == old(db.task) && db.events == old(db.events)
      ensures |db.attempts| == old(|db.attempts|) && (ok || lost)
      ensures (ok <==> old(Leased())) && (ok ==> !lost)
      ensures ok ==> db.attempts[attempt - 1].lease == Held(runner, fate.clock(old(calls)) + duration)
      ensures Faultless() && old(Leased()) ==> ok && Leased()
    {
      if lost {
        return false;
      }
      var now := fate.clock(calls);
      ghost var before := db.State();
      var err := runners.ExtendLease(attempt, runner, duration, now);
      calls := calls + 1;
      LeaseOnly(before, attempt, runner, duration, now);
      if err.Some? {
        lost := true;
      }
      return err.None?;
    }

    /** The heartbeat runs ahead of every store call; the execution may be cut off, or its lease gone. */
    method Proceed() returns (go: bool)
      requires Healthy()
      modifies this`calls, this`lost, db
      ensures Healthy() && db.task == old(db.task) && db.events == old(db.events)
      ensures |db.attempts| == old(|db.attempts|) && (go || CutOff() || lost)
      ensures go <==> !old(CutOff()) && old(Leased())
      ensures Faultless() && old(Leased()) ==> go && Leased()
    {
      if CutOff() {
        return false;
      }
      go := Renew();
    }

    method Append(eventType: string, source: string) returns (ok: bool)
      requires Healthy() && ValidSource(source)
      modifies this`calls, this`lost, db
      ensures Healthy() && db.task == old(db.task) && |db.attempts| == old(|db.attempts|)
      ensures old(db.events) <= db.events
      ensures Kinds(db.events) == if ok then old(Kinds(db.events)) + [Note(eventType)] else old(Kinds(db.events))
      ensures ok <==> !old(CutOff()) && old(Leased())
      ensures Faultless() && old(Leased()) ==> ok && Leased()
    {
      hide Inv, AllHonest, Steady, Kinds, Appended, AppendAttemptEvent;
      ok := Proceed();
      if ok {
        NoteSound(db.State(), attempt, eventType, source);
        var err := tasks.AppendAttemptEvent(attempt, eventType, source);
        ok := err.None?;
      }
    }

    method AppendAll(eventTypes: seq<string>) returns (ok: bool)
      requires Healthy()
      modifies this`calls, this`lost, db
      ensures Healthy() && db.task == old(db.task) && |db.attempts| == old(|db.attempts|)
      ensures old(db.events) <= db.events
      ensures ok ==> Kinds(db.events) == old(Kinds(db.events)) + Notes(eventTypes)
      ensures Follows(old(Kinds(db.events)), Kinds(db.events), Notes(eventTypes), false)
      ensures Faultless() && old(Leased()) ==> ok && Leased()
    {
      hide Inv, AllHonest, Steady, Kinds, Follows;
      ok := true;
      for k := 0 to |eventTypes|
        invariant Healthy() && db.task == old(db.task) && |db.attempts| == old(|db.attempts|)
        invariant old(db.events) <= db.events && ok
        invariant Kinds(db.events) == old(Kinds(db.events)) + Notes(eventTypes[..k])
        invariant Faultless() && old(Leased()) ==> Leased()
      {
        ok := Append(eventTypes[k], "runner");
        if !ok {
          NotesSplit(eventTypes[..k], eventTypes[k..]);
          assert eventTypes == eventTypes[..k] + eventTypes[k..];
          FollowsPart(old(Kinds(db.events)), Notes(eventTypes[..k]), Notes(eventTypes[k..]), false);
          return;
        }
        assert Notes(eventTypes[..k + 1]) == Notes(eventTypes[..k]) + [Note(eventTypes[k])];
      }
      assert eventTypes[..|eventTypes|] == eventTypes;
      FollowsPart(old(Kinds(db.events)), Notes(eventTypes), [], false);
      assert Notes(eventTypes) + [] == Notes(eventTypes);
    }

    /**
     * Fence, then move. Whatever the attempt and the task have come to, an accepted call leaves the stage's
     * key on the log, the task either moved legally to that stage or stayed, and an executor of a superseded
     * attempt changes neither task nor log in a driven stage. The next stage of the current attempt is
     * reached exactly when the call is accepted.
     */
    method Transition(to: Status) returns (ok: bool)
      requires Healthy() && (to.Driven() || to == Completed)
      modifies this`calls, this`lost, db
      ensures Healthy() && |db.attempts| == old(|db.attempts|)
      ensures db.task.hasRepository == old(db.task.hasRepository) && old(db.events) <= db.events
      ensures ok ==> KeySeen(db.events, StageKey(attempt, to)) && !old(CutOff()) && old(Leased())
      ensures db.task == old(db.task) || (db.task.status == to && CanTransition(old(db.task.status), to))
      ensures attempt < |db.attempts| && to.Driven() ==> db.task == old(db.task) && db.events == old(db.events)
      ensures attempt == |db.attempts| && NextStage(old(db.task.status), publishes) == Some(to)
              ==> db.task.status == if ok then to else old(db.task.status)
      ensures attempt == |db.attempts| && NextStage(old(db.task.status), publishes) == Some(to)
              ==> Kinds(db.events) == if ok then old(Kinds(db.events)) + [StageMove(old(db.task.status), to)]
                                      else old(Kinds(db.events))
      ensures attempt == |db.attempts| && NextStage(old(db.task.status), publishes) == Some(to)
              ==> (Faultless() && old(Leased()) ==> ok && Leased())
    {
      hide Inv, AllHonest, Steady, ApplyTransition, StageReason, KeySeen, CanTransition, Kinds;
      ok := Proceed();
      if ok {
        ok := Proceed();
      }
      if ok {
        TransitionEffect(db.State(), attempt, publishes, to, fate.clock(calls));
        var err := tasks.Transition(StageParams(attempt, to), fate.clock(calls));
        ok := err.None?;
      }
    }

    /** Fence, then fail the task: it ends failed, with this code on its row, or its row is untouched. */
    method FailTask(code: string, message: string) returns (outcome: Outcome)
      requires Healthy()
      modifies this`calls, this`lost, db
      ensures Healthy() && |db.attempts| == old(|db.attempts|) && old(db.events) <= db.events
      ensures !outcome.Done? && (outcome.Stopped? ==> db.task == old(db.task) && db.events == old(db.events))
      ensures outcome.AttemptFailed? ==> !old(CutOff()) && old(Leased())
      ensures db.task == old(db.task) ||
              (db.task.status == Failed && CanTransition(old(db.task.status), Failed)
               && db.task.hasRepository == old(db.task.hasRepository))
      ensures outcome.AttemptFailed? && !old(db.task.status).Terminal() ==>
                && db.task.status == Failed && (code != "" ==> db.task.failureCode == code)
                && Kinds(db.events) == old(Kinds(db.events)) + [Failure(old(db.task.status))]
      ensures old(db.task.status).Phase() == Running ==>
                (Faultless() && old(Leased()) ==> outcome.AttemptFailed? && Leased())
    {
      hide Inv, AllHonest, Steady, ApplyTransition, KeySeen, CanTransition, Kinds;
      var ok := Proceed();
      if ok {
        ok := Proceed();
      }
      if !ok {
        return Stopped;
      }
      RunningFails(db.task.status);
      SettleKeeps(db.State(), FailParams(attempt, code, message), fate.clock(calls));
      var err := tasks.Transition(FailParams(attempt, code, message), fate.clock(calls));
      return if err.None? then AttemptFailed else Stopped;
    }

    /** The deadline's own fence is not cut off by it; a task that is over already is left alone. */
    method TimeoutTask() returns (outcome: Outcome)
      requires Healthy()
      modifies this`calls, this`lost, db
      ensures Healthy() && |db.attempts| == old(|db.attempts|) && old(db.events) <= db.events
      ensures !outcome.Done? && (outcome.Stopped? ==> db.task == old(db.task) && db.events == old(db.events))
      ensures outcome.AttemptFailed? ==> old(Leased())
      ensures old(Leased()) && (old(db.task.status).Phase() == Running || old(db.task.status) == AwaitingReview)
              ==> outcome.AttemptFailed?
      ensures old(Leased()) <==> !lost
      ensures db.task == old(db.task) ||
              (db.task.status == TimedOut && CanTransition(old(db.task.status), TimedOut)
               && db.task.hasRepository == old(db.task.hasRepository))
      ensures outcome.AttemptFailed? && !old(db.task.status).Terminal() ==>
                && db.task.status == TimedOut && db.task.failureCode == "task_runtime_exceeded"
                && Kinds(db.events) == old(Kinds(db.events)) + [Moved(old(db.task.status), TimedOut, "")]
      ensures old(db.task.status) == Cancelled ==> outcome.Stopped?
      ensures old(db.task.status).Terminal() ==> db.task == old(db.task)
    {
      hide Inv, AllHonest, Steady, ApplyTransition, KeySeen, CanTransition, Move, Kinds;
      var ok := Renew();
      if !ok {
        return Stopped;
      }
      if db.task.status == Cancelled {
        return Stopped;
      }
      if db.task.status.Terminal() {
        return AttemptFailed;
      }
      RunningTimesOut(db.task.status);
      SettleKeeps(db.State(), TimeoutParams(attempt), fate.clock(calls));
      var err := tasks.Transition(TimeoutParams(attempt), fate.clock(calls));
      return if err.None? then AttemptFailed else Stopped;
    }

    /** Failing a running stage of the current attempt, for one of the reasons the fate has. */
    method FailStage(code: string) returns (r: Stages)
      requires Good() && db.task.status.Phase() == Running && !fate.Able() && code != ""
      modifies this`calls, this`lost, db
      ensures Good() && old(db.events) <= db.events && Forward(old(db.task), db.task)
      ensures r.Broke? && !r.outcome.Done? && LeftAt(r.outcome, old(db.task))
      ensures r.outcome.Stopped? ==> db.task == old(db.task) && db.events == old(db.events)
      ensures r.outcome.AttemptFailed? ==>
                && db.task.failureCode == code
                && Kinds(db.events) == old(Kinds(db.events)) + [Failure(old(db.task.status))]
      ensures Follows(old(Kinds(db.events)), Kinds(db.events), [Failure(old(db.task.status))], false)
      ensures Faultless() && old(Leased()) ==> r.outcome.AttemptFailed? && Leased()
    {
      hide Kinds, Follows, Inv, AllHonest, Steady, CanTransition;
      ghost var failure := [Failure(db.task.status)];
      ghost var before := Kinds(db.events);
      var outcome := FailTask(code, "");
      FollowsNone(before, failure, false);
      CarriedFollows(before, before + failure, failure, false, false);
      return Broke(outcome);
    }

    /** One agent event; a plan ends planning. */
    method AgentEvent(status: Status, isPlan: bool) returns (ok: bool)
      requires Good() && db.task.status == status && (status == Planning || status == Executing)
      modifies this`calls, this`lost, db
      ensures Good() && old(db.events) <= db.events && Forward(old(db.task), db.task)
      ensures db.task.status == Planning || db.task.status == Executing
      ensures ok ==> db.task.status == if isPlan then Executing else status
      ensures Follows(old(Kinds(db.events)), Kinds(db.events), EventPlan(status, isPlan), false)
      ensures ok ==> Kinds(db.events) == old(Kinds(db.events)) + EventPlan(status, isPlan)
      ensures Faultless() && old(Leased()) ==> ok && Leased()
    {
      hide Kinds, StageMove, Inv, AllHonest, Steady, KeySeen, CanTransition, Follows;
      ghost var before, plan := Kinds(db.events), EventPlan(status, isPlan);
      FollowsNone(before, plan, false);
      FollowsPrefix(before, [Note("agent.event")], plan, false);
      FollowsPrefix(before, plan, plan, false);
      ok := Append("agent.event", "agent");
      if ok && isPlan && status == Planning {
        ok := Transition(Executing);
        assert before + [Note("agent.event")] + [StageMove(Planning, Executing)] ==
               before + [Note("agent.event"), StageMove(Planning, Executing)];
      }
    }

    /** Records every agent event in order; the first plan, if any, ends planning. */
    method RunSession(entered: Status) returns (ok: bool, status: Status)
      requires Good() && db.task.status == entered && (entered == Planning || entered == Executing)
      modifies this`calls, this`lost, db
      ensures Good() && old(db.events) <= db.events && Forward(old(db.task), db.task)
      ensures db.task.status == Planning || db.task.status == Executing
      ensures ok ==> db.task.status == status
      ensures ok ==> status == if entered == Planning && true in fate.session then Executing else entered
      ensures ok ==> status == AfterSession(fate.session, entered)
      ensures ok ==> Kinds(db.events) == old(Kinds(db.events)) + SessionPlan(fate.session, entered)
      ensures Follows(old(Kinds(db.events)), Kinds(db.events), SessionPlan(fate.session, entered), false)
      ensures Faultless() && old(Leased()) ==> ok && Leased()
    {
      hide Kinds, SessionPlan, EventPlan, Inv, AllHonest, Steady, KeySeen, CanTransition, Follows;
      status := entered;
      ghost var before := Kinds(db.events);
      SessionStarts(before, fate.session, entered);
      for k := 0 to |fate.session|
        invariant Good() && old(db.events) <= db.events && Forward(old(db.task), db.task)
        invariant db.task.status == status && (status == Planning || status == Executing)
        invariant status == AfterSession(fate.session[..k], entered)
        invariant Kinds(db.events) == before + SessionPlan(fate.session[..k], entered)
        invariant Faultless() && old(Leased()) ==> Leased()
      {
        ghost var now := Kinds(db.events);
        ok := AgentEvent(status, fate.session[k]);
        SessionPlanStep(before, now, Kinds(db.events), fate.session, entered, k);
        if !ok {
          return;
        }
        if fate.session[k] {
          status := Executing;
        }
      }
      assert fate.session[..|fate.session|] == fate.session;
      FollowsPrefix(before, SessionPlan(fate.session, entered), SessionPlan(fate.session, entered), false);
      ok := true;
    }

    /** Session end still ends planning. */
    method EndSession(entered: Status) returns (ok: bool)
      requires Good() && db.task.status == entered && (entered == Planning || entered == Executing)
      modifies this`calls, this`lost, db
      ensures Good() && old(db.events) <= db.events && Forward(old(db.task), db.task)
      ensures db.task.status.Phase() == Running && (ok ==> db.task.status == Validating)
      ensures ok ==> Kinds(db.events) == old(Kinds(db.events)) + SessionEndPlan(entered)
      ensures Follows(old(Kinds(db.events)), Kinds(db.events), SessionEndPlan(entered), false)
      ensures Faultless() && old(Leased()) ==> ok && Leased()
    {
      hide Kinds, StageReason, Inv, AllHonest, Steady, KeySeen, CanTransition, Leased, Follows;
      ghost var before, plan := Kinds(db.events), SessionEndPlan(entered);
      FollowsNone(before, plan, false);
      FollowsPrefix(before, plan, plan, false);
      ok := true;
      if entered == Planning {
        ok := Transition(Executing);
        FollowsPrefix(before, [StageMove(Planning, Executing)], plan, false);
      }
      if ok {
        ok := Transition(Validating);
      }
    }

    /** Session end still ends planning; validation and evidence come before publishing. */
    method ValidateStage(entered: Status) returns (ok: bool)
      requires Good() && db.task.status == entered && (entered == Planning || entered == Executing)
      modifies this`calls, this`lost, db
      ensures Good() && old(db.events) <= db.events && Forward(old(db.task), db.task)
      ensures db.task.status.Phase() == Running && (ok ==> db.task.status == Publishing)
      ensures ok ==> Kinds(db.events) == old(Kinds(db.events)) + ValidationPlan(entered, fate.checks)
      ensures Follows(old(Kinds(db.events)), Kinds(db.events), ValidationPlan(entered, fate.checks), false)
      ensures Faultless() && old(Leased()) ==> ok && Leased()
    {
      hide Kinds, Notes, ValidationEvents, StageReason, SessionEndPlan, Inv, AllHonest, Steady, KeySeen,
           CanTransition, Leased, Follows;
      ghost var before := Kinds(db.events);
      ghost var ending, checking := SessionEndPlan(entered), Notes(ValidationEvents(fate.checks));
      ghost var publishing := [StageMove(Validating, Publishing)];
      ok := EndSession(entered);
      FollowsLonger(before, Kinds(db.events), ending, checking + publishing, false);
      assert ending + (checking + publishing) == ValidationPlan(entered, fate.checks);
      if ok {
        ok := AppendAll(ValidationEvents(fate.checks));
        FollowsThen(before, Kinds(db.events), ending, checking, false);
        FollowsLonger(before, Kinds(db.events), ending + checking, publishing, false);
      }
      if ok {
        ok := Transition(Publishing);
        FollowsPrefix(before, ending + checking + publishing, ending + checking + publishing, false);
      }
    }

    /** The workspace is ready; only an attempt that was provisioning still has to begin planning. */
    method EnterSession(entered: Status) returns (ok: bool, status: Status)
      requires Good() && db.task.status == entered
      requires entered == Provisioning || entered == Planning || entered == Executing
      modifies this`calls, this`lost, db
      ensures Good() && old(db.events) <= db.events && Forward(old(db.task), db.task)
      ensures db.task.status.Phase() == Running
      ensures ok ==> db.task.status == status && status == if entered == Provisioning then Planning else entered
      ensures ok ==> Kinds(db.events) == old(Kinds(db.events)) + ReadyPlan(entered)
      ensures Follows(old(Kinds(db.events)), Kinds(db.events), ReadyPlan(entered), false)
      ensures Faultless() && old(Leased()) ==> ok && Leased()
    {
      hide Kinds, StageMove, Inv, AllHonest, Steady, KeySeen, CanTransition, Leased, Follows;
      ghost var before, plan := Kinds(db.events), ReadyPlan(entered);
      FollowsNone(before, plan, false);
      FollowsPrefix(before, [Note("workspace.ready")], plan, false);
      FollowsPrefix(before, plan, plan, false);
      status := entered;
      ok := Append("workspace.ready", "runner");
      if ok && status == Provisioning {
        ok := Transition(Planning);
        status := Planning;
      }
    }

    /**
     * From a workspace that is ready to the end of validation: at publishing the log gained the whole plan
     * of these stages, a failed attempt's as well, and a stop leaves a part of it from its beginning.
     */
    method AgentStages(entered: Status) returns (r: Stages)
      requires Good() && db.task.status == entered
      requires entered == Provisioning || entered == Planning || entered == Executing
      modifies this`calls, this`lost, db
      ensures Good() && old(db.events) <= db.events && Forward(old(db.task), db.task)
      ensures r.At? ==> r.status == Publishing && db.task.status == Publishing
      ensures r.Broke? ==> !r.outcome.Done? && LeftAt(r.outcome, old(db.task))
      ensures db.task.status == Failed || db.task.status.Phase() == Running
      ensures r != Broke(Stopped) ==>
                (r.At? <==> fate.agentOk) && Kinds(db.events) == old(Kinds(db.events)) + AgentPlan(fate, entered)
      ensures r == Broke(AttemptFailed) ==> db.task.failureCode == "agent_failed"
      ensures Follows(old(Kinds(db.events)), Kinds(db.events), AgentPlan(fate, entered), false)
      ensures Faultless() && old(Leased()) ==> r != Broke(Stopped) && Leased()
    {
      hide Kinds, StageMove, AgentPlan, ReadyPlan, SessionPlan, ValidationPlan, AfterSession, Inv, AllHonest,
           CanTransition, Leased,
           Follows, Faultless;
      ghost var before := Kinds(db.events);
      var ok, status := EnterSession(entered);
      AgentPlanEntered(before, Kinds(db.events), fate, entered);
      if !ok {
        return Broke(Stopped);
      }
      ghost var ready := Kinds(db.events);
      ok, status := RunSession(status);
      AgentPlanSession(before, ready, Kinds(db.events), fate, entered);
      if !ok {
        return Broke(Stopped);
      }
      ghost var ended := Kinds(db.events);
      if fate.agentOk {
        ok := ValidateStage(status);
        r := if ok then At(Publishing) else Broke(Stopped);
      } else {
        r := FailStage("agent_failed");
      }
      AgentPlanEnded(before, ready, ended, Kinds(db.events), fate, entered);
    }

    /**
     * Removes the workspace: a temporary directory unless the process died, a git one behind a fence of its
     * own. Neither a deadline nor a stop keeps it from doing so.
     */
    method CleanUp() returns (ok: bool)
      requires Healthy()
      modifies this`calls, this`lost, db
      ensures Healthy() && db.task == old(db.task) && |db.attempts| == old(|db.attempts|)
      ensures old(db.events) <= db.events && (ok || Dead() || (publishes && lost))
      ensures Kinds(db.events) == if ok then old(Kinds(db.events)) + [CLEANED] else old(Kinds(db.events))
      ensures Faultless() && old(Leased()) ==> ok && Leased()
    {
      hide Inv, AllHonest, Steady, Kinds, Appended, AppendAttemptEvent;
      ok := !Dead() && !(publishes && lost);
      if ok && publishes {
        ok := Renew();
        ok := ok && !Dead();
      }
      if ok {
        NoteSound(db.State(), attempt, "cleanup.completed", "runner");
        var err := tasks.AppendAttemptEvent(attempt, "cleanup.completed", "runner");
      }
    }

    /** Commit, push, pull request and check run, as far as the work and the services allow. */
    method PublishFromWorkspace() returns (r: Stages)
      requires Good() && db.task.status == Publishing
      modifies this`calls, this`lost, db
      ensures Good() && old(db.events) <= db.events && Forward(old(db.task), db.task)
      ensures r.At? ==> r.status == Publishing && db.task == old(db.task)
      ensures r.Broke? ==> !r.outcome.Done? && LeftAt(r.outcome, old(db.task))
      ensures r.Broke? ==> db.task.status == Failed || db.task.status.Phase() == Running
      ensures r != Broke(Stopped) ==> (r.At? <==> fate.publishing.Published?)
      ensures r.At? ==> Kinds(db.events) == old(Kinds(db.events)) + Notes(PublishingEvents(fate.publishing))
      ensures r == Broke(AttemptFailed) ==>
                && db.task.failureCode == PublishingFailure(fate.publishing)
                && Kinds(db.events) ==
                   old(Kinds(db.events)) + Notes(PublishingEvents(fate.publishing)) + [Failure(Publishing)]
      ensures r == Broke(Stopped) ==>
                Follows(old(Kinds(db.events)), Kinds(db.events), Notes(PublishingEvents(fate.publishing)), false)
      ensures Faultless() && old(Leased()) ==> r != Broke(Stopped) && Leased()
    {
      hide Kinds, Notes, PublishingEvents, Inv, AllHonest, Steady, KeySeen, CanTransition, Leased, Follows;
      var ok := AppendAll(PublishingEvents(fate.publishing));
      if !ok {
        return Broke(Stopped);
      }
      FollowsPrefix(old(Kinds(db.events)), Notes(PublishingEvents(fate.publishing)),
                    Notes(PublishingEvents(fate.publishing)), false);
      if !fate.publishing.Published? {
        r := FailStage(if fate.publishing.NothingNew? then "no_change"
                       else if fate.publishing.BaseMoved? then "base_mismatch" else "publish_failed");
        return;
      }
      return At(Publishing);
    }

    /** Published from its workspace, which is then removed, the task goes to review. */
    method PublishStage() returns (r: Stages)
      requires Good() && db.task.status == Publishing
      modifies this`calls, this`lost, db
      ensures Good() && old(db.events) <= db.events && Forward(old(db.task), db.task)
      ensures r.At? ==> r.status == AwaitingReview && db.task.status == AwaitingReview
      ensures r.Broke? ==> !r.outcome.Done? && LeftAt(r.outcome, old(db.task))
      ensures r.Broke? ==> db.task.status == Failed || db.task.status.Phase() == Running
      ensures r != Broke(Stopped) ==> (r.At? <==> fate.publishing.Published?)
      ensures r.At? ==> Kinds(db.events) == old(Kinds(db.events)) + PublishPlan(fate.publishing)
      ensures r == Broke(AttemptFailed) ==>
                && db.task.failureCode == PublishingFailure(fate.publishing)
                && Carried(old(Kinds(db.events)), Kinds(db.events), PublishPlan(fate.publishing), Dead() || lost)
      ensures Follows(old(Kinds(db.events)), Kinds(db.events), PublishPlan(fate.publishing), false)
      ensures Faultless() && old(Leased()) ==>
                && Leased() && r != Broke(Stopped)
                && Kinds(db.events) == old(Kinds(db.events)) + PublishPlan(fate.publishing)
    {
      hide Kinds, Notes, PublishingEvents, PublishingFailure, PublishPlan, StageMove, Inv, AllHonest, CanTransition,
           Follows, Carried, Leased, Faultless;
      ghost var before := Kinds(db.events);
      r := PublishFromWorkspace();
      if r == Broke(Stopped) {
        PublishStops(before, Kinds(db.events), fate.publishing);
        return;
      }
      var cleaned := CleanUp();
      if r.Broke? {
        PublishFails(before, fate.publishing, Dead() || lost);
        return;
      }
      PublishSucceeds(before);
      if !cleaned {
        return Broke(Stopped);
      }
      var ok := Transition(AwaitingReview);
      return if ok then At(AwaitingReview) else Broke(Stopped);
    }

    /**
     * The agent stages, with the workspace removed afterwards unless a later owner may still need it. The
     * temporary directory of a task without publishing goes however the stages ended.
     */
    method RunAgentStages(entered: Status) returns (r: Stages)
      requires Good() && db.task.status == entered
      requires entered == Provisioning || entered == Planning || entered == Executing
      modifies this`calls, this`lost, db
      ensures Good() && old(db.events) <= db.events && Forward(old(db.task), db.task)
      ensures r.At? ==> r.status == db.task.status && r.status == if publishes then AwaitingReview else Publishing
      ensures r.Broke? ==> !r.outcome.Done? && LeftAt(r.outcome, old(db.task))
      ensures r.Broke? ==> db.task.status == Failed || db.task.status.Phase() == Running
      ensures r != Broke(Stopped) ==> 
                (r.At? <==> fate.workspaceOk && fate.agentOk && (publishes ==> fate.publishing.Published?))
      ensures r.At? ==> Kinds(db.events) == old(Kinds(db.events)) + RunPlan(fate, publishes, entered)
      ensures r == Broke(AttemptFailed) ==>
                && db.task.failureCode == RunFailure(fate, publishes)
                && Carried(old(Kinds(db.events)), Kinds(db.events), RunPlan(fate, publishes, entered), Dead() || lost)
      ensures Follows(old(Kinds(db.events)), Kinds(db.events), RunPlan(fate, publishes, entered), !publishes)
      ensures !publishes && fate.workspaceOk && !Dead() && |db.events| > |old(db.events)| ==>
                db.events[|db.events| - 1].kind == Note("cleanup.completed")
      ensures Faultless() && old(Leased()) ==>
                && Leased() && r != Broke(Stopped)
                && Kinds(db.events) == old(Kinds(db.events)) + RunPlan(fate, publishes, entered)
    {
      hide Kinds, StageMove, AgentPlan, PublishPlan, RunPlan, PublishingFailure, Inv, AllHonest, CanTransition,
           Follows, Carried, Leased, Faultless;
      ghost var before := Kinds(db.events);
      RunPlanStarts(before, fate, publishes, entered);
      var ok := Append("workspace.provisioning", "runner");
      if !ok {
        return Broke(Stopped);
      }
      ghost var started := Kinds(db.events);
      if !fate.workspaceOk {
        r := FailStage("workspace_failed");
        RunPlanFails(before, started, Kinds(db.events), fate, publishes, entered, Dead() || lost);
        return;
      }
      r := AgentStages(entered);
      ghost var worked := Kinds(db.events);
      if publishes && r.At? {
        r := PublishStage();
        RunPlanPublishes(before, worked, Kinds(db.events), fate, entered, Dead() || lost);
      } else if publishes && r == Broke(Stopped) {
        RunPlanWorks(before, started, worked, worked, fate, publishes, entered, Dead() || lost);
      } else {
        var cleaned := CleanUp();
        RunPlanWorks(before, started, worked, Kinds(db.events), fate, publishes, entered, Dead() || lost);
        if !cleaned && r.At? {
          r := Broke(Stopped);
        }
      }
    }

    /** A dead owner's publishing: from its surviving worktree, else from the pushed branch, else the work is gone. */
    method PublishRecovered() returns (r: Stages)
      requires Good() && db.task.status == Publishing
      modifies this`calls, this`lost, db
      ensures Good() && old(db.events) <= db.events && Forward(old(db.task), db.task)
      ensures r.At? ==> r.status == AwaitingReview && db.task.status == AwaitingReview
      ensures r.Broke? ==> !r.outcome.Done? && LeftAt(r.outcome, old(db.task))
      ensures r.Broke? ==> db.task.status == Failed || db.task.status.Phase() == Running
      ensures r != Broke(Stopped) ==> (r.At? <==> RecoveredFailure(fate) == "")
      ensures r.At? ==> Kinds(db.events) == old(Kinds(db.events)) + RecoveredPlan(fate)
      ensures r == Broke(AttemptFailed) ==>
                && db.task.failureCode == RecoveredFailure(fate)
                && Carried(old(Kinds(db.events)), Kinds(db.events), RecoveredPlan(fate), Dead() || lost)
      ensures Follows(old(Kinds(db.events)), Kinds(db.events), RecoveredPlan(fate), false)
      ensures Faultless() && old(Leased()) ==>
                && Leased() && r != Broke(Stopped)
                && Kinds(db.events) == old(Kinds(db.events)) + RecoveredPlan(fate)
    {
      hide Kinds, Notes, PublishPlan, StageMove, Inv, AllHonest, CanTransition, Follows, Carried, Leased, Faultless;
      match fate.found {
      case Unrecorded =>
        r := FailStage("publish_state_missing");
      case NothingPushed =>
        r := FailStage("workspace_lost");
      case Unreachable =>
        r := FailStage("publish_failed");
      case Worktree =>
        r := PublishStage();
      case PushedBranch =>
        r := PublishPushed();
      }
      CarriedWhole(old(Kinds(db.events)), RecoveredPlan(fate), Dead() || lost);
    }

    /** The branch is pushed already: its pull request and check run are refreshed. */
    method PublishPushed() returns (r: Stages)
      requires Good() && db.task.status == Publishing && fate.found.PushedBranch?
      modifies this`calls, this`lost, db
      ensures Good() && old(db.events) <= db.events && Forward(old(db.task), db.task)
      ensures r.At? ==> r.status == AwaitingReview && db.task.status == AwaitingReview
      ensures r.Broke? ==> !r.outcome.Done? && LeftAt(r.outcome, old(db.task))
      ensures r.Broke? ==> db.task.status == Failed || db.task.status.Phase() == Running
      ensures r != Broke(Stopped) ==>
                && (r.At? <==> !fate.publishing.GitHubFails?)
                && Kinds(db.events) == old(Kinds(db.events)) + RecoveredPlan(fate)
      ensures r == Broke(AttemptFailed) ==> db.task.failureCode == "publish_failed"
      ensures Follows(old(Kinds(db.events)), Kinds(db.events), RecoveredPlan(fate), false)
      ensures Faultless() && old(Leased()) ==> r != Broke(Stopped) && Leased()
    {
      hide Kinds, Notes, StageMove, Inv, AllHonest, CanTransition, Follows, Leased, Faultless;
      if fate.publishing.GitHubFails? {
        r := FailStage("publish_failed");
        return;
      }
      ghost var before, notes := Kinds(db.events), Notes(["pull_request.updated", "github.check_run.updated"]);
      var ok := AppendAll(["pull_request.updated", "github.check_run.updated"]);
      FollowsLonger(before, Kinds(db.events), notes, [StageMove(Publishing, AwaitingReview)], false);
      if ok {
        ok := Transition(AwaitingReview);
        assert before + notes + [StageMove(Publishing, AwaitingReview)] == before + RecoveredPlan(fate);
        FollowsPrefix(before, RecoveredPlan(fate), RecoveredPlan(fate), false);
      }
      return if ok then At(AwaitingReview) else Broke(Stopped);
    }

    /** Validation was cut off and its workspace is gone: the missing result is recorded, never a pass. */
    method RecoverValidation() returns (ok: bool)
      requires Good() && db.task.status == Validating
      modifies this`calls, this`lost, db
      ensures Good() && old(db.events) <= db.events && Forward(old(db.task), db.task)
      ensures db.task.status == if ok then Publishing else Validating
      ensures ok ==> Kinds(db.events) == old(Kinds(db.events)) + LostValidationPlan()
      ensures Follows(old(Kinds(db.events)), Kinds(db.events), LostValidationPlan(), false)
      ensures Faultless() && old(Leased()) ==> ok && Leased()
    {
      hide Kinds, Notes, StageMove, Inv, AllHonest, CanTransition, Follows, Leased, Faultless;
      ghost var before, notes := Kinds(db.events), Notes(["validation.completed", "evidence.generated"]);
      ok := AppendAll(["validation.completed", "evidence.generated"]);
      FollowsLonger(before, Kinds(db.events), notes, [StageMove(Validating, Publishing)], false);
      if ok {
        ok := Transition(Publishing);
        assert before + notes + [StageMove(Validating, Publishing)] == before + LostValidationPlan();
        FollowsPrefix(before, LostValidationPlan(), LostValidationPlan(), false);
      }
    }

    /** Everything the claimed status still misses up to publishing. */
    method ReachPublishing() returns (r: Stages)
      requires Good() && Runners.Claimable(db.task) && (publishes ==> db.task.hasRepository)
      modifies this`calls, this`lost, db
      ensures Good() && old(db.events) <= db.events && Forward(old(db.task), db.task)
      ensures r.At? ==> r.status == db.task.status && (r.status == Publishing || r.status == AwaitingReview)
      ensures r.Broke? ==> !r.outcome.Done? && LeftAt(r.outcome, old(db.task))
      ensures r.Broke? ==> db.task.status != AwaitingReview
      ensures r.At? ==>
                && Reached(fate, publishes, old(db.task.status)) == Some(r.status)
                && Kinds(db.events) == old(Kinds(db.events)) + ReachPlan(fate, publishes, old(db.task.status))
      ensures r == Broke(AttemptFailed) ==>
                && Reached(fate, publishes, old(db.task.status)) == None
                && db.task.failureCode == ReachFailure(fate, publishes)
                && Carried(old(Kinds(db.events)), Kinds(db.events), ReachPlan(fate, publishes, old(db.task.status)),
                           Dead() || lost)
      ensures Follows(old(Kinds(db.events)), Kinds(db.events), ReachPlan(fate, publishes, old(db.task.status)),
                      !publishes)
      ensures Faultless() && old(Leased()) ==>
                && Leased() && (r.At? <==> Reached(fate, publishes, old(db.task.status)).Some?)
                && Kinds(db.events) == old(Kinds(db.events)) + ReachPlan(fate, publishes, old(db.task.status))
    {
      hide Kinds, Notes, StageMove, RunPlan, Inv, AllHonest, CanTransition, Follows, Carried, Leased, Faultless;
      ghost var before, claimed := Kinds(db.events), db.task.status;
      var status := db.task.status;
      if status == Queued {
        FollowsNone(before, ReachPlan(fate, publishes, claimed), !publishes);
        var ok := Transition(Provisioning);
        if !ok {
          return Broke(Stopped);
        }
        status := Provisioning;
      }
      ghost var queued := Kinds(db.events);
      r := ReachFrom(status);
      ReachPlanSplits(before, queued, Kinds(db.events), fate, publishes, claimed, Dead() || lost);
    }

    /** The stages behind provisioning's start, once the publishing target is resolved. */
    method ReachFrom(claimed: Status) returns (r: Stages)
      requires Good() && Runners.Claimable(db.task) && (publishes ==> db.task.hasRepository)
      requires db.task.status == claimed && claimed != Queued
      modifies this`calls, this`lost, db
      ensures Good() && old(db.events) <= db.events && Forward(old(db.task), db.task)
      ensures r.At? ==> r.status == db.task.status && (r.status == Publishing || r.status == AwaitingReview)
      ensures r.Broke? ==> !r.outcome.Done? && LeftAt(r.outcome, old(db.task))
      ensures r.Broke? ==> db.task.status != AwaitingReview
      ensures r.At? ==>
                && Reached(fate, publishes, claimed) == Some(r.status)
                && Kinds(db.events) == old(Kinds(db.events)) + ReachPlan(fate, publishes, claimed)
      ensures r == Broke(AttemptFailed) ==>
                && Reached(fate, publishes, claimed) == None && db.task.failureCode == ReachFailure(fate, publishes)
                && Carried(old(Kinds(db.events)), Kinds(db.events), ReachPlan(fate, publishes, claimed), Dead() || lost)
      ensures Follows(old(Kinds(db.events)), Kinds(db.events), ReachPlan(fate, publishes, claimed), !publishes)
      ensures Faultless() && old(Leased()) ==>
                && Leased() && (r.At? <==> Reached(fate, publishes, claimed).Some?)
                && Kinds(db.events) == old(Kinds(db.events)) + ReachPlan(fate, publishes, claimed)
    {
      hide Kinds, StageMove, RunPlan, Inv, AllHonest, CanTransition, Follows, Carried, Leased, Faultless;
      ghost var before := Kinds(db.events);
      ReachPlanFrom(before, fate, publishes, claimed);
      if publishes && fate.target.Unavailable? {
        r := FailStage("publishing_unavailable");
        CarriedWhole(before, [Failure(claimed)], Dead() || lost);
        return;
      }
      if publishes && fate.target.Unresolved? {
        return Broke(Stopped);
      }
      if claimed == Provisioning || claimed == Planning || claimed == Executing {
        r := RunAgentStages(claimed);
        return;
      }
      if claimed == Validating {
        var ok := RecoverValidation();
        FollowsLoose(before, Kinds(db.events), LostValidationPlan(), !publishes);
        return if ok then At(Publishing) else Broke(Stopped);
      }
      return At(claimed);
    }

    method FinishPublishing() returns (r: Stages)
      requires Good() && db.task.status == Publishing
      modifies this`calls, this`lost, db
      ensures Good() && old(db.events) <= db.events && Forward(old(db.task), db.task)
      ensures r.At? ==> r.status == AwaitingReview && db.task.status == AwaitingReview
      ensures r.Broke? ==> !r.outcome.Done? && LeftAt(r.outcome, old(db.task))
      ensures r.Broke? ==> db.task.status == Failed || db.task.status.Phase() == Running
      ensures r.At? ==> Kinds(db.events) == old(Kinds(db.events)) + FinishPlan(fate, publishes)
      ensures r != Broke(Stopped) ==> (r.At? <==> !publishes || RecoveredFailure(fate) == "")
      ensures r == Broke(AttemptFailed) ==>
                && db.task.failureCode == RecoveredFailure(fate)
                && Carried(old(Kinds(db.events)), Kinds(db.events), FinishPlan(fate, publishes), Dead() || lost)
      ensures Follows(old(Kinds(db.events)), Kinds(db.events), FinishPlan(fate, publishes), false)
      ensures Faultless() && old(Leased()) ==>
                && Leased() && r != Broke(Stopped)
                && Kinds(db.events) == old(Kinds(db.events)) + FinishPlan(fate, publishes)
    {
      hide Kinds, RecoveredPlan, RecoveredFailure, StageMove, Inv, AllHonest, CanTransition, Follows, Carried, Leased,
           Faultless;
      if publishes {
        r := PublishRecovered();
        return;
      }
      ghost var before, plan := Kinds(db.events), FinishPlan(fate, publishes);
      FollowsNone(before, plan, false);
      FollowsPrefix(before, [Note("publishing.skipped")], plan, false);
      FollowsPrefix(before, plan, plan, false);
      var ok := Append("publishing.skipped", "runner");
      if ok {
        ok := Transition(AwaitingReview);
        assert before + [Note("publishing.skipped")] + [StageMove(Publishing, AwaitingReview)] == before + plan;
      }
      r := if ok then At(AwaitingReview) else Broke(Stopped);
    }

    /** Everything the claimed status still misses up to review. */
    method ReachReview() returns (r: Stages)
      requires Good() && Runners.Claimable(db.task) && (publishes ==> db.task.hasRepository)
      modifies this`calls, this`lost, db
      ensures Good() && old(db.events) <= db.events && Forward(old(db.task), db.task)
      ensures r.At? ==> r.status == AwaitingReview && db.task.status == AwaitingReview
      ensures r.Broke? ==> !r.outcome.Done? && LeftAt(r.outcome, old(db.task))
      ensures r.Broke? ==> db.task.status != AwaitingReview
      ensures r.At? ==>
                && Reached(fate, publishes, old(db.task.status)).Some?
                && Kinds(db.events) == old(Kinds(db.events)) + ReviewPlan(fate, publishes, old(db.task.status))
      ensures r == Broke(AttemptFailed) ==>
                && (publishes || Reached(fate, publishes, old(db.task.status)).None?)
                && db.task.failureCode == DriveFailure(fate, publishes, old(db.task.status))
                && Carried(old(Kinds(db.events)), Kinds(db.events), ReviewPlan(fate, publishes, old(db.task.status)),
                           Dead() || lost)
      ensures Follows(old(Kinds(db.events)), Kinds(db.events), ReviewPlan(fate, publishes, old(db.task.status)),
                      !publishes)
      ensures Faultless() && old(Leased()) ==>
                && Leased() && (r.At? || publishes || Reached(fate, publishes, old(db.task.status)).None?)
                && Kinds(db.events) == old(Kinds(db.events)) + ReviewPlan(fate, publishes, old(db.task.status))
      ensures Faultless() && old(Leased()) && fate.Able() ==> r.At?
    {
      hide Kinds, ReachPlan, FinishPlan, ReviewPlan, ReachFailure, RecoveredFailure, Inv, AllHonest, CanTransition,
           Follows, Carried, Leased, Faultless;
      ghost var before, claimed := Kinds(db.events), db.task.status;
      r := ReachPublishing();
      ghost var reached := Kinds(db.events);
      ReviewPlanReaches(before, reached, fate, publishes, claimed);
      if r.At? && r.status == Publishing {
        r := FinishPublishing();
        ReviewPlanFinishes(before, reached, Kinds(db.events), fate, publishes, claimed, Dead() || lost);
      }
    }

    /**
     * Re-enters at the claimed status and runs only the stages still missing. Without faults a task
     * with a publishing target ends in review and any other ends completed; cut off anywhere, it leaves its
     * task where a claim accepts it, except exactly for one with a repository and no publishing target
     * that is in review. The log gains the whole plan of the drive when it is not cut off, and otherwise a
     * part of it from its beginning; only removing a temporary directory may come on top.
     */
    method Drive() returns (outcome: Outcome)
      requires Good() && Runners.Claimable(db.task) && (publishes ==> db.task.hasRepository)
      modifies this`calls, this`lost, db
      ensures Good() && old(db.events) <= db.events && LeftAt(outcome, old(db.task))
      ensures outcome.Done? ==> db.task.status == if publishes then AwaitingReview else Completed
      ensures outcome.Stopped? ==>
                (!Runners.Claimable(db.task) <==>
                   db.task.status == AwaitingReview && db.task.hasRepository && !publishes)
      ensures outcome.Done? ==>
                Kinds(db.events) == old(Kinds(db.events)) + DrivePlan(fate, publishes, old(db.task.status))
      ensures outcome.AttemptFailed? ==>
                && db.task.failureCode == DriveFailure(fate, publishes, old(db.task.status))
                && Carried(old(Kinds(db.events)), Kinds(db.events), DrivePlan(fate, publishes, old(db.task.status)),
                           Dead() || lost)
      ensures Follows(old(Kinds(db.events)), Kinds(db.events), DrivePlan(fate, publishes, old(db.task.status)),
                      !publishes)
      ensures Faultless() && old(Leased()) ==>
                Leased() && Kinds(db.events) == old(Kinds(db.events)) + DrivePlan(fate, publishes, old(db.task.status))
      ensures Faultless() && old(Leased()) && fate.Able() ==> outcome.Done?
    {
      hide Kinds, StageMove, ReviewPlan, DrivePlan, DriveFailure, Reached, Inv, AllHonest, CanTransition, Follows,
           Carried, Leased, Faultless;
      ghost var before, claimed := Kinds(db.events), db.task.status;
      var r := ReachReview();
      DrivePlanReviewed(before, Kinds(db.events), fate, publishes, claimed);
      if r.Broke? {
        LeftClaimable(r.outcome, old(db.task), db.task);
        return r.outcome;
      }
      if !publishes {
        var ok := Transition(Completed);
        if !ok {
          LeftClaimable(Stopped, old(db.task), db.task);
          return Stopped;
        }
      }
      return Done;
    }

    /**
     * The whole execution: the entry fence, the drive, the settlement of a passed deadline and the release.
     * Once entered, a process that is not killed and did not lose its lease gives it back, however it ends.
     * A deadline that passed times the task out unless the lease is lost or provisioning never began. The log
     * gains what the drive records, and the timeout if there is one.
     */
    method Execute() returns (entered: bool, outcome: Outcome)
      requires Good() && Runners.Claimable(db.task) && (publishes ==> db.task.hasRepository)
      modifies this`calls, this`lost, db
      ensures Good() && old(db.events) <= db.events && Forward(old(db.task), db.task)
      ensures entered <==> !old(CutOff()) && old(Leased())
      ensures !entered ==> outcome.Stopped? && db.task == old(db.task) && db.events == old(db.events)
      ensures entered ==> Dead() || lost || !OwnsLease()
      ensures outcome.Done? ==> db.task.status == if publishes then AwaitingReview else Completed
      ensures outcome.Stopped? ==>
                (!Runners.Claimable(db.task) <==>
                   db.task.status == AwaitingReview && db.task.hasRepository && !publishes)
      ensures outcome.AttemptFailed? ==> !fate.Able() && (db.task.status == Failed || db.task.status == TimedOut)
      ensures entered && outcome.Stopped? && CutOff() && fate.cut.TimeUp? ==> lost || db.task.status == Queued
      ensures outcome.Done? ==>
                Kinds(db.events) == old(Kinds(db.events)) + DrivePlan(fate, publishes, old(db.task.status))
      ensures Driven(old(Kinds(db.events)), Kinds(db.events), DrivePlan(fate, publishes, old(db.task.status)),
                     !publishes, db.task.status == TimedOut)
      ensures Faultless() && old(Leased()) && fate.Able() ==> outcome.Done? && !OwnsLease()
    {
      hide Kinds, StageMove, DrivePlan, DriveFailure, Follows, Carried, Driven, Inv, AllHonest, CanTransition, Steady;
      ghost var before, claimed := Kinds(db.events), db.task.status;
      FollowsNone(before, DrivePlan(fate, publishes, claimed), !publishes);
      DriveEnds(before, before, DrivePlan(fate, publishes, claimed), !publishes, claimed);
      entered := Proceed();
      if !entered {
        return false, Stopped;
      }
      outcome := Drive();
      DriveEnds(before, Kinds(db.events), DrivePlan(fate, publishes, claimed), !publishes, db.task.status);
      if outcome.Stopped? && CutOff() && fate.cut.TimeUp? && !lost {
        outcome := TimeoutTask();
      }
      Release();
    }

    /** The lease is given back unless the process died or lost it. */
    method Release()
      requires Healthy()
      modifies db
      ensures Healthy() && db.task == old(db.task) && db.events == old(db.events)
      ensures |db.attempts| == old(|db.attempts|)
      ensures Dead() || lost || !OwnsLease()
    {
      hide Inv, AllHonest;
      if !Dead() && !lost {
        ReleaseKeeps(db.State(), attempt, runner);
        var err := runners.ReleaseLease(attempt, runner);
      }
    }

    ghost predicate OwnsLease()
      reads this, db
      requires 1 <= attempt <= |db.attempts|
    {
      db.attempts[attempt - 1].lease.Held? && db.attempts[attempt - 1].lease.owner == runner
    }
  }

  // ---- what the store calls above keep

  lemma KindsGrow(events: seq<Event>, attempt: nat, kind: Kind, source: string, key: Key)
    ensures Kinds(Appended(events, attempt, kind, source, key)) == Kinds(events) + [kind]
  {
  }

  lemma LeaseOnly(t: Tables, attempt: nat, runner: Runner, duration: int, now: Time)
    requires Inv(t) && AllHonest(t.events) && 1 <= attempt <= |t.attempts|
    ensures match Runners.Extend(t, attempt, runner, duration, now)
            case Err(_) =>
              !(t.attempts[attempt - 1].lease.Held? && t.attempts[attempt - 1].lease.owner == runner &&
                t.attempts[attempt - 1].lease.expires > now)
            case Ok(t') => Inv(t') && t'.task == t.task && t'.events == t.events && |t'.attempts| == |t.attempts| &&
                           t'.attempts[attempt - 1].lease == Held(runner, now + duration) &&
                           t.attempts[attempt - 1].lease.Held? && t.attempts[attempt - 1].lease.owner == runner &&
                           t.attempts[attempt - 1].lease.expires > now
  {
    hide Numbered, KeysOnce, MovesAtTheTop, AttemptsExist, Chronicle;
    FindNumber(t.attempts, t.task.status, attempt);
    TaskRuns.CallKeepsInv(t, TaskRuns.Call(TaskRuns.Extend(attempt, runner, duration), now));
  }

  lemma NoteSound(t: Tables, attempt: nat, eventType: string, source: string)
    requires Inv(t) && AllHonest(t.events) && 1 <= attempt <= |t.attempts| && ValidSource(source)
    ensures match AppendAttemptEvent(t, attempt, eventType, source)
            case Err(_) => false
            case Ok(t') => Inv(t') && AllHonest(t'.events) && t'.task == t.task && t'.attempts == t.attempts &&
                           t.events <= t'.events && Kinds(t'.events) == Kinds(t.events) + [Note(eventType)]
  {
    hide Inv, AllHonest, Appended, Kinds;
    KindsGrow(t.events, attempt, Note(eventType), source, NoKey);
    AttemptListed(t, attempt);
    TaskRuns.AppendAttemptEventKeeps(t, attempt, eventType, source);
    AppendHonest(t.events, attempt, Note(eventType), source, NoKey);
  }

  lemma AttemptListed(t: Tables, attempt: nat)
    requires Inv(t) && 1 <= attempt <= |t.attempts|
    ensures HasAttempt(t, attempt)
  {
    hide Numbered, KeysOnce, MovesAtTheTop, AttemptsExist, Chronicle;
    assert t.attempts[attempt - 1] in t.attempts;
  }

  /** A move that starts no attempt keeps repository and leases. */
  lemma MoveStays(t: Tables, p: TransitionParams, now: Time)
    requires Inv(t) && CanTransition(t.task.status, p.to) && p.to != Queued
    ensures var t' := Move(t, p, |t.attempts| - 1, now);
            && t'.task.status == p.to && t'.task.hasRepository == t.task.hasRepository && SameLeases(t, t')
  {
    hide Inv;
    InvFacts(t);
    MoveLeavesLeases(t, p, |t.attempts| - 1, now);
  }

  /** What a stage transition of any attempt can do. */
  lemma TransitionEffect(t: Tables, attempt: nat, publishes: bool, to: Status, now: Time)
    requires Inv(t) && AllHonest(t.events) && 1 <= attempt <= |t.attempts| && (to.Driven() || to == Completed)
    ensures match ApplyTransition(t, StageParams(attempt, to), now)
            case Err(_) => !(attempt == |t.attempts| && NextStage(t.task.status, publishes) == Some(to))
            case Ok(t') =>
              && Inv(t') && AllHonest(t'.events) && t.events <= t'.events && SameLeases(t, t')
              && t'.task.hasRepository == t.task.hasRepository && KeySeen(t'.events, StageKey(attempt, to))
              && (t' == t || (t'.task.status == to && CanTransition(t.task.status, to)))
              && (attempt < |t.attempts| && to.Driven() ==> t' == t)
              && (attempt == |t.attempts| && NextStage(t.task.status, publishes) == Some(to)
                  ==> t'.task.status == to
                      && Kinds(t'.events) == Kinds(t.events) + [StageMove(t.task.status, to)])
  {
    hide Kinds, Inv, AllHonest, SameLeases, StageReason, KeySeen, Move, CanTransition, HasMove;
    var p := StageParams(attempt, to);
    LeasesStay(t);
    InvFacts(t);
    if attempt < |t.attempts| && to.Driven() {
      SupersededReplays(t, attempt, to, now);
      SupersededPassedAll(t, attempt, to);
      KeyIffReached(t.events, attempt, to);
    } else {
      TransitionHonest(t, p, now);
      if NextStage(t.task.status, publishes) == Some(to) && attempt == |t.attempts| {
        CurrentApplies(t, Exec(attempt, 0, 0, t.task.status, publishes, true, None), to, now);
      }
      if !Replay(t, p.key) && CanTransition(t.task.status, to) {
        FreshMove(t, p, now);
        MoveStays(t, p, now);
        MoveKinds(t, p, now);
      }
    }
  }

  lemma MoveKinds(t: Tables, p: TransitionParams, now: Time)
    requires Inv(t)
    ensures |t.attempts| >= 1
    ensures Kinds(Move(t, p, |t.attempts| - 1, now).events) == Kinds(t.events) + [Moved(t.task.status, p.to, p.reason)]
  {
    hide Inv, MovedAttempts, MovedTask;
    InvFacts(t);
    KindsGrow(t.events, EventAttempt(t, p, |t.attempts| - 1), Moved(t.task.status, p.to, p.reason), SourceOf(p), p.key);
  }

  lemma LeasesStay(t: Tables)
    ensures SameLeases(t, t)
  {
  }

  lemma RunningFails(status: Status)
    ensures status.Phase() == Running ==> CanTransition(status, Failed)
  {
  }

  lemma RunningTimesOut(status: Status)
    ensures status.Phase() == Running || status == AwaitingReview ==> CanTransition(status, TimedOut)
  {
  }

  /** What failing or timing out can do, whoever asks. */
  lemma SettleKeeps(t: Tables, p: TransitionParams, now: Time)
    requires Inv(t) && AllHonest(t.events) && (p.to == Failed || p.to == TimedOut) && Settling(p.key)
    requires ValidSource(SourceOf(p)) && p.expectedVersion == 0
    ensures match ApplyTransition(t, p, now)
            case Err(_) => !CanTransition(t.task.status, p.to)
            case Ok(t') =>
              && Inv(t') && AllHonest(t'.events) && t.events <= t'.events && SameLeases(t, t')
              && if Replay(t, p.key) then t' == t && t.task.status.Terminal()
                 else t'.task.status == p.to && CanTransition(t.task.status, p.to)
                      && t'.task.hasRepository == t.task.hasRepository
                      && (p.failureCode != "" ==> t'.task.failureCode == p.failureCode)
                      && Kinds(t'.events) == Kinds(t.events) + [Moved(t.task.status, p.to, p.reason)]
  {
    hide Inv, AllHonest, KeySeen, Move, CanTransition, Kinds, SameLeases;
    TransitionHonest(t, p, now);
    LeasesStay(t);
    if !t.task.status.Terminal() {
      UnsettledWhileUnfinished(t, p.key);
    }
    if !Replay(t, p.key) && CanTransition(t.task.status, p.to) {
      FreshMove(t, p, now);
      MoveStays(t, p, now);
      MoveKinds(t, p, now);
      CodeStored(t, p, now);
    } else if !Replay(t, p.key) {
      assert ApplyTransition(t, p, now).Err?;
    }
  }

  lemma CodeStored(t: Tables, p: TransitionParams, now: Time)
    requires Inv(t)
    ensures |t.attempts| >= 1
    ensures p.failureCode != "" ==> Move(t, p, |t.attempts| - 1, now).task.failureCode == p.failureCode
  {
    hide MovedAttempts, Appended;
  }

  lemma LeftClaimable(outcome: Outcome, before: TaskRow, row: TaskRow)
    requires Runners.Claimable(before) && Forward(before, row) && (outcome.Stopped? ==> !row.status.Terminal())
    ensures outcome.Stopped? ==> Runners.Claimable(row) || (row.status == AwaitingReview && row.hasRepository)
  {
  }

  lemma ReleaseKeeps(t: Tables, attempt: nat, runner: Runner)
    requires Inv(t) && AllHonest(t.events) && 1 <= attempt <= |t.attempts|
    ensures match Runners.Release(t, attempt, runner)
            case Err(_) => !(t.attempts[attempt - 1].lease.Held? && t.attempts[attempt - 1].lease.owner == runner)
            case Ok(t') => Inv(t') && t'.task == t.task && t'.events == t.events && |t'.attempts| == |t.attempts| &&
                           t'.attempts[attempt - 1].lease == Free
  {
    hide Numbered, KeysOnce, MovesAtTheTop, AttemptsExist, Chronicle;
    FindNumber(t.attempts, t.task.status, attempt);
    TaskRuns.CallKeepsInv(t, TaskRuns.Call(TaskRuns.Release(attempt, runner), 0));
  }
}
