/** Leases inside the stores' runs: each attempt's lease obeys the lease calls made on it, and fenced writes hold it. */
module LeaseRuns {
  import opened Lifecycle
  import opened Records
  import opened TaskSpec
  import opened TaskHistory
  import Fleet
  import FleetTheorems
  import Leases
  import Runners = RunnerSpec
  import StaleExecutors
  import TaskRuns

  // ---- one attempt's lease along a run of the stores

  /** What a store call means for the lease of attempt n; a call that is none of its business is refused. */
  function Projected(t: Tables, c: TaskRuns.Call, n: nat): Leases.LeaseCall
    requires 1 <= n <= |t.attempts|
  {
    match c.op
    case Claim(a, r, d) =>
      Leases.LeaseCall(Leases.Claim, r, d, c.now,
                       a == n && t.attempts[n - 1].status.Active? && Runners.Claimable(t.task))
    case Extend(a, r, d) =>
      if a == n then Leases.LeaseCall(Leases.Extend, r, d, c.now, false) else Nothing(c.now)
    case Release(a, r) =>
      if a == n then Leases.LeaseCall(Leases.Release, r, 0, c.now, false) else Nothing(c.now)
    case _ => Nothing(c.now)
  }

  function Nothing(now: Time): Leases.LeaseCall {
    Leases.LeaseCall(Leases.Claim, 0, 0, now, false)
  }

  lemma TransitionKeepsLease(t: Tables, p: TransitionParams, now: Time, n: nat)
    requires Inv(t) && 1 <= n <= |t.attempts|
    ensures match ApplyTransition(t, p, now)
            case Err(_) => true
            case Ok(t') => n <= |t'.attempts| && t'.attempts[n - 1].lease == t.attempts[n - 1].lease
  {
    hide Inv, Appended, CanTransition, KeySeen, MovedTask, MovedAttempts;
    FleetTheorems.InvFacts(t);
    MovedKeepsLease(t, p, |t.attempts| - 1, now, n);
  }

  lemma MovedKeepsLease(t: Tables, p: TransitionParams, i: nat, now: Time, n: nat)
    requires i < |t.attempts| && 1 <= n <= |t.attempts|
    ensures var attempts := MovedAttempts(t, p, i, now);
            n <= |attempts| && attempts[n - 1].lease == t.attempts[n - 1].lease
  {
  }

  lemma RevisionKeepsLease(t: Tables, r: RevisionParams, now: Time, n: nat)
    requires Inv(t) && 1 <= n <= |t.attempts|
    ensures match TaskSpec.RequestRevision(t, r, now)
            case Err(_) => true
            case Ok(t') => n <= |t'.attempts| && t'.attempts[n - 1].lease == t.attempts[n - 1].lease
  {
    hide Inv, ApplyTransition, KeySeen;
    TransitionKeepsLease(t, RevisionStart(r), now, n);
    TransitionKeeps(t, RevisionStart(r), now);
    match ApplyTransition(t, RevisionStart(r), now)
    case Err(_) =>
    case Ok(mid) => TransitionKeepsLease(mid, RevisionRequeue(r), now, n);
  }

  lemma ClaimStatement(t: Tables, c: TaskRuns.Call, n: nat)
    requires AttemptStructure(t.attempts, t.task.status) && 1 <= n <= |t.attempts| && c.op.Claim?
    ensures var attempts := TaskRuns.After(t, c).attempts;
            && |attempts| == |t.attempts|
            && attempts[n - 1].lease == Leases.AfterCall(t.attempts[n - 1].lease, Projected(t, c, n))
  {
    StaleExecutors.FindNumber(t.attempts, t.task.status, n);
    FoundAt(t, c.op.attempt);
    hide AttemptStructure, Runners.Find;
  }

  lemma HolderStatement(t: Tables, c: TaskRuns.Call, n: nat)
    requires AttemptStructure(t.attempts, t.task.status) && 1 <= n <= |t.attempts| && (c.op.Extend? || c.op.Release?)
    ensures var attempts := TaskRuns.After(t, c).attempts;
            && |attempts| == |t.attempts|
            && attempts[n - 1].lease == Leases.AfterCall(t.attempts[n - 1].lease, Projected(t, c, n))
  {
    StaleExecutors.FindNumber(t.attempts, t.task.status, n);
    FoundAt(t, c.op.attempt);
    hide AttemptStructure, Runners.Find;
  }

  lemma FoundAt(t: Tables, a: nat)
    requires AttemptStructure(t.attempts, t.task.status)
    ensures Runners.Find(t.attempts, a).Some? ==> Runners.Find(t.attempts, a).value == a - 1
  {
  }

  lemma ColumnStatement(t: Tables, c: TaskRuns.Call, n: nat)
    requires 1 <= n <= |t.attempts|
    requires c.op.EnsureGitContext? || c.op.RecordBase? || c.op.RecordFinal? || c.op.RecordPullRequest?
             || c.op.AppendAttemptEvent? || c.op.AppendEvent?
    ensures var attempts := TaskRuns.After(t, c).attempts;
            |attempts| == |t.attempts| && attempts[n - 1].lease == t.attempts[n - 1].lease
  {
  }

  /** Every store call does to an attempt's lease what its projection does to a lease alone. */
  lemma CallIsLeaseCall(t: Tables, c: TaskRuns.Call, n: nat)
    requires Inv(t) && 1 <= n <= |t.attempts|
    ensures n <= |TaskRuns.After(t, c).attempts|
    ensures TaskRuns.After(t, c).attempts[n - 1].lease == Leases.AfterCall(t.attempts[n - 1].lease, Projected(t, c, n))
  {
    hide Numbered, KeysOnce, MovesAtTheTop, AttemptsExist, Chronicle, AttemptStructure, ApplyTransition,
         TaskSpec.RequestRevision, TaskSpec.AppendAttemptEvent, TaskSpec.AppendEvent;
    match c.op
    case Transition(p) => TransitionKeepsLease(t, p, c.now, n);
    case RequestRevision(r) => RevisionKeepsLease(t, r, c.now, n);
    case Cancel(reason) => TransitionKeepsLease(t, To(Cancelled, "api", reason, NoKey), c.now, n);
    case Claim(_, _, _) => ClaimStatement(t, c, n);
    case Extend(_, _, _) => HolderStatement(t, c, n);
    case Release(_, _) => HolderStatement(t, c, n);
    case _ => ColumnStatement(t, c, n);
  }

  lemma {:induction false} RunGrows(t: Tables, calls: seq<TaskRuns.Call>, n: nat)
    requires Inv(t) && 1 <= n <= |t.attempts|
    ensures Inv(TaskRuns.Run(t, calls)) && n <= |TaskRuns.Run(t, calls).attempts|
  {
    hide Inv, TaskRuns.After;
    if calls != [] {
      var init := calls[..|calls| - 1];
      RunGrows(t, init, n);
      CallIsLeaseCall(TaskRuns.Run(t, init), calls[|calls| - 1], n);
      TaskRuns.CallKeepsInv(TaskRuns.Run(t, init), calls[|calls| - 1]);
    }
  }

  /** The lease calls that a run makes on attempt n. */
  function LeaseCalls(t: Tables, calls: seq<TaskRuns.Call>, n: nat): (projected: seq<Leases.LeaseCall>)
    requires Inv(t) && 1 <= n <= |t.attempts|
    ensures |projected| == |calls|
    ensures forall i | 0 <= i < |calls| :: projected[i].now == calls[i].now
    decreases |calls|
  {
    if calls == [] then []
    else
      RunGrows(t, calls[..|calls| - 1], n);
      LeaseCalls(t, calls[..|calls| - 1], n)
      + [Projected(TaskRuns.Run(t, calls[..|calls| - 1]), calls[|calls| - 1], n)]
  }

  lemma {:induction false} LeaseAtPrefix(l: Lease, calls: seq<Leases.LeaseCall>, more: seq<Leases.LeaseCall>, i: nat)
    requires i <= |calls|
    ensures Leases.LeaseAt(l, calls + more, i) == Leases.LeaseAt(l, calls, i)
  {
    if i > 0 {
      LeaseAtPrefix(l, calls, more, i - 1);
    }
  }

  /** Along every run of the stores the lease of an attempt is what its lease calls alone make of it. */
  lemma {:induction false} RunIsLeaseRun(t: Tables, calls: seq<TaskRuns.Call>, n: nat)
    requires Inv(t) && 1 <= n <= |t.attempts|
    ensures n <= |TaskRuns.Run(t, calls).attempts|
    ensures TaskRuns.Run(t, calls).attempts[n - 1].lease ==
            Leases.LeaseAt(t.attempts[n - 1].lease, LeaseCalls(t, calls, n), |calls|)
    decreases |calls|
  {
    hide Inv, TaskRuns.After, Projected;
    var projected := LeaseCalls(t, calls, n);
    if calls != [] {
      var init := calls[..|calls| - 1];
      RunGrows(t, init, n);
      RunIsLeaseRun(t, init, n);
      CallIsLeaseCall(TaskRuns.Run(t, init), calls[|calls| - 1], n);
      LeaseAtPrefix(t.attempts[n - 1].lease, LeaseCalls(t, init, n), [projected[|calls| - 1]], |init|);
    }
  }

  /** So over every run of the stores no instant lies in the stays of two holders of one attempt. */
  lemma RunTenanciesDisjoint(t: Tables, calls: seq<TaskRuns.Call>, n: nat, i: nat, j: nat, at: Time)
    requires Inv(t) && 1 <= n <= |t.attempts| && t.attempts[n - 1].lease == Free && calls != []
    requires forall x, y | 0 <= x <= y < |calls| :: calls[x].now <= calls[y].now
    requires i < j < |Leases.Book(LeaseCalls(t, calls, n), |calls|)|
    ensures var book := Leases.Book(LeaseCalls(t, calls, n), |calls|);
            !(book[i].from <= at < book[i].until && book[j].from <= at < book[j].until)
  {
    hide Inv;
    Leases.TenanciesDisjoint(LeaseCalls(t, calls, n), i, j, at);
  }

  // ---- fenced writes of executors

  /** When an action happens; a crash has no instant. */
  function When(a: Fleet.Action): Option<Time> {
    match a
    case Launch(_, _, _, _, now) => Some(now)
    case Fence(_, now) => Some(now)
    case Advance(_, now) => Some(now)
    case Fail(_, _, _, now) => Some(now)
    case TimeOut(_, now) => Some(now)
    case Crash(_) => None
    case Other(call) => Some(call.now)
  }

  ghost predicate By(a: Fleet.Action, clock: Time) {
    When(a).Some? ==> When(a).value <= clock
  }

  /** Everybody uses the configured lease duration. */
  predicate OneDuration(a: Fleet.Action, duration: int) {
    match a
    case Launch(_, _, d, _, _) => d == duration
    case Other(call) =>
      (call.op.Claim? ==> call.op.duration == duration) && (call.op.Extend? ==> call.op.duration == duration)
    case _ => true
  }

  /** A runner gives an attempt's lease back only once no execution of its own stands behind a passed fence. */
  ghost predicate ReleasesLate(w: Fleet.World, a: Fleet.Action) {
    a.Other? && a.call.op.Release? ==>
      forall x <- w.execs ::
        !(x.live && x.fenced.Some? && x.attempt == a.call.op.attempt && x.runner == a.call.op.runner)
  }

  /** Instants never fall, leases last alike, and releases come late. */
  ghost predicate Orderly(w: Fleet.World, actions: seq<Fleet.Action>, duration: int) {
    && (forall i: nat, j: nat | i < j < |actions| && When(actions[j]).Some? :: By(actions[i], When(actions[j]).value))
    && (forall a <- actions :: OneDuration(a, duration))
    && (forall k: nat | k < |actions| :: ReleasesLate(Fleet.Run(w, actions[..k]), actions[k]))
  }

  /** Behind a passed fence the lease stays the executor's until it would have run out unextended. */
  ghost predicate Guarded(db: Tables, x: Fleet.Exec, clock: Time, duration: int) {
    && x.duration == duration
    && (x.live && x.fenced.Some? ==>
          && x.fenced.value <= clock && 1 <= x.attempt <= |db.attempts|
          && (clock <= x.fenced.value + duration ==>
                var l := db.attempts[x.attempt - 1].lease;
                l.Held? && l.owner == x.runner && l.expires >= x.fenced.value + duration))
  }

  ghost predicate AllGuarded(w: Fleet.World, clock: Time, duration: int) {
    forall x <- w.execs :: Guarded(w.db, x, clock, duration)
  }

  lemma LaterGuarded(w: Fleet.World, clock: Time, later: Time, duration: int)
    requires AllGuarded(w, clock, duration) && clock <= later
    ensures AllGuarded(w, later, duration)
  {
    forall x | x in w.execs
      ensures Guarded(w.db, x, later, duration)
    {
      assert Guarded(w.db, x, clock, duration);
    }
  }

  /** A store call keeps the guard of every executor it does not release. */
  lemma CallGuards(db: Tables, c: TaskRuns.Call, x: Fleet.Exec, duration: int)
    requires Inv(db) && Guarded(db, x, c.now, duration)
    requires (c.op.Claim? ==> c.op.duration == duration) && (c.op.Extend? ==> c.op.duration == duration)
    requires c.op.Release? ==>
               !(x.live && x.fenced.Some? && x.attempt == c.op.attempt && x.runner == c.op.runner)
    ensures Guarded(TaskRuns.After(db, c), x, c.now, duration)
  {
    hide Inv, TaskRuns.After;
    if x.live && x.fenced.Some? {
      CallIsLeaseCall(db, c, x.attempt);
    }
  }

  lemma CallGuardsAll(w: Fleet.World, w': Fleet.World, c: TaskRuns.Call, duration: int)
    requires Inv(w.db) && w'.db == TaskRuns.After(w.db, c) && AllGuarded(w, c.now, duration)
    requires forall x <- w'.execs :: x in w.execs || Guarded(w'.db, x, c.now, duration)
    requires (c.op.Claim? ==> c.op.duration == duration) && (c.op.Extend? ==> c.op.duration == duration)
    requires c.op.Release? ==>
               forall x <- w.execs ::
                 !(x.live && x.fenced.Some? && x.attempt == c.op.attempt && x.runner == c.op.runner)
    ensures AllGuarded(w', c.now, duration)
  {
    hide Inv, TaskRuns.After, Guarded;
    forall x | x in w'.execs
      ensures Guarded(w'.db, x, c.now, duration)
    {
      if x in w.execs {
        CallGuards(w.db, c, x, duration);
      }
    }
  }

  /** Executors that stopped, or whose fence is used up, need no guard. */
  lemma Unguarded(db: Tables, db': Tables, x: Fleet.Exec, y: Fleet.Exec, clock: Time, duration: int)
    requires Guarded(db, x, clock, duration) && y.duration == x.duration && (!y.live || y.fenced.None?)
    ensures Guarded(db', y, clock, duration)
  {
  }

  lemma LaunchGuards(w: Fleet.World, a: Fleet.Action, duration: int)
    requires FleetTheorems.Sound(w) && a.Launch? && a.duration == duration && AllGuarded(w, a.now, duration)
    ensures AllGuarded(Fleet.Step(w, a), a.now, duration)
  {
    hide Inv, TaskRuns.After, TaskRuns.Perform, Guarded;
    var c := TaskRuns.Call(TaskRuns.Claim(a.attempt, a.runner, a.duration), a.now);
    AfterPerform(w.db, c);
    var w' := Fleet.Step(w, a);
    if w' != w {
      var x := w'.execs[|w.execs|];
      StartsGuarded(w'.db, x, a.now, duration);
      CallGuardsAll(w, w', c, duration);
    }
  }

  lemma StartsGuarded(db: Tables, y: Fleet.Exec, clock: Time, duration: int)
    requires y.duration == duration && y.fenced.None?
    ensures Guarded(db, y, clock, duration)
  {
  }

  lemma AfterPerform(db: Tables, c: TaskRuns.Call)
    ensures TaskRuns.After(db, c) == match TaskRuns.Perform(db, c) case Ok(db') => db' case Err(_) => db
  {
  }

  lemma FenceGuards(w: Fleet.World, e: nat, now: Time, duration: int)
    requires FleetTheorems.Sound(w) && Fleet.Alive(w, e) && AllGuarded(w, now, duration)
    ensures AllGuarded(Fleet.Step(w, Fleet.Fence(e, now)), now, duration)
  {
    hide Inv, TaskRuns.After, Runners.Extend, Fleet.Fencing, FleetTheorems.AllHonest, FleetTheorems.Truthful;
    var x := w.execs[e];
    assert x in w.execs && Guarded(w.db, x, now, duration);
    StaleExecutors.FenceOutcome(w, e, now);
    StaleExecutors.ExtendIffHeld(w.db, x, now);
    var c := TaskRuns.Call(TaskRuns.Extend(x.attempt, x.runner, x.duration), now);
    FleetTheorems.ExtendIsCall(w.db, c);
    CallGuardsAll(w, Fleet.Step(w, Fleet.Fence(e, now)), c, duration);
  }

  /** A write behind a fence: a transition, whatever the store answers, after which the fence is used up. */
  lemma WriteGuards(w: Fleet.World, w': Fleet.World, e: nat, p: TransitionParams, now: Time, duration: int)
    requires FleetTheorems.Sound(w) && e < |w.execs| && AllGuarded(w, now, duration)
    requires w'.db == TaskRuns.After(w.db, TaskRuns.Call(TaskRuns.Transition(p), now))
    requires |w'.execs| == |w.execs| && w'.execs == w.execs[e := w'.execs[e]]
    requires w'.execs[e].duration == w.execs[e].duration && (!w'.execs[e].live || w'.execs[e].fenced.None?)
    ensures AllGuarded(w', now, duration)
  {
    hide Inv, TaskRuns.After, Guarded, FleetTheorems.AllHonest, FleetTheorems.Truthful;
    assert w.execs[e] in w.execs;
    Unguarded(w.db, w'.db, w.execs[e], w'.execs[e], now, duration);
    CallGuardsAll(w, w', TaskRuns.Call(TaskRuns.Transition(p), now), duration);
  }

  lemma AfterTransition(db: Tables, p: TransitionParams, now: Time)
    ensures TaskRuns.After(db, TaskRuns.Call(TaskRuns.Transition(p), now)) ==
            match ApplyTransition(db, p, now) case Ok(db') => db' case Err(_) => db
  {
    hide ApplyTransition;
  }

  lemma StoppedGuards(w: Fleet.World, e: nat, clock: Time, duration: int)
    requires e < |w.execs| && AllGuarded(w, clock, duration)
    ensures AllGuarded(w.(execs := w.execs[e := w.execs[e].(live := false)]), clock, duration)
  {
    hide Guarded;
    assert w.execs[e] in w.execs;
    Unguarded(w.db, w.db, w.execs[e], w.execs[e].(live := false), clock, duration);
  }

  lemma AdvanceGuards(w: Fleet.World, e: nat, now: Time, duration: int)
    requires FleetTheorems.Sound(w) && e < |w.execs| && AllGuarded(w, now, duration)
    ensures AllGuarded(Fleet.Advanced(w, e, now), now, duration)
  {
    hide FleetTheorems.Sound, AllGuarded, ApplyTransition, TaskRuns.After, Fleet.StageReason;
    var x := w.execs[e];
    StoppedGuards(w, e, now, duration);
    match Fleet.NextStage(x.local, x.publishes)
    case None =>
    case Some(to) => if x.fenced.Some? {
      AfterTransition(w.db, Fleet.StageParams(x.attempt, to), now);
      WriteGuards(w, Fleet.Advanced(w, e, now), e, Fleet.StageParams(x.attempt, to), now, duration);
    }
  }

  lemma SettleGuards(w: Fleet.World, e: nat, p: TransitionParams, now: Time, duration: int)
    requires FleetTheorems.Sound(w) && e < |w.execs| && AllGuarded(w, now, duration)
    ensures AllGuarded(Fleet.Settled(w, e, p, now), now, duration)
  {
    hide FleetTheorems.Sound, AllGuarded, ApplyTransition, TaskRuns.After;
    if w.execs[e].fenced.Some? {
      AfterTransition(w.db, p, now);
      WriteGuards(w, Fleet.Settled(w, e, p, now), e, p, now, duration);
    }
  }

  lemma OtherGuards(w: Fleet.World, call: TaskRuns.Call, duration: int)
    requires FleetTheorems.Sound(w) && AllGuarded(w, call.now, duration)
    requires OneDuration(Fleet.Other(call), duration) && ReleasesLate(w, Fleet.Other(call))
    ensures AllGuarded(w.(db := TaskRuns.After(w.db, call)), call.now, duration)
  {
    hide Inv, TaskRuns.After, Guarded, FleetTheorems.AllHonest, FleetTheorems.Truthful;
    CallGuardsAll(w, w.(db := TaskRuns.After(w.db, call)), call, duration);
  }

  lemma StepGuards(w: Fleet.World, a: Fleet.Action, clock: Time, duration: int)
    requires FleetTheorems.Sound(w) && AllGuarded(w, clock, duration) && (When(a).Some? ==> When(a).value == clock)
    requires OneDuration(a, duration) && ReleasesLate(w, a)
    ensures AllGuarded(Fleet.Step(w, a), clock, duration)
  {
    hide FleetTheorems.Sound, AllGuarded, Fleet.Fencing, Fleet.Advanced, Fleet.Settled, Fleet.Launched, TaskRuns.After,
         Fleet.Outside;
    match a
    case Launch(_, _, _, _, _) => LaunchGuards(w, a, duration);
    case Fence(e, now) => if Fleet.Alive(w, e) { FenceGuards(w, e, now, duration); }
    case Advance(e, now) => if Fleet.Alive(w, e) { AdvanceGuards(w, e, now, duration); }
    case Fail(e, code, message, now) =>
      if Fleet.Alive(w, e) { SettleGuards(w, e, Fleet.FailParams(w.execs[e].attempt, code, message), now, duration); }
    case TimeOut(e, now) =>
      if Fleet.Alive(w, e) { SettleGuards(w, e, Fleet.TimeoutParams(w.execs[e].attempt), now, duration); }
    case Crash(e) => if Fleet.Alive(w, e) { StoppedGuards(w, e, clock, duration); }
    case Other(call) => OtherGuards(w, call, duration);
  }

  lemma {:induction false} RunGuarded(hasRepository: bool, born: Time, actions: seq<Fleet.Action>, n: nat, clock: Time,
                                      duration: int)
    requires Orderly(FleetTheorems.Fresh(hasRepository, born), actions, duration) && n <= |actions|
    requires forall i | 0 <= i < n :: By(actions[i], clock)
    ensures AllGuarded(Fleet.Run(FleetTheorems.Fresh(hasRepository, born), actions[..n]), clock, duration)
  {
    hide FleetTheorems.Sound, Fleet.Step, ReleasesLate, OneDuration, Guarded, TaskRuns.Start;
    if n > 0 {
      var a := actions[n - 1];
      var before := Fleet.Run(FleetTheorems.Fresh(hasRepository, born), actions[..n - 1]);
      assert By(a, clock) && a in actions && ReleasesLate(before, a);
      var now := if When(a).Some? then When(a).value else clock;
      FleetTheorems.RunSound(hasRepository, born, actions[..n - 1]);
      RunGuarded(hasRepository, born, actions, n - 1, now, duration);
      StepGuards(before, a, now, duration);
      assert actions[..n][..n - 1] == actions[..n - 1];
      LaterGuarded(Fleet.Step(before, a), now, clock, duration);
    }
  }

  /** The three writes that stand behind a fence. */
  predicate Writes(a: Fleet.Action) {
    a.Advance? || a.Fail? || a.TimeOut?
  }

  /**
   * In every orderly run of any number of executors and other callers, a write made within two operation
   * timeouts of its fence, one for the fence's answer and one for the write, is made while its executor's
   * runner still holds the lease on that executor's attempt.
   */
  lemma FencedWritesHoldLease(hasRepository: bool, born: Time, actions: seq<Fleet.Action>, k: nat, duration: int)
    requires Orderly(FleetTheorems.Fresh(hasRepository, born), actions, duration) && duration >= 3
    requires k < |actions| && Writes(actions[k])
    ensures var w := Fleet.Run(FleetTheorems.Fresh(hasRepository, born), actions[..k]);
            var a := actions[k];
            Fleet.Alive(w, a.e) && w.execs[a.e].fenced.Some?
            && a.now <= w.execs[a.e].fenced.value + 2 * Leases.LeaseOperationTimeout(duration)
            ==> StaleExecutors.HoldsLease(w.db, w.execs[a.e], a.now)
  {
    hide Fleet.Run, FleetTheorems.Fresh, ReleasesLate, OneDuration;
    var w := Fleet.Run(FleetTheorems.Fresh(hasRepository, born), actions[..k]);
    var a := actions[k];
    Leases.OperationFitsLease(duration);
    RunGuarded(hasRepository, born, actions, k, a.now, duration);
    if Fleet.Alive(w, a.e) {
      assert w.execs[a.e] in w.execs;
    }
  }
}
