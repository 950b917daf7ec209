/**
 * Any number of executors driving the attempts of one task, crashed and superseded ones included,
 * interleaved with every other caller of the stores.
 */
module Fleet {
  import opened Lifecycle
  import opened Records
  import opened TaskSpec
  import opened TaskHistory
  import TaskRuns
  import Runners = RunnerSpec

  /**
   * An executor process: the attempt it claimed and as whom, the status it believes that attempt is in, and
   * when the fence of its next durable write passed.
   */
  datatype Exec = Exec(attempt: nat, runner: Runner, duration: int, local: Status, publishes: bool,
                       live: bool, fenced: Option<Time>)

  datatype World = World(db: Tables, execs: seq<Exec>)

  datatype Action =
    | Launch(attempt: nat, runner: Runner, duration: int, publishes: bool, now: Time)
    | Fence(e: nat, now: Time)
    | Advance(e: nat, now: Time)
    | Fail(e: nat, code: string, message: string, now: Time)
    | TimeOut(e: nat, now: Time)
    | Crash(e: nat)
    | Other(call: TaskRuns.Call)

  /** The transition drive asks for next; without a publishing target it completes the task itself. */
  function NextStage(local: Status, publishes: bool): Option<Status> {
    match local
    case Queued => Some(Provisioning)
    case Provisioning => Some(Planning)
    case Planning => Some(Executing)
    case Executing => Some(Validating)
    case Validating => Some(Publishing)
    case Publishing => Some(AwaitingReview)
    case AwaitingReview => if publishes then None else Some(Completed)
    case _ => None
  }

  function StageReason(to: Status): string {
    if to == Completed then "fake attempt auto-completed; nothing was published to review" else ""
  }

  function StageParams(attempt: nat, to: Status): TransitionParams {
    To(to, if to == Completed then "system" else "runner", StageReason(to), StageKey(attempt, to))
  }

  function FailParams(attempt: nat, code: string, message: string): TransitionParams {
    To(Failed, "runner", "", FailKey(attempt, code)).(failureCode := code, failureMessage := message)
  }

  function TimeoutParams(attempt: nat): TransitionParams {
    To(TimedOut, "runner", "", TimeoutKey(attempt)).(failureCode := "task_runtime_exceeded")
  }

  /** The keys under which an executor fails or times out its task. */
  predicate Settling(key: Key) {
    key.FailKey? || key.TimeoutKey?
  }

  /** Nobody but an executor's own transition moves the task between provisioning and review, or uses its keys. */
  predicate Outside(c: TaskRuns.Call) {
    match c.op
    case Transition(p) => !p.to.Driven() && !p.key.StageKey? && (Settling(p.key) ==> p.to.Terminal())
    case RequestRevision(r) => !r.key.StageKey? && !Settling(r.key)
    case _ => true
  }

  predicate Alive(w: World, e: nat) {
    e < |w.execs| && w.execs[e].live
  }

  /** Extends the lease on the executor's own attempt; a refusal ends the executor. */
  function Fencing(w: World, e: nat, now: Time): World
    requires e < |w.execs|
  {
    var x := w.execs[e];
    match Runners.Extend(w.db, x.attempt, x.runner, x.duration, now)
    case Ok(db) => World(db, w.execs[e := x.(fenced := Some(now))])
    case Err(_) => w.(execs := w.execs[e := x.(live := false)])
  }

  /**
   * The write behind a passed fence, at any later instant. The executor returns `to` whether the store moved
   * the task or recognised a replay.
   */
  function Advanced(w: World, e: nat, now: Time): World
    requires e < |w.execs|
  {
    var x := w.execs[e];
    match NextStage(x.local, x.publishes)
    case None => w.(execs := w.execs[e := x.(live := false)])
    case Some(to) =>
      if x.fenced.None? then w
      else match ApplyTransition(w.db, StageParams(x.attempt, to), now)
           case Ok(db) => World(db, w.execs[e := x.(local := to, fenced := None)])
           case Err(_) => w.(execs := w.execs[e := x.(live := false)])
  }

  /** An executor that settles its task behind a passed fence stops, whatever the store answers. */
  function Settled(w: World, e: nat, p: TransitionParams, now: Time): World
    requires e < |w.execs|
  {
    var execs := w.execs[e := w.execs[e].(live := false)];
    if w.execs[e].fenced.None? then w
    else match ApplyTransition(w.db, p, now)
         case Ok(db) => World(db, execs)
         case Err(_) => World(w.db, execs)
  }

  function Launched(w: World, attempt: nat, runner: Runner, duration: int, publishes: bool, now: Time): World {
    var call := TaskRuns.Call(TaskRuns.Claim(attempt, runner, duration), now);
    match TaskRuns.Perform(w.db, call)
    case Ok(db) =>
      World(db, w.execs + [Exec(attempt, runner, duration, w.db.task.status, publishes, true, None)])
    case Err(_) => w
  }

  function Step(w: World, a: Action): World {
    match a
    case Launch(attempt, runner, duration, publishes, now) => Launched(w, attempt, runner, duration, publishes, now)
    case Fence(e, now) => if Alive(w, e) then Fencing(w, e, now) else w
    case Advance(e, now) => if Alive(w, e) then Advanced(w, e, now) else w
    case Fail(e, code, message, now) =>
      if Alive(w, e) then Settled(w, e, FailParams(w.execs[e].attempt, code, message), now) else w
    case TimeOut(e, now) =>
      if Alive(w, e) then Settled(w, e, TimeoutParams(w.execs[e].attempt), now) else w
    case Crash(e) => if Alive(w, e) then w.(execs := w.execs[e := w.execs[e].(live := false)]) else w
    case Other(call) => if Outside(call) then w.(db := TaskRuns.After(w.db, call)) else w
  }

  function Run(w: World, actions: seq<Action>): World {
    if actions == [] then w else Step(Run(w, actions[..|actions| - 1]), actions[|actions| - 1])
  }

  // ---- what an attempt has reached, read off the log

  ghost predicate HasMove(events: seq<Event>, attempt: nat, to: Status) {
    exists e <- events :: e.kind.Moved? && e.attempt == attempt && e.kind.to == to
  }

  ghost predicate HasEdge(edges: seq<Edge>, attempt: nat, to: Status) {
    exists d <- edges :: d.attempt == attempt && d.to == to
  }

  lemma {:induction false} MovesAreEdges(events: seq<Event>, attempt: nat, to: Status)
    ensures HasMove(events, attempt, to) <==> HasEdge(Edges(events), attempt, to)
  {
    if events != [] {
      var n := |events| - 1;
      var rest, last := events[..n], events[n];
      MovesAreEdges(rest, attempt, to);
      assert events == rest + [last];
      assert HasMove(events, attempt, to) <==>
             HasMove(rest, attempt, to) || (last.kind.Moved? && last.attempt == attempt && last.kind.to == to);
      if last.kind.Moved? {
        var d := Edge(last.attempt, last.kind.from, last.kind.to);
        assert Edges(events) == Edges(rest) + [d];
        assert HasEdge(Edges(events), attempt, to) <==>
               HasEdge(Edges(rest), attempt, to) || (d.attempt == attempt && d.to == to);
      }
    }
  }

  /** How many edges of the ideal history the log holds. */
  function Laps(t: Tables): int {
    |Edges(t.events)| - if t.task.status.Terminal() then 1 else 0
  }

  lemma IdealEdgeAt(attempt: nat, to: Status, k: nat)
    requires attempt >= 1 && !to.Terminal() && to != Created
    ensures IdealEdge(k).attempt == attempt && IdealEdge(k).to == to <==> k == 8 * (attempt - 1) + Rank(to) - 1
  {
    assert (k % 8) in {0, 1, 2, 3, 4, 5, 6, 7};
  }

  lemma EdgesUpToLaps(t: Tables)
    requires Inv(t)
    ensures 8 * (|t.attempts| - 1) + 1 <= Laps(t) <= 8 * |t.attempts|
    ensures !t.task.status.Terminal() ==> Laps(t) == 8 * (|t.attempts| - 1) + Rank(t.task.status)
    ensures forall d <- Edges(t.events) :: d.to.Terminal() || exists k: nat :: k < Laps(t) && IdealEdge(k) == d
    ensures forall k: nat | k < Laps(t) :: k < |Edges(t.events)| && Edges(t.events)[k] == IdealEdge(k)
  {
    hide AttemptStructure, Numbered, KeysOnce, MovesAtTheTop, AttemptsExist, IdealEdge, Edges;
    var edges := Edges(t.events);
    if t.task.status.Terminal() {
      var from: Status :| EndedFrom(edges, |t.attempts|, from, t.task.status);
      assert 1 <= Rank(from) <= 8;
      assert edges[..|edges| - 1] == History(8 * (|t.attempts| - 1) + Rank(from));
    }
    forall d | d in edges && !d.to.Terminal()
      ensures exists k: nat :: k < Laps(t) && IdealEdge(k) == d
    {
      var k :| 0 <= k < |edges| && edges[k] == d;
      assert IdealEdge(k) == d;
    }
  }

  /** An attempt has been moved to a stage exactly when the ideal history got that far. */
  lemma ReachedIff(t: Tables, attempt: nat, to: Status)
    requires Inv(t) && attempt >= 1 && !to.Terminal() && to != Created
    ensures HasMove(t.events, attempt, to) <==> 8 * (attempt - 1) + Rank(to) <= Laps(t)
  {
    hide Inv, IdealEdge, Edges, HasMove, Laps;
    MovesAreEdges(t.events, attempt, to);
    EdgesUpToLaps(t);
    var edges := Edges(t.events);
    if HasEdge(edges, attempt, to) {
      var d :| d in edges && d.attempt == attempt && d.to == to;
      var k: nat :| k < Laps(t) && IdealEdge(k) == d;
      IdealEdgeAt(attempt, to, k);
    }
    if 8 * (attempt - 1) + Rank(to) <= Laps(t) {
      assert Rank(to) >= 1;
      var k := 8 * (attempt - 1) + Rank(to) - 1;
      IdealEdgeAt(attempt, to, k);
      assert edges[k] in edges;
    }
  }
}
