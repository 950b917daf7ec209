/** Where events out of order come from, and what a browser loses by them. */
module StreamOrder {
  import opened Lifecycle
  import opened Records
  import opened Decimal
  import opened TaskSpec
  import opened TaskHistory
  import opened Stream
  import opened StreamClient
  import opened StreamProgress
  import Fleet
  import FleetTheorems
  import Revisions
  import StaleExecutors
  import TaskRuns
  import TaskTheorems

  // ---- which calls keep the order

  lemma AppendOrder(events: seq<Event>, attempt: nat, kind: Kind, source: string, key: Key)
    requires ToNewest(events)
    ensures ToNewest(Appended(events, attempt, kind, source, key)) <==> forall e <- events :: e.attempt <= attempt
  {
    var after := Appended(events, attempt, kind, source, key);
    if ToNewest(after) {
      forall e | e in events
        ensures e.attempt <= attempt
      {
        var i :| 0 <= i < |events| && events[i] == e;
        assert after[i].attempt <= after[|events|].attempt;
      }
    }
  }

  lemma NewestBounds(t: Tables, n: nat)
    requires Inv(t) && n >= |t.attempts|
    ensures forall e <- t.events :: e.attempt <= n
  {
  }

  lemma TransitionOrder(t: Tables, p: TransitionParams, now: Time)
    requires Inv(t) && ToNewest(t.events)
    ensures match ApplyTransition(t, p, now)
            case Ok(t') => ToNewest(t'.events) && |t'.events| <= |t.events| + 1
            case Err(_) => true
  {
    hide Inv, ToNewest, Appended, CanTransition, KeySeen;
    FleetTheorems.InvFacts(t);
    if !t.task.status.Terminal() {
      var n := EventAttempt(t, p, |t.attempts| - 1);
      NewestBounds(t, n);
      AppendOrder(t.events, n, Moved(t.task.status, p.to, p.reason), SourceOf(p), p.key);
      AppendOne(t.events, n, Moved(t.task.status, p.to, p.reason), SourceOf(p), p.key);
    }
  }

  lemma AppendOne(events: seq<Event>, attempt: nat, kind: Kind, source: string, key: Key)
    ensures |Appended(events, attempt, kind, source, key)| == |events| + 1
  {
  }

  lemma RevisionOrder(t: Tables, r: RevisionParams, now: Time)
    requires Inv(t) && ToNewest(t.events)
    ensures match TaskSpec.RequestRevision(t, r, now)
            case Ok(t') => ToNewest(t'.events) && |t'.events| <= |t.events| + 2
            case Err(_) => true
  {
    hide Inv, ToNewest, ApplyTransition, KeySeen;
    TransitionOrder(t, RevisionStart(r), now);
    TransitionKeeps(t, RevisionStart(r), now);
    match ApplyTransition(t, RevisionStart(r), now)
    case Err(_) =>
    case Ok(mid) => TransitionOrder(mid, RevisionRequeue(r), now);
  }

  /** An accepted append to an attempt that some event is already past. */
  ghost predicate AppendsLate(t: Tables, c: TaskRuns.Call) {
    && c.op.AppendAttemptEvent? && TaskRuns.Perform(t, c).Ok?
    && exists e <- t.events :: e.attempt > c.op.attempt
  }

  /** No other call of either store puts an event out of order: the log stays in order exactly without late appends. */
  lemma OnlyLateAppends(t: Tables, c: TaskRuns.Call)
    requires Inv(t) && ToNewest(t.events)
    ensures ToNewest(TaskRuns.After(t, c).events) <==> !AppendsLate(t, c)
  {
    hide Inv, ToNewest, ApplyTransition, TaskSpec.RequestRevision, Appended;
    FleetTheorems.InvFacts(t);
    NewestBounds(t, |t.attempts|);
    match c.op
    case Transition(p) => TransitionOrder(t, p, c.now);
    case RequestRevision(r) => RevisionOrder(t, r, c.now);
    case Cancel(reason) => TransitionOrder(t, To(Cancelled, "api", reason, NoKey), c.now);
    case AppendAttemptEvent(a, eventType, source) => AppendOrder(t.events, a, Note(eventType), source, NoKey);
    case AppendEvent(eventType, source) => AppendOrder(t.events, |t.attempts|, Note(eventType), source, NoKey);
    case _ =>
  }

  /**
   * A browser that has shown a whole ordered log can still be shown the next event exactly when that event
   * is on no older attempt than any before it.
   */
  lemma OrderDecides(hasRepository: bool, born: Time, steps: seq<Step>, call: TaskRuns.Call, e: Event)
    requires var w := Play(Opened(hasRepository, born), steps);
             && ToNewest(w.task.events) && !w.client.done && w.client.events == w.task.events
             && TaskRuns.After(w.task, call).events == w.task.events + [e] && Printable(w.task.events + [e])
    ensures var w := Play(Opened(hasRepository, born), steps);
            (exists more :: e in Play(Take(w, Store(call)), more).client.events) <==>
            (forall x <- w.task.events :: x.attempt <= e.attempt)
  {
    hide TaskRuns.After, Play, Opened, Printable, Tracks, Inv;
    var w := Play(Opened(hasRepository, born), steps);
    PlayTracks(hasRepository, born, steps);
    TracksInv(w);
    var all := steps + [Store(call)];
    PlayConcat(Opened(hasRepository, born), steps, [Store(call)]);
    PlayOne(w, Store(call));
    StillShowable(hasRepository, born, all, e);
    TaskRuns.CallKeepsInv(w.task, call);
    NewEventIsNew(TaskRuns.After(w.task, call), w.task.events, e);
    AheadIffNewest(w.task, TaskRuns.After(w.task, call), e);
  }

  lemma TracksInv(w: World)
    requires Tracks(w)
    ensures Inv(w.task)
  {
  }

  lemma NewEventIsNew(t: Tables, log: seq<Event>, e: Event)
    requires Inv(t) && t.events == log + [e]
    ensures e !in log
  {
    hide AttemptStructure, KeysOnce, MovesAtTheTop, Chronicle, Numbered;
    NumberedDistinct(t.events);
    forall i | 0 <= i < |log|
      ensures log[i] != e
    {
      assert CursorOf(t.events[i]) != CursorOf(t.events[|log|]);
    }
  }

  lemma AheadIffNewest(before: Tables, t: Tables, e: Event)
    requires Inv(t) && t.events == before.events + [e] && ToNewest(before.events)
    ensures (before.events == [] || Less(CursorOf(before.events[|before.events| - 1]), CursorOf(e))) <==>
            (forall x <- before.events :: x.attempt <= e.attempt)
  {
    hide AttemptStructure, KeysOnce, MovesAtTheTop, Chronicle, Numbered;
    NumberedGrows(t.events, |before.events|);
    assert t.events[..|before.events|] == before.events;
  }

  lemma NextIsMissing(log: seq<Event>, n: nat)
    requires Sorted(log) && n < |log|
    ensures log[n] in log && log[n] !in log[..n]
  {
    forall k | 0 <= k < n
      ensures log[k] != log[n]
    {
      assert Before(log, k, n);
    }
  }

  lemma PrefixHasAll(log: seq<Event>, shown: seq<Event>)
    requires Sorted(log) && shown <= log && forall e <- log :: e in shown
    ensures shown == log
  {
    if |shown| < |log| {
      NextIsMissing(log, |shown|);
    }
  }

  lemma PrefixOrAhead(log: seq<Event>, c: Client)
    requires Sorted(log) && c.events <= log
    ensures forall e <- log :: e in c.events || Ahead(c, e)
  {
    forall e | e in log
      ensures e in c.events || Ahead(c, e)
    {
      var k :| 0 <= k < |log| && log[k] == e;
      if k < |c.events| {
        assert c.events[k] == e;
      } else if c.events != [] {
        assert Before(log, |c.events| - 1, k);
      }
    }
  }

  /** With events in order, some schedule always shows the browser the whole log, and closes a finished stream. */
  lemma ShowsEverything(hasRepository: bool, born: Time, steps: seq<Step>) returns (more: seq<Step>)
    requires var w := Play(Opened(hasRepository, born), steps);
             ToNewest(w.task.events) && Printable(w.task.events) && !w.client.done
    ensures var w, w' := Play(Opened(hasRepository, born), steps), Play(Opened(hasRepository, born), steps + more);
            && w'.task == w.task && w'.client.events == w.task.events
            && (w'.client.done <==> w.task.task.status.Terminal())
  {
    hide Play, Opened, Printable, Tracks, Inv, Sorted, ToNewest, Ahead;
    var w := Play(Opened(hasRepository, born), steps);
    PlayTracks(hasRepository, born, steps);
    TracksInv(w);
    NewestIsSorted(w.task);
    ExactDelivery(hasRepository, born, steps);
    PrefixOrAhead(w.task.events, w.client);
    more := CatchesUp(w);
    PlayConcat(Opened(hasRepository, born), steps, more);
    ExactDelivery(hasRepository, born, steps + more);
    PrefixHasAll(w.task.events, Play(Opened(hasRepository, born), steps + more).client.events);
  }

  // ---- a browser that misses an event

  /** A log of a reachable state has printable cursors, as long as it is no longer than 64 bits can count. */
  lemma ShortIsPrintable(t: Tables)
    requires Inv(t) && |t.events| <= MAX_INT64 && |t.attempts| <= MAX_INT64
    ensures Printable(t.events)
  {
    hide AttemptStructure, KeysOnce, MovesAtTheTop, Chronicle;
    forall e | e in t.events
      ensures e.seqno <= |t.events|
    {
      MaxSeqBounds(t.events, e.attempt, e);
      MaxSeqShort(t.events, e.attempt);
    }
  }

  lemma {:induction false} MaxSeqShort(events: seq<Event>, attempt: nat)
    requires Numbered(events)
    ensures MaxSeq(events, attempt) <= |events|
  {
    TaskTheorems.NumberedFromOne(events, attempt);
    SeqnosShort(events, attempt);
  }

  lemma {:induction false} SeqnosShort(events: seq<Event>, attempt: nat)
    ensures |TaskTheorems.Seqnos(events, attempt)| <= |events|
  {
    if events != [] {
      SeqnosShort(events[..|events| - 1], attempt);
    }
  }

  ghost predicate Climbed(t: Tables, k: nat) {
    && Inv(t) && FleetTheorems.AllHonest(t.events) && |t.attempts| == 1
    && Rank(t.task.status) == k + 1 && !t.task.status.Terminal()
    && |t.events| <= k + 2 && ToNewest(t.events)
  }

  /** The moves an executor makes on a new task, up to review. */
  lemma {:induction false} Climb(k: nat) returns (calls: seq<TaskRuns.Call>)
    requires k <= 6
    ensures Climbed(TaskRuns.Run(TaskRuns.Start(true, 0), calls), k)
  {
    hide Climbed, TaskRuns.After, TaskRuns.Start;
    if k == 0 {
      calls := [];
      StartClimbed();
    } else {
      var before := Climb(k - 1);
      var t := TaskRuns.Run(TaskRuns.Start(true, 0), before);
      var call := ClimbOne(t, k - 1);
      calls := before + [call];
      assert calls[..|calls| - 1] == before;
    }
  }

  lemma StartClimbed()
    ensures Climbed(TaskRuns.Start(true, 0), 0)
  {
    hide Inv, FleetTheorems.AllHonest;
    TaskRuns.CreateSucceeds(true, 0);
    FleetTheorems.FreshSound(true, 0);
  }

  lemma ClimbOne(t: Tables, k: nat) returns (call: TaskRuns.Call)
    requires Climbed(t, k) && k < 6
    ensures Climbed(TaskRuns.After(t, call), k + 1)
  {
    hide Inv, FleetTheorems.AllHonest, ToNewest, ApplyTransition, KeySeen;
    FleetTheorems.InvFacts(t);
    var to := Fleet.NextStage(t.task.status, true).value;
    var p := Fleet.StageParams(1, to);
    StaleExecutors.CurrentApplies(t, Fleet.Exec(1, 0, 0, t.task.status, true, true, None), to, 0);
    FleetTheorems.TransitionHonest(t, p, 0);
    TransitionOrder(t, p, 0);
    call := TaskRuns.Call(TaskRuns.Transition(p), 0);
  }

  /** A task that was reviewed and revised: its log holds events of attempts 1 and 2. */
  lemma RevisedTask() returns (calls: seq<TaskRuns.Call>)
    ensures var t := TaskRuns.Run(TaskRuns.Start(true, 0), calls);
            && Inv(t) && |t.attempts| == 2 && |t.events| <= 20 && !t.task.status.Terminal()
            && exists e <- t.events :: e.attempt == 2
  {
    hide Inv, TaskSpec.RequestRevision, TaskRuns.Start;
    var climb := Climb(6);
    var t := TaskRuns.Run(TaskRuns.Start(true, 0), climb);
    RankInjective(t.task.status, AwaitingReview);
    var comment := StaleExecutors.RevisionAccepted(t);
    var r := StaleExecutors.RevisionOf(comment);
    Revisions.RevisionOutcome(t, r, 61);
    RevisionOrder(t, r, 61);
    var call := TaskRuns.Call(TaskRuns.RequestRevision(r), 61);
    calls := climb + [call];
    assert calls[..|calls| - 1] == climb;
    TaskRuns.CallKeepsInv(t, call);
    EdgeHasEvent(TaskRuns.After(t, call).events, Edge(2, RevisionRequested, Queued));
  }

  lemma {:induction false} EdgeHasEvent(events: seq<Event>, d: Edge)
    requires d in Edges(events)
    ensures exists e <- events :: e.attempt == d.attempt
  {
    var n := |events| - 1;
    if events[n].kind.Moved? && d == Edge(events[n].attempt, events[n].kind.from, events[n].kind.to) {
      assert events[n] in events;
    } else {
      EdgeHasEvent(events[..n], d);
    }
  }

  function Stores(calls: seq<TaskRuns.Call>): seq<Step> {
    if calls == [] then [] else Stores(calls[..|calls| - 1]) + [Store(calls[|calls| - 1])]
  }

  /** Store calls alone leave the connection and the browser as they are. */
  lemma {:induction false} PlayStores(w: World, calls: seq<TaskRuns.Call>)
    ensures Play(w, Stores(calls)) == w.(task := TaskRuns.Run(w.task, calls))
  {
    hide TaskRuns.After;
    if calls != [] {
      PlayStores(w, calls[..|calls| - 1]);
      var steps := Stores(calls);
      assert steps[..|steps| - 1] == Stores(calls[..|calls| - 1]);
    }
  }

  /** The browser has shown the revised task's whole log. */
  lemma CaughtUp() returns (steps: seq<Step>)
    ensures var w := Play(Opened(true, 0), steps);
            Tracks(w) && |w.task.attempts| == 2 && !w.client.done && exists e <- w.client.events :: e.attempt == 2
  {
    hide TaskRuns.Run, TaskRuns.Start, Play, Tracks, Inv, Ahead, Printable;
    var calls := RevisedTask();
    PlayStores(Opened(true, 0), calls);
    PlayTracks(true, 0, Stores(calls));
    var w := Play(Opened(true, 0), Stores(calls));
    ShortIsPrintable(w.task);
    var catchUp := CatchesUp(w);
    steps := Stores(calls) + catchUp;
    PlayConcat(Opened(true, 0), Stores(calls), catchUp);
    PlayTracks(true, 0, steps);
    NothingAtFirst(w);
    ShowsNewest(w, Play(Opened(true, 0), steps));
  }

  lemma NothingAtFirst(w: World)
    requires w.client.events == []
    ensures forall e :: Ahead(w.client, e)
  {
  }

  /**
   * A reachable run that loses an event: the browser has shown the revised task's log when an executor still
   * running attempt 1 records that it cleaned up; no schedule ever shows that event.
   */
  lemma LateEventLost() returns (steps: seq<Step>, e: Event)
    ensures var w := Play(Opened(true, 0), steps);
            && e in w.task.events && e.attempt == 1 && |w.task.attempts| == 2 && !w.client.done
            && forall more :: e !in Play(w, more).client.events
  {
    hide TaskRuns.Start, TaskRuns.After, Play, Tracks, Passed;
    var before := CaughtUp();
    var shown := Play(Opened(true, 0), before);
    var call := TaskRuns.Call(TaskRuns.AppendAttemptEvent(1, "cleanup.completed", "runner"), 61);
    e := LateAppend(shown, call);
    steps := before + [Store(call)];
    PlayConcat(Opened(true, 0), before, [Store(call)]);
    PlayOne(shown, Store(call));
    var w := Play(Opened(true, 0), steps);
    forall more
      ensures e !in Play(w, more).client.events
    {
      PassedForGood(w, more, e);
      PassedIsMissing(Play(w, more).client, e);
    }
  }

  lemma PassedIsMissing(c: Client, e: Event)
    requires Passed(c, e)
    ensures e !in c.events
  {
  }

  lemma ShowsNewest(w: World, shown: World)
    requires w.client.events == [] && shown.task == w.task && exists e <- w.task.events :: e.attempt == 2
    requires forall e | e in w.task.events && (e in w.client.events || Ahead(w.client, e)) :: e in shown.client.events
    ensures exists e <- shown.client.events :: e.attempt == 2
  {
  }

  lemma LateAppend(w: World, call: TaskRuns.Call) returns (e: Event)
    requires Tracks(w) && |w.task.attempts| == 2 && exists x <- w.client.events :: x.attempt == 2
    requires call.op == TaskRuns.AppendAttemptEvent(1, "cleanup.completed", "runner")
    ensures var w' := Take(w, Store(call));
            && e in w'.task.events && e.attempt == 1 && |w'.task.attempts| == 2
            && w'.client == w.client && Passed(w'.client, e)
  {
    hide Inv, TextsBehind, EndsClean;
    SecondAttempt(w.task);
    TaskRuns.CallKeepsInv(w.task, call);
    e := Event(1, MaxSeq(w.task.events, 1) + 1, Note("cleanup.completed"), "runner", NoKey);
    NewEventIsNew(TaskRuns.After(w.task, call), w.task.events, e);
    var x :| x in w.client.events && x.attempt == 2;
    var k :| 0 <= k < |w.client.events| && w.client.events[k] == x;
    assert k == |w.client.events| - 1 || Before(w.client.events, k, |w.client.events| - 1);
  }

  lemma SecondAttempt(t: Tables)
    requires Inv(t) && |t.attempts| == 2
    ensures HasAttempt(t, 1)
  {
    assert t.attempts[0] in t.attempts;
  }
}
