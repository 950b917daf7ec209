/** The revision command: exactly when it succeeds, what it leaves behind, and how many attempts it can add. */
module Revisions {
  import opened Lifecycle
  import opened Records
  import opened TaskSpec
  import opened TaskHistory
  import opened TaskRuns
  import opened TaskTheorems

  lemma StartKeepsAttempts(t: Tables, r: RevisionParams, now: Time)
    requires Inv(t) && Complete(r) && !KeySeen(t.events, r.key)
    ensures match ApplyTransition(t, RevisionStart(r), now)
            case Err(e) => t.task.status != AwaitingReview && e == InvalidTransition(t.task.status, RevisionRequested)
            case Ok(t') => t.task.status == AwaitingReview && t'.attempts == t.attempts &&
                           t'.task.status == RevisionRequested &&
                           t'.events == Appended(t.events, |t.attempts|,
                                                 Moved(AwaitingReview, RevisionRequested, r.reason), "system", r.key)
  {
    hide Numbered, KeysOnce, MovesAtTheTop, AttemptsExist, Chronicle, Appended;
    ActiveIsLast(t.attempts, t.task.status);
    NonTerminalMoves(t.task.status, RevisionRequested);
  }

  lemma RequeueAddsAttempt(t: Tables, r: RevisionParams, now: Time)
    requires AttemptStructure(t.attempts, t.task.status) && t.task.status == RevisionRequested
    ensures var n := |t.attempts|;
            match ApplyTransition(t, RevisionRequeue(r), now)
            case Err(_) => false
            case Ok(t') => t'.task.status == Queued &&
                           t'.attempts ==
                             t.attempts[n - 1 := t.attempts[n - 1].(status := Superseded, completedAt := Some(now))]
                             + [NewAttempt(n + 1, Some(r.brief))] &&
                           t'.events == Appended(t.events, n + 1,
                                                 Moved(RevisionRequested, Queued, r.reason), "system", NoKey) &&
                           ActiveIndex(t'.attempts) == Some(n)
  {
    hide Appended;
    ActiveIsLast(t.attempts, t.task.status);
    var n := |t.attempts|;
    var t' := ApplyTransition(t, RevisionRequeue(r), now).value;
    ActiveIsLast(t'.attempts, Queued);
  }

  /** The refusal a revision command meets, in the order the guards are tried; none means it is accepted. */
  function Refusal(t: Tables, r: RevisionParams): Option<Error> {
    if !Complete(r) then Some(RevisionIncomplete)
    else if KeySeen(t.events, r.key) then Some(RevisionReplayed)
    else if |t.attempts| >= r.maxAttempts then Some(RevisionLimit(|t.attempts|, r.maxAttempts))
    else if t.task.status != AwaitingReview then Some(InvalidTransition(t.task.status, RevisionRequested))
    else None
  }

  /**
   * A revision is accepted exactly when the command is complete and new, the limit leaves room and the
   * task awaits review. It then supersedes the current attempt, queues the task and starts one attempt
   * with the reviewer's brief. The second replay check inside the transaction is never the one that refuses.
   */
  lemma RevisionOutcome(t: Tables, r: RevisionParams, now: Time)
    requires Inv(t) && |t.attempts| >= 1
    ensures match TaskSpec.RequestRevision(t, r, now)
            case Err(e) => Refusal(t, r) == Some(e)
            case Ok(t') =>
              && Refusal(t, r) == None
              && t'.task.status == Queued
              && t'.attempts == t.attempts[|t.attempts| - 1 :=
                                  t.attempts[|t.attempts| - 1].(status := Superseded, completedAt := Some(now))]
                                + [NewAttempt(|t.attempts| + 1, Some(r.brief))]
              && Edges(t'.events) == Edges(t.events) + [Edge(|t.attempts|, AwaitingReview, RevisionRequested),
                                                        Edge(|t.attempts| + 1, RevisionRequested, Queued)]
              && KeySeen(t'.events, r.key)
  {
    hide Inv, ApplyTransition, Edges, Appended, KeySeen, Complete;
    if Complete(r) && !KeySeen(t.events, r.key) && |t.attempts| < r.maxAttempts {
      StartKeepsAttempts(t, r, now);
      TransitionKeeps(t, RevisionStart(r), now);
      match ApplyTransition(t, RevisionStart(r), now)
      case Err(_) =>
      case Ok(mid) =>
        InvStructure(mid);
        RequeueAddsAttempt(mid, r, now);
        RevisionEdges(t, mid, r, now);
    }
  }

  lemma InvStructure(t: Tables)
    requires Inv(t)
    ensures AttemptStructure(t.attempts, t.task.status)
  {
  }

  lemma RevisionEdges(t: Tables, mid: Tables, r: RevisionParams, now: Time)
    requires mid.events == Appended(t.events, |t.attempts|,
                                    Moved(AwaitingReview, RevisionRequested, r.reason), "system", r.key)
    ensures var after :=
              Appended(mid.events, |t.attempts| + 1, Moved(RevisionRequested, Queued, r.reason), "system", NoKey);
            Edges(after) == Edges(t.events) + [Edge(|t.attempts|, AwaitingReview, RevisionRequested),
                                               Edge(|t.attempts| + 1, RevisionRequested, Queued)] &&
            KeySeen(after, r.key)
  {
    var after := Appended(mid.events, |t.attempts| + 1, Moved(RevisionRequested, Queued, r.reason), "system", NoKey);
    assert after[..|after| - 1] == mid.events;
    assert mid.events[..|mid.events| - 1] == t.events;
    assert after[|t.events|].key == r.key;
  }

  // ---- bounding the revision loop

  /** Accepted revision commands in a run, all of them or those carrying one key. */
  function Accepted(t: Tables, calls: seq<Call>, key: Option<Key>): nat {
    if calls == [] then 0
    else
      var n := |calls| - 1;
      var c := calls[n];
      var counts := c.op.RequestRevision? && (key.None? || c.op.r.key == key.value) &&
                    Perform(Run(t, calls[..n]), c).Ok?;
      Accepted(t, calls[..n], key) + if counts then 1 else 0
  }

  /** Attempts are added by revision commands with limits up to the bound, not by raw requeueing. */
  ghost predicate Bounded(calls: seq<Call>, limit: int) {
    forall c <- calls ::
      && (c.op.Transition? ==> c.op.p.to != Queued)
      && (c.op.RequestRevision? ==> c.op.r.maxAttempts <= limit)
  }

  lemma CallAddsAttempt(t: Tables, c: Call)
    requires Inv(t) && (c.op.Transition? ==> c.op.p.to != Queued)
    ensures var added := if c.op.RequestRevision? && Perform(t, c).Ok? then 1 else 0;
            |After(t, c).attempts| == |t.attempts| + added &&
            (added == 1 ==> |t.attempts| < c.op.r.maxAttempts && KeySeen(After(t, c).events, c.op.r.key))
  {
    hide Numbered, KeysOnce, MovesAtTheTop, AttemptsExist, Chronicle, TaskSpec.RequestRevision;
    if c.op.RequestRevision? {
      RevisionOutcome(t, c.op.r, c.now);
    }
  }

  /** Every interleaving of calls by anyone keeps the attempts within the limit, one per accepted command. */
  lemma {:induction false} RevisionBound(hasRepository: bool, born: Time, calls: seq<Call>, limit: int)
    requires Bounded(calls, limit)
    ensures var t := Run(Start(hasRepository, born), calls);
            |t.attempts| == 1 + Accepted(Start(hasRepository, born), calls, None) &&
            (|t.attempts| == 1 || |t.attempts| <= limit)
  {
    if calls == [] {
      CreateSucceeds(hasRepository, born);
    } else {
      var n := |calls| - 1;
      assert Bounded(calls[..n], limit);
      RevisionBound(hasRepository, born, calls[..n], limit);
      RunKeepsInv(hasRepository, born, calls[..n]);
      assert calls[n] in calls;
      CallAddsAttempt(Run(Start(hasRepository, born), calls[..n]), calls[n]);
    }
  }

  lemma {:induction false} AcceptedKeySeen(hasRepository: bool, born: Time, calls: seq<Call>, key: Key)
    ensures var t := Start(hasRepository, born);
            Accepted(t, calls, Some(key)) <= 1 &&
            (Accepted(t, calls, Some(key)) == 1 ==> KeySeen(Run(t, calls).events, key))
  {
    if calls != [] {
      var n := |calls| - 1;
      var t := Run(Start(hasRepository, born), calls[..n]);
      AcceptedKeySeen(hasRepository, born, calls[..n], key);
      RunKeepsInv(hasRepository, born, calls[..n]);
      CallAccounts(t, calls[n]);
      if calls[n].op.RequestRevision? {
        RevisionOutcome(t, calls[n].op.r, calls[n].now);
      }
    }
  }

  /** A trigger comment adds at most one attempt, however often its command is delivered. */
  lemma TriggerAddsOneAttempt(hasRepository: bool, born: Time, calls: seq<Call>, key: Key)
    ensures Accepted(Start(hasRepository, born), calls, Some(key)) <= 1
  {
    AcceptedKeySeen(hasRepository, born, calls, key);
  }
}
