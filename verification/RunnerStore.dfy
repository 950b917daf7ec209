/** The runner store: claims and leases on the attempt rows, and the fence every durable write waits for. */
module RunnerStore {
  import opened Records
  import opened Storage
  import Spec = RunnerSpec
  import Leases

  /** A statement may be answered, never reach the database, or take effect without its answer arriving. */
  datatype Answer = Answered | Unreachable | AnswerLost

  /** When the fence's statement ran and what came of it. */
  datatype Try = Try(at: Time, answer: Answer)

  datatype Fence = Fenced(at: Time) | Lost | Unanswered

  /** An extension whose answer nobody reads. */
  function Extended(t: Tables, attempt: nat, runner: Runner, duration: int, at: Time): Tables {
    match Spec.Extend(t, attempt, runner, duration, at)
    case Ok(t') => t'
    case Err(_) => t
  }

  /** The first answered try up to the deadline decides; the unanswered ones before it may have taken effect. */
  function FenceResult(t: Tables, attempt: nat, runner: Runner, duration: int, deadline: Time, tries: seq<Try>):
    (Fence, Tables)
    decreases |tries|
  {
    if tries == [] || tries[0].at > deadline then (Unanswered, t)
    else match tries[0].answer
         case Unreachable => FenceResult(t, attempt, runner, duration, deadline, tries[1..])
         case AnswerLost =>
           var t' := Extended(t, attempt, runner, duration, tries[0].at);
           FenceResult(t', attempt, runner, duration, deadline, tries[1..])
         case Answered =>
           match Spec.Extend(t, attempt, runner, duration, tries[0].at)
           case Ok(t') => (Fenced(tries[0].at), t')
           case Err(_) => (Lost, t)
  }

  /** The attempt's lease is the runner's, from a renewal at this instant. */
  ghost predicate RenewedAt(t: Tables, attempt: nat, runner: Runner, duration: int, at: Time) {
    var i := Spec.Find(t.attempts, attempt);
    i.Some? && t.attempts[i.value].lease == Held(runner, at + duration)
  }

  /** Nothing differs but a renewal of the runner's own lease. */
  ghost predicate OnlyRenewed(t: Tables, t': Tables, attempt: nat, runner: Runner, duration: int) {
    t' == t || exists at: Time :: RenewedBy(t, t', attempt, runner, duration, at)
  }

  ghost predicate RenewedBy(t: Tables, t': Tables, attempt: nat, runner: Runner, duration: int, at: Time) {
    var i := Spec.Find(t.attempts, attempt);
    && i.Some? && t.attempts[i.value].lease.Held? && t.attempts[i.value].lease.owner == runner
    && t' == Spec.WithLease(t, i.value, Held(runner, at + duration))
  }

  lemma {:induction false} FindStays(attempts: seq<Attempt>, i: nat, a: Attempt, number: nat)
    requires i < |attempts| && a.number == attempts[i].number
    ensures Spec.Find(attempts[i := a], number) == Spec.Find(attempts, number)
  {
    if i > 0 && attempts[0].number != number {
      FindStays(attempts[1..], i - 1, a, number);
      assert attempts[i := a][1..] == attempts[1..][i - 1 := a];
    }
  }

  lemma ExtendRenews(t: Tables, attempt: nat, runner: Runner, duration: int, at: Time)
    ensures match Spec.Extend(t, attempt, runner, duration, at)
            case Err(_) => true
            case Ok(t') => RenewedBy(t, t', attempt, runner, duration, at) &&
                           RenewedAt(t', attempt, runner, duration, at)
  {
    var i := Spec.Find(t.attempts, attempt);
    if i.Some? {
      FindStays(t.attempts, i.value, t.attempts[i.value].(lease := Held(runner, at + duration)), attempt);
    }
  }

  lemma RenewedTwice(t: Tables, t': Tables, t'': Tables, attempt: nat, runner: Runner, duration: int)
    requires OnlyRenewed(t, t', attempt, runner, duration) && OnlyRenewed(t', t'', attempt, runner, duration)
    ensures OnlyRenewed(t, t'', attempt, runner, duration)
  {
    if t' != t && t'' != t' {
      var at: Time :| RenewedBy(t, t', attempt, runner, duration, at);
      var later: Time :| RenewedBy(t', t'', attempt, runner, duration, later);
      var i := Spec.Find(t.attempts, attempt).value;
      FindStays(t.attempts, i, t.attempts[i].(lease := Held(runner, at + duration)), attempt);
      assert t''.attempts == t.attempts[i := t.attempts[i].(lease := Held(runner, later + duration))];
      assert RenewedBy(t, t'', attempt, runner, duration, later);
    }
  }

  /**
   * However its tries fare, a fence changes nothing but its runner's own lease; when it passes, that lease
   * runs from the deciding try, and that try came in time.
   */
  lemma {:induction false} FenceRenewsOwn(t: Tables, attempt: nat, runner: Runner, duration: int, deadline: Time,
                                          tries: seq<Try>)
    ensures var (fence, t') := FenceResult(t, attempt, runner, duration, deadline, tries);
            && OnlyRenewed(t, t', attempt, runner, duration)
            && (fence.Fenced? ==> fence.at <= deadline && RenewedAt(t', attempt, runner, duration, fence.at))
    decreases |tries|
  {
    hide OnlyRenewed, RenewedBy, RenewedAt, Spec.Extend;
    NotRenewed(t, attempt, runner, duration);
    if tries != [] && tries[0].at <= deadline {
      ExtendRenews(t, attempt, runner, duration, tries[0].at);
      match tries[0].answer
      case Unreachable => FenceRenewsOwn(t, attempt, runner, duration, deadline, tries[1..]);
      case AnswerLost =>
        var mid := Extended(t, attempt, runner, duration, tries[0].at);
        FenceRenewsOwn(mid, attempt, runner, duration, deadline, tries[1..]);
        OnceRenewed(t, mid, attempt, runner, duration, tries[0].at);
        var after := FenceResult(mid, attempt, runner, duration, deadline, tries[1..]).1;
        RenewedTwice(t, mid, after, attempt, runner, duration);
      case Answered =>
        var after := FenceResult(t, attempt, runner, duration, deadline, tries).1;
        OnceRenewed(t, after, attempt, runner, duration, tries[0].at);
    }
  }

  // ---- which try decides

  /** The k-th try is answered in time, and none before it was. */
  ghost predicate Deciding(tries: seq<Try>, deadline: Time, k: nat) {
    && k < |tries| && tries[k].answer.Answered?
    && (forall j | 0 <= j <= k :: tries[j].at <= deadline)
    && (forall j | 0 <= j < k :: !tries[j].answer.Answered?)
  }

  /** What tries without an answer leave: the ones whose answer was lost still took effect. */
  function Silent(t: Tables, attempt: nat, runner: Runner, duration: int, tries: seq<Try>): Tables
    decreases |tries|
  {
    if tries == [] then t
    else Silent(if tries[0].answer.AnswerLost? then Extended(t, attempt, runner, duration, tries[0].at) else t,
                attempt, runner, duration, tries[1..])
  }

  /** However many tries before it stay unanswered, the first one answered in time decides. */
  lemma {:induction false} FirstAnswerDecides(t: Tables, attempt: nat, runner: Runner, duration: int, deadline: Time,
                                              tries: seq<Try>, k: nat)
    requires Deciding(tries, deadline, k)
    ensures FenceResult(t, attempt, runner, duration, deadline, tries) ==
            var before := Silent(t, attempt, runner, duration, tries[..k]);
            match Spec.Extend(before, attempt, runner, duration, tries[k].at)
            case Ok(t') => (Fenced(tries[k].at), t')
            case Err(_) => (Lost, before)
    decreases k
  {
    hide Spec.Extend;
    if k > 0 {
      var next := if tries[0].answer.AnswerLost? then Extended(t, attempt, runner, duration, tries[0].at) else t;
      assert tries[..k][1..] == tries[1..][..k - 1];
      FirstAnswerDecides(next, attempt, runner, duration, deadline, tries[1..], k - 1);
    }
  }

  lemma DecidesLater(tries: seq<Try>, deadline: Time, k: nat)
    requires tries != [] && tries[0].at <= deadline && !tries[0].answer.Answered?
    ensures Deciding(tries[1..], deadline, k) ==> Deciding(tries, deadline, k + 1)
  {
    assert k + 1 < |tries| ==> forall j | 0 < j <= k + 1 :: tries[j] == tries[1..][j - 1];
  }

  /** A fence gives up exactly when no try was answered in time. */
  lemma {:induction false} GivesUpIffSilent(t: Tables, attempt: nat, runner: Runner, duration: int, deadline: Time,
                                            tries: seq<Try>)
    ensures FenceResult(t, attempt, runner, duration, deadline, tries).0 == Unanswered <==>
            forall k: nat :: !Deciding(tries, deadline, k)
    decreases |tries|
  {
    hide Spec.Extend;
    if k: nat :| Deciding(tries, deadline, k) {
      FirstAnswerDecides(t, attempt, runner, duration, deadline, tries, k);
    } else if tries != [] && tries[0].at <= deadline {
      assert !Deciding(tries, deadline, 0);
      var next := if tries[0].answer.AnswerLost? then Extended(t, attempt, runner, duration, tries[0].at) else t;
      forall k: nat
        ensures !Deciding(tries[1..], deadline, k)
      {
        DecidesLater(tries, deadline, k);
      }
      GivesUpIffSilent(next, attempt, runner, duration, deadline, tries[1..]);
    }
  }

  lemma NotRenewed(t: Tables, attempt: nat, runner: Runner, duration: int)
    ensures OnlyRenewed(t, t, attempt, runner, duration)
  {
  }

  lemma OnceRenewed(t: Tables, t': Tables, attempt: nat, runner: Runner, duration: int, at: Time)
    requires t' == t || RenewedBy(t, t', attempt, runner, duration, at)
    ensures OnlyRenewed(t, t', attempt, runner, duration)
  {
  }

  class Store {
    const db: Database

    constructor (db: Database)
      ensures this.db == db
    {
      this.db := db;
    }

    method ClaimAttempt(attempt: nat, runner: Runner, duration: int, now: Time) returns (claimed: bool)
      modifies db
      ensures match Spec.Claim(old(db.State()), attempt, runner, duration, now)
              case Some(t) => claimed && db.State() == t
              case None => !claimed && db.State() == old(db.State())
    {
      var found := Spec.Find(db.attempts, attempt);
      if found.None? {
        return false;
      }
      var a := db.attempts[found.value];
      if !a.status.Active? || !Spec.Claimable(db.task) || (a.lease.Held? && !(a.lease.expires < now)) {
        return false;
      }
      db.attempts := db.attempts[found.value := a.(lease := Held(runner, now + duration))];
      return true;
    }

    method ExtendLease(attempt: nat, runner: Runner, duration: int, now: Time) returns (err: Option<Error>)
      modifies db
      ensures match Spec.Extend(old(db.State()), attempt, runner, duration, now)
              case Ok(t) => err.None? && db.State() == t
              case Err(e) => err == Some(e) && db.State() == old(db.State())
    {
      var found := Spec.Find(db.attempts, attempt);
      if found.None? {
        return Some(LeaseLost);
      }
      var a := db.attempts[found.value];
      if a.lease.Held? && a.lease.owner == runner && a.lease.expires > now {
        db.attempts := db.attempts[found.value := a.(lease := Held(runner, now + duration))];
        return None;
      }
      return Some(LeaseLost);
    }

    method ReleaseLease(attempt: nat, runner: Runner) returns (err: Option<Error>)
      modifies db
      ensures match Spec.Release(old(db.State()), attempt, runner)
              case Ok(t) => err.None? && db.State() == t
              case Err(e) => err == Some(e) && db.State() == old(db.State())
    {
      var found := Spec.Find(db.attempts, attempt);
      if found.None? {
        return Some(LeaseLost);
      }
      var a := db.attempts[found.value];
      if a.lease.Held? && a.lease.owner == runner {
        db.attempts := db.attempts[found.value := a.(lease := Free)];
        return None;
      }
      return Some(LeaseLost);
    }

    method RecordFinalCommit(attempt: nat, sha: string)
      modifies db
      ensures db.State() == Spec.RecordFinal(old(db.State()), attempt, sha)
    {
      var found := Spec.Find(db.attempts, attempt);
      if found.Some? && db.attempts[found.value].finalCommit.None? {
        db.attempts := db.attempts[found.value := db.attempts[found.value].(finalCommit := Some(sha))];
      }
    }

    method RecordPullRequest(attempt: nat, number: nat)
      modifies db
      ensures db.State() == Spec.RecordPullRequest(old(db.State()), attempt, number)
    {
      var found := Spec.Find(db.attempts, attempt);
      if found.Some? && db.attempts[found.value].pullRequest.None? {
        db.attempts := db.attempts[found.value := db.attempts[found.value].(pullRequest := Some(number))];
      }
    }

    /**
     * Extends the lease before a durable write. An unanswered statement is retried until the operation
     * timeout, a refusal is final, and an owner who already lost the lease does not ask again.
     */
    method FenceLeaseOwnership(attempt: nat, runner: Runner, duration: int, alreadyLost: bool,
                               start: Time, tries: seq<Try>) returns (fence: Fence)
      modifies db
      ensures alreadyLost ==> fence == Lost && db.State() == old(db.State())
      ensures !alreadyLost ==>
                (fence, db.State()) == FenceResult(old(db.State()), attempt, runner, duration,
                                                   start + Leases.LeaseOperationTimeout(duration), tries)
    {
      hide Spec.Extend;
      if alreadyLost {
        return Lost;
      }
      var deadline := start + Leases.LeaseOperationTimeout(duration);
      var k := 0;
      assert tries[0..] == tries;
      while k < |tries| && tries[k].at <= deadline
        invariant 0 <= k <= |tries|
        invariant FenceResult(old(db.State()), attempt, runner, duration, deadline, tries)
                  == FenceResult(db.State(), attempt, runner, duration, deadline, tries[k..])
      {
        assert tries[k..][0] == tries[k] && tries[k..][1..] == tries[k + 1..];
        if !tries[k].answer.Unreachable? {
          var err := ExtendLease(attempt, runner, duration, tries[k].at);
          if tries[k].answer.Answered? {
            return if err.None? then Fenced(tries[k].at) else Lost;
          }
        }
        k := k + 1;
      }
      return Unanswered;
    }
  }
}
