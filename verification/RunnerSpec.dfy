/** What each runner-store statement does to the tables. */
module RunnerSpec {
  import opened Lifecycle
  import opened Records

  /** Granted when nobody holds the lease or the holder's expiry lies in the past. */
  function ClaimLease(l: Lease, r: Runner, duration: int, now: Time): Option<Lease> {
    if l.Free? || l.expires < now then Some(Held(r, now + duration)) else None
  }

  /** Granted only to the holder, strictly before expiry. */
  function ExtendLease(l: Lease, r: Runner, duration: int, now: Time): Option<Lease> {
    if l.Held? && l.owner == r && l.expires > now then Some(Held(r, now + duration)) else None
  }

  function ReleaseLease(l: Lease, r: Runner): Option<Lease> {
    if l.Held? && l.owner == r then Some(Free) else None
  }

  /** A published task rests in review for a human; a task without a repository recovers through it. */
  predicate Claimable(row: TaskRow) {
    row.status == Queued || row.status == Provisioning || row.status == Planning ||
    row.status == Executing || row.status == Validating || row.status == Publishing ||
    (row.status == AwaitingReview && !row.hasRepository)
  }

  /** Index of the attempt row with this number. */
  function Find(attempts: seq<Attempt>, number: nat): (r: Option<nat>)
    ensures r.Some? ==> r.value < |attempts| && attempts[r.value].number == number
    ensures r.None? ==> forall a <- attempts :: a.number != number
  {
    if attempts == [] then None
    else if attempts[0].number == number then Some(0)
    else match Find(attempts[1..], number)
         case None => None
         case Some(i) => Some(i + 1)
  }

  function WithLease(t: Tables, i: nat, l: Lease): Tables
    requires i < |t.attempts|
  {
    t.(attempts := t.attempts[i := t.attempts[i].(lease := l)])
  }

  function Claim(t: Tables, attempt: nat, r: Runner, duration: int, now: Time): Option<Tables> {
    match Find(t.attempts, attempt)
    case None => None
    case Some(i) =>
      if !t.attempts[i].status.Active? || !Claimable(t.task) then None
      else match ClaimLease(t.attempts[i].lease, r, duration, now)
           case None => None
           case Some(l) => Some(WithLease(t, i, l))
  }

  function Extend(t: Tables, attempt: nat, r: Runner, duration: int, now: Time): Result<Tables> {
    match Find(t.attempts, attempt)
    case None => Err(LeaseLost)
    case Some(i) =>
      match ExtendLease(t.attempts[i].lease, r, duration, now)
      case None => Err(LeaseLost)
      case Some(l) => Ok(WithLease(t, i, l))
  }

  function Release(t: Tables, attempt: nat, r: Runner): Result<Tables> {
    match Find(t.attempts, attempt)
    case None => Err(LeaseLost)
    case Some(i) =>
      match ReleaseLease(t.attempts[i].lease, r)
      case None => Err(LeaseLost)
      case Some(l) => Ok(WithLease(t, i, l))
  }

  /** First writer wins on the attempt's own columns, so a replay keeps what was recorded. */
  function RecordBase(t: Tables, attempt: nat, sha: string): Tables {
    match Find(t.attempts, attempt)
    case None => t
    case Some(i) =>
      var a := t.attempts[i];
      t.(attempts := t.attempts[i := a.(baseCommit := OrElse(a.baseCommit, Some(sha)))])
  }

  function RecordFinal(t: Tables, attempt: nat, sha: string): Tables {
    match Find(t.attempts, attempt)
    case None => t
    case Some(i) =>
      var a := t.attempts[i];
      t.(attempts := t.attempts[i := a.(finalCommit := OrElse(a.finalCommit, Some(sha)))])
  }

  function RecordPullRequest(t: Tables, attempt: nat, number: nat): Tables {
    match Find(t.attempts, attempt)
    case None => t
    case Some(i) =>
      var a := t.attempts[i];
      t.(attempts := t.attempts[i := a.(pullRequest := OrElse(a.pullRequest, Some(number)))])
  }
}
