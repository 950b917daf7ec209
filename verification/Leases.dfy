/**
 * Runs of claims, extensions and releases on one attempt's lease, by any number of runners on a
 * clock that never runs backwards, and how long a fenced write stays covered.
 */
module Leases {
  import opened Records
  import opened RunnerSpec

  datatype Action = Claim | Extend | Release

  /** eligible says whether the attempt is active and its task claimable when a claim is tried. */
  datatype LeaseCall = LeaseCall(action: Action, runner: Runner, duration: int, now: Time, eligible: bool)

  function Grant(l: Lease, c: LeaseCall): Option<Lease> {
    match c.action
    case Claim => if c.eligible then ClaimLease(l, c.runner, c.duration, c.now) else None
    case Extend => ExtendLease(l, c.runner, c.duration, c.now)
    case Release => ReleaseLease(l, c.runner)
  }

  /** A refused call changes nothing. */
  function AfterCall(l: Lease, c: LeaseCall): Lease {
    match Grant(l, c)
    case Some(l') => l'
    case None => l
  }

  function LeaseAt(l: Lease, calls: seq<LeaseCall>, i: nat): Lease
    requires i <= |calls|
  {
    if i == 0 then l else AfterCall(LeaseAt(l, calls, i - 1), calls[i - 1])
  }

  ghost predicate Monotone(calls: seq<LeaseCall>) {
    forall i, j | 0 <= i <= j < |calls| :: calls[i].now <= calls[j].now
  }

  // ---- the intervals during which somebody held the lease

  /** One holder's uninterrupted stay: granted at from, over at until. */
  datatype Tenancy = Tenancy(owner: Runner, from: Time, until: Time)

  function Min(a: int, b: int): int {
    if a < b then a else b
  }

  function Record(book: seq<Tenancy>, l: Lease, c: LeaseCall): seq<Tenancy> {
    if Grant(l, c).None? then book
    else match c.action
         case Claim => book + [Tenancy(c.runner, c.now, c.now + c.duration)]
         case Extend => if book == [] then book
                        else book[|book| - 1 := book[|book| - 1].(until := c.now + c.duration)]
         case Release => if book == [] then book
                         else book[|book| - 1 := book[|book| - 1].(until := Min(book[|book| - 1].until, c.now))]
  }

  function Book(calls: seq<LeaseCall>, i: nat): seq<Tenancy>
    requires i <= |calls|
  {
    if i == 0 then [] else Record(Book(calls, i - 1), LeaseAt(Free, calls, i - 1), calls[i - 1])
  }

  /** Every stay is over when the next begins; the last one is the lease now in force. */
  ghost predicate Tidy(book: seq<Tenancy>, l: Lease, now: Time) {
    && (forall i, j | 0 <= i < j < |book| :: book[i].until <= book[j].from)
    && (forall i | 0 <= i < |book| :: book[i].from <= now)
    && (forall i | 0 <= i < |book| - 1 :: book[i].until <= now)
    && (l.Held? ==> book != [] && book[|book| - 1].owner == l.owner && book[|book| - 1].until == l.expires)
    && (l.Free? ==> book == [] || book[|book| - 1].until <= now)
  }

  lemma RecordTidy(book: seq<Tenancy>, l: Lease, before: Time, c: LeaseCall)
    requires Tidy(book, l, before) && before <= c.now
    ensures Tidy(Record(book, l, c), AfterCall(l, c), c.now)
  {
    match c.action
    case Claim =>
    case Extend =>
    case Release =>
  }

  lemma {:induction false} BookTidy(calls: seq<LeaseCall>, i: nat)
    requires Monotone(calls) && 0 < i <= |calls|
    ensures Tidy(Book(calls, i), LeaseAt(Free, calls, i), calls[i - 1].now)
  {
    if i == 1 {
      assert Book(calls, 0) == [] && LeaseAt(Free, calls, 0) == Free;
      RecordTidy([], Free, calls[0].now, calls[0]);
    } else {
      BookTidy(calls, i - 1);
      RecordTidy(Book(calls, i - 1), LeaseAt(Free, calls, i - 1), calls[i - 2].now, calls[i - 1]);
    }
  }

  /** Every granted claim is in the book. */
  lemma {:induction false} EveryGrantBooked(calls: seq<LeaseCall>, i: nat, k: nat)
    requires k < i <= |calls| && calls[k].action.Claim? && Grant(LeaseAt(Free, calls, k), calls[k]).Some?
    ensures exists j: nat :: j < |Book(calls, i)| && BookedAt(Book(calls, i), j, calls[k])
  {
    hide LeaseAt;
    if k == i - 1 {
      assert BookedAt(Book(calls, i), |Book(calls, k)|, calls[k]);
    } else {
      EveryGrantBooked(calls, i - 1, k);
      var j: nat :| j < |Book(calls, i - 1)| && BookedAt(Book(calls, i - 1), j, calls[k]);
      assert BookedAt(Book(calls, i), j, calls[k]);
    }
  }

  ghost predicate BookedAt(book: seq<Tenancy>, j: nat, c: LeaseCall)
    requires j < |book|
  {
    book[j].owner == c.runner && book[j].from == c.now
  }

  /** Over every run the stays of different holders never overlap, whatever durations they asked for. */
  lemma TenanciesDisjoint(calls: seq<LeaseCall>, i: nat, j: nat, at: Time)
    requires Monotone(calls) && calls != [] && i < j < |Book(calls, |calls|)|
    ensures var book := Book(calls, |calls|);
            !(book[i].from <= at < book[i].until && book[j].from <= at < book[j].until)
  {
    BookTidy(calls, |calls|);
  }

  // ---- what a former owner can still do

  /** A call the runner makes on a lease that is not his is refused, unless it is a claim. */
  lemma {:induction false} OldOwnerLocked(l: Lease, calls: seq<LeaseCall>, r: Runner, i: nat)
    requires l.Free? || l.owner != r
    requires forall c <- calls :: !(c.action.Claim? && c.runner == r)
    requires i < |calls| && calls[i].runner == r
    ensures Grant(LeaseAt(l, calls, i), calls[i]).None?
    ensures LeaseAt(l, calls, i + 1) == LeaseAt(l, calls, i)
  {
    NotOwner(l, calls, r, i);
    assert calls[i] in calls;
  }

  lemma {:induction false} NotOwner(l: Lease, calls: seq<LeaseCall>, r: Runner, i: nat)
    requires l.Free? || l.owner != r
    requires forall c <- calls :: !(c.action.Claim? && c.runner == r)
    requires i <= |calls|
    ensures LeaseAt(l, calls, i).Free? || LeaseAt(l, calls, i).owner != r
  {
    if i > 0 {
      NotOwner(l, calls, r, i - 1);
      assert calls[i - 1] in calls;
    }
  }

  /** From the instant of expiry on, only a claim changes who holds the lease, or until when. */
  lemma {:induction false} ExpiredStaysExpired(l: Lease, calls: seq<LeaseCall>, i: nat)
    requires l.Held? && Monotone(calls) && i <= |calls|
    requires forall c <- calls :: c.now >= l.expires && !c.action.Claim?
    ensures LeaseAt(l, calls, i) == l || LeaseAt(l, calls, i).Free?
  {
    if i > 0 {
      ExpiredStaysExpired(l, calls, i - 1);
      assert calls[i - 1] in calls;
    }
  }

  // ---- fenced writes

  /** Everybody uses the configured lease duration. */
  ghost predicate Uniform(calls: seq<LeaseCall>, duration: int) {
    forall c <- calls :: c.duration == duration
  }

  /** After a grant at call i the grantee holds the lease until its own release or the expiry. */
  lemma {:induction false} GrantHolds(l: Lease, calls: seq<LeaseCall>, duration: int, i: nat, k: nat)
    requires Monotone(calls) && Uniform(calls, duration)
    requires i < k <= |calls| && !calls[i].action.Release? && Grant(LeaseAt(l, calls, i), calls[i]).Some?
    requires forall m | i < m < k :: !(calls[m].action.Release? && calls[m].runner == calls[i].runner)
    requires k == i + 1 || calls[k - 1].now <= calls[i].now + duration
    ensures LeaseAt(l, calls, k).Held? && LeaseAt(l, calls, k).owner == calls[i].runner
    ensures LeaseAt(l, calls, k).expires >= calls[i].now + duration
  {
    assert calls[i] in calls && calls[k - 1] in calls;
    if k > i + 1 {
      assert calls[k - 2].now <= calls[k - 1].now;
      GrantHolds(l, calls, duration, i, k - 1);
    }
  }

  /** Another runner's next grant comes after the first one's lease has run out. */
  lemma GrantsApart(l: Lease, calls: seq<LeaseCall>, duration: int, i: nat, j: nat)
    requires Monotone(calls) && Uniform(calls, duration)
    requires i < j < |calls| && calls[i].runner != calls[j].runner
    requires !calls[i].action.Release? && Grant(LeaseAt(l, calls, i), calls[i]).Some?
    requires !calls[j].action.Release? && Grant(LeaseAt(l, calls, j), calls[j]).Some?
    requires forall m | i < m < j :: !(calls[m].action.Release? && calls[m].runner == calls[i].runner)
    ensures calls[i].now + duration < calls[j].now
  {
    if calls[j].now <= calls[i].now + duration {
      assert j == i + 1 || calls[j - 1].now <= calls[j].now;
      GrantHolds(l, calls, duration, i, j);
      assert false;
    }
  }

  const SECOND := 1_000_000_000
  const SESSION_CANCEL_TIMEOUT := 5 * SECOND

  /** Nanoseconds; Go's division truncates toward zero. */
  function LeaseOperationTimeout(duration: int): int {
    var timeout := if duration >= 0 then duration / 3 else -(-duration / 3);
    if timeout <= 0 || timeout > SESSION_CANCEL_TIMEOUT then SESSION_CANCEL_TIMEOUT else timeout
  }

  /** A third of the lease, rounded down, but at most five seconds; five seconds where a third is nothing. */
  lemma OperationTimeoutIs(duration: int)
    ensures var t := LeaseOperationTimeout(duration);
            && 1 <= t <= 5_000_000_000
            && (3 <= duration < 15_000_000_000 ==> 3 * t <= duration < 3 * t + 3)
            && (duration < 3 || duration >= 15_000_000_000 ==> t == 5_000_000_000)
  {
  }

  /**
   * A fence and the write behind it, each bounded by the operation timeout, fit inside the lease the
   * fence renewed exactly when the lease lasts at least three nanoseconds.
   */
  lemma OperationFitsLease(duration: int)
    ensures 2 * LeaseOperationTimeout(duration) < duration <==> duration >= 3
  {
  }

  /** A durable write: fenced by call `fence`, whose answer arrived by `answered`, committed at `at`. */
  datatype Write = Write(fence: nat, answered: Time, at: Time)

  ghost predicate Timely(calls: seq<LeaseCall>, duration: int, w: Write)
    requires w.fence < |calls|
  {
    var granted, timeout := calls[w.fence].now, LeaseOperationTimeout(duration);
    && granted <= w.answered <= granted + timeout
    && w.answered <= w.at <= w.answered + timeout
  }

  /** A write behind its own granted fence, in time, and before its writer gives the lease back. */
  ghost predicate Fenced(calls: seq<LeaseCall>, duration: int, w: Write) {
    && w.fence < |calls|
    && calls[w.fence].action.Extend? && Grant(LeaseAt(Free, calls, w.fence), calls[w.fence]).Some?
    && Timely(calls, duration, w)
    && forall m | w.fence < m < |calls| && OwnRelease(calls, w, m) :: w.at <= calls[m].now
  }

  ghost predicate OwnRelease(calls: seq<LeaseCall>, w: Write, m: nat)
    requires w.fence < |calls| && m < |calls|
  {
    calls[m].action.Release? && calls[m].runner == calls[w.fence].runner
  }

  /** The first k calls, up to the instant of the write, without the writer's own release. */
  ghost predicate UpToWrite(calls: seq<LeaseCall>, w: Write, k: nat) {
    && w.fence < k <= |calls| && calls[k - 1].now <= w.at
    && forall m: nat | w.fence < m < k :: !OwnRelease(calls, w, m)
  }

  /** Somebody else is given the lease at call g, by a claim or by an extension. */
  ghost predicate GrantedToOther(calls: seq<LeaseCall>, w: Write, g: nat) {
    && w.fence < g < |calls| && calls[g].runner != calls[w.fence].runner
    && !calls[g].action.Release? && Grant(LeaseAt(Free, calls, g), calls[g]).Some?
  }

  /** After the first k calls the lease is the writer's and outlasts the write. */
  ghost predicate HeldByWriter(calls: seq<LeaseCall>, w: Write, k: nat)
    requires w.fence < |calls| && k <= |calls|
  {
    var l := LeaseAt(Free, calls, k);
    l.Held? && l.owner == calls[w.fence].runner && w.at < l.expires
  }

  lemma WriteInsideLease(calls: seq<LeaseCall>, duration: int, w: Write, k: nat)
    requires Monotone(calls) && Uniform(calls, duration) && duration >= 3
    requires Fenced(calls, duration, w) && UpToWrite(calls, w, k)
    ensures HeldByWriter(calls, w, k)
  {
    OperationFitsLease(duration);
    GrantHolds(Free, calls, duration, w.fence, k);
  }

  /** Nobody else is given the lease between a write's fence and the write. */
  lemma WriteBeforeOtherGrants(calls: seq<LeaseCall>, duration: int, w: Write, g: nat)
    requires Monotone(calls) && Uniform(calls, duration) && duration >= 3
    requires Fenced(calls, duration, w) && GrantedToOther(calls, w, g)
    ensures w.at <= calls[g].now
  {
    OperationFitsLease(duration);
    if m: nat :| w.fence < m < g && OwnRelease(calls, w, m) {
      assert calls[m].now <= calls[g].now;
    } else {
      forall m | w.fence < m < g
        ensures !(calls[m].action.Release? && calls[m].runner == calls[w.fence].runner)
      {
        assert !OwnRelease(calls, w, m);
      }
      GrantsApart(Free, calls, duration, w.fence, g);
    }
  }

  /**
   * Fenced writes of two runners on one attempt never fall inside each other's lease: each commits while its
   * own writer holds the lease, and the first before the other runner is granted anything, by whichever claim
   * or extension that happens.
   */
  lemma FencedWritesExclusive(calls: seq<LeaseCall>, duration: int, first: Write, second: Write)
    requires Monotone(calls) && Uniform(calls, duration) && duration >= 3
    requires Fenced(calls, duration, first) && Fenced(calls, duration, second)
    requires first.fence < second.fence && calls[first.fence].runner != calls[second.fence].runner
    ensures forall k: nat | UpToWrite(calls, first, k) :: HeldByWriter(calls, first, k)
    ensures forall k: nat | UpToWrite(calls, second, k) :: HeldByWriter(calls, second, k)
    ensures forall g: nat | GrantedToOther(calls, first, g) :: first.at <= calls[g].now
    ensures forall g: nat | GrantedToOther(calls, second, g) :: second.at <= calls[g].now
    ensures GrantedToOther(calls, first, second.fence) && first.at <= second.at
  {
    hide HeldByWriter;
    forall k: nat | UpToWrite(calls, first, k)
      ensures HeldByWriter(calls, first, k)
    {
      WriteInsideLease(calls, duration, first, k);
    }
    forall k: nat | UpToWrite(calls, second, k)
      ensures HeldByWriter(calls, second, k)
    {
      WriteInsideLease(calls, duration, second, k);
    }
    forall g: nat | GrantedToOther(calls, first, g)
      ensures first.at <= calls[g].now
    {
      WriteBeforeOtherGrants(calls, duration, first, g);
    }
    forall g: nat | GrantedToOther(calls, second, g)
      ensures second.at <= calls[g].now
    {
      WriteBeforeOtherGrants(calls, duration, second, g);
    }
  }

  /** Leases are configured in whole seconds, so every fenced operation fits its lease. */
  lemma ConfiguredLeaseFits(seconds: nat)
    requires seconds >= 1
    ensures 2 * LeaseOperationTimeout(seconds * SECOND) < seconds * SECOND
  {
    OperationFitsLease(seconds * SECOND);
  }
}
