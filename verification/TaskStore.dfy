/** The task store: every method is one transaction under the task row lock. */
module TaskStore {
  import opened Lifecycle
  import opened Records
  import opened Storage
  import Spec = TaskSpec

  class Store {
    const db: Database

    constructor (db: Database)
      ensures this.db == db
    {
      this.db := db;
    }

    /** Inserts the task, its first attempt and its first event, and queues it. */
    static method Create(hasRepository: bool, now: Time) returns (store: Store)
      ensures fresh(store) && fresh(store.db)
      ensures Ok(store.db.State()) == Spec.Create(hasRepository, now)
    {
      var row := TaskRow(Created, Pending, 1, None, None, None, "", "", "", hasRepository, None, None);
      var db := new Database(row, [Spec.NewAttempt(1, None)], []);
      store := new Store(db);
      store.InsertEvent(1, TaskCreated, "api", NoKey);
      assert db.State() == Spec.Inserted(hasRepository);
      var err := store.ApplyTransition(Spec.To(Queued, "system", "", NoKey), now);
      assert err.None?;
    }

    method Transition(p: TransitionParams, now: Time) returns (err: Option<Error>)
      modifies db
      ensures match Spec.ApplyTransition(old(db.State()), p, now)
              case Ok(t) => err.None? && db.State() == t
              case Err(e) => err == Some(e) && db.State() == old(db.State())
    {
      err := ApplyTransition(p, now);
    }

    method RequestRevision(r: RevisionParams, now: Time) returns (err: Option<Error>)
      modifies db
      ensures match Spec.RequestRevision(old(db.State()), r, now)
              case Ok(t) => err.None? && db.State() == t
              case Err(e) => err == Some(e) && db.State() == old(db.State())
    {
      if !Spec.Complete(r) {
        return Some(RevisionIncomplete);
      }
      if Spec.KeySeen(db.events, r.key) {
        return Some(RevisionReplayed);
      }
      if |db.attempts| >= r.maxAttempts {
        return Some(RevisionLimit(|db.attempts|, r.maxAttempts));
      }
      var task, attempts, events := db.task, db.attempts, db.events;
      err := ApplyTransition(Spec.RevisionStart(r), now);
      if err.Some? {
        return;
      }
      if db.task.status != RevisionRequested {
        db.task, db.attempts, db.events := task, attempts, events;
        return Some(RevisionReplayed);
      }
      err := ApplyTransition(Spec.RevisionRequeue(r), now);
      if err.None? && Spec.ActiveIndex(db.attempts).None? {
        err := Some(NoActiveAttempt);
      }
      if err.Some? {
        db.task, db.attempts, db.events := task, attempts, events;
      }
    }

    /** Any unfinished task can be cancelled, and a cancelled one again; a task that ended otherwise stays so. */
    method Cancel(reason: string, now: Time) returns (err: Option<Error>)
      modifies db
      ensures err.None? ==> db.task.status == Cancelled
      ensures old(db.task.status) in {Completed, Failed, TimedOut} ==>
                err == Some(InvalidTransition(old(db.task.status), Cancelled))
      ensures old(db.task.status) !in {Completed, Failed, TimedOut} ==> err.None? || err == Some(NoActiveAttempt)
      ensures match Spec.Cancel(old(db.State()), reason, now)
              case Ok(t) => err.None? && db.State() == t
              case Err(e) => err == Some(e) && db.State() == old(db.State())
    {
      if db.task.status == Cancelled {
        return None;
      }
      err := ApplyTransition(Spec.To(Cancelled, "api", reason, NoKey), now);
    }

    /** First writer wins: base and branch stay what they first were. */
    method EnsureGitContext(baseCommit: string, branch: string) returns (base: string, working: string)
      modifies db
      ensures db.State() == Spec.EnsureGitContext(old(db.State()), baseCommit, branch)
      ensures Some(base) == db.task.baseCommit && Some(working) == db.task.workingBranch
    {
      if db.task.baseCommit.None? {
        db.task := db.task.(baseCommit := Some(baseCommit));
      }
      if db.task.workingBranch.None? {
        db.task := db.task.(workingBranch := Some(branch));
      }
      db.task := db.task.(version := db.task.version + 1);
      base, working := db.task.baseCommit.value, db.task.workingBranch.value;
    }

    method AppendAttemptEvent(attempt: nat, eventType: string, source: string) returns (err: Option<Error>)
      modifies db
      ensures match Spec.AppendAttemptEvent(old(db.State()), attempt, eventType, source)
              case Ok(t) => err.None? && db.State() == t
              case Err(e) => err == Some(e) && db.State() == old(db.State())
    {
      if !Spec.ValidSource(source) {
        return Some(UnknownSource(source));
      }
      if !Spec.HasAttempt(Tables(db.task, db.attempts, db.events), attempt) {
        return Some(AttemptNotFound);
      }
      InsertEvent(attempt, Note(eventType), source, NoKey);
      return None;
    }

    method AppendEvent(eventType: string, source: string) returns (err: Option<Error>)
      modifies db
      ensures match Spec.AppendEvent(old(db.State()), eventType, source)
              case Ok(t) => err.None? && db.State() == t
              case Err(e) => err == Some(e) && db.State() == old(db.State())
    {
      var active := Spec.ActiveIndex(db.attempts);
      if active.None? {
        return Some(NoActiveAttempt);
      }
      if !Spec.ValidSource(source) {
        return Some(UnknownSource(source));
      }
      InsertEvent(db.attempts[active.value].number, Note(eventType), source, NoKey);
      return None;
    }

    /** A replayed key changes nothing; every other refusal comes before the first write. */
    method ApplyTransition(p: TransitionParams, now: Time) returns (err: Option<Error>)
      modifies db
      ensures match Spec.ApplyTransition(old(db.State()), p, now)
              case Ok(t) => err.None? && db.State() == t
              case Err(e) => err == Some(e) && db.State() == old(db.State())
    {
      var source := p.source;
      if source == "" {
        source := "system";
      }
      if !Spec.ValidSource(source) {
        return Some(UnknownSource(p.source));
      }
      if p.key != NoKey && Spec.KeySeen(db.events, p.key) {
        return None;
      }
      if p.expectedVersion != 0 && p.expectedVersion != db.task.version {
        return Some(VersionConflict(p.expectedVersion, db.task.version));
      }
      var from := db.task.status;
      if !CanTransition(from, p.to) {
        return Some(InvalidTransition(from, p.to));
      }
      var active := Spec.ActiveIndex(db.attempts);
      if active.None? {
        return Some(NoActiveAttempt);
      }
      var eventAttempt := MoveAttempts(p, active.value, now);
      MoveTask(p, now);
      InsertEvent(eventAttempt, Moved(from, p.to, p.reason), source, p.key);
      return None;
    }

    /** Closes, supersedes or starts the active attempt; returns the attempt that records the move. */
    method MoveAttempts(p: TransitionParams, i: nat, now: Time) returns (eventAttempt: nat)
      requires i < |db.attempts|
      modifies db`attempts
      ensures db.attempts == Spec.MovedAttempts(old(db.State()), p, i, now)
      ensures eventAttempt == Spec.EventAttempt(old(db.State()), p, i)
    {
      var current := db.attempts[i];
      eventAttempt := current.number;
      if p.to.Terminal() {
        current := current.(status := Finished(p.to), completedAt := Some(now));
        current := current.(failureCode := p.failureCode, failureMessage := p.failureMessage);
        db.attempts := db.attempts[i := current];
      } else if db.task.status == RevisionRequested && p.to == Queued {
        db.attempts := db.attempts[i := current.(status := Superseded, completedAt := Some(now))];
        eventAttempt := InsertRevisionAttempt(current.number + 1, p.brief);
      } else if p.to == Provisioning {
        db.attempts := db.attempts[i := current.(startedAt := OrElse(current.startedAt, Some(now)))];
      }
    }

    method MoveTask(p: TransitionParams, now: Time)
      modifies db`task
      ensures db.task == Spec.MovedTask(old(db.task), p, now)
    {
      var row := db.task.(status := p.to, phase := p.to.Phase(), version := db.task.version + 1);
      if p.to == Provisioning {
        row := row.(startedAt := OrElse(row.startedAt, Some(now)));
      }
      if p.to.Terminal() {
        row := row.(completedAt := Some(now));
      }
      if p.to == Cancelled {
        row := row.(cancelRequestedAt := OrElse(row.cancelRequestedAt, Some(now)));
      }
      if p.failureCode != "" {
        row := row.(failureCode := p.failureCode);
      }
      if p.failureMessage != "" {
        row := row.(failureMessage := p.failureMessage);
      }
      db.task := row.(statusReason := Spec.Truncated(p.reason, Spec.MAX_STATUS_REASON));
    }

    method InsertRevisionAttempt(number: nat, brief: Option<Brief>) returns (inserted: nat)
      modifies db`attempts
      ensures db.attempts == old(db.attempts) + [Spec.NewAttempt(number, brief)]
      ensures inserted == number
    {
      var row := Attempt(number, Active, None, None, "", "", None, None, None, None, Free);
      if brief.Some? {
        row := row.(brief := brief, baseCommit := Some(brief.value.baseCommit));
      }
      db.attempts := db.attempts + [row];
      inserted := number;
    }

    /** Numbers the event one past the attempt's highest, found by scanning the table. */
    method InsertEvent(attempt: nat, kind: Kind, source: string, key: Key)
      modifies db`events
      ensures db.events == Spec.Appended(old(db.events), attempt, kind, source, key)
    {
      var highest := 0;
      for k := 0 to |db.events|
        invariant highest == Spec.MaxSeq(db.events[..k], attempt)
      {
        assert db.events[..k + 1][..k] == db.events[..k];
        if db.events[k].attempt == attempt && highest < db.events[k].seqno {
          highest := db.events[k].seqno;
        }
      }
      assert db.events[..|db.events|] == db.events;
      db.events := db.events + [Event(attempt, highest + 1, kind, source, key)];
    }
  }
}
