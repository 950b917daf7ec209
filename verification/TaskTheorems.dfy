/** Consequences for every reachable state: exact counts, a replayable log, and what later calls cannot undo. */
module TaskTheorems {
  import opened Lifecycle
  import opened Records
  import opened TaskSpec
  import opened TaskHistory
  import opened TaskRuns

  // ---- counting

  lemma CountEdges(t: Tables)
    requires Inv(t)
    ensures !t.task.status.Terminal() ==>
              |Edges(t.events)| == 8 * (|t.attempts| - 1) + Rank(t.task.status)
    ensures t.task.status.Terminal() ==>
              8 * (|t.attempts| - 1) + 2 <= |Edges(t.events)| <= 8 * |t.attempts| + 1
  {
    hide AttemptStructure, Numbered, KeysOnce, MovesAtTheTop, AttemptsExist;
    if t.task.status.Terminal() {
      var from: Status :| EndedFrom(Edges(t.events), |t.attempts|, from, t.task.status);
      assert Rank(from) >= 1;
    }
  }

  /** In every reachable state the number of applied transitions is a function of the attempts and the status. */
  lemma TransitionCount(hasRepository: bool, born: Time, calls: seq<Call>)
    ensures var t := Run(Start(hasRepository, born), calls);
            if t.task.status.Terminal() then
              8 * (|t.attempts| - 1) + 2 <= |Edges(t.events)| <= 8 * |t.attempts| + 1
            else
              |Edges(t.events)| == 8 * (|t.attempts| - 1) + Rank(t.task.status)
  {
    hide Run, Start, Inv;
    RunKeepsInv(hasRepository, born, calls);
    CountEdges(Run(Start(hasRepository, born), calls));
  }

  function GitContextCalls(calls: seq<Call>): nat {
    if calls == [] then 0
    else GitContextCalls(calls[..|calls| - 1]) + if calls[|calls| - 1].op.EnsureGitContext? then 1 else 0
  }

  lemma MoveAccounts(t: Tables, p: TransitionParams, i: nat, now: Time)
    requires i < |t.attempts|
    ensures Move(t, p, i, now).task.version == t.task.version + 1
    ensures |Edges(Move(t, p, i, now).events)| == |Edges(t.events)| + 1
    ensures t.events <= Move(t, p, i, now).events
  {
    var after := Move(t, p, i, now).events;
    assert after[..|after| - 1] == t.events;
  }

  lemma NoteAccounts(events: seq<Event>, attempt: nat, eventType: string, source: string)
    ensures var after := Appended(events, attempt, Note(eventType), source, NoKey);
            |Edges(after)| == |Edges(events)| && events <= after
  {
    var after := Appended(events, attempt, Note(eventType), source, NoKey);
    assert after[..|after| - 1] == events;
  }

  /** A call adds the same number to the version and to the transitions, except that fixing the git context adds one. */
  ghost predicate Accounts(t: Tables, t': Tables, extra: nat) {
    && t'.task.version - |Edges(t'.events)| == t.task.version - |Edges(t.events)| + extra
    && t.events <= t'.events
  }

  lemma TransitionAccounts(t: Tables, p: TransitionParams, now: Time)
    ensures match ApplyTransition(t, p, now)
            case Ok(t') => Accounts(t, t', 0)
            case Err(_) => true
  {
    var i := ActiveIndex(t.attempts);
    if i.Some? {
      MoveAccounts(t, p, i.value, now);
    }
  }

  lemma RevisionAccounts(t: Tables, r: RevisionParams, now: Time)
    ensures match TaskSpec.RequestRevision(t, r, now)
            case Ok(t') => Accounts(t, t', 0)
            case Err(_) => true
  {
    hide ApplyTransition, Edges;
    TransitionAccounts(t, RevisionStart(r), now);
    match ApplyTransition(t, RevisionStart(r), now)
    case Err(_) =>
    case Ok(requested) => TransitionAccounts(requested, RevisionRequeue(r), now);
  }

  lemma AppendEventAccounts(t: Tables, eventType: string, source: string)
    ensures match TaskSpec.AppendEvent(t, eventType, source)
            case Ok(t') => Accounts(t, t', 0)
            case Err(_) => true
  {
    var i := ActiveIndex(t.attempts);
    if i.Some? {
      NoteAccounts(t.events, t.attempts[i.value].number, eventType, source);
    }
  }

  lemma CallAccounts(t: Tables, c: Call)
    ensures Accounts(t, After(t, c), if c.op.EnsureGitContext? then 1 else 0)
  {
    hide ApplyTransition, Edges, TaskSpec.RequestRevision, TaskSpec.AppendEvent, Appended;
    match c.op
    case Transition(p) => TransitionAccounts(t, p, c.now);
    case RequestRevision(r) => RevisionAccounts(t, r, c.now);
    case Cancel(reason) => TransitionAccounts(t, To(Cancelled, "api", reason, NoKey), c.now);
    case AppendAttemptEvent(a, eventType, source) => NoteAccounts(t.events, a, eventType, source);
    case AppendEvent(eventType, source) => AppendEventAccounts(t, eventType, source);
    case _ =>
  }

  /** version = 1 + applied transitions + EnsureGitContext calls. */
  lemma {:induction false} VersionAccount(hasRepository: bool, born: Time, calls: seq<Call>)
    ensures var t := Run(Start(hasRepository, born), calls);
            t.task.version == 1 + |Edges(t.events)| + GitContextCalls(calls)
  {
    if calls == [] {
      CreateSucceeds(hasRepository, born);
    } else {
      var n := |calls| - 1;
      VersionAccount(hasRepository, born, calls[..n]);
      CallAccounts(Run(Start(hasRepository, born), calls[..n]), calls[n]);
    }
  }

  // ---- replaying the log

  /** An edge is legal and continues where the one before it ended. */
  ghost predicate Linked(edges: seq<Edge>, k: nat)
    requires k < |edges|
  {
    && CanTransition(edges[k].from, edges[k].to)
    && (k == 0 ==> edges[k].from == Created)
    && (k > 0 ==> edges[k].from == edges[k - 1].to && edges[k - 1].attempt <= edges[k].attempt)
  }

  ghost predicate Chained(edges: seq<Edge>, last: Status) {
    && |edges| >= 1
    && (forall k: nat | k < |edges| :: Linked(edges, k))
    && edges[|edges| - 1].to == last
  }

  lemma IdealEdgesChain(k: nat)
    ensures var e, next := IdealEdge(k), IdealEdge(k + 1);
            next.from == e.to && e.attempt <= next.attempt && CanTransition(e.from, e.to) &&
            (k == 0 ==> e.from == Created)
  {
    assert (k % 8) in {0, 1, 2, 3, 4, 5, 6, 7};
    if k > 0 {
      assert (k - 1) % 8 == if k % 8 == 0 then 7 else k % 8 - 1;
    }
  }

  lemma LastIdealEdge(n: nat, s: Status)
    requires n >= 1 && !s.Terminal() && s != Created
    ensures var m := 8 * (n - 1) + Rank(s);
            m >= 1 && IdealEdge(m - 1).to == s && IdealEdge(m - 1).attempt == n
  {
    var k := 8 * (n - 1) + Rank(s) - 1;
    assert k % 8 == Rank(s) - 1 && k / 8 == n - 1;
  }

  lemma HistoryChains(n: nat, s: Status)
    requires n >= 1 && !s.Terminal() && s != Created
    ensures Chained(History(8 * (n - 1) + Rank(s)), s)
  {
    hide IdealEdge;
    var h := History(8 * (n - 1) + Rank(s));
    LastIdealEdge(n, s);
    forall k: nat | k < |h|
      ensures Linked(h, k)
    {
      IdealEdgesChain(k);
      if k > 0 {
        IdealEdgesChain(k - 1);
      }
    }
  }

  lemma ChainEnds(edges: seq<Edge>, last: Status, attempt: nat, to: Status)
    requires Chained(edges, last) && edges[|edges| - 1].attempt <= attempt && CanTransition(last, to)
    ensures Chained(edges + [Edge(attempt, last, to)], to)
  {
    var longer := edges + [Edge(attempt, last, to)];
    forall k: nat | k < |longer|
      ensures Linked(longer, k)
    {
      if k < |edges| {
        assert Linked(edges, k);
      }
    }
  }

  lemma ChronicleChains(edges: seq<Edge>, n: nat, status: Status)
    requires Chronicle(status, n, edges) && status != Created
    ensures Chained(edges, status)
  {
    hide IdealEdge, Chained;
    if status.Terminal() {
      var from: Status :| EndedFrom(edges, n, from, status);
      HistoryChains(n, from);
      LastIdealEdge(n, from);
      ChainEnds(History(8 * (n - 1) + Rank(from)), from, n, status);
    } else {
      HistoryChains(n, status);
    }
  }

  lemma LogChains(t: Tables)
    requires Inv(t)
    ensures Chained(Edges(t.events), t.task.status)
  {
    hide AttemptStructure, Numbered, KeysOnce, MovesAtTheTop, AttemptsExist, Chained, Chronicle;
    ChronicleChains(Edges(t.events), |t.attempts|, t.task.status);
  }

  /** After any run, replaying the recorded transitions from `created` ends in the stored status. */
  lemma LogReplays(hasRepository: bool, born: Time, calls: seq<Call>)
    ensures var t := Run(Start(hasRepository, born), calls);
            Chained(Edges(t.events), t.task.status)
  {
    hide Run, Start, Inv, Chained, Edges;
    RunKeepsInv(hasRepository, born, calls);
    LogChains(Run(Start(hasRepository, born), calls));
  }

  /** The sequence numbers of one attempt in commit order. */
  function Seqnos(events: seq<Event>, attempt: nat): seq<nat> {
    if events == [] then []
    else
      var rest := Seqnos(events[..|events| - 1], attempt);
      var last := events[|events| - 1];
      if last.attempt == attempt then rest + [last.seqno] else rest
  }

  lemma {:induction false} NumberedFromOne(events: seq<Event>, attempt: nat)
    requires Numbered(events)
    ensures |Seqnos(events, attempt)| == MaxSeq(events, attempt)
    ensures forall k: nat | k < MaxSeq(events, attempt) :: Seqnos(events, attempt)[k] == k + 1
  {
    if events != [] {
      var n := |events| - 1;
      var rest := events[..n];
      assert NumberedAt(events, n);
      forall j: nat | j < n
        ensures NumberedAt(rest, j)
      {
        assert NumberedAt(events, j) && rest[..j] == events[..j];
      }
      NumberedFromOne(rest, attempt);
    }
  }

  lemma InvNumbers(t: Tables)
    requires Inv(t)
    ensures Numbered(t.events) && KeysOnce(t.events)
  {
  }

  /**
   * After any run each attempt's events are numbered 1, 2, 3, ... with no gap, and no idempotency
   * key is recorded twice.
   */
  lemma SequenceNumbersDense(hasRepository: bool, born: Time, calls: seq<Call>, attempt: nat)
    ensures var t := Run(Start(hasRepository, born), calls);
            (forall k: nat | k < |Seqnos(t.events, attempt)| :: Seqnos(t.events, attempt)[k] == k + 1) &&
            KeysOnce(t.events)
  {
    hide Run, Start, Inv, KeysOnce, Numbered;
    RunKeepsInv(hasRepository, born, calls);
    InvNumbers(Run(Start(hasRepository, born), calls));
    NumberedFromOne(Run(Start(hasRepository, born), calls).events, attempt);
  }

  // ---- what later calls cannot undo

  /** Whatever is appended afterwards, a recorded key turns its transition into a no-op. */
  lemma {:induction false} ReplayStaysNoOp(t: Tables, calls: seq<Call>, p: TransitionParams, now: Time)
    requires p.key != NoKey && KeySeen(t.events, p.key) && ValidSource(SourceOf(p))
    ensures t.events <= Run(t, calls).events
    ensures ApplyTransition(Run(t, calls), p, now) == Ok(Run(t, calls))
  {
    hide CanTransition, Move;
    if calls != [] {
      var n := |calls| - 1;
      ReplayStaysNoOp(t, calls[..n], p, now);
      CallAccounts(Run(t, calls[..n]), calls[n]);
    }
    var e :| e in t.events && e.key == p.key;
    assert e in Run(t, calls).events;
  }

  lemma TransitionKeepsGitContext(t: Tables, p: TransitionParams, now: Time)
    ensures match ApplyTransition(t, p, now)
            case Ok(t') => t'.task.baseCommit == t.task.baseCommit && t'.task.workingBranch == t.task.workingBranch
            case Err(_) => true
  {
  }

  lemma CallKeepsGitContext(t: Tables, c: Call)
    ensures t.task.baseCommit.Some? ==> After(t, c).task.baseCommit == t.task.baseCommit
    ensures t.task.workingBranch.Some? ==> After(t, c).task.workingBranch == t.task.workingBranch
    ensures c.op.EnsureGitContext? ==>
              After(t, c).task.baseCommit.Some? && After(t, c).task.workingBranch.Some?
  {
    hide ApplyTransition, Appended;
    match c.op
    case Transition(p) => TransitionKeepsGitContext(t, p, c.now);
    case RequestRevision(r) =>
      TransitionKeepsGitContext(t, RevisionStart(r), c.now);
      match ApplyTransition(t, RevisionStart(r), c.now) {
        case Err(_) =>
        case Ok(requested) => TransitionKeepsGitContext(requested, RevisionRequeue(r), c.now);
      }
    case Cancel(reason) => TransitionKeepsGitContext(t, To(Cancelled, "api", reason, NoKey), c.now);
    case _ =>
  }

  /** Once some owner fixed the base and the branch, every later owner gets the same two. */
  lemma {:induction false} GitContextStable(t: Tables, base: string, branch: string, calls: seq<Call>)
    requires calls != [] && calls[0].op == EnsureGitContext(base, branch)
    ensures var fixed := After(t, calls[0]).task;
            var t' := Run(t, calls).task;
            t'.baseCommit == fixed.baseCommit && fixed.baseCommit.Some? &&
            t'.workingBranch == fixed.workingBranch && fixed.workingBranch.Some?
  {
    var n := |calls| - 1;
    if n == 0 {
      assert calls[..0] == [];
    } else {
      GitContextStable(t, base, branch, calls[..n]);
      CallKeepsGitContext(Run(t, calls[..n]), calls[n]);
    }
  }
}
