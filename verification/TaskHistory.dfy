/** What every run of the stores keeps: the whole transition history is a function of how far the task got. */
module TaskHistory {
  import opened Lifecycle
  import opened Records
  import opened TaskSpec

  /** A transition as the log records it. */
  datatype Edge = Edge(attempt: nat, from: Status, to: Status)

  function Edges(events: seq<Event>): seq<Edge> {
    if events == [] then []
    else
      var rest := Edges(events[..|events| - 1]);
      var last := events[|events| - 1];
      if last.kind.Moved? then rest + [Edge(last.attempt, last.kind.from, last.kind.to)] else rest
  }

  /** One lap of an attempt, from its queueing to the request for the next one. */
  const LAP: seq<Status> :=
    [Queued, Provisioning, Planning, Executing, Validating, Publishing, AwaitingReview, RevisionRequested]

  function IdealEdge(k: nat): Edge {
    Edge(k / 8 + 1, if k == 0 then Created else LAP[(k - 1) % 8], LAP[k % 8])
  }

  function History(m: nat): (h: seq<Edge>)
    ensures |h| == m
    ensures forall k: nat | k < m :: h[k] == IdealEdge(k)
  {
    seq(m, (k: nat) => IdealEdge(k))
  }

  ghost predicate AttemptStructure(attempts: seq<Attempt>, status: Status) {
    && |attempts| >= 1
    && (forall i | 0 <= i < |attempts| :: attempts[i].number == i + 1)
    && (forall i | 0 <= i < |attempts| - 1 :: attempts[i].status == Superseded)
    && attempts[|attempts| - 1].status == (if status.Terminal() then Finished(status) else Active)
  }

  ghost predicate RowMarks(row: TaskRow) {
    && row.status != Created
    && row.phase == row.status.Phase()
    && (row.completedAt.Some? <==> row.status.Terminal())
    && (row.cancelRequestedAt.Some? <==> row.status == Cancelled)
  }

  ghost predicate NumberedAt(events: seq<Event>, j: nat)
    requires j < |events|
  {
    events[j].seqno == MaxSeq(events[..j], events[j].attempt) + 1
  }

  ghost predicate Numbered(events: seq<Event>) {
    forall j: nat | j < |events| :: NumberedAt(events, j)
  }

  ghost predicate KeysOnce(events: seq<Event>) {
    forall i, j | 0 <= i < j < |events| :: events[i].key == NoKey || events[i].key != events[j].key
  }

  /** A transition is never recorded on an older attempt than an event before it. */
  ghost predicate MovesAtTheTop(events: seq<Event>) {
    forall i, j | 0 <= i < j < |events| && events[j].kind.Moved? :: events[i].attempt <= events[j].attempt
  }

  ghost predicate AttemptsExist(events: seq<Event>, n: nat) {
    forall e <- events :: 1 <= e.attempt <= n
  }

  /** The recorded transitions are the ideal history, then at most one move to a terminal status. */
  ghost predicate Chronicle(status: Status, n: nat, edges: seq<Edge>) {
    && n >= 1
    && if status.Terminal() then exists from: Status :: EndedFrom(edges, n, from, status)
       else edges == History(8 * (n - 1) + Rank(status))
  }

  ghost predicate EndedFrom(edges: seq<Edge>, n: nat, from: Status, to: Status) {
    && n >= 1
    && from != Created
    && CanTransition(from, to)
    && edges == History(8 * (n - 1) + Rank(from)) + [Edge(n, from, to)]
  }

  ghost predicate Inv(t: Tables) {
    && AttemptStructure(t.attempts, t.task.status)
    && RowMarks(t.task)
    && Numbered(t.events)
    && KeysOnce(t.events)
    && MovesAtTheTop(t.events)
    && AttemptsExist(t.events, |t.attempts|)
    && Chronicle(t.task.status, |t.attempts|, Edges(t.events))
  }

  // ---- what one appended event keeps

  lemma AppendKeeps(events: seq<Event>, attempt: nat, kind: Kind, source: string, key: Key)
    requires Numbered(events) && KeysOnce(events) && MovesAtTheTop(events)
    requires key == NoKey || !KeySeen(events, key)
    requires kind.Moved? ==> AttemptsExist(events, attempt)
    ensures var after := Appended(events, attempt, kind, source, key);
            Numbered(after) && KeysOnce(after) && MovesAtTheTop(after) &&
            Edges(after) == Edges(events) +
                            (if kind.Moved? then [Edge(attempt, kind.from, kind.to)] else [])
  {
    var after := Appended(events, attempt, kind, source, key);
    assert after[..|after| - 1] == events;
    forall j: nat | j < |after|
      ensures NumberedAt(after, j)
    {
      if j < |events| {
        assert NumberedAt(events, j) && after[..j] == events[..j];
      }
    }
  }

  lemma ActiveIsLast(attempts: seq<Attempt>, status: Status)
    requires AttemptStructure(attempts, status)
    ensures ActiveIndex(attempts) == if status.Terminal() then None else Some(|attempts| - 1)
  {
    var r := ActiveIndex(attempts);
    if r.Some? {
      assert r.value >= |attempts| - 1;
    } else {
      assert attempts[|attempts| - 1] in attempts;
    }
  }

  lemma NextIdealEdge(n: nat, from: Status, to: Status)
    requires n >= 1 && from != Created && !to.Terminal() && CanTransition(from, to)
    ensures IdealEdge(8 * (n - 1) + Rank(from)) ==
            Edge(if from == RevisionRequested then n + 1 else n, from, to)
  {
    var k := 8 * (n - 1) + Rank(from);
    var r := Rank(from);
    NonTerminalMoves(from, to);
    assert (k - 1) % 8 == r - 1 && k % 8 == r % 8 && k / 8 + 1 == n + r / 8;
  }

  lemma MoveKeepsStructure(t: Tables, p: TransitionParams, now: Time)
    requires AttemptStructure(t.attempts, t.task.status) && CanTransition(t.task.status, p.to)
    ensures var attempts := MovedAttempts(t, p, |t.attempts| - 1, now);
            AttemptStructure(attempts, p.to) && |attempts| == EventAttempt(t, p, |t.attempts| - 1) &&
            |attempts| == |t.attempts| + if t.task.status == RevisionRequested && p.to == Queued then 1 else 0
  {
  }

  /** One more move extends the ideal history by its next edge. */
  lemma HistoryGrows(n: nat, from: Status, to: Status)
    requires n >= 1 && from != Created && !to.Terminal() && CanTransition(from, to)
    ensures var n' := if from == RevisionRequested then n + 1 else n;
            History(8 * (n - 1) + Rank(from)) + [Edge(n', from, to)] == History(8 * (n' - 1) + Rank(to))
  {
    NonTerminalMoves(from, to);
    NextIdealEdge(n, from, to);
  }

  lemma ChronicleGrows(n: nat, from: Status, to: Status, edges: seq<Edge>)
    requires n >= 1 && Chronicle(from, n, edges) && from != Created && CanTransition(from, to)
    ensures var n' := if from == RevisionRequested && to == Queued then n + 1 else n;
            Chronicle(to, n', edges + [Edge(n', from, to)])
  {
    if to.Terminal() {
      assert EndedFrom(edges + [Edge(n, from, to)], n, from, to);
    } else {
      NonTerminalMoves(from, to);
      HistoryGrows(n, from, to);
    }
  }

  lemma MoveKeepsRow(row: TaskRow, p: TransitionParams, now: Time)
    requires RowMarks(row) && CanTransition(row.status, p.to)
    ensures RowMarks(MovedTask(row, p, now)) && MovedTask(row, p, now).status == p.to
  {
  }

  lemma AppendExists(events: seq<Event>, n: nat, attempt: nat, kind: Kind, source: string, key: Key, n': nat)
    requires AttemptsExist(events, n) && n <= n' && 1 <= attempt <= n'
    ensures AttemptsExist(events, n') && AttemptsExist(Appended(events, attempt, kind, source, key), n')
  {
  }

  lemma MoveKeeps(t: Tables, p: TransitionParams, now: Time)
    requires Inv(t) && CanTransition(t.task.status, p.to) && !Replay(t, p.key)
    ensures Inv(Move(t, p, |t.attempts| - 1, now))
  {
    hide Numbered, KeysOnce, MovesAtTheTop, AttemptsExist, Chronicle, MovedAttempts, MovedTask, CanTransition,
         Appended, MaxSeq, Edges, KeySeen;
    var n, from := |t.attempts|, t.task.status;
    var n' := EventAttempt(t, p, n - 1);
    MoveKeepsStructure(t, p, now);
    hide AttemptStructure;
    MoveKeepsRow(t.task, p, now);
    hide RowMarks;
    AppendExists(t.events, n, n', Moved(from, p.to, p.reason), SourceOf(p), p.key, n');
    AppendKeeps(t.events, n', Moved(from, p.to, p.reason), SourceOf(p), p.key);
    ChronicleGrows(n, from, p.to, Edges(t.events));
  }

  lemma TransitionKeeps(t: Tables, p: TransitionParams, now: Time)
    requires Inv(t)
    ensures match ApplyTransition(t, p, now)
            case Ok(t') => Inv(t')
            case Err(_) => true
  {
    hide Numbered, KeysOnce, MovesAtTheTop, AttemptsExist, Chronicle, CanTransition, Move;
    ActiveIsLast(t.attempts, t.task.status);
    if !Replay(t, p.key) && CanTransition(t.task.status, p.to) {
      MoveKeeps(t, p, now);
    }
  }
}
