/** The table of conflicting task pairs, replaced one task at a time and read from either side. */
module ConflictStore {
  import opened Records

  // ids are 128-bit numbers, ordered as numbers
  type TaskId = nat

  /** task_a_id and task_b_id. */
  datatype Pair = Pair(a: TaskId, b: TaskId)

  datatype Detection = Detection(other: TaskId, kinds: seq<string>, files: seq<string>,
                                 severity: string, explanation: string, evidence: seq<string>)

  datatype Row = Row(kinds: seq<string>, files: seq<string>, severity: Option<string>, explanation: Option<string>,
                     evidence: seq<string>, detectedAt: Time, updatedAt: Time)

  type Table = map<Pair, Row>

  const KINDS: set<string> :=
    {"file_overlap", "adjacent_lines", "merge_conflict", "migration", "dependency", "semantic"}
  const SEVERITIES: set<string> := {"low", "medium", "high"}

  /** LEAST and GREATEST of the two ids. */
  function PairOf(x: TaskId, y: TaskId): Pair {
    if x <= y then Pair(x, y) else Pair(y, x)
  }

  predicate Touches(p: Pair, task: TaskId) {
    p.a == task || p.b == task
  }

  function OtherOf(p: Pair, task: TaskId): TaskId {
    if p.a == task then p.b else p.a
  }

  // ---- one reconcile as a function

  /** The last detection for a task wins. */
  function Desired(detections: seq<Detection>): map<TaskId, Detection> {
    if detections == [] then map[]
    else
      var last := detections[|detections| - 1];
      Desired(detections[..|detections| - 1])[last.other := last]
  }

  predicate EveryKindNamed(detections: seq<Detection>) {
    forall d <- detections :: d.kinds != []
  }

  /** The table's checks on kinds, severity and evidence. */
  predicate Storable(d: Detection) {
    && d.kinds != [] && (forall k <- d.kinds :: k in KINDS)
    && (d.severity == "" || d.severity in SEVERITIES)
    && ("semantic" in d.kinds <==> d.severity != "" && d.evidence != [])
  }

  function RowOf(d: Detection, detectedAt: Time, now: Time): Row {
    Row(d.kinds, d.files, if d.severity == "" then None else Some(d.severity),
        if d.severity == "" then None else Some(d.explanation), d.evidence, detectedAt, now)
  }

  /** A pair has two tasks; a new one needs both in the repository. */
  predicate Insertable(pairs: Table, members: set<TaskId>, task: TaskId, d: Detection) {
    && d.other != task && Storable(d)
    && (PairOf(task, d.other) in pairs || (task in members && d.other in members))
  }

  function Upserted(pairs: Table, task: TaskId, d: Detection, now: Time): Row {
    var p := PairOf(task, d.other);
    RowOf(d, if p in pairs then pairs[p].detectedAt else now, now)
  }

  predicate Accepted(pairs: Table, members: set<TaskId>, task: TaskId, detections: seq<Detection>) {
    && EveryKindNamed(detections)
    && forall other <- Desired(detections) :: Insertable(pairs, members, task, Desired(detections)[other])
  }

  /** Every pair of this task is replaced by what was detected; every other pair stays. */
  ghost predicate Replaced(pairs: Table, task: TaskId, desired: map<TaskId, Detection>, now: Time, after: Table) {
    && (forall p | !Touches(p, task) :: SameAt(pairs, after, p))
    && (forall other :: PairOf(task, other) in after <==> other in desired)
    && (forall other <- desired :: after[PairOf(task, other)] == Upserted(pairs, task, desired[other], now))
  }

  /** What an accepted reconcile leaves of one detection, column by column. */
  ghost predicate Stored(before: Table, after: Table, task: TaskId, d: Detection, now: Time) {
    var p := if task <= d.other then Pair(task, d.other) else Pair(d.other, task);
    p in after &&
    var row := after[p];
    && row.kinds == d.kinds && row.files == d.files && row.evidence == d.evidence
    && row.severity == (if d.severity == "" then None else Some(d.severity))
    && row.explanation == (if d.severity == "" then None else Some(d.explanation))
    && row.updatedAt == now
    && row.detectedAt == (if p in before then before[p].detectedAt else now)
  }

  /** No later detection names the same task. */
  ghost predicate LastNaming(detections: seq<Detection>, k: nat)
    requires k < |detections|
  {
    forall j | k < j < |detections| :: detections[j].other != detections[k].other
  }

  ghost predicate SameAt(x: Table, y: Table, p: Pair) {
    (p in x <==> p in y) && (p in x ==> x[p] == y[p])
  }

  class Store {
    var pairs: Table

    constructor ()
      ensures pairs == map[]
    {
      pairs := map[];
    }

    /** Builds the desired set before anything is locked. */
    static method Wanted(detections: seq<Detection>) returns (desired: Option<map<TaskId, Detection>>)
      ensures desired == if EveryKindNamed(detections) then Some(Desired(detections)) else None
    {
      var wanted: map<TaskId, Detection> := map[];
      for k := 0 to |detections|
        invariant EveryKindNamed(detections[..k]) && wanted == Desired(detections[..k])
      {
        if |detections[k].kinds| == 0 {
          return None;
        }
        wanted := wanted[detections[k].other := detections[k]];
        assert detections[..k + 1][..k] == detections[..k];
      }
      assert detections[..|detections|] == detections;
      return Some(wanted);
    }

    /** The other side of every pair of this task. */
    method Existing(task: TaskId) returns (others: set<TaskId>)
      ensures others == set p <- pairs | Touches(p, task) :: OtherOf(p, task)
    {
      others := set p <- pairs | Touches(p, task) :: OtherOf(p, task);
    }

    method DeleteStale(task: TaskId, desired: map<TaskId, Detection>)
      requires forall p <- pairs :: p.a < p.b
      modifies this
      ensures forall p :: p in pairs <==> p in old(pairs) && (Touches(p, task) ==> OtherOf(p, task) in desired)
      ensures forall p <- pairs :: pairs[p] == old(pairs)[p]
    {
      var existing := Existing(task);
      ghost var seen: set<TaskId> := {};
      while existing != {}
        invariant existing !! seen && existing + seen == set p <- old(pairs) | Touches(p, task) :: OtherOf(p, task)
        invariant forall p :: p in pairs <==>
                    p in old(pairs) && (Touches(p, task) && OtherOf(p, task) in seen ==> OtherOf(p, task) in desired)
        invariant forall p <- pairs :: pairs[p] == old(pairs)[p]
        decreases existing
      {
        var other :| other in existing;
        existing := existing - {other};
        seen := seen + {other};
        if other !in desired {
          pairs := pairs - {PairOf(task, other)};
        }
      }
      forall p | p in old(pairs) && Touches(p, task)
        ensures OtherOf(p, task) in seen
      {
        assert OtherOf(p, task) in (set q <- old(pairs) | Touches(q, task) :: OtherOf(q, task));
      }
    }

    /** One statement per desired pair; the table's constraints may refuse any of them. */
    method UpsertAll(members: set<TaskId>, task: TaskId, desired: map<TaskId, Detection>, now: Time)
      returns (ok: bool)
      requires Ordered(pairs) && Keyed(desired)
      modifies this
      ensures ok <==> forall other <- desired :: Insertable(old(pairs), members, task, desired[other])
      ensures ok ==>
                && Ordered(pairs)
                && (forall other <- desired :: PairOf(task, other) in pairs &&
                      pairs[PairOf(task, other)] == Upserted(old(pairs), task, desired[other], now))
                && (forall other <- desired :: Stored(old(pairs), pairs, task, desired[other], now))
                && (forall p | !Touches(p, task) || OtherOf(p, task) !in desired :: SameAt(old(pairs), pairs, p))
    {
      hide Storable, Stored, RowOf;
      var todo := desired.Keys;
      while todo != {}
        invariant todo <= desired.Keys && Ordered(pairs)
        invariant forall other <- desired.Keys - todo :: Insertable(old(pairs), members, task, desired[other])
        invariant forall other <- desired.Keys - todo :: PairOf(task, other) in pairs &&
                    pairs[PairOf(task, other)] == Upserted(old(pairs), task, desired[other], now)
        invariant forall p | !Touches(p, task) || OtherOf(p, task) !in desired.Keys - todo ::
                    SameAt(old(pairs), pairs, p)
        decreases todo
      {
        var other :| other in todo;
        var d, p := desired[other], PairOf(task, other);
        if other == task {
          return false;
        }
        assert Touches(p, task) && OtherOf(p, task) == other && SameAt(old(pairs), pairs, p);
        if !Insertable(pairs, members, task, d) {
          return false;
        }
        pairs := pairs[p := Upserted(pairs, task, d, now)];
        todo := todo - {other};
      }
      forall other | other in desired
        ensures Stored(old(pairs), pairs, task, desired[other], now)
      {
        UpsertedIsStored(old(pairs), pairs, task, desired[other], now);
      }
      return true;
    }

    /** Replaces the task's set of pairs in one transaction, or changes nothing. */
    method Reconcile(members: set<TaskId>, task: TaskId, detections: seq<Detection>, now: Time) returns (ok: bool)
      requires Ordered(pairs)
      modifies this
      ensures ok <==> Accepted(old(pairs), members, task, detections)
      ensures ok ==> Replaced(old(pairs), task, Desired(detections), now, pairs)
      ensures ok ==> forall k: nat | k < |detections| && LastNaming(detections, k) ::
                Stored(old(pairs), pairs, task, detections[k], now)
      ensures !ok ==> pairs == old(pairs)
      ensures Ordered(pairs)
    {
      hide Storable, RowOf, Desired;
      var wanted := Wanted(detections);
      if wanted.None? {
        return false;
      }
      var desired := wanted.value;
      DesiredKeyed(detections);
      var saved := pairs;
      DeleteStale(task, desired);
      ghost var trimmed := pairs;
      forall other | other in desired
        ensures other != task ==> SameAt(saved, trimmed, PairOf(task, other))
        ensures Insertable(saved, members, task, desired[other]) <==> Insertable(trimmed, members, task, desired[other])
      {
        assert other != task ==> OtherOf(PairOf(task, other), task) == other;
      }
      ok := UpsertAll(members, task, desired, now);
      if !ok {
        pairs := saved;
        return;
      }
      forall p | !Touches(p, task)
        ensures SameAt(saved, pairs, p)
      {
        assert SameAt(saved, trimmed, p) && SameAt(trimmed, pairs, p);
      }
      forall other
        ensures PairOf(task, other) in pairs <==> other in desired
      {
        if other != task && other !in desired {
          assert OtherOf(PairOf(task, other), task) == other;
          assert SameAt(trimmed, pairs, PairOf(task, other));
        }
      }
      forall k: nat | k < |detections| && LastNaming(detections, k)
        ensures Stored(old(pairs), pairs, task, detections[k], now)
      {
        LastDetectionStored(old(pairs), pairs, task, detections, k, now);
      }
    }

    /** What the page of a task shows: its pairs with unfinished tasks, while it is unfinished itself. */
    method ListForTask(live: set<TaskId>, task: TaskId) returns (listed: map<TaskId, Row>)
      requires Ordered(pairs)
      ensures listed == Listed(pairs, live, task)
    {
      listed := map[];
      var todo := pairs.Keys;
      while todo != {}
        invariant todo <= pairs.Keys
        invariant forall other :: other in listed <==>
                    PairOf(task, other) in pairs.Keys - todo && task in live && other in live
        invariant forall other <- listed :: listed[other] == pairs[PairOf(task, other)]
        decreases todo
      {
        var p :| p in todo;
        todo := todo - {p};
        if Touches(p, task) && task in live && OtherOf(p, task) in live {
          listed := listed[OtherOf(p, task) := pairs[p]];
        }
        assert p.a < p.b;
      }
      assert forall other :: other in listed <==> other in Listed(pairs, live, task);
    }
  }

  /** Each unordered pair has one place in the table. */
  ghost predicate Ordered(pairs: Table) {
    forall p <- pairs :: p.a < p.b
  }

  ghost predicate Keyed(desired: map<TaskId, Detection>) {
    forall other <- desired :: desired[other].other == other
  }

  lemma {:induction false} DesiredKeyed(detections: seq<Detection>)
    ensures Keyed(Desired(detections))
  {
    if detections != [] {
      DesiredKeyed(detections[..|detections| - 1]);
    }
  }

  function Listed(pairs: Table, live: set<TaskId>, task: TaskId): (listed: map<TaskId, Row>)
    requires Ordered(pairs)
    ensures forall other :: other in listed <==> PairOf(task, other) in pairs && task in live && other in live
    ensures forall other <- listed :: listed[other] == pairs[PairOf(task, other)]
  {
    map p <- pairs | Touches(p, task) && task in live && OtherOf(p, task) in live :: OtherOf(p, task) := pairs[p]
  }

  // ---- what the two sides see

  /** A task lists another exactly when that one lists it, with the same content. */
  lemma ListingSymmetric(pairs: Table, live: set<TaskId>, x: TaskId, y: TaskId)
    requires Ordered(pairs)
    ensures y in Listed(pairs, live, x) <==> x in Listed(pairs, live, y)
    ensures y in Listed(pairs, live, x) ==> Listed(pairs, live, x)[y] == Listed(pairs, live, y)[x]
  {
    hide Listed;
    assert PairOf(x, y) == PairOf(y, x);
  }

  /** The last detection of a task is what its pair stores afterwards, column by column. */
  lemma LastDetectionStored(before: Table, after: Table, task: TaskId, detections: seq<Detection>, k: nat, now: Time)
    requires k < |detections| && LastNaming(detections, k) && Replaced(before, task, Desired(detections), now, after)
    ensures Stored(before, after, task, detections[k], now)
  {
    LastDetectionWins(detections, detections[k].other, k);
    hide Desired;
    UpsertedIsStored(before, after, task, detections[k], now);
  }

  lemma UpsertedIsStored(before: Table, after: Table, task: TaskId, d: Detection, now: Time)
    requires PairOf(task, d.other) in after && after[PairOf(task, d.other)] == Upserted(before, task, d, now)
    ensures Stored(before, after, task, d, now)
  {
  }

  /** What the table's checks let in. */
  lemma StorableTable(d: Detection)
    ensures Storable(d) <==>
            && |d.kinds| > 0
            && (forall k <- d.kinds ::
                  k in {"file_overlap", "adjacent_lines", "merge_conflict", "migration", "dependency", "semantic"})
            && (d.severity == "" || d.severity in {"low", "medium", "high"})
            && ("semantic" in d.kinds <==> d.severity != "" && |d.evidence| > 0)
  {
  }

  /**
   * When a reconcile is accepted: every detection names a kind, and the last one for each task is storable,
   * names another task, and has its pair in the table already or both tasks in the repository.
   */
  lemma AcceptedIff(pairs: Table, members: set<TaskId>, task: TaskId, detections: seq<Detection>)
    ensures Accepted(pairs, members, task, detections) <==>
            forall k: nat | k < |detections| ::
              && detections[k].kinds != []
              && (LastNaming(detections, k) ==>
                    var other := detections[k].other;
                    && Storable(detections[k]) && other != task
                    && (PairOf(task, other) in pairs || (task in members && other in members)))
  {
    hide Storable, Desired;
    forall other | other in Desired(detections)
      ensures exists k: nat :: k < |detections| && LastNaming(detections, k)
                               && detections[k].other == other && Desired(detections)[other] == detections[k]
    {
      NamedIffDesired(detections, other);
      var k := LastOf(detections, other);
      LastDetectionWins(detections, other, k);
    }
    forall k: nat | k < |detections| && LastNaming(detections, k)
      ensures detections[k].other in Desired(detections) && Desired(detections)[detections[k].other] == detections[k]
    {
      LastDetectionWins(detections, detections[k].other, k);
    }
  }

  lemma {:induction false} LastOf(detections: seq<Detection>, other: TaskId) returns (k: nat)
    requires exists d <- detections :: d.other == other
    ensures k < |detections| && LastNaming(detections, k) && detections[k].other == other
  {
    var n := |detections| - 1;
    if detections[n].other == other {
      k := n;
    } else {
      assert detections == detections[..n] + [detections[n]];
      k := LastOf(detections[..n], other);
    }
  }

  /** The position of the last detection that names a task. */
  lemma {:induction false} LastDetectionWins(detections: seq<Detection>, other: TaskId, k: nat)
    requires k < |detections| && detections[k].other == other
    requires forall j | k < j < |detections| :: detections[j].other != other
    ensures other in Desired(detections) && Desired(detections)[other] == detections[k]
  {
    if k < |detections| - 1 {
      LastDetectionWins(detections[..|detections| - 1], other, k);
    }
  }

  lemma {:induction false} NamedIffDesired(detections: seq<Detection>, other: TaskId)
    ensures other in Desired(detections) <==> exists d <- detections :: d.other == other
  {
    if detections != [] {
      var n := |detections| - 1;
      NamedIffDesired(detections[..n], other);
      assert detections == detections[..n] + [detections[n]];
    }
  }

  /** Reconciling again with the same detections changes nothing but the time of the update. */
  lemma ReconcileReplay(pairs: Table, members: set<TaskId>, task: TaskId, detections: seq<Detection>,
                        now: Time, once: Table, later: Time, twice: Table)
    requires Ordered(pairs) && Ordered(once) && Ordered(twice) && Accepted(pairs, members, task, detections)
    requires Replaced(pairs, task, Desired(detections), now, once)
    requires Replaced(once, task, Desired(detections), later, twice)
    ensures Accepted(once, members, task, detections)
    ensures once.Keys == twice.Keys
    ensures forall p <- once :: twice[p] == if Touches(p, task) then once[p].(updatedAt := later) else once[p]
  {
    hide Storable, Desired;
    var desired := Desired(detections);
    DesiredKeyed(detections);
    forall p | p in once || p in twice
      ensures p in once && p in twice
      ensures twice[p] == if Touches(p, task) then once[p].(updatedAt := later) else once[p]
    {
      if Touches(p, task) {
        var other := OtherOf(p, task);
        assert PairOf(task, other) == p;
        assert other in desired;
      } else {
        assert SameAt(once, twice, p);
      }
    }
  }

  // ---- every run of reconciles

  datatype Call = Call(members: set<TaskId>, task: TaskId, detections: seq<Detection>, now: Time)

  /** The tables after each call; a refused call changes nothing. */
  ghost predicate Run(tables: seq<Table>, calls: seq<Call>) {
    && |tables| == |calls| + 1 && tables[0] == map[]
    && forall k: nat | k < |calls| :: Stepped(tables, calls, k)
  }

  ghost predicate Stepped(tables: seq<Table>, calls: seq<Call>, k: nat)
    requires k < |calls| && |tables| == |calls| + 1
  {
    var c := calls[k];
    if Accepted(tables[k], c.members, c.task, c.detections)
    then Replaced(tables[k], c.task, Desired(c.detections), c.now, tables[k + 1]) && Ordered(tables[k + 1])
    else tables[k + 1] == tables[k]
  }

  /** What the last accepted call of either task said about the pair. */
  ghost function LastWord(tables: seq<Table>, calls: seq<Call>, x: TaskId, y: TaskId, n: nat): bool
    requires n <= |calls| && |tables| == |calls| + 1
  {
    if n == 0 then false
    else
      var c := calls[n - 1];
      if Accepted(tables[n - 1], c.members, c.task, c.detections) && (c.task == x || c.task == y)
      then (if c.task == x then y else x) in Desired(c.detections)
      else LastWord(tables, calls, x, y, n - 1)
  }

  /**
   * After any run each unordered pair is stored at most once, and two tasks conflict exactly when the last
   * of them to reconcile named the other.
   */
  lemma {:induction false} TableIsLastWord(tables: seq<Table>, calls: seq<Call>, x: TaskId, y: TaskId, n: nat)
    requires Run(tables, calls) && n <= |calls| && x != y
    ensures Ordered(tables[n])
    ensures PairOf(x, y) in tables[n] <==> LastWord(tables, calls, x, y, n)
  {
    hide Accepted, Desired;
    if n > 0 {
      TableIsLastWord(tables, calls, x, y, n - 1);
      assert Stepped(tables, calls, n - 1);
      var c := calls[n - 1];
      if Accepted(tables[n - 1], c.members, c.task, c.detections) {
        if c.task == x || c.task == y {
          var other := if c.task == x then y else x;
          assert PairOf(x, y) == PairOf(c.task, other);
        } else {
          assert SameAt(tables[n - 1], tables[n], PairOf(x, y));
        }
      }
    }
  }
}
