/** The server side of the event stream: a cursor over the timeline, drained in batches. */
module Stream {
  import opened Records
  import opened Decimal
  import TaskHistory
  import TaskRuns

  /** Wire form "<attempt>:<sequence>", carried in the event id and echoed back as Last-Event-ID. */
  datatype Cursor = Cursor(attempt: nat, sequence: nat)

  const START := Cursor(0, 0)

  function CursorOf(e: Event): Cursor {
    Cursor(e.attempt, e.seqno)
  }

  /** Row comparison (attempt_number, sequence_number) < (..., ...). */
  predicate Less(a: Cursor, b: Cursor) {
    a.attempt < b.attempt || (a.attempt == b.attempt && a.sequence < b.sequence)
  }

  // ---- the wire form

  function Text(c: Cursor): string {
    Format(c.attempt) + ":" + Format(c.sequence)
  }

  /** Index of the first colon. */
  function Cut(s: string): (r: Option<nat>)
    ensures r.Some? ==> r.value < |s| && s[r.value] == ':' && forall k | 0 <= k < r.value :: s[k] != ':'
    ensures r.None? ==> ':' !in s
  {
    if s == [] then None
    else if s[0] == ':' then Some(0)
    else match Cut(s[1..])
         case None => None
         case Some(k) => Some(k + 1)
  }

  function Parse(raw: string): Option<Cursor> {
    match Cut(raw)
    case None => None
    case Some(i) =>
      var attempt, sequence := ParseInt(raw[..i]), ParseInt(raw[i + 1..]);
      if attempt.None? || attempt.value < 0 || sequence.None? || sequence.value < 0 then None
      else Some(Cursor(attempt.value, sequence.value))
  }

  /** The header outranks the query parameter; neither means the beginning; Err is the 400 answer. */
  function RequestCursor(header: string, query: string): Option<Cursor> {
    var raw := if header == "" then query else header;
    if raw == "" then Some(START) else Parse(raw)
  }

  /** A printed cursor parses back exactly when both parts fit 64 bits. */
  lemma CursorRoundTrip(c: Cursor)
    ensures Parse(Text(c)) ==
            if c.attempt <= MAX_INT64 && c.sequence <= MAX_INT64 then Some(c) else None
  {
    FormatValue(c.attempt);
    var raw, a := Text(c), Format(c.attempt);
    assert raw[|a|] == ':';
    var i := Cut(raw).value;
    assert forall k | 0 <= k < |a| :: raw[k] != ':' by {
      assert forall k | 0 <= k < |a| :: raw[k] == a[k] && IsDigit(a[k]);
    }
    assert raw[..i] == a && raw[i + 1..] == Format(c.sequence);
    ParseFormat(c.attempt);
    ParseFormat(c.sequence);
  }

  /** Every request the server accepts names a cursor that the server would print and accept again. */
  lemma AcceptedCursorIsPrintable(header: string, query: string)
    ensures match RequestCursor(header, query)
            case None => true
            case Some(c) => Parse(Text(c)) == Some(c)
  {
    match RequestCursor(header, query)
    case None =>
    case Some(c) => CursorRoundTrip(c);
  }

  /** A cursor in the header decides, whatever the query says; a cursor in the query serves without a header. */
  lemma HeaderOutranksQuery(c: Cursor, query: string)
    requires c.attempt <= 0x7FFF_FFFF_FFFF_FFFF && c.sequence <= 0x7FFF_FFFF_FFFF_FFFF
    ensures RequestCursor(Text(c), query) == Some(c)
    ensures RequestCursor("", Text(c)) == Some(c)
    ensures RequestCursor("", "") == Some(Cursor(0, 0))
  {
    CursorRoundTrip(c);
  }

  /** The text is two numbers that are not negative and fit 64 bits, with a colon between. */
  ghost predicate Names(raw: string, c: Cursor) {
    exists i :: 0 <= i < |raw| && raw[i] == ':' && Counts(raw[..i], c.attempt) && Counts(raw[i + 1..], c.sequence)
  }

  lemma ParsesIffNames(raw: string, c: Cursor)
    ensures Parse(raw) == Some(c) <==> Names(raw, c)
  {
    hide ParseInt, Counts;
    forall i | 0 <= i < |raw| && raw[i] == ':' && Counts(raw[..i], c.attempt)
      ensures Cut(raw) == Some(i)
    {
      CountsHasNoColon(raw[..i], c.attempt);
      assert forall k | 0 <= k < i :: raw[k] == raw[..i][k];
    }
    if Cut(raw).Some? {
      var i := Cut(raw).value;
      ParseCounts(raw[..i], c.attempt);
      ParseCounts(raw[i + 1..], c.sequence);
      assert Parse(raw) == Some(c) <==> Counts(raw[..i], c.attempt) && Counts(raw[i + 1..], c.sequence);
    }
  }

  lemma CountsHasNoColon(s: string, n: nat)
    requires Counts(s, n)
    ensures forall k | 0 <= k < |s| :: s[k] != ':'
  {
    hide Value;
    forall k | 0 <= k < |s|
      ensures s[k] != ':'
    {
      assert s[k] in s;
      if k > 0 {
        assert s[1..][k - 1] == s[k] && s[k] in s[1..];
      }
    }
  }

  /**
   * Which requests are accepted, and as what: a non-empty header is read and nothing else, and refused unless
   * it is two numbers with a colon; then the query is; neither means the beginning.
   */
  lemma RequestsAccepted(header: string, query: string, c: Cursor)
    ensures header != "" ==> (RequestCursor(header, query) == Some(c) <==> Names(header, c))
    ensures header == "" && query != "" ==> (RequestCursor(header, query) == Some(c) <==> Names(query, c))
    ensures header == "" && query == "" ==> RequestCursor(header, query) == Some(Cursor(0, 0))
  {
    ParsesIffNames(header, c);
    ParsesIffNames(query, c);
  }

  /** A malformed header is refused, even beside a good query. */
  lemma MalformedHeaderRefused(header: string, query: string)
    requires header != "" && forall c: Cursor :: !Names(header, c)
    ensures RequestCursor(header, query) == None
  {
    if RequestCursor(header, query).Some? {
      RequestsAccepted(header, query, RequestCursor(header, query).value);
    }
  }

  // ---- the timeline: ORDER BY attempt_number, sequence_number

  function Insert(sorted: seq<Event>, e: Event): seq<Event> {
    if sorted == [] || Less(CursorOf(sorted[|sorted| - 1]), CursorOf(e)) then sorted + [e]
    else Insert(sorted[..|sorted| - 1], e) + [sorted[|sorted| - 1]]
  }

  function Timeline(log: seq<Event>): seq<Event> {
    if log == [] then [] else Insert(Timeline(log[..|log| - 1]), log[|log| - 1])
  }

  /** The rows after a cursor, in the given order. */
  function Beyond(events: seq<Event>, c: Cursor): seq<Event> {
    if events == [] then []
    else (if Less(c, CursorOf(events[0])) then [events[0]] else []) + Beyond(events[1..], c)
  }

  const DEFAULT_LIMIT := 500
  const MAX_LIMIT := 1000

  function EventsAfter(log: seq<Event>, c: Cursor, limit: int): seq<Event> {
    var n := if limit <= 0 then DEFAULT_LIMIT else if limit > MAX_LIMIT then MAX_LIMIT else limit;
    var rows := Beyond(Timeline(log), c);
    if |rows| <= n then rows else rows[..n]
  }

  /** A batch holds the first rows after the cursor: as many as asked for, 500 if not said, at most 1000. */
  lemma BatchLimit(log: seq<Event>, c: Cursor, limit: int)
    ensures var rows, batch := Beyond(Timeline(log), c), EventsAfter(log, c, limit);
            && batch <= rows
            && (batch == rows || |batch| == if limit <= 0 then 500 else if limit > 1000 then 1000 else limit)
            && |batch| <= 1000 && (limit <= 0 ==> |batch| <= 500) && (limit > 0 ==> |batch| <= limit)
  {
    hide Timeline, Beyond;
  }

  ghost predicate Before(events: seq<Event>, i: nat, j: nat)
    requires i < |events| && j < |events|
  {
    Less(CursorOf(events[i]), CursorOf(events[j]))
  }

  ghost predicate Sorted(events: seq<Event>) {
    forall i: nat, j: nat | i < j < |events| :: Before(events, i, j)
  }

  /** No two rows share attempt and sequence number. */
  ghost predicate Distinct(log: seq<Event>) {
    forall i, j | 0 <= i < j < |log| :: CursorOf(log[i]) != CursorOf(log[j])
  }

  lemma {:induction false} InsertMember(sorted: seq<Event>, e: Event, x: Event)
    ensures x in Insert(sorted, e) <==> x in sorted || x == e
  {
    if !(sorted == [] || Less(CursorOf(sorted[|sorted| - 1]), CursorOf(e))) {
      var n := |sorted| - 1;
      InsertMember(sorted[..n], e, x);
      assert sorted == sorted[..n] + [sorted[n]];
    }
  }

  lemma {:induction false} InsertSorted(sorted: seq<Event>, e: Event)
    requires Sorted(sorted) && forall x <- sorted :: CursorOf(x) != CursorOf(e)
    ensures Sorted(Insert(sorted, e)) && |Insert(sorted, e)| == |sorted| + 1
  {
    var r := Insert(sorted, e);
    if sorted == [] || Less(CursorOf(sorted[|sorted| - 1]), CursorOf(e)) {
      forall i: nat, j: nat | i < j < |r|
        ensures Before(r, i, j)
      {
        if j < |sorted| {
          assert Before(sorted, i, j);
        } else if i < |sorted| - 1 {
          assert Before(sorted, i, |sorted| - 1);
        }
      }
    } else {
      var n := |sorted| - 1;
      var init := sorted[..n];
      forall i: nat, j: nat | i < j < |init|
        ensures Before(init, i, j)
      {
        assert Before(sorted, i, j);
      }
      InsertSorted(init, e);
      forall i: nat, j: nat | i < j < |r|
        ensures Before(r, i, j)
      {
        var shorter := Insert(init, e);
        if j < |shorter| {
          assert Before(shorter, i, j);
        } else {
          InsertMember(init, e, r[i]);
          assert r[i] == shorter[i] && r[i] in shorter;
          if r[i] != e {
            var k :| 0 <= k < n && init[k] == r[i];
            assert Before(sorted, k, n);
          } else {
            assert sorted[n] in sorted;
          }
        }
      }
    }
  }

  lemma {:induction false} TimelineMember(log: seq<Event>, x: Event)
    ensures x in Timeline(log) <==> x in log
  {
    if log != [] {
      var n := |log| - 1;
      TimelineMember(log[..n], x);
      InsertMember(Timeline(log[..n]), log[n], x);
      assert log == log[..n] + [log[n]];
    }
  }

  /** The query's result is the whole log, every row once, in cursor order. */
  lemma {:induction false} TimelineSorted(log: seq<Event>)
    requires Distinct(log)
    ensures Sorted(Timeline(log)) && |Timeline(log)| == |log|
    ensures forall x :: x in Timeline(log) <==> x in log
  {
    forall x
      ensures x in Timeline(log) <==> x in log
    {
      TimelineMember(log, x);
    }
    if log != [] {
      var n := |log| - 1;
      assert Distinct(log[..n]);
      TimelineSorted(log[..n]);
      InsertSorted(Timeline(log[..n]), log[n]);
    }
  }

  lemma {:induction false} BeyondSplits(a: seq<Event>, b: seq<Event>, c: Cursor)
    ensures Beyond(a + b, c) == Beyond(a, c) + Beyond(b, c)
  {
    hide Less, CursorOf;
    if a == [] {
      assert a + b == b;
    } else {
      var rest := a[1..];
      var first := if Less(c, CursorOf(a[0])) then [a[0]] else [];
      assert (a + b)[1..] == rest + b;
      assert Beyond(a, c) == first + Beyond(rest, c);
      assert Beyond(a + b, c) == first + Beyond(rest + b, c);
      hide Beyond;
      BeyondSplits(rest, b, c);
    }
  }

  lemma {:induction false} BeyondAll(events: seq<Event>, c: Cursor)
    requires forall e <- events :: Less(c, CursorOf(e))
    ensures Beyond(events, c) == events
  {
    if events != [] {
      BeyondAll(events[1..], c);
    }
  }

  lemma {:induction false} BeyondNone(events: seq<Event>, c: Cursor)
    requires forall e <- events :: !Less(c, CursorOf(e))
    ensures Beyond(events, c) == []
  {
    if events != [] {
      BeyondNone(events[1..], c);
    }
  }

  lemma {:induction false} BeyondMember(events: seq<Event>, c: Cursor, e: Event)
    ensures e in Beyond(events, c) <==> e in events && Less(c, CursorOf(e))
  {
    if events != [] {
      BeyondMember(events[1..], c, e);
      assert events == [events[0]] + events[1..];
    }
  }

  /** In a sorted list what lies beyond the p-th row is exactly the rest. */
  lemma BeyondRow(events: seq<Event>, p: nat)
    requires Sorted(events) && p < |events|
    ensures Beyond(events, CursorOf(events[p])) == events[p + 1..]
  {
    hide Beyond;
    var c := CursorOf(events[p]);
    var head, tail := events[..p + 1], events[p + 1..];
    assert events == head + tail;
    BeyondSplits(head, tail, c);
    forall e | e in head
      ensures !Less(c, CursorOf(e))
    {
      var k :| 0 <= k < p + 1 && events[k] == e;
      assert k == p || Before(events, k, p);
    }
    BeyondNone(head, c);
    forall e | e in tail
      ensures Less(c, CursorOf(e))
    {
      var k :| 0 <= k < |tail| && tail[k] == e;
      assert Before(events, p, p + 1 + k);
    }
    BeyondAll(tail, c);
  }

  /** After a batch the rest of what was beyond the old cursor is what is beyond the new one. */
  lemma BatchAdvances(events: seq<Event>, c: Cursor, n: nat)
    requires Sorted(events) && 0 < n <= |Beyond(events, c)|
    ensures Beyond(events, CursorOf(Beyond(events, c)[n - 1])) == Beyond(events, c)[n..]
  {
    var p := Skipped(events, c);
    assert Beyond(events, c)[n - 1] == events[p + n - 1];
    BeyondRow(events, p + n - 1);
  }

  /** What lies beyond a cursor is a suffix of a sorted list. */
  lemma {:induction false} Skipped(events: seq<Event>, c: Cursor) returns (p: nat)
    requires Sorted(events)
    ensures p <= |events| && Beyond(events, c) == events[p..]
  {
    if events == [] {
      p := 0;
    } else if Less(c, CursorOf(events[0])) {
      forall e | e in events
        ensures Less(c, CursorOf(e))
      {
        var k :| 0 <= k < |events| && events[k] == e;
        assert k == 0 || Before(events, 0, k);
      }
      BeyondAll(events, c);
      p := 0;
    } else {
      var rest := events[1..];
      forall i: nat, j: nat | i < j < |rest|
        ensures Before(rest, i, j)
      {
        assert Before(events, i + 1, j + 1);
      }
      p := Skipped(rest, c);
      p := p + 1;
    }
  }

  const BATCH := 500

  lemma DueSplits(due: seq<Event>, sent: nat, n: nat)
    requires sent + n <= |due|
    ensures due[..sent + n] == due[..sent] + due[sent..][..n]
    ensures due[sent..][n..] == due[sent + n..]
  {
  }

  /** One connection's cursor and what it has written so far. */
  class Connection {
    var cursor: Cursor
    var written: seq<Event>

    constructor (start: Cursor)
      ensures cursor == start && written == []
    {
      cursor := start;
      written := [];
    }

    /**
     * Writes everything beyond the cursor, batch by batch, each row once and in order; terminates by the
     * number of undelivered rows.
     */
    method StreamDrain(log: seq<Event>) returns (wrote: bool)
      requires Distinct(log)
      modifies this
      ensures written == old(written) + Beyond(Timeline(log), old(cursor))
      ensures wrote <==> Beyond(Timeline(log), old(cursor)) != []
      ensures cursor == if wrote then CursorOf(written[|written| - 1]) else old(cursor)
      ensures Beyond(Timeline(log), cursor) == []
    {
      hide Beyond, Timeline, Less, Distinct, Sorted;
      TimelineSorted(log);
      ghost var rows := Timeline(log);
      ghost var due := Beyond(rows, cursor);
      wrote := false;
      ghost var sent := 0;
      assert due[0..] == due && due[..0] == [];
      while true
        invariant sent <= |due| && Beyond(rows, cursor) == due[sent..]
        invariant written == old(written) + due[..sent]
        invariant wrote <==> sent > 0
        invariant cursor == if wrote then CursorOf(written[|written| - 1]) else old(cursor)
        decreases |due| - sent
      {
        var batch := EventsAfter(log, cursor, BATCH);
        assert batch == due[sent..][..|batch|];
        if batch != [] {
          BatchAdvances(rows, cursor, |batch|);
          written := written + batch;
          cursor := CursorOf(batch[|batch| - 1]);
          wrote := true;
          DueSplits(due, sent, |batch|);
          sent := sent + |batch|;
        }
        if |batch| < BATCH {
          assert sent == |due|;
          return;
        }
      }
    }
  }

  // ---- the transition history in timeline order

  lemma {:induction false} EdgesOfNote(sorted: seq<Event>, e: Event)
    requires !e.kind.Moved?
    ensures TaskHistory.Edges(Insert(sorted, e)) == TaskHistory.Edges(sorted)
  {
    var r := Insert(sorted, e);
    if sorted == [] || Less(CursorOf(sorted[|sorted| - 1]), CursorOf(e)) {
      assert r[..|r| - 1] == sorted;
    } else {
      var n := |sorted| - 1;
      EdgesOfNote(sorted[..n], e);
      assert r[..|r| - 1] == Insert(sorted[..n], e) && r[|r| - 1] == sorted[n];
    }
  }

  lemma NumberedGrows(log: seq<Event>, k: nat)
    requires TaskHistory.Numbered(log) && k < |log|
    ensures forall x | x in log[..k] && x.attempt == log[k].attempt :: x.seqno < log[k].seqno
  {
    forall x | x in log[..k] && x.attempt == log[k].attempt
      ensures x.seqno < log[k].seqno
    {
      assert TaskHistory.NumberedAt(log, k);
      MaxSeqBounds(log[..k], log[k].attempt, x);
    }
  }

  lemma {:induction false} MaxSeqBounds(events: seq<Event>, attempt: nat, x: Event)
    requires x in events && x.attempt == attempt
    ensures x.seqno <= TaskHistory.TaskSpec.MaxSeq(events, attempt)
  {
    var n := |events| - 1;
    if x != events[n] {
      assert x in events[..n];
      MaxSeqBounds(events[..n], attempt, x);
    }
  }

  lemma PrefixKeeps(log: seq<Event>, n: nat)
    requires n <= |log| && TaskHistory.Numbered(log) && TaskHistory.MovesAtTheTop(log)
    ensures TaskHistory.Numbered(log[..n]) && TaskHistory.MovesAtTheTop(log[..n])
  {
    forall j: nat | j < n
      ensures TaskHistory.NumberedAt(log[..n], j)
    {
      assert TaskHistory.NumberedAt(log, j) && log[..n][..j] == log[..j];
    }
  }

  /** Sorting the log by attempt and sequence number leaves the transitions in the order they happened. */
  lemma {:induction false} EdgesInTimelineOrder(log: seq<Event>)
    requires TaskHistory.Numbered(log) && TaskHistory.MovesAtTheTop(log)
    ensures TaskHistory.Edges(Timeline(log)) == TaskHistory.Edges(log)
  {
    if log != [] {
      var n := |log| - 1;
      var init, e := log[..n], log[n];
      PrefixKeeps(log, n);
      EdgesInTimelineOrder(init);
      if e.kind.Moved? {
        forall x | x in Timeline(init)
          ensures Less(CursorOf(x), CursorOf(e))
        {
          TimelineMember(init, x);
          var k :| 0 <= k < n && init[k] == x;
          assert log[k].attempt <= log[n].attempt;
          NumberedGrows(log, n);
        }
        var r := Insert(Timeline(init), e);
        assert r == Timeline(init) + [e];
        assert r[..|r| - 1] == Timeline(init);
      } else {
        EdgesOfNote(Timeline(init), e);
      }
    }
  }

  lemma NumberedDistinct(log: seq<Event>)
    requires TaskHistory.Numbered(log)
    ensures Distinct(log)
  {
    forall i, j | 0 <= i < j < |log|
      ensures CursorOf(log[i]) != CursorOf(log[j])
    {
      NumberedGrows(log, j);
      assert log[i] in log[..j];
    }
  }

  /**
   * After any run the timeline shows every event once in cursor order, and its transitions in the order
   * they were applied.
   */
  lemma TimelineFaithful(hasRepository: bool, born: Time, calls: seq<TaskRuns.Call>)
    ensures var log := TaskRuns.Run(TaskRuns.Start(hasRepository, born), calls).events;
            && Sorted(Timeline(log)) && |Timeline(log)| == |log|
            && TaskHistory.Edges(Timeline(log)) == TaskHistory.Edges(log)
  {
    hide TaskRuns.Run, TaskRuns.Start, TaskHistory.Edges, TaskHistory.Numbered, TaskHistory.MovesAtTheTop,
         TaskHistory.KeysOnce, TaskHistory.Chronicle, TaskHistory.AttemptStructure, Sorted, Timeline;
    TaskRuns.RunKeepsInv(hasRepository, born, calls);
    var log := TaskRuns.Run(TaskRuns.Start(hasRepository, born), calls).events;
    NumberedDistinct(log);
    TimelineSorted(log);
    EdgesInTimelineOrder(log);
  }
}
