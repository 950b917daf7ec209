/** What every schedule allows and what a good one achieves, with events committed in any order. */
module StreamProgress {
  import opened Lifecycle
  import opened Records
  import opened Decimal
  import opened Stream
  import opened StreamClient
  import opened TaskHistory
  import TaskRuns
  import TaskTheorems

  // ---- commits in any order

  ghost predicate Shows(w: World) {
    && Sorted(w.client.events)
    && (forall e <- w.client.events :: e in w.task.events)
    && (forall f <- w.wire :: f.Data? ==> f.event in w.task.events)
  }

  lemma BatchFromLog(log: seq<Event>, c: Cursor, limit: int)
    ensures forall e <- EventsAfter(log, c, limit) :: e in log
  {
    hide Timeline, Beyond, Less;
    forall e | e in EventsAfter(log, c, limit)
      ensures e in log
    {
      BeyondMember(Timeline(log), c, e);
      TimelineMember(log, e);
    }
  }

  lemma ShownStaysSorted(c: Client, e: Event)
    requires Sorted(c.events)
    ensures Sorted(Receive(c, e).events)
    ensures c.events <= Receive(c, e).events
    ensures forall x <- Receive(c, e).events :: x in c.events || x == e
  {
    var shown := Receive(c, e).events;
    var n := |c.events|;
    forall i: nat, j: nat | i < j < |shown|
      ensures Before(shown, i, j)
    {
      if j < n {
        assert Before(c.events, i, j);
      } else if i < n - 1 {
        assert Before(c.events, i, n - 1);
      }
    }
  }

  lemma StepShows(w: World, s: Step)
    requires Shows(w)
    ensures Shows(Take(w, s))
  {
    hide Sorted, TaskRuns.After, EventsAfter, Receive;
    match s
    case Store(call) => TaskTheorems.CallAccounts(w.task, call);
    case Batch => if w.server.Up? {
      BatchFromLog(w.task.events, w.server.cursor, BATCH);
    }
    case Deliver => if w.wire != [] && w.wire[0].Data? {
      ShownStaysSorted(w.client, w.wire[0].event);
    }
    case _ =>
  }

  /** Even when events are appended out of order, a browser shows only logged events, in order and once each. */
  lemma {:induction false} NothingInventedOrRepeated(hasRepository: bool, born: Time, steps: seq<Step>)
    ensures Shows(Play(Opened(hasRepository, born), steps))
  {
    hide Shows, Take;
    if steps == [] {
      NothingShown(hasRepository, born);
    } else {
      NothingInventedOrRepeated(hasRepository, born, steps[..|steps| - 1]);
      StepShows(Play(Opened(hasRepository, born), steps[..|steps| - 1]), steps[|steps| - 1]);
    }
  }

  lemma NothingShown(hasRepository: bool, born: Time)
    ensures Shows(Opened(hasRepository, born))
  {
    hide TaskRuns.Start;
  }

  // ---- where a browser resumes, and how a stream ends

  /** The row lies beyond the last one shown. */
  predicate Ahead(c: Client, e: Event) {
    c.events == [] || Less(CursorOf(c.events[|c.events| - 1]), CursorOf(e))
  }

  /** The row sorts at or before the last one shown, and is not shown. */
  ghost predicate Passed(c: Client, e: Event) {
    !Ahead(c, e) && e !in c.events
  }

  ghost predicate NamesRow(log: seq<Event>, c: Client, text: string, e: Event) {
    e in log && text == Text(CursorOf(e)) && !Ahead(c, e)
  }

  /** A cursor text the client holds names a logged row that it is not short of. */
  ghost predicate Behind(log: seq<Event>, c: Client, text: string) {
    text == "" || exists e :: NamesRow(log, c, text, e)
  }

  ghost predicate TextsBehind(log: seq<Event>, c: Client) {
    Behind(log, c, c.lastCursor) && Behind(log, c, c.url) && Behind(log, c, c.header)
  }

  /** The closing frame is the last one of its connection, and nothing comes after it was read. */
  ghost predicate EndsClean(w: World) {
    && (w.client.done ==> w.server.Down? && w.wire == [])
    && (forall k | 0 <= k < |w.wire| && w.wire[k].Done? :: k == |w.wire| - 1 && w.server.Down?)
  }

  ghost predicate Tracks(w: World) {
    Inv(w.task) && Shows(w) && TextsBehind(w.task.events, w.client) && EndsClean(w)
  }

  lemma StepEndsClean(w: World, s: Step)
    requires EndsClean(w)
    ensures EndsClean(Take(w, s))
  {
    hide TaskRuns.After, EventsAfter, RequestCursor;
    match s
    case Batch => BatchFrames(w);
    case Deliver => if w.wire != [] {
      var rest := w.wire[1..];
      assert forall k | 0 <= k < |rest| :: rest[k] == w.wire[k + 1];
    }
    case _ =>
  }

  /** A batch appends rows while the server stays up, or the closing frame as it goes down. */
  lemma BatchFrames(w: World)
    ensures w.server.Down? ==> SendBatch(w) == w
    ensures w.server.Up? && SendBatch(w).server.Up? ==>
              exists rows :: SendBatch(w).wire == w.wire + Frames(rows)
    ensures w.server.Up? && SendBatch(w).server.Down? ==> SendBatch(w).wire == w.wire + [Done]
    ensures SendBatch(w).client == w.client && SendBatch(w).task == w.task
  {
    hide EventsAfter;
    if w.server.Up? && !w.server.draining {
      assert w.wire + Frames([]) == w.wire;
    }
  }

  lemma BehindGrows(log: seq<Event>, log': seq<Event>, c: Client)
    requires log <= log' && TextsBehind(log, c)
    ensures TextsBehind(log', c)
  {
    forall text | Behind(log, c, text)
      ensures Behind(log', c, text)
    {
      if text != "" {
        var e :| NamesRow(log, c, text, e);
        assert NamesRow(log', c, text, e);
      }
    }
  }

  lemma ReceiveBehind(log: seq<Event>, c: Client, e: Event)
    requires TextsBehind(log, c) && e in log
    ensures TextsBehind(log, Receive(c, e))
  {
    hide Text;
    var c' := Receive(c, e);
    LessIrreflexive(CursorOf(e));
    assert NamesRow(log, c', Text(CursorOf(e)), e);
    forall text | Behind(log, c, text)
      ensures Behind(log, c', text)
    {
      if text != "" {
        var x :| NamesRow(log, c, text, x);
        assert NamesRow(log, c', text, x);
      }
    }
  }

  lemma LessIrreflexive(c: Cursor)
    ensures !Less(c, c)
  {
  }

  lemma StepTracks(w: World, s: Step)
    requires Tracks(w)
    ensures Tracks(Take(w, s))
  {
    hide Inv, Shows, TextsBehind, EndsClean, TaskRuns.After, Receive, RequestCursor, EventsAfter;
    StepInv(w, s);
    StepShows(w, s);
    StepEndsClean(w, s);
    match s
    case Store(call) =>
      TaskTheorems.CallAccounts(w.task, call);
      BehindGrows(w.task.events, Take(w, s).task.events, w.client);
    case Deliver => DeliverBehind(w);
    case Reopen => ReopenBehind(w);
    case _ =>
  }

  lemma DeliverBehind(w: World)
    requires Shows(w) && TextsBehind(w.task.events, w.client)
    ensures TextsBehind(w.task.events, Arrive(w).client)
  {
    hide Receive, Behind, Sorted;
    if w.wire != [] && w.wire[0].Data? {
      assert w.wire[0] in w.wire;
      ReceiveBehind(w.task.events, w.client, w.wire[0].event);
    } else if w.wire != [] {
      DoneBehind(w.task.events, w.client);
    }
  }

  lemma DoneBehind(log: seq<Event>, c: Client)
    requires TextsBehind(log, c)
    ensures TextsBehind(log, c.(done := true))
  {
    forall text | Behind(log, c, text)
      ensures Behind(log, c.(done := true), text)
    {
      if text != "" {
        var e :| NamesRow(log, c, text, e);
        assert NamesRow(log, c.(done := true), text, e);
      }
    }
  }

  lemma ReopenBehind(w: World)
    requires TextsBehind(w.task.events, w.client)
    ensures TextsBehind(w.task.events, Take(w, Reopen).client)
  {
    var log, c := w.task.events, w.client;
    var c' := c.(url := c.lastCursor, header := "");
    forall text | Behind(log, c, text)
      ensures Behind(log, c', text)
    {
      if text != "" {
        var e :| NamesRow(log, c, text, e);
        assert NamesRow(log, c', text, e);
      }
    }
  }

  lemma {:induction false} PlayTracks(hasRepository: bool, born: Time, steps: seq<Step>)
    ensures Tracks(Play(Opened(hasRepository, born), steps))
  {
    hide Tracks, Take;
    if steps == [] {
      OpenedTracks(hasRepository, born);
    } else {
      PlayTracks(hasRepository, born, steps[..|steps| - 1]);
      StepTracks(Play(Opened(hasRepository, born), steps[..|steps| - 1]), steps[|steps| - 1]);
    }
  }

  lemma OpenedTracks(hasRepository: bool, born: Time)
    ensures Tracks(Opened(hasRepository, born))
  {
    hide Inv, TaskRuns.Start;
    TaskRuns.RunKeepsInv(hasRepository, born, []);
  }

  // ---- what is never shown any more

  lemma StepPasses(w: World, s: Step, e: Event)
    requires Passed(w.client, e)
    ensures Passed(Take(w, s).client, e)
  {
    hide TaskRuns.After, EventsAfter;
  }

  /** A row the browser has passed is never shown, whatever happens later. */
  lemma {:induction false} PassedForGood(w: World, steps: seq<Step>, e: Event)
    requires Passed(w.client, e)
    ensures Passed(Play(w, steps).client, e)
  {
    hide Passed, Take;
    if steps != [] {
      PassedForGood(w, steps[..|steps| - 1], e);
      StepPasses(Play(w, steps[..|steps| - 1]), steps[|steps| - 1], e);
    }
  }

  lemma StepAfterDone(w: World, s: Step)
    requires EndsClean(w) && w.client.done
    ensures Take(w, s).client == w.client
  {
    hide TaskRuns.After, EventsAfter, RequestCursor;
  }

  /** A browser that was told the stream is done shows nothing more. */
  lemma {:induction false} DoneForGood(w: World, steps: seq<Step>)
    requires EndsClean(w) && w.client.done
    ensures EndsClean(Play(w, steps)) && Play(w, steps).client == w.client
  {
    hide EndsClean, Take;
    if steps != [] {
      var before := Play(w, steps[..|steps| - 1]);
      DoneForGood(w, steps[..|steps| - 1]);
      StepAfterDone(before, steps[|steps| - 1]);
      StepEndsClean(before, steps[|steps| - 1]);
    }
  }

  // ---- a schedule that catches up

  /** Every cursor survives the round trip through its text. */
  ghost predicate Printable(log: seq<Event>) {
    forall e <- log :: e.attempt <= MAX_INT64 && e.seqno <= MAX_INT64
  }

  lemma {:induction false} PlayConcat(w: World, a: seq<Step>, b: seq<Step>)
    ensures Play(w, a + b) == Play(Play(w, a), b)
  {
    hide Take;
    if b == [] {
      assert a + b == a;
    } else {
      var init := b[..|b| - 1];
      PlayConcat(w, a, init);
      assert (a + b)[..|a + b| - 1] == a + init;
    }
  }

  lemma PlayOne(w: World, s: Step)
    ensures Play(w, [s]) == Take(w, s)
  {
    hide Take;
    assert [s][..0] == [];
    assert Play(w, []) == w;
  }

  /** The connection owes these rows, has sent the first j of them and stands behind them. */
  ghost predicate Sending(w: World, due: seq<Event>, j: nat) {
    && j <= |due| && w.server.Up?
    && w.wire == Frames(due[..j])
    && Beyond(Timeline(w.task.events), w.server.cursor) == due[j..]
    && (w.server.sawOver ==> w.task.task.status.Terminal())
  }

  /** All of them are on their way, with the closing frame behind them when the task is over. */
  ghost predicate AllSent(w: World, due: seq<Event>) {
    w.wire == Frames(due) + if w.task.task.status.Terminal() then [Done] else []
  }

  /** The whole log is due, but for rows that are not ahead of the browser. */
  ghost predicate Due(w: World, due: seq<Event>) {
    && Sorted(due)
    && forall e <- w.task.events :: Ahead(w.client, e) ==> e in due
  }

  lemma {:induction false} BeyondSorted(events: seq<Event>, c: Cursor)
    requires Sorted(events)
    ensures Sorted(Beyond(events, c))
  {
    hide Beyond, Less, CursorOf;
    var p := Skipped(events, c);
    forall i: nat, j: nat | i < j < |events| - p
      ensures Before(events[p..], i, j)
    {
      assert Before(events, p + i, p + j);
    }
  }

  lemma TimelineOf(t: Tables)
    requires Inv(t)
    ensures Sorted(Timeline(t.events)) && forall e :: e in Timeline(t.events) <==> e in t.events
  {
    hide AttemptStructure, KeysOnce, MovesAtTheTop, Chronicle, Numbered, Timeline, Sorted;
    NumberedDistinct(t.events);
    TimelineSorted(t.events);
  }

  /** After a dropped connection the next request is accepted, at a cursor that leaves nothing ahead behind it. */
  lemma Reconnects(w: World) returns (w': World, due: seq<Event>)
    requires Tracks(w) && Printable(w.task.events) && !w.client.done
    ensures w' == Take(Take(w, Drop), Connect(true))
    ensures w'.task == w.task && w'.client == w.client
    ensures Sending(w', due, 0) && w'.server.draining && Due(w', due)
  {
    hide Inv, Shows, EndsClean, Parse, Text, TaskRuns.After, SendBatch, Arrive, Timeline, Beyond, Sorted;
    w' := Take(Take(w, Drop), Connect(true));
    var log := w.task.events;
    var c := ResumeCursor(log, w.client);
    due := Beyond(Timeline(log), c);
    TimelineOf(w.task);
    RowsAfterStart(w.task);
    BeyondSorted(Timeline(log), c);
    forall e | e in log && Ahead(w.client, e)
      ensures e in due
    {
      BeyondMember(Timeline(log), c, e);
    }
    assert due[..0] == [] && due[0..] == due;
  }

  lemma RowsAfterStart(t: Tables)
    requires Inv(t)
    ensures forall e <- t.events :: Less(START, CursorOf(e))
  {
    hide AttemptStructure, KeysOnce, MovesAtTheTop, Chronicle, Numbered;
  }

  /** The cursor the browser resumes at is parsed, and every row ahead of the browser lies beyond it. */
  lemma ResumeCursor(log: seq<Event>, client: Client) returns (c: Cursor)
    requires TextsBehind(log, client) && Printable(log)
    ensures RequestCursor(client.header, client.url) == Some(c)
    ensures forall e | e in log && Less(START, CursorOf(e)) && Ahead(client, e) :: Less(c, CursorOf(e))
    ensures c == START || exists e :: e in log && c == CursorOf(e) && !Ahead(client, e)
  {
    var raw := if client.header == "" then client.url else client.header;
    if raw == "" {
      c := START;
    } else {
      var row :| NamesRow(log, client, raw, row);
      c := CursorOf(row);
      CursorRoundTrip(c);
      TextNotEmpty(c);
    }
  }

  lemma TextNotEmpty(c: Cursor)
    ensures Text(c) != ""
  {
  }

  /** The drain is over: everything due is sent, or it is sent but for the closing frame. */
  ghost predicate Drained(w: World, due: seq<Event>) {
    (Sending(w, due, |due|) && !w.server.draining) || (w.server.Down? && AllSent(w, due))
  }

  /** A batch sends the next rows, ends the drain, or closes the stream. */
  lemma SendsNext(w: World, due: seq<Event>, j: nat) returns (k: nat)
    requires Inv(w.task) && Sending(w, due, j) && w.server.draining
    ensures SendBatch(w).task == w.task && SendBatch(w).client == w.client
    ensures || Drained(SendBatch(w), due)
            || (j < k <= |due| && Sending(SendBatch(w), due, k) && SendBatch(w).server.draining)
    ensures j == |due| && w.server.sawOver && !w.server.wrote ==> SendBatch(w).server.Down?
  {
    hide Inv, Timeline, Beyond, Sorted, Frames, CursorOf;
    var rows := due[j..];
    k := if |rows| <= BATCH then |due| else j + BATCH;
    TimelineOf(w.task);
    if j < k {
      BatchAdvances(Timeline(w.task.events), w.server.cursor, k - j);
    }
    assert rows[..k - j] == due[j..k] && rows[k - j..] == due[k..];
    FramesJoin(due, j, k);
    assert due[..|due|] == due;
    assert EventsAfter(w.task.events, w.server.cursor, BATCH) == due[j..k];
    hide EventsAfter;
  }

  lemma FramesJoin(due: seq<Event>, j: nat, k: nat)
    requires j <= k <= |due|
    ensures Frames(due[..j]) + Frames(due[j..k]) == Frames(due[..k])
  {
    assert due[..j] + due[j..k] == due[..k];
  }

  /** Batches until the drain ends. */
  lemma DrainsAll(w: World, due: seq<Event>, j: nat) returns (steps: seq<Step>)
    requires Inv(w.task) && Sending(w, due, j) && w.server.draining
    ensures Play(w, steps).task == w.task && Play(w, steps).client == w.client && Drained(Play(w, steps), due)
    decreases |due| - j
  {
    hide Inv, SendBatch, Play, Drained;
    var k := SendsNext(w, due, j);
    var next := Take(w, Batch);
    PlayOne(w, Batch);
    if Drained(next, due) {
      steps := [Batch];
    } else {
      var rest := DrainsAll(next, due, k);
      steps := [Batch] + rest;
      PlayConcat(w, [Batch], rest);
    }
  }

  /** One more look at the task after the last row, when it is over, closes the stream. */
  lemma Closes(w: World, due: seq<Event>) returns (steps: seq<Step>)
    requires Inv(w.task) && Drained(w, due)
    ensures Play(w, steps).task == w.task && Play(w, steps).client == w.client && AllSent(Play(w, steps), due)
  {
    hide Inv, SendBatch, Timeline, Beyond;
    assert due[..|due|] == due;
    if w.server.Up? && w.task.task.status.Terminal() {
      var polled := Take(w, Poll);
      PlayOne(w, Poll);
      PlayOne(polled, Batch);
      PlayConcat(w, [Poll], [Batch]);
      steps := [Poll] + [Batch];
      var _ := SendsNext(polled, due, |due|);
    } else {
      steps := [];
    }
  }

  /** What is on the wire arrives: nothing ahead of the browser is left out. */
  lemma {:induction false} Arrives(w: World, due: seq<Event>) returns (steps: seq<Step>)
    requires Sorted(w.client.events) && Sorted(due) && AllSent(w, due)
    ensures Play(w, steps).task == w.task
    ensures forall e | e in w.client.events || (e in due && Ahead(w.client, e)) :: e in Play(w, steps).client.events
    ensures Play(w, steps).client.done <==> w.client.done || w.task.task.status.Terminal()
    decreases |due|
  {
    hide Less, Sorted;
    var next := Take(w, Deliver);
    PlayOne(w, Deliver);
    if due == [] {
      steps := if w.wire == [] then [] else [Deliver];
    } else {
      assert w.wire[0] == Data(due[0]);
      assert w.wire[1..] == Frames(due[1..]) + if w.task.task.status.Terminal() then [Done] else [];
      ShownStaysSorted(w.client, due[0]);
      SortedRest(due);
      var rest := Arrives(next, due[1..]);
      steps := [Deliver] + rest;
      PlayConcat(w, [Deliver], rest);
      forall e | e in w.client.events || (e in due && Ahead(w.client, e))
        ensures e in Play(w, steps).client.events
      {
        ArrivesOne(w.client, due, e);
      }
    }
  }

  lemma SortedRest(due: seq<Event>)
    requires Sorted(due) && due != []
    ensures Sorted(due[1..])
  {
    forall i: nat, j: nat | i < j < |due| - 1
      ensures Before(due[1..], i, j)
    {
      assert Before(due, i + 1, j + 1);
    }
  }

  /** After the first row arrived, what was ahead is shown or still ahead. */
  lemma ArrivesOne(c: Client, due: seq<Event>, e: Event)
    requires Sorted(due) && due != [] && (e in c.events || (e in due && Ahead(c, e)))
    ensures var c' := Receive(c, due[0]); e in c'.events || (e in due[1..] && Ahead(c', e))
  {
    if e !in c.events && e != due[0] {
      var k :| 0 <= k < |due| && due[k] == e;
      assert due[1..][k - 1] == e && Before(due, 0, k);
    }
  }

  /**
   * From every reachable state some schedule shows everything that is ahead of the browser, and closes the
   * stream exactly when the task is over.
   */
  lemma CatchesUp(w: World) returns (steps: seq<Step>)
    requires Tracks(w) && Printable(w.task.events) && !w.client.done
    ensures var w' := Play(w, steps);
            && w'.task == w.task
            && (forall e | e in w.task.events && (e in w.client.events || Ahead(w.client, e)) :: e in w'.client.events)
            && (w'.client.done <==> w.task.task.status.Terminal())
  {
    hide Inv, Sorted, Sending, Take, AllSent, Drained, TextsBehind, EndsClean, Play, Ahead;
    var connected, due := Reconnects(w);
    PlayOne(w, Drop);
    PlayOne(Take(w, Drop), Connect(true));
    PlayConcat(w, [Drop], [Connect(true)]);
    var opening := [Drop] + [Connect(true)];
    var drain := DrainsAll(connected, due, 0);
    PlayConcat(w, opening, drain);
    var close := Closes(Play(connected, drain), due);
    PlayConcat(w, opening + drain, close);
    var arrive := Arrives(Play(w, opening + drain + close), due);
    steps := opening + drain + close + arrive;
    PlayConcat(w, opening + drain + close, arrive);
  }

  /** The row is shown, or ahead of a browser that was not yet told that the stream is done. */
  ghost predicate WithinReach(c: Client, e: Event) {
    e in c.events || (!c.done && Ahead(c, e))
  }

  /**
   * In every reachable state, whatever order events were appended in, a logged event can still be shown by
   * some schedule exactly when it is shown already or lies beyond the last one shown.
   */
  lemma StillShowable(hasRepository: bool, born: Time, steps: seq<Step>, e: Event)
    requires var log := Play(Opened(hasRepository, born), steps).task.events; Printable(log) && e in log
    ensures var w := Play(Opened(hasRepository, born), steps);
            (exists more :: e in Play(w, more).client.events) <==> WithinReach(w.client, e)
  {
    hide Inv, Shows, TextsBehind, EndsClean, Play, Ahead, Printable;
    PlayTracks(hasRepository, born, steps);
    var w := Play(Opened(hasRepository, born), steps);
    if WithinReach(w.client, e) {
      if w.client.done {
        var none: seq<Step> := [];
        NothingPlayed(w, none);
        assert e in Play(w, none).client.events;
      } else {
        var more := CatchesUp(w);
        assert e in Play(w, more).client.events;
      }
    } else {
      forall more
        ensures e !in Play(w, more).client.events
      {
        if w.client.done {
          DoneForGood(w, more);
        } else {
          PassedForGood(w, more, e);
        }
      }
    }
  }

  lemma NothingPlayed(w: World, none: seq<Step>)
    requires none == []
    ensures Play(w, none) == w
  {
  }
}
