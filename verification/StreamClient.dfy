/**
 * The whole path of an activity event, from the store's log over a connection that may break anywhere to
 * the list the browser shows, as one state machine over arbitrary schedules.
 */
module StreamClient {
  import opened Lifecycle
  import opened Records
  import opened Stream
  import opened TaskHistory
  import TaskRuns
  import TaskTheorems

  datatype Frame = Data(event: Event) | Done

  /** One handler: its cursor, the status it last read, and where it is in its drain-then-wait loop. */
  datatype Server = Down | Up(cursor: Cursor, sawOver: bool, wrote: bool, draining: bool)

  /** header is what the browser will send as Last-Event-ID; url is what the hook opened the source with. */
  datatype Client = Client(events: seq<Event>, lastCursor: string, url: string, header: string, done: bool)

  datatype World = World(task: Tables, server: Server, wire: seq<Frame>, client: Client)

  datatype Step =
    | Store(call: TaskRuns.Call)
    | Connect(headerArrives: bool)
    | Batch
    | Poll
    | Deliver
    | Drop
    | Reopen

  function Frames(events: seq<Event>): (frames: seq<Frame>)
    ensures |frames| == |events| && forall i | 0 <= i < |events| :: frames[i] == Data(events[i])
  {
    seq(|events|, i requires 0 <= i < |events| => Data(events[i]))
  }

  /** Every message moves the cursors; only one beyond the last shown event is shown. */
  function Receive(c: Client, e: Event): Client {
    var text := Text(CursorOf(e));
    var shown :=
      if c.events != [] && !Less(CursorOf(c.events[|c.events| - 1]), CursorOf(e)) then c.events
      else c.events + [e];
    c.(lastCursor := text, header := text, events := shown)
  }

  function Accept(w: World, headerArrives: bool): World {
    if !w.server.Down? || w.wire != [] || w.client.done then w
    else match RequestCursor(if headerArrives then w.client.header else "", w.client.url)
         case None => w
         case Some(c) => w.(server := Up(c, w.task.task.status.Terminal(), false, true))
  }

  function SendBatch(w: World): World {
    if w.server.Down? || !w.server.draining then w
    else
      var rows := EventsAfter(w.task.events, w.server.cursor, BATCH);
      var wrote := w.server.wrote || rows != [];
      if |rows| < BATCH && w.server.sawOver && !wrote then
        w.(server := Down, wire := w.wire + [Done])
      else
        w.(server := w.server.(cursor := if rows == [] then w.server.cursor else CursorOf(rows[|rows| - 1]),
                               wrote := wrote,
                               draining := |rows| == BATCH),
           wire := w.wire + Frames(rows))
  }

  function Arrive(w: World): World {
    if w.wire == [] then w
    else match w.wire[0]
         case Data(e) => w.(wire := w.wire[1..], client := Receive(w.client, e))
         case Done => w.(wire := w.wire[1..], client := w.client.(done := true))
  }

  function Take(w: World, s: Step): World {
    match s
    case Store(call) => w.(task := TaskRuns.After(w.task, call))
    case Connect(headerArrives) => Accept(w, headerArrives)
    case Batch => SendBatch(w)
    case Poll =>
      if w.server.Down? || w.server.draining then w
      else w.(server := w.server.(sawOver := w.task.task.status.Terminal(), wrote := false, draining := true))
    case Deliver => Arrive(w)
    case Drop => w.(server := Down, wire := [])
    case Reopen =>
      if !w.server.Down? || w.wire != [] || w.client.done then w
      else w.(client := w.client.(url := w.client.lastCursor, header := ""))
  }

  function Play(w: World, steps: seq<Step>): World {
    if steps == [] then w else Take(Play(w, steps[..|steps| - 1]), steps[|steps| - 1])
  }

  /** A new task and a browser that has just opened its page. */
  function Opened(hasRepository: bool, born: Time): World {
    World(TaskRuns.Start(hasRepository, born), Down, [], Client([], "", "", "", false))
  }

  // ---- the row a browser resumes at

  /** The last event the network handed to the browser. */
  function LastReceived(w: World, steps: seq<Step>): Option<Event> {
    if steps == [] then None
    else
      var n := |steps| - 1;
      var before := Play(w, steps[..n]);
      if steps[n].Deliver? && before.wire != [] && before.wire[0].Data? then Some(before.wire[0].event)
      else LastReceived(w, steps[..n])
  }

  /** The last event it had received when the hook last opened a source of its own. */
  function OpenedBehind(w: World, steps: seq<Step>): Option<Event> {
    if steps == [] then None
    else
      var n := |steps| - 1;
      var before := Play(w, steps[..n]);
      if steps[n].Reopen? && before.server.Down? && before.wire == [] && !before.client.done
      then LastReceived(w, steps[..n])
      else OpenedBehind(w, steps[..n])
  }

  function RowText(row: Option<Event>): string {
    match row case None => "" case Some(e) => Text(CursorOf(e))
  }

  /** The header names the last event received, or is gone since the address does; the address is as opened. */
  predicate ResumesBehind(c: Client, row: Option<Event>, opening: Option<Event>) {
    && c.lastCursor == RowText(row) && c.url == RowText(opening)
    && (c.header == RowText(row) || (c.header == "" && opening == row))
    && (row.None? ==> opening.None?)
  }

  lemma StepResumes(w: World, s: Step, row: Option<Event>, opening: Option<Event>)
    requires ResumesBehind(w.client, row, opening)
    ensures ResumesBehind(Take(w, s).client,
                          if s.Deliver? && w.wire != [] && w.wire[0].Data? then Some(w.wire[0].event) else row,
                          if s.Reopen? && w.server.Down? && w.wire == [] && !w.client.done then row else opening)
  {
    hide Text, RequestCursor, EventsAfter, TaskRuns.After, CursorOf, Less;
  }

  lemma {:induction false} ResumeTexts(hasRepository: bool, born: Time, steps: seq<Step>)
    ensures var w := Opened(hasRepository, born);
            ResumesBehind(Play(w, steps).client, LastReceived(w, steps), OpenedBehind(w, steps))
  {
    hide Take, Opened;
    var w := Opened(hasRepository, born);
    if steps == [] {
      OpenedResumes(hasRepository, born);
    } else {
      var n := |steps| - 1;
      ResumeTexts(hasRepository, born, steps[..n]);
      StepResumes(Play(w, steps[..n]), steps[n], LastReceived(w, steps[..n]), OpenedBehind(w, steps[..n]));
    }
  }

  lemma OpenedResumes(hasRepository: bool, born: Time)
    ensures ResumesBehind(Opened(hasRepository, born).client, None, None)
  {
    hide TaskRuns.Start;
  }

  /**
   * In every run a connection whose header arrives starts exactly behind the last event the browser
   * received, at the beginning if there is none; one without its header starts behind the last event
   * received when the hook last opened a source.
   */
  lemma ConnectsBehindLastReceived(hasRepository: bool, born: Time, steps: seq<Step>, headerArrives: bool)
    ensures var start := Opened(hasRepository, born);
            var w := Play(start, steps);
            var w' := Take(w, Connect(headerArrives));
            var row := if headerArrives then LastReceived(start, steps) else OpenedBehind(start, steps);
            w.server.Down? && w'.server.Up? ==>
              w'.server.cursor == if row.None? then Cursor(0, 0) else Cursor(row.value.attempt, row.value.seqno)
  {
    hide Play, LastReceived, OpenedBehind, Opened, Text;
    ResumeTexts(hasRepository, born, steps);
    RowTextParses(LastReceived(Opened(hasRepository, born), steps));
    RowTextParses(OpenedBehind(Opened(hasRepository, born), steps));
  }

  lemma RowTextParses(row: Option<Event>)
    ensures RowText(row) == "" <==> row.None?
    ensures row.Some? ==> Parse(RowText(row)) == Some(CursorOf(row.value)) || Parse(RowText(row)) == None
  {
    if row.Some? {
      TextIsNotEmpty(CursorOf(row.value));
      CursorRoundTrip(CursorOf(row.value));
    }
  }

  lemma TextIsNotEmpty(c: Cursor)
    ensures Text(c) != ""
  {
    assert ':' in Text(c);
  }

  /** Each event is appended to the newest attempt. */
  ghost predicate ToNewest(log: seq<Event>) {
    forall i, j | 0 <= i < j < |log| :: log[i].attempt <= log[j].attempt
  }

  // ---- positions in an ordered log

  /** The cursor of a client that has the first p rows. */
  function At(log: seq<Event>, p: nat): Cursor
    requires p <= |log|
  {
    if p == 0 then START else CursorOf(log[p - 1])
  }

  /** Sorted, and every row is beyond the starting cursor. */
  ghost predicate InOrder(log: seq<Event>) {
    Sorted(log) && forall e <- log :: Less(START, CursorOf(e))
  }

  /** In a reachable log, appending to the newest attempt and appending in cursor order are the same. */
  lemma NewestIsSorted(t: Tables)
    requires Inv(t)
    ensures ToNewest(t.events) <==> Sorted(t.events)
  {
    var log := t.events;
    assert Numbered(log);
    if ToNewest(log) {
      forall i: nat, j: nat | i < j < |log|
        ensures Before(log, i, j)
      {
        NumberedGrows(log, j);
        assert log[i] in log[..j];
      }
    }
    if Sorted(log) {
      forall i, j | 0 <= i < j < |log|
        ensures log[i].attempt <= log[j].attempt
      {
        assert Before(log, i, j);
      }
    }
  }

  lemma NewestIsInOrder(t: Tables)
    requires Inv(t) && ToNewest(t.events)
    ensures InOrder(t.events)
  {
    hide AttemptStructure, KeysOnce, MovesAtTheTop, Chronicle, Numbered;
    NewestIsSorted(t);
  }

  lemma SortedPrefix(log: seq<Event>, n: nat)
    requires Sorted(log) && n <= |log|
    ensures Sorted(log[..n])
  {
    forall i: nat, j: nat | i < j < n
      ensures Before(log[..n], i, j)
    {
      assert Before(log, i, j);
    }
  }

  lemma {:induction false} OrderedTimeline(log: seq<Event>)
    requires Sorted(log)
    ensures Timeline(log) == log
  {
    hide Less, CursorOf;
    if log != [] {
      var n := |log| - 1;
      SortedPrefix(log, n);
      if n > 0 {
        assert Before(log, n - 1, n);
      }
      hide Sorted;
      OrderedTimeline(log[..n]);
    }
  }

  /** In an ordered log a batch is the next stretch of rows. */
  lemma BatchIsNextRows(log: seq<Event>, p: nat)
    requires InOrder(log) && p <= |log|
    ensures EventsAfter(log, At(log, p), BATCH) ==
            log[p..if |log| - p <= BATCH then |log| else p + BATCH]
  {
    hide Timeline, Beyond;
    OrderedTimeline(log);
    if p == 0 {
      BeyondAll(log, START);
    } else {
      BeyondRow(log, p - 1);
    }
  }

  // ---- the invariant

  ghost predicate ResumesAt(log: seq<Event>, text: string, p: nat) {
    1 <= p <= |log| && text == Text(At(log, p))
  }

  /** A cursor text the client holds names a row it has already shown. */
  ghost predicate Resumes(log: seq<Event>, shown: nat, text: string) {
    text == "" || exists p: nat :: p <= shown && ResumesAt(log, text, p)
  }

  /** One of the first n rows is the move to status s. */
  ghost predicate EndedWithin(log: seq<Event>, n: nat, s: Status) {
    exists q: nat :: q < n && q < |log| && log[q].kind.Moved? && log[q].kind.to == s
  }

  /** Rows i to j are on the wire, possibly followed by the closing frame. */
  ghost predicate InFlight(w: World, i: nat, j: nat) {
    var log := w.task.events;
    && i <= j <= |log| && i <= |w.client.events|
    && (w.server.Up? ==> w.server.cursor == At(log, j))
    && (|| w.wire == Frames(log[i..j])
        || (&& w.wire == Frames(log[i..j]) + [Done] && w.server.Down?
            && w.task.task.status.Terminal() && EndedWithin(log, j, w.task.task.status)))
  }

  ghost predicate ClientExact(log: seq<Event>, c: Client) {
    && |c.events| <= |log| && c.events == log[..|c.events|]
    && Resumes(log, |c.events|, c.lastCursor) && Resumes(log, |c.events|, c.url)
    && Resumes(log, |c.events|, c.header)
  }

  ghost predicate Exact(w: World) {
    && Inv(w.task)
    && ClientExact(w.task.events, w.client)
    && (w.server.Up? && w.server.sawOver ==> w.task.task.status.Terminal())
    && (exists i: nat, j: nat :: InFlight(w, i, j))
    && (w.client.done ==> w.task.task.status.Terminal()
                          && EndedWithin(w.task.events, |w.client.events|, w.task.task.status))
  }

  // ---- one step at a time

  lemma TerminalStays(t: Tables, c: TaskRuns.Call)
    requires t.task.status.Terminal()
    ensures TaskRuns.After(t, c).task.status == t.task.status
  {
  }

  lemma {:induction false} LastEdgeIsAnEvent(events: seq<Event>)
    requires Edges(events) != []
    ensures EndedWithin(events, |events|, Edges(events)[|Edges(events)| - 1].to)
  {
    var n := |events| - 1;
    if !events[n].kind.Moved? {
      LastEdgeIsAnEvent(events[..n]);
    }
  }

  /** The log holds the move to the current status. */
  lemma StatusWasRecorded(t: Tables)
    requires Inv(t)
    ensures EndedWithin(t.events, |t.events|, t.task.status)
  {
    hide Inv, Edges, EndedWithin;
    TaskTheorems.LogChains(t);
    LastEdgeIsAnEvent(t.events);
  }

  lemma ClientOutlivesGrowth(log: seq<Event>, log': seq<Event>, c: Client)
    requires log <= log' && ClientExact(log, c)
    ensures ClientExact(log', c)
  {
    forall text | Resumes(log, |c.events|, text)
      ensures Resumes(log', |c.events|, text)
    {
      if text != "" {
        var p: nat :| p <= |c.events| && ResumesAt(log, text, p);
        assert ResumesAt(log', text, p);
      }
    }
  }

  lemma StoreKeeps(w: World, call: TaskRuns.Call)
    requires Exact(w)
    ensures Exact(Take(w, Store(call)))
  {
    hide Inv, TaskRuns.After, ClientExact;
    var w' := Take(w, Store(call));
    TaskRuns.CallKeepsInv(w.task, call);
    TaskTheorems.CallAccounts(w.task, call);
    if w.task.task.status.Terminal() {
      TerminalStays(w.task, call);
    }
    ClientOutlivesGrowth(w.task.events, w'.task.events, w.client);
    var i: nat, j: nat :| InFlight(w, i, j);
    assert w.task.events[i..j] == w'.task.events[i..j];
    assert InFlight(w', i, j);
  }

  lemma RequestResumes(log: seq<Event>, shown: nat, header: string, query: string)
    requires Resumes(log, shown, header) && Resumes(log, shown, query)
    ensures match RequestCursor(header, query)
            case None => true
            case Some(c) => exists p: nat :: p <= shown && p <= |log| && c == At(log, p)
  {
    var raw := if header == "" then query else header;
    if raw == "" {
      assert START == At(log, 0);
    } else {
      var p: nat :| p <= shown && ResumesAt(log, raw, p);
      CursorRoundTrip(At(log, p));
    }
  }

  lemma AcceptKeeps(w: World, headerArrives: bool)
    requires Exact(w)
    ensures Exact(Accept(w, headerArrives))
  {
    hide Inv, EndedWithin;
    var w' := Accept(w, headerArrives);
    var log, shown := w.task.events, |w.client.events|;
    if w' != w {
      var header := if headerArrives then w.client.header else "";
      assert Resumes(log, shown, "");
      RequestResumes(log, shown, header, w.client.url);
      var p: nat :| p <= shown && p <= |log| && w'.server.cursor == At(log, p);
      assert w'.wire == Frames(log[p..p]);
      assert InFlight(w', p, p);
    }
  }

  lemma FramesSplit(log: seq<Event>, i: nat, j: nat, k: nat)
    requires i <= j <= k <= |log|
    ensures Frames(log[i..j]) + Frames(log[j..k]) == Frames(log[i..k])
  {
  }

  function BatchEnd(log: seq<Event>, j: nat): (k: nat)
    requires j <= |log|
    ensures j <= k <= |log| && (k == j ==> j == |log|)
  {
    if |log| - j <= BATCH then |log| else j + BATCH
  }

  /** A batch puts the next stretch of rows on the wire, or closes a stream that is over and drained. */
  lemma BatchEffect(w: World, i: nat, j: nat)
    requires InOrder(w.task.events) && i <= j <= |w.task.events| && w.wire == Frames(w.task.events[i..j])
    requires w.server.Up? && w.server.draining && w.server.cursor == At(w.task.events, j)
    ensures var log, k := w.task.events, BatchEnd(w.task.events, j);
            SendBatch(w) ==
            if j == |log| && w.server.sawOver && !w.server.wrote then w.(server := Down, wire := w.wire + [Done])
            else w.(server := Up(At(log, k), w.server.sawOver, w.server.wrote || j < k, k == j + BATCH),
                    wire := Frames(log[i..k]))
  {
    hide InOrder, EventsAfter, Frames, CursorOf;
    var log, k := w.task.events, BatchEnd(w.task.events, j);
    BatchIsNextRows(log, j);
    FramesSplit(log, i, j, k);
    var rows := log[j..k];
    assert |rows| == k - j;
    if rows != [] {
      assert rows[|rows| - 1] == log[k - 1];
    }
  }

  lemma BatchKeeps(w: World)
    requires Exact(w) && InOrder(w.task.events)
    ensures Exact(SendBatch(w))
  {
    hide Inv, EndedWithin, ClientExact, InOrder;
    var i: nat, j: nat :| InFlight(w, i, j);
    if w.server.Up? && w.server.draining {
      BatchEffect(w, i, j);
      StatusWasRecorded(w.task);
      hide SendBatch;
      assert InFlight(SendBatch(w), i, BatchEnd(w.task.events, j));
    }
  }

  lemma ReceiveKeeps(log: seq<Event>, c: Client, i: nat)
    requires InOrder(log) && ClientExact(log, c) && i < |log| && i <= |c.events|
    ensures ClientExact(log, Receive(c, log[i]))
    ensures |Receive(c, log[i]).events| == if i == |c.events| then i + 1 else |c.events|
    ensures Receive(c, log[i]).done == c.done
  {
    hide Text;
    var c' := Receive(c, log[i]);
    var k := |c.events|;
    if 0 < k == i {
      assert Before(log, i - 1, i);
    } else if i < k - 1 {
      assert Before(log, i, k - 1);
    }
    assert ResumesAt(log, Text(CursorOf(log[i])), i + 1);
    forall text | Resumes(log, k, text)
      ensures Resumes(log, |c'.events|, text)
    {
    }
  }

  lemma ClosingKeeps(log: seq<Event>, c: Client)
    requires ClientExact(log, c)
    ensures ClientExact(log, c.(done := true))
  {
  }

  lemma ArriveKeeps(w: World)
    requires Exact(w) && InOrder(w.task.events)
    ensures Exact(Arrive(w))
  {
    hide Inv, ClientExact, InOrder, Receive;
    var w' := Arrive(w);
    var log := w.task.events;
    var i: nat, j: nat :| InFlight(w, i, j);
    if w.wire != [] {
      if i < j {
        assert w.wire[0] == Data(log[i]);
        ReceiveKeeps(log, w.client, i);
        assert log[i..j] == [log[i]] + log[i + 1..j];
        assert Frames(log[i..j])[1..] == Frames(log[i + 1..j]);
        assert InFlight(w', i + 1, j);
      } else {
        assert w.wire == [Done];
        ClosingKeeps(log, w.client);
        assert InFlight(w', i, j);
      }
    }
  }

  lemma StepKeeps(w: World, s: Step)
    requires Exact(w) && InOrder(Take(w, s).task.events)
    ensures Exact(Take(w, s))
  {
    hide Inv, ClientExact, InOrder, EndedWithin;
    match s
    case Store(call) => StoreKeeps(w, call);
    case Connect(headerArrives) => AcceptKeeps(w, headerArrives);
    case Batch => BatchKeeps(w);
    case Poll =>
      var i: nat, j: nat :| InFlight(w, i, j);
      assert InFlight(Take(w, s), i, j);
    case Deliver => ArriveKeeps(w);
    case Drop => assert InFlight(Take(w, s), 0, 0);
    case Reopen => ReopenKeeps(w);
  }

  lemma ReopenKeeps(w: World)
    requires Exact(w)
    ensures Exact(Take(w, Reopen))
  {
    hide Inv, EndedWithin;
    var i: nat, j: nat :| InFlight(w, i, j);
    assert InFlight(Take(w, Reopen), i, j);
  }

  // ---- every schedule

  lemma {:induction false} LogGrows(w: World, steps: seq<Step>, n: nat)
    requires n <= |steps|
    ensures Play(w, steps[..n]).task.events <= Play(w, steps).task.events
  {
    hide TaskRuns.After;
    if n < |steps| {
      var init := steps[..|steps| - 1];
      LogGrows(w, init, n);
      assert init[..n] == steps[..n];
      match steps[|steps| - 1] {
        case Store(call) => TaskTheorems.CallAccounts(Play(w, init).task, call);
        case _ =>
      }
    } else {
      assert steps[..n] == steps;
    }
  }

  lemma OpenedExact(hasRepository: bool, born: Time)
    ensures Exact(Opened(hasRepository, born))
  {
    hide Inv, TaskRuns.Start;
    TaskRuns.RunKeepsInv(hasRepository, born, []);
    assert InFlight(Opened(hasRepository, born), 0, 0);
  }

  lemma {:induction false} PlayKeeps(w: World, steps: seq<Step>)
    requires Exact(w) && ToNewest(Play(w, steps).task.events)
    ensures Exact(Play(w, steps))
  {
    hide Inv, Take, ClientExact, InOrder, InFlight;
    if steps != [] {
      var init := steps[..|steps| - 1];
      LogGrows(w, steps, |init|);
      PlayKeeps(w, init);
      StepInv(Play(w, init), steps[|steps| - 1]);
      NewestIsInOrder(Play(w, steps).task);
      StepKeeps(Play(w, init), steps[|steps| - 1]);
    }
  }

  lemma StepInv(w: World, s: Step)
    requires Inv(w.task)
    ensures Inv(Take(w, s).task)
  {
    hide Inv, TaskRuns.After;
    match s
    case Store(call) => TaskRuns.CallKeepsInv(w.task, call);
    case _ =>
  }

  /**
   * Whatever the connection does, a browser shows exactly the first so many events of the log, none
   * missing and none twice; and once it was told that the stream is done, they include the move to the
   * task's final status.
   */
  lemma ExactDelivery(hasRepository: bool, born: Time, steps: seq<Step>)
    requires ToNewest(Play(Opened(hasRepository, born), steps).task.events)
    ensures var w := Play(Opened(hasRepository, born), steps);
            var shown := w.client.events;
            && shown <= w.task.events
            && (w.client.done ==> w.task.task.status.Terminal()
                                  && EndedWithin(shown, |shown|, w.task.task.status))
  {
    hide Inv, Play, Resumes, InFlight;
    OpenedExact(hasRepository, born);
    PlayKeeps(Opened(hasRepository, born), steps);
  }
}
