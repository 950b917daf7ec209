/** What the world does to one execution, and what the log says of it when nothing cuts it off. */
module Itinerary {
  import opened Lifecycle
  import opened Records
  import opened Fleet

  /** The process is killed, the runtime deadline passes, or the runner is asked to stop. */
  datatype Cut = Dies | TimeUp | Shutdown

  /** What becomes of the work in a workspace. */
  datatype Publishing = Published | NothingNew | BaseMoved | CommitFails | PushFails | GitHubFails

  /** Whether the task's repository is still known and installed. */
  datatype Target = Resolved | Unavailable | Unresolved

  /** What a later owner finds of an attempt that was publishing. */
  datatype Found = Worktree | PushedBranch | NothingPushed | Unreachable | Unrecorded

  /**
   * What the world does to one execution: the number of store calls after which it is cut off and how, when
   * each call happens, the agent's events (true for a plan), the trusted checks, and what works.
   */
  datatype Fate = Fate(cutAfter: Option<nat>, cut: Cut, clock: nat -> Time, session: seq<bool>, checks: nat,
                       target: Target, workspaceOk: bool, agentOk: bool, publishing: Publishing, found: Found)
  {
    /** Nothing makes the attempt itself fail. */
    predicate Able() {
      && target.Resolved? && workspaceOk && agentOk && publishing.Published? && (found.Worktree? || found.PushedBranch?)
      && (cutAfter.Some? ==> !cut.TimeUp?)
    }
  }

  // ---- what is recorded

  /** What the events record, in order. */
  function Kinds(events: seq<Event>): (kinds: seq<Kind>)
    ensures |kinds| == |events| && forall i | 0 <= i < |events| :: kinds[i] == events[i].kind
  {
    seq(|events|, i requires 0 <= i < |events| => events[i].kind)
  }

  function Notes(eventTypes: seq<string>): (kinds: seq<Kind>)
    ensures |kinds| == |eventTypes| && forall i | 0 <= i < |eventTypes| :: kinds[i] == Note(eventTypes[i])
  {
    seq(|eventTypes|, i requires 0 <= i < |eventTypes| => Note(eventTypes[i]))
  }

  const CLEANED := Note("cleanup.completed")

  function StageMove(from: Status, to: Status): Kind {
    Moved(from, to, StageReason(to))
  }

  function Failure(from: Status): Kind {
    Moved(from, Failed, "")
  }

  /** The events of publishing, up to where it succeeded or failed. */
  function PublishingEvents(publishing: Publishing): seq<string> {
    match publishing
    case Published => ["commit.created", "branch.pushed", "pull_request.created", "github.check_run.created"]
    case NothingNew => ["publishing.no_change", "github.check_run.created"]
    case BaseMoved | CommitFails => []
    case PushFails => ["commit.created"]
    case GitHubFails => ["commit.created", "branch.pushed"]
  }

  function PublishingFailure(publishing: Publishing): string {
    match publishing
    case NothingNew => "no_change"
    case BaseMoved => "base_mismatch"
    case _ => "publish_failed"
  }

  /** The code under which the stages fail, if they do. */
  function RunFailure(fate: Fate, publishes: bool): string {
    if !fate.workspaceOk then "workspace_failed"
    else if !fate.agentOk then "agent_failed"
    else if publishes && !fate.publishing.Published? then PublishingFailure(fate.publishing)
    else ""
  }

  function RecoveredFailure(fate: Fate): string {
    match fate.found
    case Unrecorded => "publish_state_missing"
    case NothingPushed => "workspace_lost"
    case Unreachable => "publish_failed"
    case PushedBranch => if fate.publishing.GitHubFails? then "publish_failed" else ""
    case Worktree => if fate.publishing.Published? then "" else PublishingFailure(fate.publishing)
  }

  function ReachFailure(fate: Fate, publishes: bool): string {
    if publishes && fate.target.Unavailable? then "publishing_unavailable" else RunFailure(fate, publishes)
  }

  /** The code under which a drive fails its task, if it does. */
  function DriveFailure(fate: Fate, publishes: bool, claimed: Status): string {
    if Reached(fate, publishes, claimed).None? then ReachFailure(fate, publishes) else RecoveredFailure(fate)
  }

  /** One event per trusted check between the start and the end of validation. */
  function ValidationEvents(checks: nat): seq<string> {
    ["validation.started"] + seq(checks, _ => "validation.check.completed")
    + ["validation.completed", "evidence.generated"]
  }

  // ---- the stages, when nothing cuts them off

  function EventPlan(status: Status, isPlan: bool): seq<Kind> {
    if isPlan && status == Planning then [Note("agent.event"), StageMove(Planning, Executing)]
    else [Note("agent.event")]
  }

  /** One note per agent event; the first plan ends planning. */
  function SessionPlan(session: seq<bool>, entered: Status): seq<Kind> {
    if session == [] then []
    else
      var n := |session| - 1;
      SessionPlan(session[..n], entered) + [Note("agent.event")] +
      if session[n] && entered == Planning && true !in session[..n] then [StageMove(Planning, Executing)] else []
  }

  function AfterSession(session: seq<bool>, entered: Status): Status {
    if entered == Planning && true in session then Executing else entered
  }

  /** Session end still ends planning. */
  function SessionEndPlan(entered: Status): seq<Kind> {
    (if entered == Planning then [StageMove(Planning, Executing)] else []) + [StageMove(Executing, Validating)]
  }

  /** From the end of the session to publishing. */
  function ValidationPlan(entered: Status, checks: nat): seq<Kind> {
    SessionEndPlan(entered) + Notes(ValidationEvents(checks)) + [StageMove(Validating, Publishing)]
  }

  function ReadyPlan(entered: Status): seq<Kind> {
    [Note("workspace.ready")] + if entered == Provisioning then [StageMove(Provisioning, Planning)] else []
  }

  function AgentEndPlan(fate: Fate, status: Status): seq<Kind> {
    if fate.agentOk then ValidationPlan(status, fate.checks) else [Failure(status)]
  }

  function AgentPlan(fate: Fate, entered: Status): seq<Kind> {
    var working := if entered == Provisioning then Planning else entered;
    ReadyPlan(entered) + SessionPlan(fate.session, working)
    + AgentEndPlan(fate, AfterSession(fate.session, working))
  }

  /** A git workspace is removed before review, or after a failure. */
  function PublishPlan(publishing: Publishing): seq<Kind> {
    Notes(PublishingEvents(publishing)) +
    if publishing.Published? then [CLEANED, StageMove(Publishing, AwaitingReview)] else [Failure(Publishing), CLEANED]
  }

  function RunPlan(fate: Fate, publishes: bool, entered: Status): seq<Kind> {
    [Note("workspace.provisioning")] +
    if !fate.workspaceOk then [Failure(entered)]
    else AgentPlan(fate, entered) + if publishes && fate.agentOk then PublishPlan(fate.publishing) else [CLEANED]
  }

  /** The missing result of a validation whose workspace is gone. */
  function LostValidationPlan(): seq<Kind> {
    Notes(["validation.completed", "evidence.generated"]) + [StageMove(Validating, Publishing)]
  }

  function RecoveredPlan(fate: Fate): seq<Kind> {
    match fate.found
    case Worktree => PublishPlan(fate.publishing)
    case PushedBranch =>
      if fate.publishing.GitHubFails? then [Failure(Publishing)]
      else Notes(["pull_request.updated", "github.check_run.updated"]) + [StageMove(Publishing, AwaitingReview)]
    case NothingPushed | Unreachable | Unrecorded => [Failure(Publishing)]
  }

  function FinishPlan(fate: Fate, publishes: bool): seq<Kind> {
    if publishes then RecoveredPlan(fate)
    else [Note("publishing.skipped"), StageMove(Publishing, AwaitingReview)]
  }

  /** From the claimed status to publishing, or through it where the work is published from its workspace. */
  function ReachPlan(fate: Fate, publishes: bool, claimed: Status): seq<Kind> {
    var status := if claimed == Queued then Provisioning else claimed;
    (if claimed == Queued then [StageMove(Queued, Provisioning)] else []) +
    if publishes && fate.target.Unavailable? then [Failure(status)]
    else if publishes && fate.target.Unresolved? then []
    else match status
         case Provisioning | Planning | Executing => RunPlan(fate, publishes, status)
         case Validating => LostValidationPlan()
         case _ => []
  }

  /** Where that ends; None when the attempt fails or its repository cannot be looked up. */
  function Reached(fate: Fate, publishes: bool, claimed: Status): Option<Status> {
    if publishes && !fate.target.Resolved? then None
    else match claimed
         case Queued | Provisioning | Planning | Executing =>
           if !fate.workspaceOk || !fate.agentOk || (publishes && !fate.publishing.Published?) then None
           else Some(if publishes then AwaitingReview else Publishing)
         case Validating => Some(Publishing)
         case _ => Some(claimed)
  }

  /** The whole way to review, or to where the attempt fails. */
  function ReviewPlan(fate: Fate, publishes: bool, claimed: Status): seq<Kind> {
    ReachPlan(fate, publishes, claimed) +
    if Reached(fate, publishes, claimed) == Some(Publishing) then FinishPlan(fate, publishes) else []
  }

  function DrivePlan(fate: Fate, publishes: bool, claimed: Status): seq<Kind> {
    ReviewPlan(fate, publishes, claimed) +
    if !publishes && Reached(fate, publishes, claimed).Some? then [StageMove(AwaitingReview, Completed)] else []
  }

  // ---- the plans spelled out

  /** The session's notes, with the move out of planning right behind the first plan's. */
  lemma {:induction false} SessionPlanIs(session: seq<bool>, entered: Status, first: nat)
    requires first <= |session| && (forall j | 0 <= j < first :: !session[j]) && (first < |session| ==> session[first])
    ensures var note := Note("agent.event");
            SessionPlan(session, entered) ==
            if entered == Planning && first < |session| then
              seq(first + 1, _ => note) + [Moved(Planning, Executing, "")] + seq(|session| - first - 1, _ => note)
            else seq(|session|, _ => note)
  {
    hide StageMove;
    PlanEndsPlanning();
    if session != [] {
      var n := |session| - 1;
      SessionPlanIs(session[..n], entered, if first <= n then first else n);
      assert first < n ==> session[..n][first];
      assert true in session[..n] <==> first < n;
    }
  }

  lemma PlanEndsPlanning()
    ensures StageMove(Planning, Executing) == Moved(Planning, Executing, "")
  {
  }

  /** What validation records: every trusted check between start and end, and the evidence last. */
  lemma ValidationPlanIs(entered: Status, checks: nat)
    ensures ValidationPlan(entered, checks) ==
            (if entered == Planning then [Moved(Planning, Executing, "")] else [])
            + [Moved(Executing, Validating, ""), Note("validation.started")]
            + seq(checks, _ => Note("validation.check.completed"))
            + [Note("validation.completed"), Note("evidence.generated"), Moved(Validating, Publishing, "")]
  {
    hide Notes;
    NotesSplit(["validation.started"] + seq(checks, _ => "validation.check.completed"),
               ["validation.completed", "evidence.generated"]);
    NotesSplit(["validation.started"], seq(checks, _ => "validation.check.completed"));
    assert Notes(["validation.started"]) == [Note("validation.started")];
    assert Notes(seq(checks, _ => "validation.check.completed"))
           == seq(checks, _ => Note("validation.check.completed"));
    assert Notes(["validation.completed", "evidence.generated"])
           == [Note("validation.completed"), Note("evidence.generated")];
  }

  lemma NotesSplit(a: seq<string>, b: seq<string>)
    ensures Notes(a + b) == Notes(a) + Notes(b)
  {
  }

  /** What publishing from a workspace records, for each way it can go. */
  lemma PublishPlanIs(publishing: Publishing)
    ensures PublishPlan(publishing) ==
            match publishing
            case Published =>
              [Note("commit.created"), Note("branch.pushed"), Note("pull_request.created"),
               Note("github.check_run.created"), Note("cleanup.completed"), Moved(Publishing, AwaitingReview, "")]
            case NothingNew =>
              [Note("publishing.no_change"), Note("github.check_run.created"),
               Moved(Publishing, Failed, ""), Note("cleanup.completed")]
            case BaseMoved | CommitFails => [Moved(Publishing, Failed, ""), Note("cleanup.completed")]
            case PushFails =>
              [Note("commit.created"), Moved(Publishing, Failed, ""), Note("cleanup.completed")]
            case GitHubFails =>
              [Note("commit.created"), Note("branch.pushed"), Moved(Publishing, Failed, ""),
               Note("cleanup.completed")]
  {
  }

  /** Everything a queued task records until it is in review, or completed where nothing is published. */
  lemma DriveFromQueue(fate: Fate, publishes: bool)
    requires fate.target.Resolved? && fate.workspaceOk && fate.agentOk && fate.publishing.Published?
    ensures var ended := if true in fate.session then Executing else Planning;
            DrivePlan(fate, publishes, Queued) ==
            [Moved(Queued, Provisioning, ""), Note("workspace.provisioning"), Note("workspace.ready"),
             Moved(Provisioning, Planning, "")]
            + SessionPlan(fate.session, Planning)
            + ValidationPlan(ended, fate.checks)
            + if publishes then PublishPlan(Published)
              else [Note("cleanup.completed"), Note("publishing.skipped"), Moved(Publishing, AwaitingReview, ""),
                    Moved(AwaitingReview, Completed, "fake attempt auto-completed; nothing was published to review")]
  {
    hide *;
    var agent := SessionPlan(fate.session, Planning);
    var checks := ValidationPlan(if true in fate.session then Executing else Planning, fate.checks);
    var removed := if publishes then PublishPlan(Published) else [CLEANED];
    StagesFromQueue(fate, publishes);
    DriveRests(publishes);
    Regroup(StageMove(Queued, Provisioning), Note("workspace.provisioning"), Note("workspace.ready"),
            StageMove(Provisioning, Planning), agent, checks, removed, DriveRest(publishes));
  }

  lemma StagesFromQueue(fate: Fate, publishes: bool)
    requires fate.target.Resolved? && fate.workspaceOk && fate.agentOk && fate.publishing.Published?
    ensures DrivePlan(fate, publishes, Queued) ==
            [StageMove(Queued, Provisioning)] +
            ([Note("workspace.provisioning")] +
             ([Note("workspace.ready")] + [StageMove(Provisioning, Planning)] + SessionPlan(fate.session, Planning)
              + ValidationPlan(if true in fate.session then Executing else Planning, fate.checks)
              + if publishes then PublishPlan(Published) else [CLEANED]))
            + DriveRest(publishes)
  {
    hide SessionPlan, ValidationPlan, PublishPlan, StageMove;
  }

  lemma DriveRests(publishes: bool)
    ensures StageMove(Queued, Provisioning) == Moved(Queued, Provisioning, "")
    ensures StageMove(Provisioning, Planning) == Moved(Provisioning, Planning, "")
    ensures CLEANED == Note("cleanup.completed")
    ensures !publishes ==>
              [CLEANED] + DriveRest(publishes) ==
              [Note("cleanup.completed"), Note("publishing.skipped"), Moved(Publishing, AwaitingReview, ""),
               Moved(AwaitingReview, Completed, "fake attempt auto-completed; nothing was published to review")]
    ensures publishes ==> PublishPlan(Published) + DriveRest(publishes) == PublishPlan(Published)
  {
    hide PublishPlan;
  }

  /** What follows the agent stages of a task whose work is not published. */
  function DriveRest(publishes: bool): seq<Kind> {
    if publishes then []
    else [Note("publishing.skipped"), StageMove(Publishing, AwaitingReview)] + [StageMove(AwaitingReview, Completed)]
  }

  lemma Regroup(k: Kind, l: Kind, m: Kind, n: Kind, a: seq<Kind>, b: seq<Kind>, c: seq<Kind>, d: seq<Kind>)
    ensures [k] + ([l] + ([m] + [n] + a + b + c)) + d == [k, l, m, n] + a + b + (c + d)
  {
  }

  // ---- following a plan

  /** The log gained the first n entries of the plan and nothing else, but perhaps the removal of a workspace. */
  ghost predicate FollowsTo(before: seq<Kind>, now: seq<Kind>, plan: seq<Kind>, n: nat, cleaned: bool)
    requires n <= |plan|
  {
    now == before + plan[..n] || (cleaned && now == before + plan[..n] + [CLEANED])
  }

  ghost predicate Follows(before: seq<Kind>, now: seq<Kind>, plan: seq<Kind>, cleaned: bool) {
    exists n: nat :: n <= |plan| && FollowsTo(before, now, plan, n, cleaned)
  }

  /** The log gained the whole plan, or all of it but a workspace's removal that was spared at its end. */
  ghost predicate Carried(before: seq<Kind>, now: seq<Kind>, plan: seq<Kind>, spared: bool) {
    || now == before + plan
    || (spared && plan != [] && plan[|plan| - 1] == CLEANED && now == before + plan[..|plan| - 1])
  }

  lemma FollowsNone(before: seq<Kind>, plan: seq<Kind>, cleaned: bool)
    ensures Follows(before, before, plan, cleaned)
  {
    assert before + plan[..0] == before;
    assert FollowsTo(before, before, plan, 0, cleaned);
  }

  lemma FollowsLonger(before: seq<Kind>, now: seq<Kind>, plan: seq<Kind>, rest: seq<Kind>, cleaned: bool)
    requires Follows(before, now, plan, cleaned)
    ensures Follows(before, now, plan + rest, cleaned)
  {
    var n: nat :| n <= |plan| && FollowsTo(before, now, plan, n, cleaned);
    assert (plan + rest)[..n] == plan[..n];
    assert FollowsTo(before, now, plan + rest, n, cleaned);
  }

  lemma FollowsThen(before: seq<Kind>, now: seq<Kind>, plan: seq<Kind>, rest: seq<Kind>, cleaned: bool)
    requires Follows(before + plan, now, rest, cleaned)
    ensures Follows(before, now, plan + rest, cleaned)
  {
    var n: nat :| n <= |rest| && FollowsTo(before + plan, now, rest, n, cleaned);
    assert (plan + rest)[..|plan| + n] == plan + rest[..n];
    assert before + plan + rest[..n] == before + (plan + rest[..n]);
    assert FollowsTo(before, now, plan + rest, |plan| + n, cleaned);
  }

  /** Whoever stopped behind a part of the plan follows it. */
  lemma FollowsPart(before: seq<Kind>, plan: seq<Kind>, rest: seq<Kind>, cleaned: bool)
    ensures Follows(before, before + plan, plan + rest, cleaned)
  {
    FollowsNone(before + plan, rest, cleaned);
    FollowsThen(before, before + plan, plan, rest, cleaned);
  }

  lemma FollowsPrefix(before: seq<Kind>, part: seq<Kind>, plan: seq<Kind>, cleaned: bool)
    requires part <= plan
    ensures Follows(before, before + part, plan, cleaned)
  {
    assert FollowsTo(before, before + part, plan, |part|, cleaned);
  }

  lemma FollowsLoose(before: seq<Kind>, now: seq<Kind>, plan: seq<Kind>, cleaned: bool)
    requires Follows(before, now, plan, false)
    ensures Follows(before, now, plan, cleaned)
  {
    var n: nat :| n <= |plan| && FollowsTo(before, now, plan, n, false);
    assert FollowsTo(before, now, plan, n, cleaned);
  }

  // ---- the agent stages, part by part

  lemma AgentPlanEntered(before: seq<Kind>, now: seq<Kind>, fate: Fate, entered: Status)
    requires Follows(before, now, ReadyPlan(entered), false)
    ensures Follows(before, now, AgentPlan(fate, entered), false)
  {
    hide Follows, ReadyPlan, SessionPlan, AfterSession, AgentEndPlan;
    var working := if entered == Provisioning then Planning else entered;
    var rest := SessionPlan(fate.session, working) + AgentEndPlan(fate, AfterSession(fate.session, working));
    assert AgentPlan(fate, entered) == ReadyPlan(entered) + rest;
    FollowsLonger(before, now, ReadyPlan(entered), rest, false);
  }

  lemma AgentPlanSession(before: seq<Kind>, ready: seq<Kind>, now: seq<Kind>, fate: Fate, entered: Status)
    requires var working := if entered == Provisioning then Planning else entered;
             ready == before + ReadyPlan(entered) && Follows(ready, now, SessionPlan(fate.session, working), false)
    ensures Follows(before, now, AgentPlan(fate, entered), false)
  {
    hide Follows, ReadyPlan, SessionPlan, AfterSession, AgentEndPlan;
    var working := if entered == Provisioning then Planning else entered;
    var session := SessionPlan(fate.session, working);
    FollowsThen(before, now, ReadyPlan(entered), session, false);
    FollowsLonger(before, now, ReadyPlan(entered) + session,
                  AgentEndPlan(fate, AfterSession(fate.session, working)), false);
  }

  lemma AgentPlanEnded(before: seq<Kind>, ready: seq<Kind>, ended: seq<Kind>, now: seq<Kind>,
                       fate: Fate, entered: Status)
    requires var working := if entered == Provisioning then Planning else entered;
             && ready == before + ReadyPlan(entered) && ended == ready + SessionPlan(fate.session, working)
             && Follows(ended, now, AgentEndPlan(fate, AfterSession(fate.session, working)), false)
    ensures Follows(before, now, AgentPlan(fate, entered), false)
    ensures var working := if entered == Provisioning then Planning else entered;
            ended + AgentEndPlan(fate, AfterSession(fate.session, working)) == before + AgentPlan(fate, entered)
  {
    hide Follows, ReadyPlan, SessionPlan, AfterSession, AgentEndPlan;
    var working := if entered == Provisioning then Planning else entered;
    var worked := ReadyPlan(entered) + SessionPlan(fate.session, working);
    assert ended == before + worked;
    FollowsThen(before, now, worked, AgentEndPlan(fate, AfterSession(fate.session, working)), false);
  }

  lemma PublishStops(before: seq<Kind>, now: seq<Kind>, publishing: Publishing)
    requires Follows(before, now, Notes(PublishingEvents(publishing)), false)
    ensures Follows(before, now, PublishPlan(publishing), false)
  {
    hide Follows, Notes, PublishingEvents;
    var events, plan := Notes(PublishingEvents(publishing)), PublishPlan(publishing);
    FollowsLonger(before, now, events, plan[|events|..], false);
    assert plan == events + plan[|events|..];
  }

  /** Where a publishing that succeeded leaves the log before and after the workspace is removed. */
  lemma PublishSucceeds(before: seq<Kind>)
    ensures var events, plan := Notes(PublishingEvents(Published)), PublishPlan(Published);
            var done := before + events;
            && Follows(before, done, plan, false) && Follows(before, done + [CLEANED], plan, false)
            && done + [CLEANED] + [StageMove(Publishing, AwaitingReview)] == before + plan
            && Follows(before, before + plan, plan, false)
  {
    hide Follows, Notes, PublishingEvents, StageMove;
    var events, plan := Notes(PublishingEvents(Published)), PublishPlan(Published);
    FollowsPrefix(before, events, plan, false);
    FollowsPrefix(before, events + [CLEANED], plan, false);
    FollowsPrefix(before, plan, plan, false);
    assert before + events + [CLEANED] == before + (events + [CLEANED]);
  }

  /** Where one that failed its attempt leaves the log, with the workspace removed or spared. */
  lemma PublishFails(before: seq<Kind>, publishing: Publishing, spared: bool)
    requires !publishing.Published?
    ensures var plan, failed := PublishPlan(publishing),
                                before + Notes(PublishingEvents(publishing)) + [Failure(Publishing)];
            && failed + [CLEANED] == before + plan
            && Follows(before, failed, plan, false) && Follows(before, failed + [CLEANED], plan, false)
            && (spared ==> Carried(before, failed, plan, spared))
            && Carried(before, failed + [CLEANED], plan, spared)
  {
    hide Notes, PublishingEvents, Follows;
    var events, plan := Notes(PublishingEvents(publishing)), PublishPlan(publishing);
    assert plan[..|plan| - 1] == events + [Failure(Publishing)];
    assert before + events + [Failure(Publishing)] == before + plan[..|plan| - 1];
    assert before + events + [Failure(Publishing)] + [CLEANED] == before + plan;
    FollowsPrefix(before, events + [Failure(Publishing)], plan, false);
    FollowsPrefix(before, plan, plan, false);
  }

  lemma FollowsCleaned(before: seq<Kind>, now: seq<Kind>, plan: seq<Kind>)
    requires Follows(before, now, plan, false)
    ensures Follows(before, now, plan, true) && Follows(before, now + [CLEANED], plan, true)
  {
    var n: nat :| n <= |plan| && FollowsTo(before, now, plan, n, false);
    assert FollowsTo(before, now, plan, n, true) && FollowsTo(before, now + [CLEANED], plan, n, true);
  }

  lemma CarriedFollows(before: seq<Kind>, now: seq<Kind>, plan: seq<Kind>, spared: bool, cleaned: bool)
    requires Carried(before, now, plan, spared)
    ensures Follows(before, now, plan, cleaned)
  {
    assert plan[..|plan|] == plan;
    var n := if now == before + plan then |plan| else |plan| - 1;
    assert FollowsTo(before, now, plan, n, cleaned);
  }

  lemma CarriedWhole(before: seq<Kind>, plan: seq<Kind>, spared: bool)
    ensures Carried(before, before + plan, plan, spared)
  {
  }

  lemma CarriedThen(before: seq<Kind>, now: seq<Kind>, plan: seq<Kind>, rest: seq<Kind>, spared: bool)
    requires Carried(before + plan, now, rest, spared)
    ensures Carried(before, now, plan + rest, spared)
  {
    assert before + plan + rest == before + (plan + rest);
    if now != before + (plan + rest) {
      var n := |rest| - 1;
      assert (plan + rest)[..|plan| + n] == plan + rest[..n];
      assert before + plan + rest[..n] == before + (plan + rest[..n]);
    }
  }

  lemma {:induction false} SessionPlanGrows(session: seq<bool>, entered: Status, k: nat)
    requires k <= |session|
    ensures SessionPlan(session[..k], entered) <= SessionPlan(session, entered)
  {
    if k == |session| {
      assert session[..k] == session;
    } else {
      var n := |session| - 1;
      SessionPlanGrows(session[..n], entered, k);
      assert session[..n][..k] == session[..k];
    }
  }

  lemma SessionStarts(before: seq<Kind>, session: seq<bool>, entered: Status)
    ensures before + SessionPlan(session[..0], entered) == before && AfterSession(session[..0], entered) == entered
  {
  }

  /** What the k-th agent event adds is the next part of the session's plan. */
  lemma SessionPlanStep(before: seq<Kind>, now: seq<Kind>, later: seq<Kind>,
                        session: seq<bool>, entered: Status, k: nat)
    requires k < |session| && now == before + SessionPlan(session[..k], entered)
    requires Follows(now, later, EventPlan(AfterSession(session[..k], entered), session[k]), false)
    ensures Follows(before, later, SessionPlan(session, entered), false)
    ensures before + SessionPlan(session[..k + 1], entered)
            == now + EventPlan(AfterSession(session[..k], entered), session[k])
    ensures AfterSession(session[..k + 1], entered) ==
            if session[k] && AfterSession(session[..k], entered) == Planning then Executing
            else AfterSession(session[..k], entered)
  {
    hide Follows, SessionPlan, AfterSession, EventPlan;
    var part := EventPlan(AfterSession(session[..k], entered), session[k]);
    SessionPlanNext(session, entered, k);
    SessionPlanGrows(session, entered, k + 1);
    FollowsThen(before, later, SessionPlan(session[..k], entered), part, false);
    var done, plan := SessionPlan(session[..k + 1], entered), SessionPlan(session, entered);
    FollowsLonger(before, later, done, plan[|done|..], false);
    assert plan == done + plan[|done|..];
  }

  lemma SessionPlanNext(session: seq<bool>, entered: Status, k: nat)
    requires k < |session|
    ensures SessionPlan(session[..k + 1], entered)
            == SessionPlan(session[..k], entered) + EventPlan(AfterSession(session[..k], entered), session[k])
    ensures AfterSession(session[..k + 1], entered) ==
            if session[k] && AfterSession(session[..k], entered) == Planning then Executing
            else AfterSession(session[..k], entered)
  {
    hide StageMove;
    assert session[..k + 1] == session[..k] + [session[k]] && session[..k + 1][..k] == session[..k];
  }

  /** What a drive recorded, and perhaps the timeout that ended it. */
  ghost predicate DrivenTo(before: seq<Kind>, driven: seq<Kind>, now: seq<Kind>, plan: seq<Kind>, cleaned: bool,
                           from: Status, timedOut: bool)
  {
    Follows(before, driven, plan, cleaned) && now == if timedOut then driven + [Moved(from, TimedOut, "")] else driven
  }

  ghost predicate Driven(before: seq<Kind>, now: seq<Kind>, plan: seq<Kind>, cleaned: bool, timedOut: bool) {
    exists driven: seq<Kind>, from: Status :: DrivenTo(before, driven, now, plan, cleaned, from, timedOut)
  }

  lemma DriveEnds(before: seq<Kind>, driven: seq<Kind>, plan: seq<Kind>, cleaned: bool, from: Status)
    requires Follows(before, driven, plan, cleaned)
    ensures Driven(before, driven, plan, cleaned, false)
    ensures Driven(before, driven + [Moved(from, TimedOut, "")], plan, cleaned, true)
  {
    hide Follows;
    assert DrivenTo(before, driven, driven, plan, cleaned, from, false);
    assert DrivenTo(before, driven, driven + [Moved(from, TimedOut, "")], plan, cleaned, from, true);
  }

  // ---- the other stages, part by part

  lemma RunPlanStarts(before: seq<Kind>, fate: Fate, publishes: bool, entered: Status)
    ensures Follows(before, before, RunPlan(fate, publishes, entered), !publishes)
  {
    FollowsNone(before, RunPlan(fate, publishes, entered), !publishes);
  }

  lemma RunPlanFails(before: seq<Kind>, started: seq<Kind>, now: seq<Kind>, fate: Fate, publishes: bool,
                     entered: Status, spared: bool)
    requires !fate.workspaceOk && started == before + [Note("workspace.provisioning")]
    requires Follows(started, now, [Failure(entered)], false)
    ensures Follows(before, now, RunPlan(fate, publishes, entered), !publishes)
    ensures started + [Failure(entered)] == before + RunPlan(fate, publishes, entered)
    ensures now == started + [Failure(entered)] ==> Carried(before, now, RunPlan(fate, publishes, entered), spared)
  {
    hide Follows;
    var plan := RunPlan(fate, publishes, entered);
    assert plan == [Note("workspace.provisioning")] + [Failure(entered)];
    FollowsThen(before, now, [Note("workspace.provisioning")], [Failure(entered)], false);
    FollowsLoose(before, now, plan, !publishes);
    assert started + [Failure(entered)] == before + plan;
  }

  /** Behind the agent stages of an attempt that does not go on to publish. */
  lemma RunPlanWorks(before: seq<Kind>, started: seq<Kind>, worked: seq<Kind>, now: seq<Kind>,
                     fate: Fate, publishes: bool, entered: Status, spared: bool)
    requires fate.workspaceOk && started == before + [Note("workspace.provisioning")]
    requires Follows(started, worked, AgentPlan(fate, entered), false)
    requires now == worked || now == worked + [CLEANED]
    requires publishes && now != worked ==> !fate.agentOk && worked == started + AgentPlan(fate, entered)
    ensures Follows(before, now, RunPlan(fate, publishes, entered), !publishes)
    ensures worked == started + AgentPlan(fate, entered) && !(publishes && fate.agentOk) ==>
              && (spared || now != worked ==> Carried(before, now, RunPlan(fate, publishes, entered), spared))
              && (now == worked + [CLEANED] ==> now == before + RunPlan(fate, publishes, entered))
  {
    hide Follows, AgentPlan, PublishPlan;
    var first, agent := [Note("workspace.provisioning")], AgentPlan(fate, entered);
    var plan := RunPlan(fate, publishes, entered);
    var end := if publishes && fate.agentOk then PublishPlan(fate.publishing) else [CLEANED];
    assert plan == first + agent + end;
    FollowsThen(before, worked, first, agent, false);
    FollowsLonger(before, worked, first + agent, end, false);
    FollowsCleaned(before, worked, plan);
    FollowsLoose(before, worked, plan, !publishes);
    if worked == started + agent && !(publishes && fate.agentOk) {
      assert plan[..|plan| - 1] == first + agent && worked == before + (first + agent);
      assert worked + [CLEANED] == before + plan;
      FollowsPrefix(before, plan, plan, !publishes);
    }
  }

  /** Behind the publishing of the agent's work. */
  lemma RunPlanPublishes(before: seq<Kind>, worked: seq<Kind>, now: seq<Kind>, fate: Fate, entered: Status,
                         spared: bool)
    requires fate.workspaceOk && fate.agentOk
    requires worked == before + [Note("workspace.provisioning")] + AgentPlan(fate, entered)
    requires Follows(worked, now, PublishPlan(fate.publishing), false)
    ensures Follows(before, now, RunPlan(fate, true, entered), false)
    ensures worked + PublishPlan(fate.publishing) == before + RunPlan(fate, true, entered)
    ensures Carried(worked, now, PublishPlan(fate.publishing), spared) ==>
              Carried(before, now, RunPlan(fate, true, entered), spared)
  {
    hide Follows, Carried, AgentPlan, PublishPlan;
    var done := [Note("workspace.provisioning")] + AgentPlan(fate, entered);
    var end := PublishPlan(fate.publishing);
    assert RunPlan(fate, true, entered) == done + end;
    assert worked == before + done;
    FollowsThen(before, now, done, end, false);
    if Carried(worked, now, end, spared) {
      CarriedThen(before, now, done, end, spared);
    }
  }

  /** Where a drive that is not queued may begin and end. */
  lemma ReachPlanFrom(before: seq<Kind>, fate: Fate, publishes: bool, claimed: Status)
    requires claimed != Queued
    ensures Follows(before, before, ReachPlan(fate, publishes, claimed), !publishes)
    ensures ReachPlan(fate, publishes, claimed) ==
            if publishes && fate.target.Unavailable? then [Failure(claimed)]
            else if publishes && fate.target.Unresolved? then []
            else if claimed in {Provisioning, Planning, Executing} then RunPlan(fate, publishes, claimed)
            else if claimed == Validating then LostValidationPlan() else []
    ensures before + [] == before
  {
    hide RunPlan, LostValidationPlan;
    FollowsNone(before, ReachPlan(fate, publishes, claimed), !publishes);
  }

  lemma ReachPlanSplits(before: seq<Kind>, queued: seq<Kind>, now: seq<Kind>, fate: Fate, publishes: bool,
                        claimed: Status, spared: bool)
    requires queued == if claimed == Queued then before + [StageMove(Queued, Provisioning)] else before
    requires var status := if claimed == Queued then Provisioning else claimed;
             Follows(queued, now, ReachPlan(fate, publishes, status), !publishes)
    ensures var status := if claimed == Queued then Provisioning else claimed;
            && Follows(before, now, ReachPlan(fate, publishes, claimed), !publishes)
            && Reached(fate, publishes, claimed) == Reached(fate, publishes, status)
            && queued + ReachPlan(fate, publishes, status) == before + ReachPlan(fate, publishes, claimed)
            && (Carried(queued, now, ReachPlan(fate, publishes, status), spared) ==>
                  Carried(before, now, ReachPlan(fate, publishes, claimed), spared))
  {
    hide Follows, Carried, ReachPlan, Reached, StageMove;
    if claimed == Queued {
      var rest := ReachPlan(fate, publishes, Provisioning);
      ReachPlanQueued(fate, publishes);
      FollowsThen(before, now, [StageMove(Queued, Provisioning)], rest, !publishes);
      if Carried(queued, now, rest, spared) {
        CarriedThen(before, now, [StageMove(Queued, Provisioning)], rest, spared);
      }
      assert queued + rest == before + ReachPlan(fate, publishes, Queued);
    }
  }

  lemma ReachPlanQueued(fate: Fate, publishes: bool)
    ensures ReachPlan(fate, publishes, Queued)
            == [StageMove(Queued, Provisioning)] + ReachPlan(fate, publishes, Provisioning)
    ensures Reached(fate, publishes, Queued) == Reached(fate, publishes, Provisioning)
  {
    hide RunPlan, StageMove;
  }

  lemma ReviewPlanReaches(before: seq<Kind>, now: seq<Kind>, fate: Fate, publishes: bool, claimed: Status)
    requires Follows(before, now, ReachPlan(fate, publishes, claimed), !publishes)
    ensures Follows(before, now, ReviewPlan(fate, publishes, claimed), !publishes)
    ensures Reached(fate, publishes, claimed) != Some(Publishing) ==>
              ReviewPlan(fate, publishes, claimed) == ReachPlan(fate, publishes, claimed)
  {
    hide Follows, ReachPlan, FinishPlan, Reached;
    FollowsLonger(before, now, ReachPlan(fate, publishes, claimed),
                  if Reached(fate, publishes, claimed) == Some(Publishing) then FinishPlan(fate, publishes) else [],
                  !publishes);
  }

  lemma ReviewPlanFinishes(before: seq<Kind>, reached: seq<Kind>, now: seq<Kind>, fate: Fate, publishes: bool,
                           claimed: Status, spared: bool)
    requires Reached(fate, publishes, claimed) == Some(Publishing)
    requires reached == before + ReachPlan(fate, publishes, claimed)
    requires Follows(reached, now, FinishPlan(fate, publishes), false)
    ensures Follows(before, now, ReviewPlan(fate, publishes, claimed), !publishes)
    ensures reached + FinishPlan(fate, publishes) == before + ReviewPlan(fate, publishes, claimed)
    ensures Carried(reached, now, FinishPlan(fate, publishes), spared) ==>
              Carried(before, now, ReviewPlan(fate, publishes, claimed), spared)
  {
    hide Follows, Carried, ReachPlan, FinishPlan, Reached;
    var reach, finish := ReachPlan(fate, publishes, claimed), FinishPlan(fate, publishes);
    FollowsLoose(reached, now, finish, !publishes);
    FollowsThen(before, now, reach, finish, !publishes);
    if Carried(reached, now, finish, spared) {
      CarriedThen(before, now, reach, finish, spared);
    }
  }

  /** Behind review only the completion of a task that is not published is left. */
  lemma DrivePlanReviewed(before: seq<Kind>, now: seq<Kind>, fate: Fate, publishes: bool, claimed: Status)
    requires Follows(before, now, ReviewPlan(fate, publishes, claimed), !publishes)
    ensures Follows(before, now, DrivePlan(fate, publishes, claimed), !publishes)
    ensures publishes || Reached(fate, publishes, claimed).None? ==>
              DrivePlan(fate, publishes, claimed) == ReviewPlan(fate, publishes, claimed)
    ensures !publishes && Reached(fate, publishes, claimed).Some?
            && now == before + ReviewPlan(fate, publishes, claimed) ==>
              var later := now + [StageMove(AwaitingReview, Completed)];
              later == before + DrivePlan(fate, publishes, claimed) &&
              Follows(before, later, DrivePlan(fate, publishes, claimed), !publishes)
  {
    hide Follows, ReviewPlan, Reached;
    var review, plan := ReviewPlan(fate, publishes, claimed), DrivePlan(fate, publishes, claimed);
    FollowsLonger(before, now, review, plan[|review|..], !publishes);
    assert plan == review + plan[|review|..];
    FollowsPrefix(before, plan, plan, !publishes);
    assert before + review + [StageMove(AwaitingReview, Completed)] ==
           before + (review + [StageMove(AwaitingReview, Completed)]);
  }
}
