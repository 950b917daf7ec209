/** Task statuses, their phases and the legal moves between them. */
module Lifecycle {

  datatype Status =
    | Created | Queued | Provisioning | Planning | Executing | Validating
    | Publishing | AwaitingReview | RevisionRequested
    | Completed | Failed | Cancelled | TimedOut
  {
    predicate Terminal() {
      Completed? || Failed? || Cancelled? || TimedOut?
    }

    function Phase(): Phase {
      match this
      case Created | Queued => Pending
      case Provisioning | Planning | Executing | Validating | Publishing => Running
      case AwaitingReview | RevisionRequested => Review
      case _ => Ended
    }

    /** The statuses an executor walks a single attempt through. */
    predicate Driven() {
      Provisioning? || Planning? || Executing? || Validating? || Publishing? || AwaitingReview?
    }
  }

  datatype Phase = Pending | Running | Review | Ended

  function HappyPath(from: Status): seq<Status> {
    match from
    case Created => [Queued]
    case Queued => [Provisioning]
    case Provisioning => [Planning]
    case Planning => [Executing]
    case Executing => [Validating]
    case Validating => [Publishing]
    case Publishing => [AwaitingReview]
    case AwaitingReview => [Completed, RevisionRequested]
    case RevisionRequested => [Queued, Completed]
    case _ => []
  }

  predicate CanTransition(from: Status, to: Status) {
    if from.Terminal() then false
    else if to == Cancelled then true
    else if to == Failed then from.Phase() == Running
    else if to == TimedOut then from.Phase() == Running || from == AwaitingReview
    else to in HappyPath(from)
  }

  /** Position on the happy path; the terminal statuses have none. */
  function Rank(s: Status): (r: nat)
    ensures r <= 8
  {
    match s
    case Queued => 1
    case Provisioning => 2
    case Planning => 3
    case Executing => 4
    case Validating => 5
    case Publishing => 6
    case AwaitingReview => 7
    case RevisionRequested => 8
    case _ => 0
  }

  /** Inside the non-terminal statuses the graph is one line with one loop back to the queue. */
  lemma NonTerminalMoves(from: Status, to: Status)
    requires !to.Terminal()
    ensures CanTransition(from, to) <==>
            !from.Terminal() &&
            (Rank(to) == Rank(from) + 1 || (from == RevisionRequested && to == Queued))
  {
  }

  lemma RankInjective(a: Status, b: Status)
    requires !a.Terminal() && !b.Terminal() && Rank(a) == Rank(b)
    ensures a == b
  {
  }
}
