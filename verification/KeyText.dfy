/** The texts of idempotency keys; equal texts mean equal keys, so comparing keys as values loses nothing. */
module KeyText {
  import opened Lifecycle
  import opened Records
  import opened Decimal

  function StatusName(s: Status): string {
    match s
    case Created => "created"
    case Queued => "queued"
    case Provisioning => "provisioning"
    case Planning => "planning"
    case Executing => "executing"
    case Validating => "validating"
    case Publishing => "publishing"
    case AwaitingReview => "awaiting_review"
    case RevisionRequested => "revision_requested"
    case Completed => "completed"
    case Failed => "failed"
    case Cancelled => "cancelled"
    case TimedOut => "timed_out"
  }

  /** Attempt ids are UUIDs: 36 characters each, and no two attempts share one. */
  ghost predicate Uuids(id: nat -> string) {
    && (forall a: nat :: |id(a)| == 36)
    && (forall a: nat, b: nat :: id(a) == id(b) ==> a == b)
  }

  /** What a key says behind the attempt it belongs to. */
  function Tail(k: Key): string {
    match k
    case StageKey(_, to) => ":to:" + StatusName(to)
    case FailKey(_, code) => ":fail:" + code
    case TimeoutKey(_) => ":timeout"
    case _ => ""
  }

  predicate OfAttempt(k: Key) {
    k.StageKey? || k.FailKey? || k.TimeoutKey?
  }

  function Text(k: Key, id: nat -> string): string {
    match k
    case NoKey => ""
    case StageKey(a, _) => "attempt:" + id(a) + Tail(k)
    case FailKey(a, _) => "attempt:" + id(a) + Tail(k)
    case TimeoutKey(a) => "attempt:" + id(a) + Tail(k)
    case ReviseKey(comment) => "revise:" + Format(comment)
    case PullRequestKey(number) => "pull_request:" + Format(number) + ":closed"
  }

  lemma StatusNameInjective(a: Status, b: Status)
    requires StatusName(a) == StatusName(b)
    ensures a == b
  {
    var x, y := StatusName(a), StatusName(b);
    assert |x| == |y| && x[0] == y[0] && x[|x| - 1] == y[|y| - 1];
  }

  lemma TailInjective(j: Key, k: Key)
    requires OfAttempt(j) && OfAttempt(k) && j.attempt == k.attempt && Tail(j) == Tail(k)
    ensures j == k
  {
    var x, y := Tail(j), Tail(k);
    assert x[1] == y[1] && x[2] == y[2];
    if j.StageKey? {
      assert x[4..] == StatusName(j.to) && y[4..] == StatusName(k.to);
      StatusNameInjective(j.to, k.to);
    } else if j.FailKey? {
      assert x[6..] == j.code && y[6..] == k.code;
    }
  }

  /** Two keys have the same text only when they are the same key. */
  lemma TextInjective(j: Key, k: Key, id: nat -> string)
    requires Uuids(id) && Text(j, id) == Text(k, id)
    ensures j == k
  {
    hide StatusName, Tail, Format;
    var x, y := Text(j, id), Text(k, id);
    if OfAttempt(j) && OfAttempt(k) {
      assert x[8..44] == id(j.attempt) && y[8..44] == id(k.attempt);
      assert x[44..] == Tail(j) && y[44..] == Tail(k);
      TailInjective(j, k);
    } else if !j.NoKey? && !k.NoKey? {
      assert x[0] == y[0];
      if j.ReviseKey? {
        assert x[7..] == Format(j.comment) && y[7..] == Format(k.comment);
        FormatInjective(j.comment, k.comment);
      } else {
        assert x[13..|x| - 7] == Format(j.number) && y[13..|y| - 7] == Format(k.number);
        FormatInjective(j.number, k.number);
      }
    }
  }

  /** The texts themselves. */
  lemma KeyTexts(attempt: nat, to: Status, code: string, number: nat, id: nat -> string)
    ensures Text(StageKey(attempt, to), id) == "attempt:" + id(attempt) + (":to:" + StatusName(to))
    ensures Text(FailKey(attempt, code), id) == "attempt:" + id(attempt) + (":fail:" + code)
    ensures Text(TimeoutKey(attempt), id) == "attempt:" + id(attempt) + ":timeout"
    ensures Text(ReviseKey(number), id) == "revise:" + Format(number)
    ensures Text(PullRequestKey(number), id) == "pull_request:" + Format(number) + ":closed"
  {
    hide Format, StatusName;
  }
}
