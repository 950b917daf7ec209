/** Publishing an attempt to GitHub: a pull request per branch and a check run per commit and attempt. */
module Publish {
  import opened Records

  const CHECK_NAME := "Agent Trail Task"
  const PAGE := 100

  datatype PullRequest = PullRequest(number: nat, head: string, body: string)

  datatype CheckRun = CheckRun(id: nat, sha: string, name: string, externalId: nat, conclusion: string)

  datatype CheckRunParams = CheckRunParams(sha: string, name: string, externalId: nat, conclusion: string)

  // ---- the conclusion

  datatype Check = Check(trusted: bool, status: string)

  predicate AnyFailed(checks: seq<Check>) {
    exists c <- checks :: c.trusted && c.status == "failed"
  }

  predicate AllPassed(checks: seq<Check>) {
    (exists c <- checks :: c.trusted) && forall c <- checks :: c.trusted ==> c.status == "passed"
  }

  function Conclusion(checks: seq<Check>): string {
    if AnyFailed(checks) then "failure" else if AllPassed(checks) then "success" else "neutral"
  }

  /** One scan that stops at the first failed trusted check; untrusted checks never matter. */
  method CheckConclusion(checks: seq<Check>) returns (conclusion: string)
    ensures conclusion == "failure" <==> AnyFailed(checks)
    ensures conclusion == "success" <==> AllPassed(checks)
    ensures conclusion == Conclusion(checks)
  {
    var sawTrusted := false;
    conclusion := "success";
    for k := 0 to |checks|
      invariant conclusion == "success" || conclusion == "neutral"
      invariant sawTrusted <==> exists i | 0 <= i < k :: checks[i].trusted
      invariant conclusion == "success" <==> forall i | 0 <= i < k :: checks[i].trusted ==> checks[i].status == "passed"
      invariant forall i | 0 <= i < k :: checks[i].trusted ==> checks[i].status != "failed"
    {
      if checks[k].trusted {
        sawTrusted := true;
        if checks[k].status == "failed" {
          return "failure";
        }
        if checks[k].status != "passed" {
          conclusion := "neutral";
        }
      }
    }
    if !sawTrusted {
      return "neutral";
    }
  }

  // ---- the service

  /** The newest pull request from this branch, in any state. */
  function PullIndex(pulls: seq<PullRequest>, head: string): (r: Option<nat>)
    ensures r.Some? ==> r.value < |pulls| && pulls[r.value].head == head
    ensures r.Some? ==> forall j | r.value < j < |pulls| :: pulls[j].head != head
    ensures r.None? ==> forall p <- pulls :: p.head != head
  {
    if pulls == [] then None
    else if pulls[|pulls| - 1].head == head then Some(|pulls| - 1)
    else PullIndex(pulls[..|pulls| - 1], head)
  }

  function UpsertPull(pulls: seq<PullRequest>, head: string, body: string): seq<PullRequest> {
    match PullIndex(pulls, head)
    case None => pulls + [PullRequest(|pulls| + 1, head, body)]
    case Some(i) => pulls[i := pulls[i].(body := body)]
  }

  /** Every check run of this name on this commit. */
  function Listed(runs: seq<CheckRun>, sha: string, name: string): seq<CheckRun> {
    if runs == [] then []
    else Listed(runs[..|runs| - 1], sha, name) +
         if runs[|runs| - 1].sha == sha && runs[|runs| - 1].name == name then [runs[|runs| - 1]] else []
  }

  /**
   * What the client's one request may return: a page of the listing in whatever order the service chooses,
   * complete when the listing fits on it.
   */
  ghost predicate IsPage(runs: seq<CheckRun>, sha: string, name: string, page: seq<CheckRun>) {
    var all := Listed(runs, sha, name);
    && |page| == (if |all| <= PAGE then |all| else PAGE)
    && (forall r <- page :: r in all)
    && (forall i, j | 0 <= i < j < |page| :: page[i].id != page[j].id)
    && (|all| <= PAGE ==> forall r <- all :: r in page)
  }

  function Matching(runs: seq<CheckRun>, externalId: nat): (found: Option<CheckRun>)
    ensures found.Some? ==> found.value in runs && found.value.externalId == externalId
    ensures found.None? ==> forall r <- runs :: r.externalId != externalId
  {
    if runs == [] then None
    else if runs[0].externalId == externalId then Some(runs[0])
    else Matching(runs[1..], externalId)
  }

  predicate Same(r: CheckRun, p: CheckRunParams) {
    r.sha == p.sha && r.name == p.name && r.externalId == p.externalId
  }

  function RunOf(id: nat, p: CheckRunParams): CheckRun {
    CheckRun(id, p.sha, p.name, p.externalId, p.conclusion)
  }

  /** Where this attempt's run on this commit is, or would go. */
  function Slot(runs: seq<CheckRun>, p: CheckRunParams): (i: nat)
    ensures i <= |runs| && (i < |runs| ==> Same(runs[i], p)) && forall j | 0 <= j < i :: !Same(runs[j], p)
  {
    if runs == [] then 0
    else
      var i := Slot(runs[..|runs| - 1], p);
      if i < |runs| - 1 || Same(runs[|runs| - 1], p) then i else |runs|
  }

  /** What an upsert means when every run can be seen. */
  function UpsertRun(runs: seq<CheckRun>, p: CheckRunParams): seq<CheckRun> {
    var i := Slot(runs, p);
    if i == |runs| then runs + [RunOf(i, p)] else runs[i := RunOf(i, p)]
  }

  /** What it does with the page it got. */
  function UpsertSeen(runs: seq<CheckRun>, page: seq<CheckRun>, p: CheckRunParams): seq<CheckRun> {
    match Matching(page, p.externalId)
    case Some(r) => if r.id < |runs| then runs[r.id := RunOf(r.id, p)] else runs
    case None => runs + [RunOf(|runs|, p)]
  }

  /** One upsert, with some page of the listing. */
  ghost predicate Upserts(runs: seq<CheckRun>, p: CheckRunParams, after: seq<CheckRun>) {
    exists page :: IsPage(runs, p.sha, p.name, page) && after == UpsertSeen(runs, page, p)
  }

  class Forge {
    var pulls: seq<PullRequest>
    var runs: seq<CheckRun>

    constructor ()
      ensures pulls == [] && runs == []
    {
      pulls, runs := [], [];
    }

    method FindPullRequestByHead(head: string) returns (found: Option<PullRequest>)
      ensures match PullIndex(pulls, head)
              case None => found == None
              case Some(i) => found == Some(pulls[i])
    {
      var i := |pulls|;
      assert pulls[..i] == pulls;
      while i > 0
        invariant 0 <= i <= |pulls|
        invariant PullIndex(pulls, head) == PullIndex(pulls[..i], head)
      {
        i := i - 1;
        if pulls[i].head == head {
          return Some(pulls[i]);
        }
        assert pulls[..i + 1][..i] == pulls[..i];
      }
      return None;
    }

    method CreatePullRequest(head: string, body: string) returns (created: PullRequest)
      modifies `pulls
      ensures created == PullRequest(old(|pulls|) + 1, head, body) && pulls == old(pulls) + [created]
    {
      created := PullRequest(|pulls| + 1, head, body);
      pulls := pulls + [created];
    }

    method UpdatePullRequestBody(number: nat, body: string)
      requires 1 <= number <= |pulls|
      modifies `pulls
      ensures pulls == old(pulls)[number - 1 := old(pulls)[number - 1].(body := body)]
    {
      pulls := pulls[number - 1 := pulls[number - 1].(body := body)];
    }

    /** Which page is the service's business. */
    method ListCheckRuns(sha: string, name: string) returns (page: seq<CheckRun>)
      requires IdentifiedRuns(runs)
      ensures IsPage(runs, sha, name, page)
    {
      page := Listed(runs, sha, name);
      ListedDistinct(runs, sha, name);
      if |page| > PAGE {
        page := page[..PAGE];
      }
    }

    method CreateCheckRun(p: CheckRunParams) returns (id: nat)
      modifies `runs
      ensures id == old(|runs|) && runs == old(runs) + [RunOf(id, p)]
    {
      id := |runs|;
      runs := runs + [RunOf(id, p)];
    }

    method UpdateCheckRun(id: nat, p: CheckRunParams)
      requires id < |runs|
      modifies `runs
      ensures runs == old(runs)[id := RunOf(id, p)]
    {
      runs := runs[id := RunOf(id, p)];
    }
  }

  /** There is a run of this commit, name and attempt with this conclusion. */
  ghost predicate RunStored(runs: seq<CheckRun>, sha: string, name: string, externalId: nat, conclusion: string) {
    exists r <- runs ::
      r.sha == sha && r.name == name && r.externalId == externalId && r.conclusion == conclusion
  }

  ghost predicate NumberedPulls(pulls: seq<PullRequest>) {
    forall i | 0 <= i < |pulls| :: pulls[i].number == i + 1
  }

  ghost predicate IdentifiedRuns(runs: seq<CheckRun>) {
    forall i | 0 <= i < |runs| :: runs[i].id == i
  }

  ghost predicate OnePullPerHead(pulls: seq<PullRequest>) {
    forall i, j | 0 <= i < j < |pulls| :: pulls[i].head != pulls[j].head
  }

  ghost predicate SameRun(runs: seq<CheckRun>, i: nat, j: nat)
    requires i < |runs| && j < |runs|
  {
    runs[i].sha == runs[j].sha && runs[i].name == runs[j].name && runs[i].externalId == runs[j].externalId
  }

  ghost predicate OneRunPerAttempt(runs: seq<CheckRun>) {
    forall i: nat, j: nat | i < j < |runs| :: !SameRun(runs, i, j)
  }

  // ---- what an upsert keeps

  lemma {:induction false} PullIndexStays(pulls: seq<PullRequest>, i: nat, head: string, body: string)
    requires i < |pulls|
    ensures PullIndex(pulls[i := pulls[i].(body := body)], head) == PullIndex(pulls, head)
  {
    var changed := pulls[i := pulls[i].(body := body)];
    var n := |pulls| - 1;
    if i < n {
      PullIndexStays(pulls[..n], i, head, body);
      assert changed[..n] == pulls[..n][i := pulls[i].(body := body)];
    } else {
      assert changed[..n] == pulls[..n];
    }
  }

  /** A second publish of a branch leaves what it alone would have left. */
  lemma UpsertPullReplay(pulls: seq<PullRequest>, head: string, body: string, later: string)
    ensures UpsertPull(UpsertPull(pulls, head, body), head, later) == UpsertPull(pulls, head, later)
  {
    match PullIndex(pulls, head)
    case None =>
    case Some(i) => PullIndexStays(pulls, i, head, body);
  }

  /** The branch has exactly one pull request afterwards, with the new body; no other one is touched. */
  lemma UpsertPullUnique(pulls: seq<PullRequest>, head: string, body: string)
    requires OnePullPerHead(pulls) && NumberedPulls(pulls)
    ensures var after := UpsertPull(pulls, head, body);
            && OnePullPerHead(after) && NumberedPulls(after)
            && (exists i :: 0 <= i < |after| && after[i] == PullRequest(i + 1, head, body))
            && (forall i | 0 <= i < |pulls| :: pulls[i].head != head ==> after[i] == pulls[i])
  {
    var after := UpsertPull(pulls, head, body);
    match PullIndex(pulls, head)
    case None => assert after[|pulls|] == PullRequest(|pulls| + 1, head, body);
    case Some(i) => assert after[i] == PullRequest(i + 1, head, body);
  }

  /**
   * The commit has exactly one run of this name and attempt afterwards, with the conclusion it was given; no
   * other run is touched.
   */
  lemma UpsertRunUnique(runs: seq<CheckRun>, p: CheckRunParams)
    requires OneRunPerAttempt(runs) && IdentifiedRuns(runs)
    ensures var after := UpsertRun(runs, p);
            && OneRunPerAttempt(after) && IdentifiedRuns(after)
            && RunStored(after, p.sha, p.name, p.externalId, p.conclusion)
            && (exists i :: 0 <= i < |after| && after[i].sha == p.sha && after[i].name == p.name
                            && after[i].externalId == p.externalId && after[i].conclusion == p.conclusion)
            && (forall i | 0 <= i < |runs| ::
                  (runs[i].sha == p.sha && runs[i].name == p.name && runs[i].externalId == p.externalId)
                  || after[i] == runs[i])
  {
    hide Slot;
    var after, at := UpsertRun(runs, p), Slot(runs, p);
    assert after[at] == CheckRun(at, p.sha, p.name, p.externalId, p.conclusion);
    forall i: nat, j: nat | i < j < |after|
      ensures !SameRun(after, i, j)
    {
      if j < |runs| {
        assert !SameRun(runs, i, j);
      }
    }
  }

  /** The same of an upsert that has only seen a page; what it adds may be a second run of the attempt. */
  lemma UpsertStored(runs: seq<CheckRun>, p: CheckRunParams, after: seq<CheckRun>)
    requires IdentifiedRuns(runs) && Upserts(runs, p, after)
    ensures RunStored(after, p.sha, p.name, p.externalId, p.conclusion)
    ensures |runs| <= |after| <= |runs| + 1 && IdentifiedRuns(after)
    ensures forall i | 0 <= i < |runs| ::
              (runs[i].sha == p.sha && runs[i].name == p.name && runs[i].externalId == p.externalId)
              || after[i] == runs[i]
  {
    hide Listed;
    var page :| IsPage(runs, p.sha, p.name, page) && after == UpsertSeen(runs, page, p);
    ListedFrom(runs, p.sha, p.name);
    var at := match Matching(page, p.externalId) case Some(r) => r.id case None => |runs|;
    assert after[at] == CheckRun(at, p.sha, p.name, p.externalId, p.conclusion);
  }

  lemma SlotStays(runs: seq<CheckRun>, p: CheckRunParams, more: seq<CheckRun>)
    ensures Slot(UpsertRun(runs, p), p) == Slot(runs, p)
    ensures Slot(runs, p) < |runs| ==> Slot(runs + more, p) == Slot(runs, p)
  {
    hide Slot;
    var at := Slot(runs, p);
    var after := UpsertRun(runs, p);
    assert Same(after[at], p) && forall j | 0 <= j < at :: after[j] == runs[j];
    if at < |runs| {
      assert forall j | 0 <= j <= at :: (runs + more)[j] == runs[j];
    }
  }

  /** Where a run goes depends on commit, name and attempt, not on its conclusion. */
  lemma SlotOfIdentity(runs: seq<CheckRun>, p: CheckRunParams, conclusion: string)
    ensures Slot(runs, p.(conclusion := conclusion)) == Slot(runs, p)
  {
    hide Slot;
    var q := p.(conclusion := conclusion);
    assert forall r <- runs :: Same(r, p) <==> Same(r, q);
  }

  /** A second publish of the same attempt and commit leaves what it alone would have left. */
  lemma UpsertRunReplay(runs: seq<CheckRun>, p: CheckRunParams, earlier: string)
    ensures UpsertRun(UpsertRun(runs, p.(conclusion := earlier)), p) == UpsertRun(runs, p)
  {
    hide Slot;
    var q := p.(conclusion := earlier);
    SlotOfIdentity(runs, p, earlier);
    SlotStays(runs, q, []);
    SlotOfIdentity(UpsertRun(runs, q), p, earlier);
  }

  // ---- one page of the listing

  /** Once this attempt has its run, all runs of this name on this commit fit on one page. */
  predicate Room(runs: seq<CheckRun>, p: CheckRunParams) {
    |Listed(UpsertRun(runs, p), p.sha, p.name)| <= PAGE
  }

  /** The page shows this attempt's run. */
  ghost predicate Shows(runs: seq<CheckRun>, page: seq<CheckRun>, p: CheckRunParams) {
    Slot(runs, p) < |runs| && runs[Slot(runs, p)] in page
  }

  lemma {:induction false} ListedSplits(a: seq<CheckRun>, b: seq<CheckRun>, sha: string, name: string)
    ensures Listed(a + b, sha, name) == Listed(a, sha, name) + Listed(b, sha, name)
  {
    if b == [] {
      assert a + b == a;
    } else {
      ListedSplits(a, b[..|b| - 1], sha, name);
      assert (a + b)[..|a + b| - 1] == a + b[..|b| - 1];
    }
  }

  lemma {:induction false} ListedFrom(runs: seq<CheckRun>, sha: string, name: string)
    ensures forall r :: r in Listed(runs, sha, name) <==> r in runs && r.sha == sha && r.name == name
  {
    if runs != [] {
      ListedFrom(runs[..|runs| - 1], sha, name);
      assert runs == runs[..|runs| - 1] + [runs[|runs| - 1]];
    }
  }

  ghost predicate Rising(runs: seq<CheckRun>, limit: nat) {
    && (forall r <- runs :: r.id < limit)
    && (forall i, j | 0 <= i < j < |runs| :: runs[i].id < runs[j].id)
  }

  lemma {:induction false} ListedDistinct(runs: seq<CheckRun>, sha: string, name: string)
    requires IdentifiedRuns(runs)
    ensures Rising(Listed(runs, sha, name), |runs|)
  {
    if runs != [] {
      var before, last := Listed(runs[..|runs| - 1], sha, name), runs[|runs| - 1];
      ListedDistinct(runs[..|runs| - 1], sha, name);
      RisingGrows(before, |runs| - 1, last);
    }
  }

  lemma RisingGrows(runs: seq<CheckRun>, limit: nat, last: CheckRun)
    requires Rising(runs, limit) && last.id == limit
    ensures Rising(runs, limit + 1) && Rising(runs + [last], limit + 1)
  {
    assert forall i | 0 <= i < |runs| :: runs[i] in runs;
  }

  lemma ListedAtSlot(runs: seq<CheckRun>, p: CheckRunParams) returns (rest: seq<CheckRun>)
    requires Slot(runs, p) < |runs|
    ensures Listed(runs, p.sha, p.name) ==
            Listed(runs[..Slot(runs, p)], p.sha, p.name) + [runs[Slot(runs, p)]] + rest
  {
    hide Slot;
    var i := Slot(runs, p);
    ListedSplits(runs[..i], [runs[i]], p.sha, p.name);
    ListedSplits(runs[..i] + [runs[i]], runs[i + 1..], p.sha, p.name);
    assert runs == runs[..i] + [runs[i]] + runs[i + 1..];
    assert [runs[i]][..0] == [];
    rest := Listed(runs[i + 1..], p.sha, p.name);
  }

  /** A matching run on a page of this commit is this attempt's run. */
  lemma PageMatches(runs: seq<CheckRun>, page: seq<CheckRun>, p: CheckRunParams)
    requires OneRunPerAttempt(runs) && IsPage(runs, p.sha, p.name, page)
    ensures Matching(page, p.externalId) == if Shows(runs, page, p) then Some(runs[Slot(runs, p)]) else None
  {
    hide Slot, Listed;
    ListedFrom(runs, p.sha, p.name);
    var found := Matching(page, p.externalId);
    if found.Some? {
      var k: nat :| k < |runs| && runs[k] == found.value;
      assert Same(runs[k], p);
      assert SameRun(runs, Slot(runs, p), k);
    }
  }

  /** One page is enough exactly when it shows the run there is; otherwise the commit gets a second one. */
  lemma PageDecides(runs: seq<CheckRun>, page: seq<CheckRun>, p: CheckRunParams)
    requires IdentifiedRuns(runs) && OneRunPerAttempt(runs) && IsPage(runs, p.sha, p.name, page)
    ensures UpsertSeen(runs, page, p) == UpsertRun(runs, p) <==> Slot(runs, p) == |runs| || Shows(runs, page, p)
    ensures OneRunPerAttempt(UpsertSeen(runs, page, p)) <==> Slot(runs, p) == |runs| || Shows(runs, page, p)
  {
    hide Matching, Slot, IsPage;
    PageMatches(runs, page, p);
    UpsertRunUnique(runs, p);
    if Slot(runs, p) < |runs| && !Shows(runs, page, p) {
      assert SameRun(UpsertSeen(runs, page, p), Slot(runs, p), |runs|);
    }
  }

  /** When all runs of the commit fit on one page, every page shows the attempt's. */
  lemma RoomShows(runs: seq<CheckRun>, page: seq<CheckRun>, p: CheckRunParams)
    requires IsPage(runs, p.sha, p.name, page) && |Listed(runs, p.sha, p.name)| <= PAGE
    ensures Slot(runs, p) == |runs| || Shows(runs, page, p)
  {
    hide Slot, Listed;
    ListedFrom(runs, p.sha, p.name);
  }

  lemma ListedAround(a: seq<CheckRun>, r: CheckRun, b: seq<CheckRun>, sha: string, name: string)
    requires r.sha == sha && r.name == name
    ensures |Listed(a + [r] + b, sha, name)| == |Listed(a, sha, name)| + 1 + |Listed(b, sha, name)|
  {
    ListedSplits(a, [r], sha, name);
    ListedSplits(a + [r], b, sha, name);
    assert [r][..0] == [];
  }

  lemma UpsertLists(runs: seq<CheckRun>, p: CheckRunParams)
    ensures var all := Listed(runs, p.sha, p.name);
            |Listed(UpsertRun(runs, p), p.sha, p.name)| == if Slot(runs, p) == |runs| then |all| + 1 else |all|
  {
    hide Slot;
    var i := Slot(runs, p);
    var after := UpsertRun(runs, p);
    if i == |runs| {
      assert after[..|runs|] == runs;
    } else {
      hide Listed;
      ListedAround(runs[..i], runs[i], runs[i + 1..], p.sha, p.name);
      ListedAround(runs[..i], RunOf(i, p), runs[i + 1..], p.sha, p.name);
      assert runs == runs[..i] + [runs[i]] + runs[i + 1..];
      assert after == runs[..i] + [RunOf(i, p)] + runs[i + 1..];
    }
  }

  /** Room does not depend on the conclusion, and stays. */
  lemma RoomStays(runs: seq<CheckRun>, p: CheckRunParams, earlier: string)
    ensures Room(runs, p.(conclusion := earlier)) <==> Room(runs, p)
    ensures Room(UpsertRun(runs, p.(conclusion := earlier)), p) <==> Room(runs, p)
  {
    hide Slot, Listed;
    SlotOfIdentity(runs, p, earlier);
    UpsertLists(runs, p);
    UpsertLists(runs, p.(conclusion := earlier));
    UpsertRunReplay(runs, p, earlier);
  }

  /** With room on the page every upsert is the full one, whichever page the service returns. */
  lemma RoomIsEnough(runs: seq<CheckRun>, p: CheckRunParams, after: seq<CheckRun>)
    requires IdentifiedRuns(runs) && OneRunPerAttempt(runs) && Room(runs, p) && Upserts(runs, p, after)
    ensures after == UpsertRun(runs, p)
  {
    hide UpsertSeen, UpsertRun, Slot, Listed, IsPage, Shows, OneRunPerAttempt, IdentifiedRuns;
    var page :| IsPage(runs, p.sha, p.name, page) && after == UpsertSeen(runs, page, p);
    UpsertLists(runs, p);
    RoomShows(runs, page, p);
    PageDecides(runs, page, p);
  }

  /** More runs than fit on a page: some page hides this attempt's. */
  lemma SomePageHides(runs: seq<CheckRun>, p: CheckRunParams) returns (page: seq<CheckRun>)
    requires IdentifiedRuns(runs) && Slot(runs, p) < |runs| && |Listed(runs, p.sha, p.name)| > PAGE
    ensures IsPage(runs, p.sha, p.name, page) && !Shows(runs, page, p)
  {
    hide Slot, Listed;
    ListedDistinct(runs, p.sha, p.name);
    var earlier, run := Listed(runs[..Slot(runs, p)], p.sha, p.name), runs[Slot(runs, p)];
    var rest := ListedAtSlot(runs, p);
    var all := earlier + [run] + rest;
    var others := earlier + rest;
    page := others[..PAGE];
    forall i | 0 <= i < PAGE
      ensures page[i] in all && page[i].id != run.id
    {
      if i < |earlier| {
        assert all[i] == page[i] && all[|earlier|] == run;
      } else {
        assert all[i + 1] == page[i] && all[|earlier|] == run;
      }
    }
    forall i, j | 0 <= i < j < PAGE
      ensures page[i].id != page[j].id
    {
      var m, n := if i < |earlier| then i else i + 1, if j < |earlier| then j else j + 1;
      assert all[m] == page[i] && all[n] == page[j] && m < n;
    }
  }

  lemma SomePage(runs: seq<CheckRun>, sha: string, name: string) returns (page: seq<CheckRun>)
    requires IdentifiedRuns(runs)
    ensures IsPage(runs, sha, name, page)
  {
    ListedDistinct(runs, sha, name);
    var all := Listed(runs, sha, name);
    page := if |all| <= PAGE then all else all[..PAGE];
  }

  /** Two upserts in a row, with whatever pages, leave one run per attempt. */
  ghost predicate ReplaySafe(runs: seq<CheckRun>, p: CheckRunParams) {
    forall once, twice | Upserts(runs, p, once) && Upserts(once, p, twice) :: OneRunPerAttempt(twice)
  }

  /** Repeating the upsert is harmless for every order of the listing exactly when the commit's runs fit on a page. */
  lemma ReplaySafeIffRoom(runs: seq<CheckRun>, p: CheckRunParams)
    requires IdentifiedRuns(runs) && OneRunPerAttempt(runs)
    ensures ReplaySafe(runs, p) <==> Room(runs, p)
  {
    hide Slot, Listed, UpsertRun, UpsertSeen, OneRunPerAttempt, IdentifiedRuns, IsPage, Upserts;
    UpsertRunUnique(runs, p);
    UpsertRunReplay(runs, p, p.conclusion);
    if Room(runs, p) {
      forall once, twice | Upserts(runs, p, once) && Upserts(once, p, twice)
        ensures OneRunPerAttempt(twice)
      {
        RoomIsEnough(runs, p, once);
        RoomIsEnough(once, p, twice);
      }
    } else {
      var once, twice := RerunDuplicates(runs, p);
    }
  }

  /** Without room some pages make a rerun give the commit a second run of this attempt. */
  lemma RerunDuplicates(runs: seq<CheckRun>, p: CheckRunParams) returns (once: seq<CheckRun>, twice: seq<CheckRun>)
    requires IdentifiedRuns(runs) && OneRunPerAttempt(runs) && !Room(runs, p)
    ensures Upserts(runs, p, once) && Upserts(once, p, twice) && !OneRunPerAttempt(twice)
  {
    hide Slot, Listed, IsPage, Shows, Matching;
    UpsertLists(runs, p);
    UpsertRunUnique(runs, p);
    SlotStays(runs, p, []);
    if Slot(runs, p) == |runs| {
      var page := SomePage(runs, p.sha, p.name);
      PageDecides(runs, page, p);
      once := UpsertRun(runs, p);
      assert Upserts(runs, p, once);
      var hiding := SomePageHides(once, p);
      PageDecides(once, hiding, p);
      twice := UpsertSeen(once, hiding, p);
      assert Upserts(once, p, twice);
    } else {
      var hiding := SomePageHides(runs, p);
      PageMatches(runs, hiding, p);
      once := runs + [RunOf(|runs|, p)];
      assert Upserts(runs, p, once);
      var page := SomePage(once, p.sha, p.name);
      twice := UpsertSeen(once, page, p);
      assert Upserts(once, p, twice);
      DuplicateStays(once, page, p, Slot(runs, p), |runs|);
    }
  }

  /** Two runs of one attempt on one commit stay two. */
  lemma DuplicateStays(runs: seq<CheckRun>, page: seq<CheckRun>, p: CheckRunParams, i: nat, j: nat)
    requires IsPage(runs, p.sha, p.name, page) && IdentifiedRuns(runs)
    requires i < j < |runs| && SameRun(runs, i, j)
    ensures !OneRunPerAttempt(UpsertSeen(runs, page, p))
  {
    hide Listed, Matching;
    ListedFrom(runs, p.sha, p.name);
    var found := Matching(page, p.externalId);
    if found.Some? {
      assert found.value in runs && Same(found.value, p);
    }
    assert SameRun(UpsertSeen(runs, page, p), i, j);
  }

  // ---- a commit with more runs than a page

  /** What attempt k reports when it changed nothing on this base commit. */
  function NoChange(sha: string, k: nat): CheckRunParams {
    CheckRunParams(sha, CHECK_NAME, k, "neutral")
  }

  function NoChangeRuns(sha: string, n: nat): (runs: seq<CheckRun>)
    ensures |runs| == n && forall k | 0 <= k < n :: runs[k] == RunOf(k, NoChange(sha, k))
  {
    seq(n, k requires 0 <= k < n => RunOf(k, NoChange(sha, k)))
  }

  lemma {:induction false} NoChangeListed(sha: string, n: nat)
    ensures Listed(NoChangeRuns(sha, n), sha, CHECK_NAME) == NoChangeRuns(sha, n)
  {
    if n > 0 {
      NoChangeListed(sha, n - 1);
      assert NoChangeRuns(sha, n)[..n - 1] == NoChangeRuns(sha, n - 1);
    }
  }

  /** Attempts that change nothing on one base commit report there one after the other. */
  lemma NoChangeReached(sha: string, n: nat, after: seq<CheckRun>)
    requires Upserts(NoChangeRuns(sha, n), NoChange(sha, n), after)
    ensures after == NoChangeRuns(sha, n + 1)
  {
    var runs, p := NoChangeRuns(sha, n), NoChange(sha, n);
    var page :| IsPage(runs, p.sha, p.name, page) && after == UpsertSeen(runs, page, p);
    ListedFrom(runs, p.sha, p.name);
    assert Matching(page, p.externalId).None?;
  }

  /** After a hundred and one of them the last one's rerun can report a second time. */
  lemma HundredAndFirstDuplicates(sha: string) returns (twice: seq<CheckRun>)
    ensures Upserts(NoChangeRuns(sha, 101), NoChange(sha, 100), twice) && !OneRunPerAttempt(twice)
  {
    hide IsPage, Matching, Listed, Slot;
    var runs, p := NoChangeRuns(sha, 101), NoChange(sha, 100);
    NoChangeListed(sha, 101);
    assert Slot(runs, p) == 100 by {
      assert Same(runs[100], p);
      assert forall j | 0 <= j < 100 :: !Same(runs[j], p);
    }
    assert OneRunPerAttempt(runs);
    var page := SomePageHides(runs, p);
    PageDecides(runs, page, p);
    twice := UpsertSeen(runs, page, p);
  }

  /** With a hundred of them it never does. */
  lemma HundredFit(sha: string, after: seq<CheckRun>)
    requires Upserts(NoChangeRuns(sha, 100), NoChange(sha, 99), after)
    ensures OneRunPerAttempt(after)
  {
    hide IsPage, Matching, Listed, Slot, Upserts;
    var runs, p := NoChangeRuns(sha, 100), NoChange(sha, 99);
    NoChangeListed(sha, 100);
    assert Slot(runs, p) == 99 by {
      assert Same(runs[99], p);
      assert forall j | 0 <= j < 99 :: !Same(runs[j], p);
    }
    assert OneRunPerAttempt(runs);
    UpsertLists(runs, p);
    RoomIsEnough(runs, p, after);
    UpsertRunUnique(runs, p);
  }
}
