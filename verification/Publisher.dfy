/** The executor's side of publishing, which may be refused, cut off or killed at any call and run again. */
module Publisher {
  import opened Records
  import opened Storage
  import opened Publish
  import RunnerStore
  import Runners = RunnerSpec

  /** Lost: the call took effect but the caller never learns it. Died: it did not take effect. */
  datatype Reply = Answered | Refused | Lost | Died

  /** One execution of the publishing step: the body it renders, its report's checks and the fate of each call. */
  datatype Life = Life(body: string, checks: seq<Check>, replies: nat -> Reply)

  ghost predicate Faultless(life: Life) {
    forall k: nat :: life.replies(k).Answered?
  }

  function RunParams(sha: string, attempt: nat, checks: seq<Check>): CheckRunParams {
    CheckRunParams(sha, CHECK_NAME, attempt, Conclusion(checks))
  }

  /** The commit has a run of this attempt that concludes what the checks say. */
  ghost predicate Concludes(runs: seq<CheckRun>, sha: string, attempt: nat, checks: seq<Check>) {
    exists r <- runs ::
      && r.sha == sha && r.name == "Agent Trail Task" && r.externalId == attempt
      && (r.conclusion == "failure" <==> AnyFailed(checks))
      && (r.conclusion == "success" <==> AllPassed(checks))
      && r.conclusion in {"failure", "success", "neutral"}
  }

  /** The number of the branch's pull request. */
  function PullNumber(pulls: seq<PullRequest>, head: string): nat {
    match PullIndex(pulls, head) case None => |pulls| + 1 case Some(i) => i + 1
  }

  ghost predicate Sound(pulls: seq<PullRequest>, runs: seq<CheckRun>) {
    NumberedPulls(pulls) && OnePullPerHead(pulls) && IdentifiedRuns(runs) && OneRunPerAttempt(runs)
  }

  class Publisher {
    const forge: Forge
    const db: Database
    const runners: RunnerStore.Store
    const attempt: nat
    const branch: string
    const life: Life
    var calls: nat

    constructor (forge: Forge, db: Database, runners: RunnerStore.Store, attempt: nat, branch: string, life: Life)
      requires runners.db == db
      ensures this.forge == forge && this.db == db && this.runners == runners
      ensures this.attempt == attempt && this.branch == branch && this.life == life && calls == 0
    {
      this.forge, this.db, this.runners := forge, db, runners;
      this.attempt, this.branch, this.life, calls := attempt, branch, life, 0;
    }

    method Call() returns (reply: Reply)
      modifies `calls
      ensures Faultless(life) ==> reply.Answered?
    {
      reply := life.replies(calls);
      calls := calls + 1;
    }

    /** Found by head branch, created when missing, otherwise its body refreshed; then recorded. */
    method PublishPullRequest() returns (reply: Reply)
      requires NumberedPulls(forge.pulls) && runners.db == db
      modifies `calls, forge`pulls, db
      ensures forge.pulls == old(forge.pulls) || forge.pulls == UpsertPull(old(forge.pulls), branch, life.body)
      ensures db.State() == old(db.State()) ||
              (db.State() == Runners.RecordPullRequest(old(db.State()), attempt, PullNumber(old(forge.pulls), branch))
               && forge.pulls == UpsertPull(old(forge.pulls), branch, life.body))
      ensures reply.Answered? ==>
                && forge.pulls == UpsertPull(old(forge.pulls), branch, life.body)
                && db.State() ==
                   Runners.RecordPullRequest(old(db.State()), attempt, PullNumber(old(forge.pulls), branch))
      ensures Faultless(life) ==> reply.Answered?
    {
      reply := Call();
      if !reply.Answered? {
        return;
      }
      var found := forge.FindPullRequestByHead(branch);
      reply := Call();
      var number;
      if reply.Answered? || reply.Lost? {
        match found
        case None =>
          var created := forge.CreatePullRequest(branch, life.body);
          number := created.number;
        case Some(pr) =>
          number := pr.number;
          forge.UpdatePullRequestBody(number, life.body);
      }
      if reply.Answered? {
        // pull_request.created or pull_request.updated on the log
        reply := Call();
      }
      if reply.Answered? {
        reply := Call();
        if reply.Answered? || reply.Lost? {
          runners.RecordPullRequest(attempt, number);
        }
      }
    }

    /** Updates the run with this attempt's external id if the page shows one, otherwise creates it. */
    method UpsertCheckRun(p: CheckRunParams) returns (reply: Reply)
      requires IdentifiedRuns(forge.runs)
      modifies `calls, forge`runs
      ensures forge.runs == old(forge.runs) || Upserts(old(forge.runs), p, forge.runs)
      ensures reply.Answered? ==> Upserts(old(forge.runs), p, forge.runs)
      ensures Faultless(life) ==> reply.Answered?
    {
      reply := Call();
      if !reply.Answered? {
        return;
      }
      var page := forge.ListCheckRuns(p.sha, p.name);
      ListedFrom(forge.runs, p.sha, p.name);
      var k := 0;
      while k < |page|
        invariant 0 <= k <= |page|
        invariant Matching(page, p.externalId) == Matching(page[k..], p.externalId)
        invariant forge.runs == old(forge.runs)
      {
        if page[k].externalId == p.externalId {
          assert page[k] in forge.runs;
          reply := Call();
          if reply.Answered? || reply.Lost? {
            forge.UpdateCheckRun(page[k].id, p);
            assert forge.runs == UpsertSeen(old(forge.runs), page, p);
          }
          if reply.Answered? {
            reply := Call();
          }
          return;
        }
        k := k + 1;
      }
      reply := Call();
      if reply.Answered? || reply.Lost? {
        var id := forge.CreateCheckRun(p);
        assert forge.runs == UpsertSeen(old(forge.runs), page, p);
      }
      if reply.Answered? {
        reply := Call();
      }
    }

    /** No new commit: a neutral run on the base commit, beside those of other attempts that started there. */
    method PublishNoChange(base: string) returns (reply: Reply)
      requires IdentifiedRuns(forge.runs)
      modifies `calls, forge`runs
      ensures forge.runs == old(forge.runs) || Upserts(old(forge.runs), NoChange(base, attempt), forge.runs)
      ensures reply.Answered? ==> Upserts(old(forge.runs), NoChange(base, attempt), forge.runs)
      ensures reply.Answered? ==> RunStored(forge.runs, base, "Agent Trail Task", attempt, "neutral")
      ensures Faultless(life) ==> reply.Answered?
    {
      // publishing.no_change on the log
      reply := Call();
      if reply.Answered? {
        reply := UpsertCheckRun(NoChange(base, attempt));
        if reply.Answered? {
          UpsertStored(old(forge.runs), NoChange(base, attempt), forge.runs);
        }
      }
      if reply.Answered? {
        // the task fails with no_change
        reply := Call();
      }
    }

    /** The pull request first, then the check run with the report's conclusion. */
    method PublishToGitHub(sha: string) returns (reply: Reply)
      requires Sound(forge.pulls, forge.runs) && runners.db == db
      modifies `calls, forge, db
      ensures forge.pulls == old(forge.pulls) || forge.pulls == UpsertPull(old(forge.pulls), branch, life.body)
      ensures forge.runs == old(forge.runs) ||
              (Upserts(old(forge.runs), RunParams(sha, attempt, life.checks), forge.runs)
               && forge.pulls == UpsertPull(old(forge.pulls), branch, life.body))
      ensures db.State() == old(db.State()) ||
              (db.State() == Runners.RecordPullRequest(old(db.State()), attempt, PullNumber(old(forge.pulls), branch))
               && forge.pulls == UpsertPull(old(forge.pulls), branch, life.body))
      ensures reply.Answered? ==>
                && forge.pulls == UpsertPull(old(forge.pulls), branch, life.body)
                && Upserts(old(forge.runs), RunParams(sha, attempt, life.checks), forge.runs)
                && db.State() ==
                   Runners.RecordPullRequest(old(db.State()), attempt, PullNumber(old(forge.pulls), branch))
      ensures reply.Answered? ==>
                && (exists pr <- forge.pulls :: pr.head == branch && pr.body == life.body)
                && Concludes(forge.runs, sha, attempt, life.checks)
      ensures Faultless(life) ==> reply.Answered?
    {
      hide Upserts, AnyFailed, AllPassed;
      reply := PublishPullRequest();
      if reply.Answered? {
        var conclusion := CheckConclusion(life.checks);
        reply := UpsertCheckRun(CheckRunParams(sha, CHECK_NAME, attempt, conclusion));
        UpsertPullUnique(old(forge.pulls), branch, life.body);
        if reply.Answered? {
          UpsertStored(old(forge.runs), RunParams(sha, attempt, life.checks), forge.runs);
        }
      }
    }
  }

  lemma PullNumberStays(pulls: seq<PullRequest>, head: string, body: string)
    ensures PullNumber(UpsertPull(pulls, head, body), head) == PullNumber(pulls, head)
  {
    match PullIndex(pulls, head)
    case None =>
    case Some(i) => PullIndexStays(pulls, i, head, body);
  }

  /** Whatever was recorded first stays. */
  lemma RecordReplay(t: Tables, attempt: nat, number: nat)
    ensures var once := Runners.RecordPullRequest(t, attempt, number);
            Runners.RecordPullRequest(once, attempt, number) == once
  {
    match Runners.Find(t.attempts, attempt)
    case None =>
    case Some(i) =>
      var a := t.attempts[i];
      RunnerStore.FindStays(t.attempts, i, a.(pullRequest := OrElse(a.pullRequest, Some(number))), attempt);
  }

  /**
   * Any number of executions that are cut off anywhere, with whatever bodies and reports, then one that is not:
   * GitHub and the attempt row look exactly as if only the last had run. The branch has one pull request,
   * and the commit one check run for this attempt, with the last report's conclusion.
   */
  method PublishAcrossLives(forge: Forge, db: Database, runners: RunnerStore.Store, attempt: nat, branch: string,
                            sha: string, lives: seq<Life>, last: Life)
    requires Sound(forge.pulls, forge.runs) && runners.db == db
    requires Room(forge.runs, RunParams(sha, attempt, last.checks)) && Faultless(last)
    modifies forge, db
    ensures forge.pulls == UpsertPull(old(forge.pulls), branch, last.body)
    ensures forge.runs == UpsertRun(old(forge.runs), RunParams(sha, attempt, last.checks))
    ensures db.State() == Runners.RecordPullRequest(old(db.State()), attempt, PullNumber(old(forge.pulls), branch))
    ensures Sound(forge.pulls, forge.runs)
    ensures exists i: nat :: i < |forge.pulls| && OnlyPull(forge.pulls, i, branch, last.body)
    ensures exists i: nat :: i < |forge.runs| && OnlyRun(forge.runs, i, sha, attempt, last.checks)
  {
    hide AnyFailed, AllPassed, OnlyPull, OnlyRun;
    ghost var p := RunParams(sha, attempt, last.checks);
    ghost var pulls, runs, state := forge.pulls, forge.runs, db.State();
    for k := 0 to |lives|
      invariant Replayed(pulls, forge.pulls, branch) && Rerun(runs, forge.runs, p)
      invariant Sound(forge.pulls, forge.runs)
      invariant db.State() == state ||
                db.State() == Runners.RecordPullRequest(state, attempt, PullNumber(pulls, branch))
    {
      var publisher := new Publisher(forge, db, runners, attempt, branch, lives[k]);
      ReplayFacts(pulls, forge.pulls, branch, lives[k].body, runs, forge.runs, p, Conclusion(lives[k].checks));
      RecordReplay(state, attempt, PullNumber(pulls, branch));
      var reply := publisher.PublishToGitHub(sha);
    }
    var publisher := new Publisher(forge, db, runners, attempt, branch, last);
    ReplayFacts(pulls, forge.pulls, branch, last.body, runs, forge.runs, p, p.conclusion);
    RecordReplay(state, attempt, PullNumber(pulls, branch));
    var reply := publisher.PublishToGitHub(sha);
    LastLifeShows(pulls, branch, last.body, runs, sha, attempt, last.checks);
  }

  /** The branch's only pull request, with this body. */
  ghost predicate OnlyPull(pulls: seq<PullRequest>, i: nat, head: string, body: string)
    requires i < |pulls|
  {
    && pulls[i].head == head && pulls[i].body == body && pulls[i].number == i + 1
    && forall j | 0 <= j < |pulls| && j != i :: pulls[j].head != head
  }

  /** The commit's only run of this attempt, concluding what the checks say. */
  ghost predicate OnlyRun(runs: seq<CheckRun>, i: nat, sha: string, attempt: nat, checks: seq<Check>)
    requires i < |runs|
  {
    && runs[i].sha == sha && runs[i].name == "Agent Trail Task" && runs[i].externalId == attempt
    && (runs[i].conclusion == "failure" <==> AnyFailed(checks))
    && (runs[i].conclusion == "success" <==> AllPassed(checks))
    && runs[i].conclusion in {"failure", "success", "neutral"}
    && forall j | 0 <= j < |runs| && j != i ::
         !(runs[j].sha == sha && runs[j].name == "Agent Trail Task" && runs[j].externalId == attempt)
  }

  lemma LastLifeShows(pulls: seq<PullRequest>, head: string, body: string,
                      runs: seq<CheckRun>, sha: string, attempt: nat, checks: seq<Check>)
    requires Sound(pulls, runs)
    ensures var after := UpsertPull(pulls, head, body);
            exists i: nat :: i < |after| && OnlyPull(after, i, head, body)
    ensures var after := UpsertRun(runs, RunParams(sha, attempt, checks));
            exists i: nat :: i < |after| && OnlyRun(after, i, sha, attempt, checks)
  {
    hide UpsertPull, UpsertRun, AnyFailed, AllPassed;
    var p := RunParams(sha, attempt, checks);
    UpsertPullUnique(pulls, head, body);
    UpsertRunUnique(runs, p);
    var pulls', runs' := UpsertPull(pulls, head, body), UpsertRun(runs, p);
    var i :| 0 <= i < |pulls'| && pulls'[i] == PullRequest(i + 1, head, body);
    assert OnlyPull(pulls', i, head, body);
    var k :| 0 <= k < |runs'| && runs'[k].sha == p.sha && runs'[k].name == p.name
             && runs'[k].externalId == p.externalId && runs'[k].conclusion == p.conclusion;
    Concluded(checks);
    forall j | 0 <= j < |runs'| && j != k
      ensures !(runs'[j].sha == sha && runs'[j].name == p.name && runs'[j].externalId == attempt)
    {
      assert !SameRun(runs', if j < k then j else k, if j < k then k else j);
    }
    assert OnlyRun(runs', k, sha, attempt, checks);
  }

  lemma Concluded(checks: seq<Check>)
    ensures Conclusion(checks) == "failure" <==> AnyFailed(checks)
    ensures Conclusion(checks) == "success" <==> AllPassed(checks)
    ensures Conclusion(checks) in {"failure", "success", "neutral"}
  {
  }

  /** The pull requests are as they were, or with this branch's one published. */
  ghost predicate Replayed(before: seq<PullRequest>, now: seq<PullRequest>, head: string) {
    now == before || exists body :: now == UpsertPull(before, head, body)
  }

  /** The check runs are as they were, or with this attempt's one upserted. */
  ghost predicate Rerun(before: seq<CheckRun>, now: seq<CheckRun>, p: CheckRunParams) {
    now == before || exists conclusion :: now == UpsertRun(before, p.(conclusion := conclusion))
  }

  /** One more execution, from wherever the earlier ones stopped. */
  lemma ReplayFacts(pulls: seq<PullRequest>, pulls': seq<PullRequest>, head: string, body: string,
                    runs: seq<CheckRun>, runs': seq<CheckRun>, p: CheckRunParams, conclusion: string)
    requires Sound(pulls, runs) && Sound(pulls', runs') && Room(runs, p)
    requires Replayed(pulls, pulls', head) && Rerun(runs, runs', p)
    ensures UpsertPull(pulls', head, body) == UpsertPull(pulls, head, body)
    ensures PullNumber(pulls', head) == PullNumber(pulls, head)
    ensures var q := p.(conclusion := conclusion);
            && (forall after | Upserts(runs', q, after) :: after == UpsertRun(runs, q))
            && Sound(UpsertPull(pulls, head, body), UpsertRun(runs, q)) && Sound(UpsertPull(pulls, head, body), runs')
  {
    hide UpsertPull, UpsertRun, UpsertSeen, PullNumber, Listed, Slot, NumberedPulls, OnePullPerHead, IdentifiedRuns,
         OneRunPerAttempt, Upserts, Room;
    if pulls' != pulls {
      var earlier :| pulls' == UpsertPull(pulls, head, earlier);
      UpsertPullReplay(pulls, head, earlier, body);
      PullNumberStays(pulls, head, earlier);
    }
    UpsertPullUnique(pulls, head, body);
    RerunFacts(runs, runs', p, conclusion);
  }

  lemma RerunFacts(runs: seq<CheckRun>, runs': seq<CheckRun>, p: CheckRunParams, conclusion: string)
    requires IdentifiedRuns(runs) && OneRunPerAttempt(runs) && IdentifiedRuns(runs') && OneRunPerAttempt(runs')
    requires Room(runs, p) && Rerun(runs, runs', p)
    ensures var q := p.(conclusion := conclusion);
            && (forall after | Upserts(runs', q, after) :: after == UpsertRun(runs, q))
            && IdentifiedRuns(UpsertRun(runs, q)) && OneRunPerAttempt(UpsertRun(runs, q))
  {
    hide UpsertRun, UpsertSeen, Listed, Slot, IdentifiedRuns, OneRunPerAttempt, Upserts, Room;
    var q := p.(conclusion := conclusion);
    RoomStays(runs, p, conclusion);
    UpsertRunUnique(runs, q);
    if runs' != runs {
      var earlier :| runs' == UpsertRun(runs, p.(conclusion := earlier));
      assert q.(conclusion := earlier) == p.(conclusion := earlier);
      RoomStays(runs, q, earlier);
      UpsertRunReplay(runs, q, earlier);
    }
    forall after | Upserts(runs', q, after)
      ensures after == UpsertRun(runs, q)
    {
      RoomIsEnough(runs', q, after);
    }
  }
}
