/**
 * The check-suite variant of the action (`automerge.py`): the reductions of
 * check suites (keyed by app slug) and statuses, the PR gate, the AppVeyor
 * policy and the decision sequence that ends in the merge call.
 */
module Automerge {
  import opened Wrappers
  import opened Text
  import opened Signals
  import opened Config

  /** Only the bot's own PRs are merged without the label. */
  const AllowedUsers: seq<string> := ["regro-cf-autotick-bot"]

  /** GitHub Actions reports through the check-suite API under this slug; the action ignores itself. */
  const IgnoredChecks: seq<string> := ["github-actions"]

  /** The linter status is always ignored since it is not reliable. */
  const IgnoredStatuses: seq<string> := ["conda-forge-linter"]

  const NeutralStates: seq<string> := ["pending"]
  const BadStates: seq<string> := ["failure", "error"]

  /** The `mergeable_state` values under which the merge is attempted. */
  const GoodMergeStates: seq<string> := ["clean", "has_hooks", "unknown", "unstable"]

  /** The label that lets any PR through the gate. */
  const AutomergeLabel: string := "automerge"

  /** The marker a bot PR carries in its title. */
  const TitleSlug: string := "[bot-automerge]"

  /** The AppVeyor status context, ignored when Windows builds do not run on AppVeyor. */
  const AppveyorContext: string := "continuous-integration/appveyor/pr"

  const MergeCommitMessage: string := "automerged PR by regro-cf-autotick-bot-action"

  datatype App = App(slug: string)

  /** A check suite as the check-suites endpoint reports it. */
  datatype CheckSuite = CheckSuite(app: App, status: string, conclusion: string)

  /**
   * What the decision reads of a pull request: its label names, author,
   * title, head commit, and the platform's merged / mergeable answers.
   */
  datatype PullRequest = PullRequest(
    labels: seq<string>,
    login: string,
    title: string,
    headSha: string,
    isMerged: bool,
    mergeable: Option<bool>,
    mergeableState: string)

  /** The arguments of the merge call. */
  datatype MergeCall = MergeCall(commitMessage: string, commitTitle: string, mergeMethod: string, sha: string)

  /** The platform's answer to the merge call. */
  datatype MergeStatus = MergeStatus(merged: bool, message: string)

  // ---------------------------------------------------------------------------
  // Feedstock configuration
  // ---------------------------------------------------------------------------

  /**
   * `bot.automerge` of `conda-forge.yml`, `False` when absent: automerge is on
   * only when the feedstock sets it to a truthy value.
   */
  function AutomergeMe(cfg: Yaml): (r: Result<Yaml>)
    ensures r.Raised? <==> !cfg.YMap? || ("bot" in cfg.entries && !cfg.entries["bot"].YMap?)
    ensures r.Ok? && Truthy(r.value) ==>
              && cfg.YMap? && "bot" in cfg.entries && cfg.entries["bot"].YMap?
              && "automerge" in cfg.entries["bot"].entries
              && Truthy(cfg.entries["bot"].entries["automerge"])
    ensures r.Ok? ==>
              && cfg.YMap? && ("bot" in cfg.entries ==> cfg.entries["bot"].YMap?)
              && r.value == (if "bot" in cfg.entries && "automerge" in cfg.entries["bot"].entries
                             then cfg.entries["bot"].entries["automerge"] else YBool(false))
  {
    GetNested(cfg, "bot", "automerge", YBool(false))
  }

  /**
   * Whether the AppVeyor status can be ignored: always when no `win*.yaml`
   * exists under `.ci_support`, otherwise only when `provider.win` (default
   * `azure`) is `azure` or `default`.
   */
  function IgnoreAppveyor(cfg: Yaml, ciSupport: seq<string>): (r: Result<bool>)
    ensures r == Ok(true) <==>
              || (forall f | f in ciSupport :: !IsWinYaml(f))
              || GetNested(cfg, "provider", "win", YStr("azure")) in {Ok(YStr("azure")), Ok(YStr("default"))}
    ensures r.Raised? <==>
              (exists f | f in ciSupport :: IsWinYaml(f)) && GetNested(cfg, "provider", "win", YStr("azure")).Raised?
    // Corollaries of the two clauses above, spelled out for the cases the tests exercise.
    ensures (forall f | f in ciSupport :: !IsWinYaml(f)) ==> r == Ok(true)
    ensures cfg.YMap? && "provider" !in cfg.entries ==> r == Ok(true)
    ensures r == Ok(false) ==> exists f | f in ciSupport :: IsWinYaml(f)
  {
    var fnames := WinYamlFiles(ciSupport);
    if |fnames| == 0 then Ok(true)
    else
      assert fnames[0] in fnames;
      var win :- GetNested(cfg, "provider", "win", YStr("azure"));
      Ok(win in [YStr("azure"), YStr("default")])
  }

  /** The extra contexts the decision asks the status reduction to skip. */
  function ExtraIgnoredStatuses(cfg: Yaml, ciSupport: seq<string>): (r: Result<Option<seq<string>>>)
    ensures r.Ok? <==> IgnoreAppveyor(cfg, ciSupport).Ok?
    ensures r.Ok? ==> (r.value == Some([AppveyorContext]) <==> IgnoreAppveyor(cfg, ciSupport) == Ok(true))
    ensures r.Ok? ==> (r.value == None <==> IgnoreAppveyor(cfg, ciSupport) == Ok(false))
  {
    var ignore :- IgnoreAppveyor(cfg, ciSupport);
    Ok(if ignore then Some([AppveyorContext]) else None)
  }

  // ---------------------------------------------------------------------------
  // Check suites
  // ---------------------------------------------------------------------------

  /** Each check suite filed under its app's slug, with its state. */
  function Entries(checks: seq<CheckSuite>): seq<Entry>
  {
    seq(|checks|, i requires 0 <= i < |checks| =>
      Entry(checks[i].app.slug, CheckVerdict(checks[i].status, checks[i].conclusion, BadStates)))
  }

  /** The check result the loop below computes. */
  function ChecksResult(checks: seq<CheckSuite>): Tri
  {
    Collapse(LastWins(Entries(checks), IgnoredChecks))
  }

  /**
   * Folds the check suites into a dictionary keyed by app slug, the last
   * suite of a slug overwriting earlier ones, and collapses it: `None` without
   * data, `False` when any kept suite is pending or failing, else `True`.
   */
  method CheckGithubChecks(checks: seq<CheckSuite>) returns (state: Tri)
    ensures state == ChecksResult(checks)
    ensures state == None <==> forall i | 0 <= i < |checks| :: checks[i].app.slug in IgnoredChecks
    ensures state == Some(true) <==> AllLastPass(Entries(checks), IgnoredChecks)
  {
    var checkStates: map<string, Tri> := map[];
    for i := 0 to |checks|
      invariant checkStates == LastWins(Entries(checks[..i]), IgnoredChecks)
    {
      var check := checks[i];
      var name := check.app.slug;
      assert Entries(checks[..i + 1])[..i] == Entries(checks[..i]);
      if name !in IgnoredChecks {
        if check.status != "completed" {
          checkStates := checkStates[name := None];
        } else if check.conclusion in BadStates {
          checkStates := checkStates[name := Some(false)];
        } else {
          checkStates := checkStates[name := Some(true)];
        }
      }
    }
    assert checks[..|checks|] == checks;
    CollapseLastWins(Entries(checks), IgnoredChecks);
    assert forall i | 0 <= i < |checks| :: Entries(checks)[i].key == checks[i].app.slug;
    if |checkStates| == 0 {
      state := None;
    } else if !AllPass(checkStates) {
      state := Some(false);
    } else {
      state := Some(true);
    }
  }

  // ---------------------------------------------------------------------------
  // Statuses
  // ---------------------------------------------------------------------------

  /** The contexts skipped: the linter plus the caller's extra list (`None` meaning none). */
  function IgnoredContexts(extraIgnoredStatuses: Option<seq<string>>): seq<string>
  {
    IgnoredStatuses + extraIgnoredStatuses.GetOr([])
  }

  function Policy(extraIgnoredStatuses: Option<seq<string>>, floor: int): StatusPolicy
  {
    StatusPolicy(IgnoredContexts(extraIgnoredStatuses), NeutralStates, BadStates, floor)
  }

  /** The status result the loop below computes; `floor` stands for the "really old" initial time. */
  function StatusesResult(statuses: seq<Status>, extraIgnoredStatuses: Option<seq<string>>, floor: int): Tri
  {
    Collapse(Verdicts(StatusStates(statuses, Policy(extraIgnoredStatuses, floor))))
  }

  /**
   * Keeps, per context not ignored by exact match, the state of the status
   * with the strictly latest time (a tie keeps the earlier one), then
   * collapses: `None` without data, `False` when any kept state is pending or
   * failing, else `True`.
   */
  method CheckGithubStatuses(statuses: seq<Status>, extraIgnoredStatuses: Option<seq<string>>, floor: int)
    returns (state: Tri)
    ensures state == StatusesResult(statuses, extraIgnoredStatuses, floor)
    ensures state == None <==>
              forall i | 0 <= i < |statuses| :: statuses[i].context in IgnoredContexts(extraIgnoredStatuses)
    ensures state == Some(true) <==> AllContextsPass(statuses, Policy(extraIgnoredStatuses, floor))
  {
    var extra := extraIgnoredStatuses.GetOr([]);
    ghost var pol := Policy(extraIgnoredStatuses, floor);
    var statusStates: map<string, (Tri, int)> := map[];
    for i := 0 to |statuses|
      invariant statusStates == StatusStates(statuses[..i], pol)
    {
      var status := statuses[i];
      assert statuses[..i + 1][..i] == statuses[..i];
      if status.context in IgnoredStatuses + extra {
        continue;
      }
      if status.context !in statusStates {
        statusStates := statusStates[status.context := (None, floor)];
      }
      if status.state in NeutralStates {
        if status.updatedAt > statusStates[status.context].1 {
          statusStates := statusStates[status.context := (None, status.updatedAt)];
        }
      } else if status.state in BadStates {
        if status.updatedAt > statusStates[status.context].1 {
          statusStates := statusStates[status.context := (Some(false), status.updatedAt)];
        }
      } else {
        if status.updatedAt > statusStates[status.context].1 {
          statusStates := statusStates[status.context := (Some(true), status.updatedAt)];
        }
      }
    }
    assert statuses[..|statuses|] == statuses;
    CollapseStatuses(statuses, pol);
    assert Verdicts(statusStates).Keys == statusStates.Keys;
    if |statusStates| == 0 {
      state := None;
    } else if !(forall context | context in statusStates :: statusStates[context].0 == Some(true)) {
      state := Some(false);
    } else {
      state := Some(true);
    }
  }

  // ---------------------------------------------------------------------------
  // The gate
  // ---------------------------------------------------------------------------

  const BadSlugMessage: string := "PR does not have the '[bot-automerge]' slug in the title"
  const TurnedOffMessage: string := "automated bot merges are turned off for this feedstock"

  /**
   * The gate, checked in order: the `automerge` label lets the PR through; else
   * the author must be allowed, the title must carry the slug and the
   * feedstock must turn automerge on. A refusal carries its reason.
   */
  function CheckPr(pr: PullRequest, cfg: Yaml): (r: Result<(bool, Option<string>)>)
    ensures r.Ok? ==> (r.value.1.Some? <==> !r.value.0)
    ensures r.Raised? <==>
              && AutomergeLabel !in pr.labels && pr.login in AllowedUsers
              && Contains(pr.title, TitleSlug) && AutomergeMe(cfg).Raised?
  {
    if AutomergeLabel in pr.labels then Ok((true, None))
    else if pr.login !in AllowedUsers then Ok((false, Some("user " + pr.login + " cannot automerge")))
    else if !Contains(pr.title, TitleSlug) then Ok((false, Some(BadSlugMessage)))
    else
      var me :- AutomergeMe(cfg);
      if !Truthy(me) then Ok((false, Some(TurnedOffMessage)))
      else Ok((true, None))
  }

  /**
   * When a PR may proceed, stated without the gate's code: it has the label,
   * or it is the bot's, its title contains the slug somewhere and the
   * feedstock sets `bot.automerge` to a truthy value.
   */
  ghost predicate GateOpen(pr: PullRequest, cfg: Yaml)
  {
    || AutomergeLabel in pr.labels
    || (&& pr.login in AllowedUsers
        && (exists i :: OccursAt(pr.title, TitleSlug, i))
        && cfg.YMap? && "bot" in cfg.entries && cfg.entries["bot"].YMap?
        && "automerge" in cfg.entries["bot"].entries
        && Truthy(cfg.entries["bot"].entries["automerge"]))
  }

  /** The gate lets a PR through exactly when `GateOpen` holds. */
  lemma CheckPrAllows(pr: PullRequest, cfg: Yaml)
    ensures CheckPr(pr, cfg) == Ok((true, None)) <==> GateOpen(pr, cfg)
  {
    ContainsIff(pr.title, TitleSlug);
  }

  /**
   * The gate's order: the label wins before anything else is read; an author
   * who is not allowed is refused by name whatever the title and the
   * configuration; a title without the slug is refused whatever the
   * configuration; and a feedstock that does not turn automerge on is refused.
   */
  lemma CheckPrOrder(pr: PullRequest, cfg: Yaml)
    ensures AutomergeLabel in pr.labels ==> CheckPr(pr, cfg) == Ok((true, None))
    ensures AutomergeLabel !in pr.labels && pr.login !in AllowedUsers ==>
              && CheckPr(pr, cfg) == Ok((false, Some("user " + pr.login + " cannot automerge")))
              && Contains(CheckPr(pr, cfg).value.1.value, "user " + pr.login)
    ensures AutomergeLabel !in pr.labels && pr.login in AllowedUsers && (forall i :: !OccursAt(pr.title, TitleSlug, i)) ==>
              CheckPr(pr, cfg) == Ok((false, Some(BadSlugMessage)))
    ensures && AutomergeLabel !in pr.labels && pr.login in AllowedUsers && (exists i :: OccursAt(pr.title, TitleSlug, i))
            && AutomergeMe(cfg).Ok? && !Truthy(AutomergeMe(cfg).value) ==>
              CheckPr(pr, cfg) == Ok((false, Some(TurnedOffMessage)))
  {
    ContainsIff(pr.title, TitleSlug);
    ContainsInfix("", "user " + pr.login, " cannot automerge");
    assert "" + ("user " + pr.login) + " cannot automerge" == "user " + pr.login + " cannot automerge";
  }

  // ---------------------------------------------------------------------------
  // The decision
  // ---------------------------------------------------------------------------

  const StatusesFailMessage: string := "PR has failing or pending statuses"
  const ChecksFailMessage: string := "PR has failing or pending checks"
  const NoSignalMessage: string := "No checks or statuses have returned success"
  const AlreadyMergedMessage: string := "PR has already been merged"
  const SuccessMessage: string := "all is well :)"

  /** The merge call: squash, titled like the PR, guarded by the head commit. */
  function MergeRequest(pr: PullRequest): MergeCall
  {
    MergeCall(MergeCommitMessage, pr.title, "squash", pr.headSha)
  }

  /**
   * The decision sequence, returning at the first refusal: the gate, failing
   * statuses, failing checks, no data from either, an already merged PR, an
   * unmergeable PR, and finally the merge call, whose refusal is reported with
   * the platform's message. A pending or absent (`None`) result blocks only when
   * both are absent. `merge` stands for the platform's merge operation.
   */
  function AutomergePr(
    pr: PullRequest, cfg: Yaml, ciSupport: seq<string>,
    statuses: seq<Status>, floor: int, checks: seq<CheckSuite>,
    merge: MergeCall -> MergeStatus): (r: Result<(bool, string)>)
    ensures r.Ok? && r.value.0 ==> r.value.1 == SuccessMessage && merge(MergeRequest(pr)).merged
  {
    var gate :- CheckPr(pr, cfg);
    if !gate.0 then Ok((false, gate.1.value))
    else
      var extra :- ExtraIgnoredStatuses(cfg, ciSupport);
      var statusOk := StatusesResult(statuses, extra, floor);
      if statusOk != Some(true) && statusOk != None then Ok((false, StatusesFailMessage))
      else
        var checksOk := ChecksResult(checks);
        if checksOk != Some(true) && checksOk != None then Ok((false, ChecksFailMessage))
        else if checksOk == None && statusOk == None then Ok((false, NoSignalMessage))
        else if pr.isMerged then Ok((false, AlreadyMergedMessage))
        else if pr.mergeable == None || !pr.mergeable.value || pr.mergeableState !in GoodMergeStates then
          Ok((false, "PR merge issue: mergeable|mergeable_state = " + ShowBool(pr.mergeable) + "|" + pr.mergeableState))
        else
          var mergeStatus := merge(MergeRequest(pr));
          if !mergeStatus.merged then Ok((false, "PR could not be merged: message " + mergeStatus.message))
          else Ok((true, SuccessMessage))
  }

  /** No status counts once the linter and the extra contexts are skipped. */
  ghost predicate NoStatusData(statuses: seq<Status>, extra: Option<seq<string>>)
  {
    forall i | 0 <= i < |statuses| :: statuses[i].context in IgnoredContexts(extra)
  }

  /** No check suite counts once GitHub Actions is skipped. */
  ghost predicate NoCheckData(checks: seq<CheckSuite>)
  {
    forall i | 0 <= i < |checks| :: checks[i].app.slug in IgnoredChecks
  }

  /**
   * The signals allow a merge, in the reference terms: every counted status
   * context has a passing authoritative status, every counted slug's last
   * suite passed, and at least one of the two has data.
   */
  ghost predicate SignalsGreen(statuses: seq<Status>, extra: Option<seq<string>>, floor: int, checks: seq<CheckSuite>)
  {
    && (NoStatusData(statuses, extra) || AllContextsPass(statuses, Policy(extra, floor)))
    && (NoCheckData(checks) || AllLastPass(Entries(checks), IgnoredChecks))
    && !(NoStatusData(statuses, extra) && NoCheckData(checks))
  }

  /** The two results pass the decision's three signal tests exactly when the signals are green. */
  lemma SignalsGreenIff(statuses: seq<Status>, extra: Option<seq<string>>, floor: int, checks: seq<CheckSuite>)
    ensures SignalsGreen(statuses, extra, floor, checks) <==>
              && StatusesResult(statuses, extra, floor) != Some(false)
              && ChecksResult(checks) != Some(false)
              && !(StatusesResult(statuses, extra, floor) == None && ChecksResult(checks) == None)
  {
    CollapseStatuses(statuses, Policy(extra, floor));
    CollapseLastWins(Entries(checks), IgnoredChecks);
    assert forall i | 0 <= i < |checks| :: Entries(checks)[i].key == checks[i].app.slug;
  }

  /**
   * Everything the merge call waits for: the gate is open, the signals are
   * green, and the PR is open, mergeable and in a healthy state.
   */
  ghost predicate MergePreconditions(
    pr: PullRequest, cfg: Yaml, ciSupport: seq<string>,
    statuses: seq<Status>, floor: int, checks: seq<CheckSuite>)
  {
    && GateOpen(pr, cfg)
    && ExtraIgnoredStatuses(cfg, ciSupport).Ok?
    && SignalsGreen(statuses, ExtraIgnoredStatuses(cfg, ciSupport).value, floor, checks)
    && !pr.isMerged
    && pr.mergeable == Some(true)
    && pr.mergeableState in GoodMergeStates
  }

  /**
   * The PR is merged exactly when every precondition holds and the platform
   * accepts the merge call; any other outcome is a refusal with a reason.
   */
  lemma AutomergeDecision(
    pr: PullRequest, cfg: Yaml, ciSupport: seq<string>,
    statuses: seq<Status>, floor: int, checks: seq<CheckSuite>,
    merge: MergeCall -> MergeStatus)
    ensures AutomergePr(pr, cfg, ciSupport, statuses, floor, checks, merge) == Ok((true, SuccessMessage)) <==>
              MergePreconditions(pr, cfg, ciSupport, statuses, floor, checks) && merge(MergeRequest(pr)).merged
  {
    CheckPrAllows(pr, cfg);
    if CheckPr(pr, cfg) == Ok((true, None)) && ExtraIgnoredStatuses(cfg, ciSupport).Ok? {
      SignalsGreenIff(statuses, ExtraIgnoredStatuses(cfg, ciSupport).value, floor, checks);
    }
  }

  /**
   * Only a `False` result blocks, the status side: absent statuses do not
   * stop a PR whose checks pass, and with both absent the PR is refused for
   * lack of data.
   */
  lemma OnlyFalseBlocks(
    pr: PullRequest, cfg: Yaml, ciSupport: seq<string>,
    statuses: seq<Status>, floor: int, checks: seq<CheckSuite>,
    merge: MergeCall -> MergeStatus)
    requires CheckPr(pr, cfg) == Ok((true, None))
    requires ExtraIgnoredStatuses(cfg, ciSupport).Ok?
    requires NoStatusData(statuses, ExtraIgnoredStatuses(cfg, ciSupport).value)
    ensures NoCheckData(checks) ==>
              AutomergePr(pr, cfg, ciSupport, statuses, floor, checks, merge) == Ok((false, NoSignalMessage))
    ensures AllLastPass(Entries(checks), IgnoredChecks) && !pr.isMerged && pr.mergeable == Some(true)
            && pr.mergeableState in GoodMergeStates && merge(MergeRequest(pr)).merged ==>
              AutomergePr(pr, cfg, ciSupport, statuses, floor, checks, merge) == Ok((true, SuccessMessage))
  {
    var extra := ExtraIgnoredStatuses(cfg, ciSupport).value;
    CollapseStatuses(statuses, Policy(extra, floor));
    CollapseLastWins(Entries(checks), IgnoredChecks);
    assert forall i | 0 <= i < |checks| :: Entries(checks)[i].key == checks[i].app.slug;
  }

  /**
   * A counted status context without a passing authoritative status (failing,
   * pending, or never later than the initial time) refuses the PR, before
   * the check suites are consulted.
   */
  lemma FailingStatusBlocks(
    pr: PullRequest, cfg: Yaml, ciSupport: seq<string>,
    statuses: seq<Status>, floor: int, checks: seq<CheckSuite>,
    merge: MergeCall -> MergeStatus, i: int)
    requires CheckPr(pr, cfg) == Ok((true, None))
    requires ExtraIgnoredStatuses(cfg, ciSupport).Ok?
    requires 0 <= i < |statuses|
    requires statuses[i].context !in IgnoredContexts(ExtraIgnoredStatuses(cfg, ciSupport).value)
    requires !ContextPasses(statuses, Policy(ExtraIgnoredStatuses(cfg, ciSupport).value, floor), statuses[i].context)
    ensures AutomergePr(pr, cfg, ciSupport, statuses, floor, checks, merge) == Ok((false, StatusesFailMessage))
  {
    CollapseStatuses(statuses, Policy(ExtraIgnoredStatuses(cfg, ciSupport).value, floor));
  }

  /** Only a `False` result blocks, the check side: absent check suites do not stop a PR whose statuses pass. */
  lemma AbsentChecksDoNotBlock(
    pr: PullRequest, cfg: Yaml, ciSupport: seq<string>,
    statuses: seq<Status>, floor: int, checks: seq<CheckSuite>,
    merge: MergeCall -> MergeStatus)
    requires CheckPr(pr, cfg) == Ok((true, None))
    requires ExtraIgnoredStatuses(cfg, ciSupport).Ok?
    requires NoCheckData(checks)
    requires AllContextsPass(statuses, Policy(ExtraIgnoredStatuses(cfg, ciSupport).value, floor))
    requires !pr.isMerged && pr.mergeable == Some(true) && pr.mergeableState in GoodMergeStates
    requires merge(MergeRequest(pr)).merged
    ensures AutomergePr(pr, cfg, ciSupport, statuses, floor, checks, merge) == Ok((true, SuccessMessage))
  {
    CollapseStatuses(statuses, Policy(ExtraIgnoredStatuses(cfg, ciSupport).value, floor));
    CollapseLastWins(Entries(checks), IgnoredChecks);
    assert forall i | 0 <= i < |checks| :: Entries(checks)[i].key == checks[i].app.slug;
  }

  /**
   * Once the statuses do not block, a counted slug whose last suite is
   * pending or failing refuses the PR, before the merge state is looked at.
   */
  lemma FailingChecksBlock(
    pr: PullRequest, cfg: Yaml, ciSupport: seq<string>,
    statuses: seq<Status>, floor: int, checks: seq<CheckSuite>,
    merge: MergeCall -> MergeStatus, i: int)
    requires CheckPr(pr, cfg) == Ok((true, None))
    requires ExtraIgnoredStatuses(cfg, ciSupport).Ok?
    requires || NoStatusData(statuses, ExtraIgnoredStatuses(cfg, ciSupport).value)
             || AllContextsPass(statuses, Policy(ExtraIgnoredStatuses(cfg, ciSupport).value, floor))
    requires 0 <= i < |checks| && checks[i].app.slug !in IgnoredChecks
    requires IsLast(Entries(checks), i) && Entries(checks)[i].verdict != Some(true)
    ensures AutomergePr(pr, cfg, ciSupport, statuses, floor, checks, merge) == Ok((false, ChecksFailMessage))
  {
    CollapseStatuses(statuses, Policy(ExtraIgnoredStatuses(cfg, ciSupport).value, floor));
    CollapseLastWins(Entries(checks), IgnoredChecks);
  }

  /** With the gate open and the signals green, an already merged PR is refused as such. */
  lemma AlreadyMergedRefused(
    pr: PullRequest, cfg: Yaml, ciSupport: seq<string>,
    statuses: seq<Status>, floor: int, checks: seq<CheckSuite>,
    merge: MergeCall -> MergeStatus)
    requires GateOpen(pr, cfg)
    requires ExtraIgnoredStatuses(cfg, ciSupport).Ok?
    requires SignalsGreen(statuses, ExtraIgnoredStatuses(cfg, ciSupport).value, floor, checks)
    requires pr.isMerged
    ensures AutomergePr(pr, cfg, ciSupport, statuses, floor, checks, merge) == Ok((false, AlreadyMergedMessage))
  {
    CheckPrAllows(pr, cfg);
    SignalsGreenIff(statuses, ExtraIgnoredStatuses(cfg, ciSupport).value, floor, checks);
  }

  /**
   * With the gate open, the signals green and the PR not merged, a PR whose
   * `mergeable` is not `True` or whose `mergeable_state` is not a good one is
   * refused with both values printed in the reason.
   */
  lemma MergeIssueReported(
    pr: PullRequest, cfg: Yaml, ciSupport: seq<string>,
    statuses: seq<Status>, floor: int, checks: seq<CheckSuite>,
    merge: MergeCall -> MergeStatus)
    requires GateOpen(pr, cfg)
    requires ExtraIgnoredStatuses(cfg, ciSupport).Ok?
    requires SignalsGreen(statuses, ExtraIgnoredStatuses(cfg, ciSupport).value, floor, checks)
    requires !pr.isMerged
    requires pr.mergeable != Some(true) || pr.mergeableState !in GoodMergeStates
    ensures AutomergePr(pr, cfg, ciSupport, statuses, floor, checks, merge)
              == Ok((false, "PR merge issue: mergeable|mergeable_state = " + ShowBool(pr.mergeable) + "|" + pr.mergeableState))
    ensures Contains(AutomergePr(pr, cfg, ciSupport, statuses, floor, checks, merge).value.1, pr.mergeableState)
  {
    CheckPrAllows(pr, cfg);
    SignalsGreenIff(statuses, ExtraIgnoredStatuses(cfg, ciSupport).value, floor, checks);
    var pre := "PR merge issue: mergeable|mergeable_state = " + ShowBool(pr.mergeable) + "|";
    ContainsInfix(pre, pr.mergeableState, "");
    assert pre + pr.mergeableState + "" == pre + pr.mergeableState;
  }

  /**
   * The decision raises instead of refusing exactly when the gate's look at
   * `bot.automerge` raises, or when the gate admits the PR (label included)
   * and the look at `provider.win` raises because a Windows file exists.
   */
  lemma DecisionRaises(
    pr: PullRequest, cfg: Yaml, ciSupport: seq<string>,
    statuses: seq<Status>, floor: int, checks: seq<CheckSuite>,
    merge: MergeCall -> MergeStatus)
    ensures AutomergePr(pr, cfg, ciSupport, statuses, floor, checks, merge).Raised? <==>
              || CheckPr(pr, cfg).Raised?
              || (CheckPr(pr, cfg) == Ok((true, None)) && IgnoreAppveyor(cfg, ciSupport).Raised?)
  {
  }

  /**
   * A gate refusal (another author, a title without the slug, automerge turned
   * off) is the decision's answer, with the gate's reason, whatever the rest.
   */
  lemma GateRefusalReported(
    pr: PullRequest, cfg: Yaml, ciSupport: seq<string>,
    statuses: seq<Status>, floor: int, checks: seq<CheckSuite>,
    merge: MergeCall -> MergeStatus)
    requires CheckPr(pr, cfg).Ok? && !CheckPr(pr, cfg).value.0
    ensures AutomergePr(pr, cfg, ciSupport, statuses, floor, checks, merge) == Ok((false, CheckPr(pr, cfg).value.1.value))
  {
  }

  /** The merge call is consulted only when every precondition holds: otherwise any two merge operations give the same answer. */
  lemma MergeNotConsulted(
    pr: PullRequest, cfg: Yaml, ciSupport: seq<string>,
    statuses: seq<Status>, floor: int, checks: seq<CheckSuite>,
    merge1: MergeCall -> MergeStatus, merge2: MergeCall -> MergeStatus)
    requires !MergePreconditions(pr, cfg, ciSupport, statuses, floor, checks)
    ensures AutomergePr(pr, cfg, ciSupport, statuses, floor, checks, merge1)
              == AutomergePr(pr, cfg, ciSupport, statuses, floor, checks, merge2)
  {
    CheckPrAllows(pr, cfg);
    if CheckPr(pr, cfg) == Ok((true, None)) && ExtraIgnoredStatuses(cfg, ciSupport).Ok? {
      SignalsGreenIff(statuses, ExtraIgnoredStatuses(cfg, ciSupport).value, floor, checks);
    }
  }

  /** A refused merge call is reported with the platform's message. */
  lemma MergeRefusalReported(
    pr: PullRequest, cfg: Yaml, ciSupport: seq<string>,
    statuses: seq<Status>, floor: int, checks: seq<CheckSuite>,
    merge: MergeCall -> MergeStatus)
    requires MergePreconditions(pr, cfg, ciSupport, statuses, floor, checks)
    requires !merge(MergeRequest(pr)).merged
    ensures AutomergePr(pr, cfg, ciSupport, statuses, floor, checks, merge)
              == Ok((false, "PR could not be merged: message " + merge(MergeRequest(pr)).message))
    ensures Contains(AutomergePr(pr, cfg, ciSupport, statuses, floor, checks, merge).value.1,
                     merge(MergeRequest(pr)).message)
  {
    AutomergeDecision(pr, cfg, ciSupport, statuses, floor, checks, merge);
    CheckPrAllows(pr, cfg);
    SignalsGreenIff(statuses, ExtraIgnoredStatuses(cfg, ciSupport).value, floor, checks);
    var msg := merge(MergeRequest(pr)).message;
    ContainsInfix("PR could not be merged: message ", msg, "");
    assert "PR could not be merged: message " + msg + "" == "PR could not be merged: message " + msg;
  }

  /**
   * An author who is not allowed is refused by name whatever the parsed
   * configuration, the statuses, the checks and the merge state.
   */
  lemma BadUserRefusedFirst(
    pr: PullRequest, cfg: Yaml, ciSupport: seq<string>,
    statuses: seq<Status>, floor: int, checks: seq<CheckSuite>,
    merge: MergeCall -> MergeStatus)
    requires AutomergeLabel !in pr.labels && pr.login !in AllowedUsers
    ensures AutomergePr(pr, cfg, ciSupport, statuses, floor, checks, merge)
              == Ok((false, "user " + pr.login + " cannot automerge"))
    ensures Contains(AutomergePr(pr, cfg, ciSupport, statuses, floor, checks, merge).value.1, "user " + pr.login)
  {
    CheckPrOrder(pr, cfg);
  }

  // ---------------------------------------------------------------------------
  // Cases from the package's tests
  // ---------------------------------------------------------------------------

  /** Check-suite cases without data: an empty list, and only GitHub Actions' own suite. */
  lemma ChecksWithoutData()
    ensures ChecksResult([]) == None
    ensures ChecksResult([CheckSuite(App("github-actions"), "blah", "blah")]) == None
  {
    CollapseLastWins(Entries([]), IgnoredChecks);
    var es := Entries([CheckSuite(App("github-actions"), "blah", "blah")]);
    assert es[0].key == "github-actions";
    CollapseLastWins(es, IgnoredChecks);
  }

  /** Pending suites and failing suites both give `False`, never `None`. */
  lemma ChecksPendingOrFailing()
    ensures ChecksResult([CheckSuite(App("c1"), "blah", "blah"), CheckSuite(App("c2"), "blah", "blah")]) == Some(false)
    ensures ChecksResult([CheckSuite(App("c1"), "completed", "error"), CheckSuite(App("c2"), "completed", "failure")])
              == Some(false)
  {
    var pending := Entries([CheckSuite(App("c1"), "blah", "blah"), CheckSuite(App("c2"), "blah", "blah")]);
    assert pending[1] == Entry("c2", None) && IsLast(pending, 1);
    CollapseLastWins(pending, IgnoredChecks);
    var failing := Entries([CheckSuite(App("c1"), "completed", "error"), CheckSuite(App("c2"), "completed", "failure")]);
    assert failing[1] == Entry("c2", Some(false)) && IsLast(failing, 1);
    CollapseLastWins(failing, IgnoredChecks);
  }

  /** All suites passing gives `True`; one pending beside a passing one gives `False`. */
  lemma ChecksPassingOrMixed()
    ensures ChecksResult([CheckSuite(App("c1"), "completed", "success"), CheckSuite(App("c2"), "completed", "success")])
              == Some(true)
    ensures ChecksResult([CheckSuite(App("c1"), "blah", "success"), CheckSuite(App("c2"), "completed", "success")])
              == Some(false)
  {
    var passing := Entries([CheckSuite(App("c1"), "completed", "success"), CheckSuite(App("c2"), "completed", "success")]);
    assert passing == [Entry("c1", Some(true)), Entry("c2", Some(true))];
    CollapseLastWins(passing, IgnoredChecks);
    var mixed := Entries([CheckSuite(App("c1"), "blah", "success"), CheckSuite(App("c2"), "completed", "success")]);
    assert mixed == [Entry("c1", None), Entry("c2", Some(true))];
    assert IsLast(mixed, 0);
    CollapseLastWins(mixed, IgnoredChecks);
  }

  /** A later suite of the same slug overwrites an earlier failing one. */
  lemma LaterSuiteRescues()
    ensures ChecksResult([CheckSuite(App("c1"), "completed", "failure"), CheckSuite(App("c1"), "completed", "success")])
              == Some(true)
  {
    var es := Entries([CheckSuite(App("c1"), "completed", "failure"), CheckSuite(App("c1"), "completed", "success")]);
    assert es == [Entry("c1", Some(false)), Entry("c1", Some(true))];
    assert es[1].key == es[0].key;
    assert !IsLast(es, 0);
    CollapseLastWins(es, IgnoredChecks);
  }

  /** A later suite of the same slug overwrites an earlier passing one, even with a pending state. */
  lemma LaterSuiteOverwrites()
    ensures ChecksResult([CheckSuite(App("c1"), "completed", "success"), CheckSuite(App("c1"), "in_progress", "")])
              == Some(false)
  {
    var es := Entries([CheckSuite(App("c1"), "completed", "success"), CheckSuite(App("c1"), "in_progress", "")]);
    assert es[1] == Entry("c1", None) && IsLast(es, 1);
    CollapseLastWins(es, IgnoredChecks);
  }

  /** Status cases without data: only the linter, or nothing at all. */
  lemma StatusesWithoutData()
    ensures StatusesResult([Status("conda-forge-linter", "success", 5)], None, 0) == None
    ensures StatusesResult([], None, 0) == None
  {
    CollapseStatuses([Status("conda-forge-linter", "success", 5)], Policy(None, 0));
    CollapseStatuses([], Policy(None, 0));
  }

  /** A context on the extra list is skipped like the linter, leaving no data. */
  lemma ExtraContextIgnored()
    ensures StatusesResult([Status("conda-forge-linter", "success", 5), Status("blah", "cess", 5)], Some(["blah"]), 0)
              == None
  {
    var pol := Policy(Some(["blah"]), 0);
    assert pol.ignored == ["conda-forge-linter", "blah"];
    CollapseStatuses([Status("conda-forge-linter", "success", 5), Status("blah", "cess", 5)], pol);
  }

  /** Of two statuses of one context, the later one decides. */
  lemma LaterStatusWins()
    ensures StatusesResult([Status("blah", "pending", 5), Status("blah", "success", 6)], None, 0) == Some(true)
  {
    var pol := Policy(None, 0);
    var ss := [Status("blah", "pending", 5), Status("blah", "success", 6)];
    assert Authoritative(ss, pol, 1) && Reduce(ss[1], pol) == Some(true);
    assert ContextPasses(ss, pol, "blah");
    CollapseStatuses(ss, pol);
  }

  /** The later status decides even when it is listed first. */
  lemma LaterStatusWinsListedFirst()
    ensures StatusesResult([Status("blah", "success", 6), Status("blah", "failure", 5)], None, 0) == Some(true)
  {
    var pol := Policy(None, 0);
    var ss := [Status("blah", "success", 6), Status("blah", "failure", 5)];
    assert Authoritative(ss, pol, 0) && Reduce(ss[0], pol) == Some(true);
    assert ContextPasses(ss, pol, "blah");
    CollapseStatuses(ss, pol);
  }

  /** Of two statuses of one context with the same time, the earlier one is kept. */
  lemma StatusTieKeepsEarlier()
    ensures StatusesResult([Status("blah", "success", 5), Status("blah", "pending", 5)], None, 0) == Some(true)
    ensures StatusesResult([Status("blah", "pending", 5), Status("blah", "success", 5)], None, 0) == Some(false)
  {
    var pol := Policy(None, 0);
    var ss := [Status("blah", "success", 5), Status("blah", "pending", 5)];
    assert Authoritative(ss, pol, 0) && Reduce(ss[0], pol) == Some(true);
    assert ContextPasses(ss, pol, "blah");
    CollapseStatuses(ss, pol);
    var tt := [Status("blah", "pending", 5), Status("blah", "success", 5)];
    assert Reduce(tt[0], pol) == None && !Authoritative(tt, pol, 1);
    assert !ContextPasses(tt, pol, "blah");
    CollapseStatuses(tt, pol);
  }

  /** A pending context gives `False`. */
  lemma PendingContextBlocks()
    ensures StatusesResult([Status("blah", "pending", 5), Status("blah1", "pending", 6)], None, 0) == Some(false)
  {
    var pol := Policy(None, 0);
    var ss := [Status("blah", "pending", 5), Status("blah1", "pending", 6)];
    assert Reduce(ss[0], pol) == None && !ContextPasses(ss, pol, "blah");
    CollapseStatuses(ss, pol);
  }

  /** Failing and erroring contexts give `False`. */
  lemma FailingContextBlocks()
    ensures StatusesResult([Status("blah", "failure", 5), Status("blah1", "error", 6)], None, 0) == Some(false)
  {
    var pol := Policy(None, 0);
    var ss := [Status("blah", "failure", 5), Status("blah1", "error", 6)];
    assert Reduce(ss[0], pol) == Some(false) && !ContextPasses(ss, pol, "blah");
    CollapseStatuses(ss, pol);
  }

  /** Every context passing gives `True`. */
  lemma PassingContexts()
    ensures StatusesResult([Status("blah", "success", 5), Status("blah1", "success", 6)], None, 0) == Some(true)
  {
    var pol := Policy(None, 0);
    var ss := [Status("blah", "success", 5), Status("blah1", "success", 6)];
    assert Authoritative(ss, pol, 0) && Reduce(ss[0], pol) == Some(true);
    assert Authoritative(ss, pol, 1) && Reduce(ss[1], pol) == Some(true);
    assert ContextPasses(ss, pol, "blah") && ContextPasses(ss, pol, "blah1");
    CollapseStatuses(ss, pol);
  }

  /** A status no later than the initial time leaves its context at `None`, which blocks. */
  lemma StaleStatusBlocks()
    ensures StatusesResult([Status("blah", "success", 0)], None, 0) == Some(false)
  {
    var pol := Policy(None, 0);
    var ss := [Status("blah", "success", 0)];
    assert !Authoritative(ss, pol, 0);
    assert !ContextPasses(ss, pol, "blah");
    CollapseStatuses(ss, pol);
  }

  /**
   * Decision cases: a feedstock whose configuration leaves automerge off, and
   * the extra ignored contexts with and without Windows builds on AppVeyor.
   */
  lemma DecisionExamples(pr: PullRequest)
    requires AutomergeLabel !in pr.labels && pr.login == "regro-cf-autotick-bot" && pr.title == "[bot-automerge] blah"
    ensures CheckPr(pr, YMap(map[])) == Ok((false, Some(TurnedOffMessage)))
    ensures CheckPr(pr, YMap(map["bot" := YMap(map[])])) == Ok((false, Some(TurnedOffMessage)))
    ensures CheckPr(pr, YMap(map["bot" := YMap(map["automerge" := YBool(false)])])) == Ok((false, Some(TurnedOffMessage)))
    ensures ExtraIgnoredStatuses(
              YMap(map["bot" := YMap(map["automerge" := YBool(true)]), "provider" := YMap(map["win" := YStr("appveyor")])]),
              ["win_.yaml", "linux_.yaml"]) == Ok(None)
    ensures ExtraIgnoredStatuses(YMap(map["bot" := YMap(map["automerge" := YBool(true)])]), ["osx_.yaml", "linux_.yaml"])
              == Ok(Some([AppveyorContext]))
  {
    assert OccursAt(pr.title, TitleSlug, 0);
    ContainsIff(pr.title, TitleSlug);
    assert IsWinYaml("win_.yaml");
  }
}
