/**
 * The check-run variant of the reductions (`automerge_pr.py`): checks keyed by
 * their name, statuses by their context, and the Windows-provider policy.
 */
module AutomergePr {
  import opened Wrappers
  import opened Signals
  import opened Config

  /** The action ignores its own check run. */
  const IgnoredChecks: seq<string> := ["regro-cf-autotick-bot-action"]

  /** The linter status is always ignored since it is not reliable. */
  const IgnoredStatuses: seq<string> := ["conda-forge-linter"]

  const NeutralStates: seq<string> := ["pending"]
  const BadStates: seq<string> := ["failure", "error"]

  /** Each check run filed under its name, with its state. */
  function Entries(checks: seq<CheckRun>): seq<Entry>
  {
    seq(|checks|, i requires 0 <= i < |checks| =>
      Entry(checks[i].name, CheckVerdict(checks[i].status, checks[i].conclusion, BadStates)))
  }

  /** The check result the loop below computes. */
  function ChecksResult(checks: seq<CheckRun>): Tri
  {
    Collapse(LastWins(Entries(checks), IgnoredChecks))
  }

  /**
   * Folds the check runs into a dictionary keyed by name, the last run of a
   * name overwriting earlier ones, and collapses it: `None` without data,
   * `False` when any kept run is pending or failing, else `True`.
   */
  method CheckGithubChecks(checks: seq<CheckRun>) returns (state: Tri)
    ensures state == ChecksResult(checks)
    ensures state == None <==> forall i | 0 <= i < |checks| :: checks[i].name in IgnoredChecks
    ensures state == Some(true) <==> AllLastPass(Entries(checks), IgnoredChecks)
  {
    var checkStates: map<string, Tri> := map[];
    for i := 0 to |checks|
      invariant checkStates == LastWins(Entries(checks[..i]), IgnoredChecks)
    {
      var check := checks[i];
      assert Entries(checks[..i + 1])[..i] == Entries(checks[..i]);
      if check.name !in IgnoredChecks {
        if check.status != "completed" {
          checkStates := checkStates[check.name := None];
        } else if check.conclusion in BadStates {
          checkStates := checkStates[check.name := Some(false)];
        } else {
          checkStates := checkStates[check.name := Some(true)];
        }
      }
    }
    assert checks[..|checks|] == checks;
    CollapseLastWins(Entries(checks), IgnoredChecks);
    assert forall i | 0 <= i < |checks| :: Entries(checks)[i].key == checks[i].name;
    if |checkStates| == 0 {
      state := None;
    } else if !AllPass(checkStates) {
      state := Some(false);
    } else {
      state := Some(true);
    }
  }

  /** The contexts skipped: the linter plus the caller's extra list (`None` meaning none). */
  function IgnoredContexts(extraIgnoredStatuses: Option<seq<string>>): seq<string>
  {
    IgnoredStatuses + extraIgnoredStatuses.GetOr([])
  }

  function Policy(extraIgnoredStatuses: Option<seq<string>>, floor: int): StatusPolicy
  {
    StatusPolicy(IgnoredContexts(extraIgnoredStatuses), NeutralStates, BadStates, floor)
  }

  /** The status result the loop below computes; `floor` stands for the "really old" initial time. */
  function StatusesResult(statuses: seq<Status>, extraIgnoredStatuses: Option<seq<string>>, floor: int): Tri
  {
    Collapse(Verdicts(StatusStates(statuses, Policy(extraIgnoredStatuses, floor))))
  }

  /**
   * Keeps, per context not ignored by exact match, the state of the status
   * with the strictly latest time (a tie keeps the earlier one), then
   * collapses: `None` without data, `False` when any kept state is pending or
   * failing, else `True`.
   */
  method CheckGithubStatuses(statuses: seq<Status>, extraIgnoredStatuses: Option<seq<string>>, floor: int)
    returns (state: Tri)
    ensures state == StatusesResult(statuses, extraIgnoredStatuses, floor)
    ensures state == None <==>
              forall i | 0 <= i < |statuses| :: statuses[i].context in IgnoredContexts(extraIgnoredStatuses)
    ensures state == Some(true) <==> AllContextsPass(statuses, Policy(extraIgnoredStatuses, floor))
  {
    var extra := extraIgnoredStatuses.GetOr([]);
    ghost var pol := Policy(extraIgnoredStatuses, floor);
    var statusStates: map<string, (Tri, int)> := map[];
    for i := 0 to |statuses|
      invariant statusStates == StatusStates(statuses[..i], pol)
    {
      var status := statuses[i];
      assert statuses[..i + 1][..i] == statuses[..i];
      if status.context in IgnoredStatuses + extra {
        continue;
      }
      if status.context !in statusStates {
        statusStates := statusStates[status.context := (None, floor)];
      }
      if status.state in NeutralStates {
        if status.updatedAt > statusStates[status.context].1 {
          statusStates := statusStates[status.context := (None, status.updatedAt)];
        }
      } else if status.state in BadStates {
        if status.updatedAt > statusStates[status.context].1 {
          statusStates := statusStates[status.context := (Some(false), status.updatedAt)];
        }
      } else {
        if status.updatedAt > statusStates[status.context].1 {
          statusStates := statusStates[status.context := (Some(true), status.updatedAt)];
        }
      }
    }
    assert statuses[..|statuses|] == statuses;
    CollapseStatuses(statuses, pol);
    assert Verdicts(statusStates).Keys == statusStates.Keys;
    if |statusStates| == 0 {
      state := None;
    } else if !(forall context | context in statusStates :: statusStates[context].0 == Some(true)) {
      state := Some(false);
    } else {
      state := Some(true);
    }
  }

  /**
   * Whether the AppVeyor status can be ignored: always when no `win*.yaml`
   * exists under `.ci_support`, otherwise only when `provider.win` (default
   * `azure`) is `azure` or `default`. The lookup raises when `conda-forge.yml`
   * or its `provider` entry is not a mapping.
   */
  function IgnoreAppveyor(cfg: Yaml, ciSupport: seq<string>): (r: Result<bool>)
    ensures r == Ok(true) <==>
              || (forall f | f in ciSupport :: !IsWinYaml(f))
              || GetNested(cfg, "provider", "win", YStr("azure")) in {Ok(YStr("azure")), Ok(YStr("default"))}
    ensures r.Raised? <==>
              (exists f | f in ciSupport :: IsWinYaml(f)) && GetNested(cfg, "provider", "win", YStr("azure")).Raised?
    // Corollaries of the two clauses above, spelled out for the cases the tests exercise.
    ensures (forall f | f in ciSupport :: !IsWinYaml(f)) ==> r == Ok(true)
    ensures cfg.YMap? && "provider" !in cfg.entries ==> r == Ok(true)
    ensures r == Ok(false) ==> exists f | f in ciSupport :: IsWinYaml(f)
  {
    var fnames := WinYamlFiles(ciSupport);
    if |fnames| == 0 then Ok(true)
    else
      assert fnames[0] in fnames;
      var win :- GetNested(cfg, "provider", "win", YStr("azure"));
      Ok(win in [YStr("azure"), YStr("default")])
  }

  /** The cases the package's tests exercise: no Windows file, provider unset or azure, and appveyor. */
  lemma IgnoreAppveyorExamples()
    ensures IgnoreAppveyor(YMap(map[]), ["osx_.yaml", "linux_.yaml"]) == Ok(true)
    ensures IgnoreAppveyor(YMap(map[]), ["linux_.yaml"]) == Ok(true)
    ensures IgnoreAppveyor(YMap(map["provider" := YMap(map[])]), ["linux_.yaml"]) == Ok(true)
    ensures IgnoreAppveyor(YMap(map["provider" := YMap(map["win" := YStr("azure")])]), ["linux_.yaml"]) == Ok(true)
    ensures IgnoreAppveyor(YMap(map["provider" := YMap(map["win" := YStr("appveyor")])]), ["win_.yaml", "linux_.yaml"])
              == Ok(false)
  {
    assert IsWinYaml("win_.yaml");
  }
}
