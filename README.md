# conda-forge automerge action: merge-readiness model

This project models the merge-readiness logic of the conda-forge automerge
action (`conda_forge_tick_action`). The action decides whether a pull request
on a feedstock may be squash-merged, and it explains every refusal. The
decision rests on four parts:

- **Check reduction.** The check records are folded into a dictionary keyed
  by reporter. The last record of a reporter wins. The dictionary then
  collapses to a tri-state result: `None` (no data), `False` (something
  pending or failing) or `True`. There are three copies:
  - `automerge.py` reads check suites keyed by app slug;
  - `automerge_pr.py` reads check runs keyed by name;
  - `automerge_pr/github_checks.py` also returns a message.
- **Status reduction.** Commit statuses are grouped by context. The contexts
  on an exact-match ignore list are dropped. Each context keeps the state of
  its strictly latest status, and the result collapses the same way.
- **The gate and the provider policy.**
  - The `automerge` label lets a PR through.
  - Otherwise the author must be the bot, the title must carry
    `[bot-automerge]`, and the feedstock's `conda-forge.yml` must set
    `bot.automerge`.
  - The AppVeyor status is ignored unless Windows builds exist and
    `provider.win` selects a provider other than `azure` or `default`.
- **The decision sequence.** The decision returns at the first refusal, in
  this order:
  1. the gate;
  2. failing statuses;
  3. failing checks;
  4. no data at all;
  5. a PR that is already merged;
  6. a PR that is not mergeable;
  7. the merge call itself.

Modules:

- `Wrappers`: `Option`, and `Result` for Python exceptions.
- `Text`: Python's substring test `in`.
- `Config`: a YAML value with Python truthiness and `dict.get`, plus the
  `win*.yaml` glob over a directory listing.
- `Signals`: the shared reference definitions of both reductions:
  - the per-record verdicts;
  - `LastWins` for checks;
  - `StatusStates` for statuses;
  - `Collapse`;
  - the reference predicates `AllLastPass` and `AllContextsPass`, with the
    theorems tying them to the folds.
- `Defaults`, `GithubChecks`, `AutomergePr`, `Automerge`: one module per
  source file.

The dictionary-filling loops are methods with loop invariants. Each is proved
against the `Signals` fold and against the reference predicate. The gate, the
provider policy and the decision are functions, because the source writes
them as early-return logic.

Timestamps are integers. The "really old" initial time that
`_check_github_statuses` gives a new context is the parameter `floor`. The
listing of `.ci_support` is a parameter. The platform's merge call is a
function parameter `merge`.

The tests in `tests/test_automerge_pr.py` import `automerge_pr` from the
`automerge_pr` module, but that module's file does not define it. Their
messages, order and `extra_ignored_statuses` values match `automerge.py`, so
the decision is modelled from `automerge.py`.

## Model

| member | source | states |
|---|---|---|
| `Signals.LastWinsKeys` | conda_forge_tick_action/automerge.py:55-65 | a reporter is in the checks dictionary iff some record carries it and it is not ignored |
| `Signals.LastWinsValue` | conda_forge_tick_action/automerge.py:56-65 | the dictionary holds, for each reporter, the verdict of its last record in input order (earlier records are overwritten unconditionally) |
| `Signals.LastExists` | conda_forge_tick_action/automerge.py:56-65 | every record's reporter has a last record at or after it |
| `Signals.CollapseLastWins` | conda_forge_tick_action/automerge.py:67-76 | the collapsed checks result is `None` iff every record is ignored, and `True` iff some record counts and every counted last record passes; otherwise `False`, never `None` |
| `Signals.StatusKeys` | conda_forge_tick_action/automerge.py:104-113 | a context is in the status dictionary iff some status has it and it is not ignored |
| `Signals.StatusBounds` | conda_forge_tick_action/automerge.py:109-129 | a kept timestamp is at least the initial time; a kept timestamp equal to the initial time has state `None`; no status of the context is newer than the kept one |
| `Signals.StatusWitness` | conda_forge_tick_action/automerge.py:115-129 | a kept entry above the initial time is the verdict and time of an authoritative status of that context |
| `Signals.StatusAuthoritative` | conda_forge_tick_action/automerge.py:115-129 | the authoritative status (strictly newer than all earlier, no later one newer) is the one kept, so a tie keeps the earlier status |
| `Signals.CollapseStatuses` | conda_forge_tick_action/automerge.py:134-140 | the collapsed status result is `None` iff every status is ignored, and `True` iff some context counts and each counted context has a passing authoritative status |
| `Text.ContainsIff` | conda_forge_tick_action/automerge.py:169 | the substring test holds iff the slug occurs at some position of the title |
| `Text.ContainsInfix` | conda_forge_tick_action/automerge.py:166 | a string contains any piece it was built from, so a reason built around a login or message contains it |
| `Text.ShowBool` | conda_forge_tick_action/automerge.py:219-220 | `%s` of `pr.mergeable` prints `None` exactly for `None`, `True` exactly for `True` and `False` exactly for `False` |
| `Config.GetNested` | conda_forge_tick_action/automerge.py:29 | `cfg.get(outer, {}).get(inner, default)` raises iff the config or the outer entry is not a mapping, gives the default when the keys are missing, else the stored value |
| `Config.WinYamlFiles` | conda_forge_tick_action/automerge.py:145-147 | the glob result holds exactly the listed names matching `win*.yaml` |
| `Defaults.IgnoredChecksExact` | conda_forge_tick_action/automerge_pr/defaults.py:7 | only `regro-cf-autotick-bot-action` is ignored |
| `Defaults.StateListsExact` | conda_forge_tick_action/automerge_pr/defaults.py:10-11 | bad states are exactly `failure` and `error`, neutral exactly `pending`, and any other completed conclusion passes |
| `Defaults.StateListsDisjoint` | conda_forge_tick_action/automerge_pr/defaults.py:10-11 | no state is both neutral and bad |
| `GithubChecks.CheckGithubChecks` | conda_forge_tick_action/automerge_pr/github_checks.py:8-29 | the loop computes the last-wins collapse; state `None` iff every run is the action's own; `True` iff every counted last run passes; a message is present iff the state is `False`, and it is "PR has failing or in progress checks" |
| `AutomergePr.CheckGithubChecks` | conda_forge_tick_action/automerge_pr.py:21-55 | the loop computes the name-keyed last-wins collapse; `None` iff every run is the action's own; `True` iff every counted last run passes |
| `AutomergePr.CheckGithubStatuses` | conda_forge_tick_action/automerge_pr.py:58-119 | the loop computes the strictly-latest collapse; `None` iff every context is ignored by exact match; `True` iff every counted context has a passing authoritative status |
| `AutomergePr.IgnoreAppveyor` | conda_forge_tick_action/automerge_pr.py:122-147 | true iff there is no `win*.yaml` or `provider.win` (default `azure`) is `azure` or `default`; it raises iff a Windows file exists and `conda-forge.yml` or its `provider` entry is not a mapping; false only with a Windows file |
| `AutomergePr.IgnoreAppveyorExamples` | conda_forge_tick_action/tests/test_ignore_appveyor.py:9-61 | no Windows file, an empty provider or `azure` ignore AppVeyor; `appveyor` with `win_.yaml` keeps it |
| `Automerge.AutomergeMe` | conda_forge_tick_action/automerge.py:26-29 | the lookup raises iff the config or `bot` is not a mapping; otherwise the answer is `bot.automerge` when present and `False` when `bot` or `automerge` is missing, so a truthy answer means `bot.automerge` is present and truthy |
| `Automerge.IgnoreAppveyor` | conda_forge_tick_action/automerge.py:143-157 | as in the check-run package: true iff there is no `win*.yaml` or `provider.win` (default `azure`) is `azure` or `default`; raises iff a Windows file exists and the lookup meets a non-mapping |
| `Automerge.ExtraIgnoredStatuses` | conda_forge_tick_action/automerge.py:192-198 | the extra contexts are the AppVeyor context exactly when AppVeyor is ignored, and `None` exactly when it is not |
| `Automerge.CheckGithubChecks` | conda_forge_tick_action/automerge.py:41-76 | the loop computes the slug-keyed last-wins collapse; `None` iff every suite is GitHub Actions'; `True` iff every counted last suite passes |
| `Automerge.CheckGithubStatuses` | conda_forge_tick_action/automerge.py:79-140 | the loop computes the strictly-latest collapse; `None` iff every context is the linter or an extra one; `True` iff every counted context has a passing authoritative status |
| `Automerge.CheckPr` | conda_forge_tick_action/automerge.py:160-176 | a refusal always carries a reason and an admission never does; it raises exactly for an unlabelled PR by an allowed author whose title has the slug when `conda-forge.yml` or its `bot` entry is not a mapping |
| `Automerge.CheckPrAllows` | conda_forge_tick_action/automerge.py:160-176 | the gate admits a PR iff it has the label, or its author is allowed, its title contains the slug and `bot.automerge` is truthy |
| `Automerge.CheckPrOrder` | conda_forge_tick_action/automerge.py:160-176 | the label wins first; then a bad author is refused with a reason naming the login; then a title without the slug; then automerge turned off |
| `Automerge.AutomergePr` | conda_forge_tick_action/automerge.py:179-233 | a successful decision reports "all is well :)" and the merge call was accepted |
| `Automerge.SignalsGreenIff` | conda_forge_tick_action/automerge.py:200-211 | the three signal tests pass iff statuses and checks each have no data or all pass, and not both have no data |
| `Automerge.AutomergeDecision` | conda_forge_tick_action/automerge.py:179-233 | the PR is merged iff the gate is open, the signals are green, the PR is unmerged, mergeable and in a good merge state, and the platform accepts the squash merge of the head commit |
| `Automerge.OnlyFalseBlocks` | conda_forge_tick_action/automerge.py:200-211 | with no status data, no check data gives "No checks or statuses have returned success", while passing checks alone are enough to merge |
| `Automerge.AbsentChecksDoNotBlock` | conda_forge_tick_action/automerge.py:204-211 | with no check data, passing statuses alone are enough to merge |
| `Automerge.FailingChecksBlock` | conda_forge_tick_action/automerge.py:204-207 | once the statuses do not block, a counted slug whose last suite is pending or failing refuses with "PR has failing or pending checks" |
| `Automerge.AlreadyMergedRefused` | conda_forge_tick_action/automerge.py:214-215 | with the gate open and the signals green, a merged PR is refused with "PR has already been merged" |
| `Automerge.MergeIssueReported` | conda_forge_tick_action/automerge.py:216-220 | with the gate open, the signals green and the PR unmerged, a `mergeable` other than `True` or a `mergeable_state` outside the good states is refused with both values printed |
| `Automerge.FailingStatusBlocks` | conda_forge_tick_action/automerge.py:200-201 | a counted context without a passing authoritative status refuses with "PR has failing or pending statuses" whatever the checks |
| `Automerge.MergeRefusalReported` | conda_forge_tick_action/automerge.py:223-231 | when everything else holds and the merge call is refused, the reason embeds the platform's message |
| `Automerge.DecisionRaises` | conda_forge_tick_action/automerge.py:184-198 | the decision raises instead of refusing exactly when the gate's `bot.automerge` lookup raises, or when the gate admits the PR (a labelled one included) and the `provider.win` lookup raises |
| `Automerge.GateRefusalReported` | conda_forge_tick_action/automerge.py:184-187 | any gate refusal (another author, a title without the slug, automerge turned off) is the decision's answer with the gate's reason, whatever the statuses, checks, merge state and merge call |
| `Automerge.MergeNotConsulted` | conda_forge_tick_action/automerge.py:184-227 | when any precondition of the merge fails, the decision does not depend on the merge operation: the merge call is made only after every check has passed |
| `Automerge.BadUserRefusedFirst` | conda_forge_tick_action/automerge.py:184-187 | an unlabelled PR by another author is refused by name whatever the parsed configuration, the statuses, the checks and the merge state; no status or check is consulted |
| `Automerge.ChecksWithoutData` | conda_forge_tick_action/tests/test_github_checks.py:4-18 | no suites, or only GitHub Actions', give `None` |
| `Automerge.ChecksPendingOrFailing` | conda_forge_tick_action/tests/test_github_checks.py:21-52 | pending suites and failing suites give `False` |
| `Automerge.ChecksPassingOrMixed` | conda_forge_tick_action/tests/test_github_checks.py:55-86 | all passing gives `True`; a pending suite beside a passing one gives `False` |
| `Automerge.LaterSuiteRescues` | conda_forge_tick_action/automerge.py:56-65 | a later passing suite of a slug overwrites an earlier failing one |
| `Automerge.LaterSuiteOverwrites` | conda_forge_tick_action/automerge.py:56-65 | a later pending suite of a slug overwrites an earlier passing one |
| `Automerge.StatusesWithoutData` | conda_forge_tick_action/tests/test_github_statuses.py:17-37 | only the linter, or no statuses, give `None` |
| `Automerge.ExtraContextIgnored` | conda_forge_tick_action/tests/test_github_statuses.py:24-32 | a context on the extra list is skipped, leaving `None` |
| `Automerge.LaterStatusWins` | conda_forge_tick_action/tests/test_github_statuses.py:40-47 | the newer status of a context decides |
| `Automerge.LaterStatusWinsListedFirst` | conda_forge_tick_action/automerge.py:115-129 | the newer status decides even when it is listed before an older failing one |
| `Automerge.StatusTieKeepsEarlier` | conda_forge_tick_action/automerge.py:115-129 | of two statuses with the same time the earlier one is kept |
| `Automerge.PendingContextBlocks` | conda_forge_tick_action/tests/test_github_statuses.py:50-57 | pending contexts give `False` |
| `Automerge.FailingContextBlocks` | conda_forge_tick_action/tests/test_github_statuses.py:60-67 | failing and erroring contexts give `False` |
| `Automerge.PassingContexts` | conda_forge_tick_action/tests/test_github_statuses.py:70-77 | all passing contexts give `True` |
| `Automerge.StaleStatusBlocks` | conda_forge_tick_action/automerge.py:109-113 | a status no later than the initial time leaves its context at `None`, which gives `False` |
| `Automerge.DecisionExamples` | conda_forge_tick_action/tests/test_automerge_pr.py:38-144 | an empty config, an empty `bot` entry or `automerge: False` turn merges off; AppVeyor on Windows gives no extra contexts, no Windows files give the AppVeyor context |

## Left out

- `_get_checks` (`automerge.py:32-38`) is an HTTP request with a retry policy. Only its output, the list of check suites, is modelled.
- Loading `conda-forge.yml`, reading `GITHUB_WORKSPACE` and the glob over `.ci_support` are file-system access. The parsed config and the directory listing are parameters. The source loads `conda-forge.yml` before the gate (`automerge.py:181-182`), so a missing workspace, a missing file or a YAML error raises before any refusal, the refusal of another author included.
- YAML scalars other than null, booleans, integers, strings, lists and mappings are not modelled, and neither is their truthiness. Floats and dates are examples.
- `datetime.datetime.now()` is a clock. The initial time of a new context is the parameter `floor`. The source evaluates it anew for each new context; the model uses one value per call.
- The check suite's `conclusion`, which the API may send as JSON null, is a string.
- `repo.get_commit`, `get_statuses`, `pr.is_merged`, `pr.mergeable` and `pr.merge` are calls into PyGithub. The model receives their answers as values, and `merge` as a function.
- The logging calls are not modelled.
- The public wrapper `automerge_pr` (`automerge.py:236-268`) only logs and returns the pair `_automerge_pr` computes, so it is not modelled.
- The entry point `__main__.py`, `api_sessions.py`, the scripts, the live tests and `setup.py` are plumbing. They are not part of this model.
- Python dictionary iteration order matters only for logging, so the dictionaries are Dafny maps.
- Automerge.AutomergePr: its own contract states only the success direction. The full if-and-only-if is `Automerge.AutomergeDecision`. The refusal reasons are stated by `Automerge.GateRefusalReported` with `Automerge.CheckPrOrder` and `Automerge.BadUserRefusedFirst` (the gate's reasons carried to the decision), `Automerge.FailingStatusBlocks`, `Automerge.FailingChecksBlock`, `Automerge.OnlyFalseBlocks` (no data), `Automerge.AlreadyMergedRefused`, `Automerge.MergeIssueReported` and `Automerge.MergeRefusalReported`.
