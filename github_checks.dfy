/** The check-run reduction of the action's `automerge_pr` package, which also returns a message. */
module GithubChecks {
  import opened Wrappers
  import opened Signals
  import Defaults

  /** The message returned with a `False` state. */
  const FailingMessage: string := "PR has failing or in progress checks"

  /** Each check run filed under its name, with its state under the package's bad conclusions. */
  function Entries(checks: seq<CheckRun>): seq<Entry>
  {
    seq(|checks|, i requires 0 <= i < |checks| =>
      Entry(checks[i].name, CheckVerdict(checks[i].status, checks[i].conclusion, Defaults.BadStates)))
  }

  /**
   * Folds the check runs into a dictionary keyed by name (the last run of a
   * name wins, the action's own run is skipped) and collapses it: `(None, None)`
   * without data, `(False, message)` when any run is pending or failing, else `(True, None)`.
   */
  method CheckGithubChecks(checks: seq<CheckRun>) returns (state: Tri, message: Option<string>)
    ensures state == Collapse(LastWins(Entries(checks), Defaults.IgnoredChecks))
    ensures state == None <==> forall i | 0 <= i < |checks| :: checks[i].name in Defaults.IgnoredChecks
    ensures state == Some(true) <==> AllLastPass(Entries(checks), Defaults.IgnoredChecks)
    ensures message.Some? <==> state == Some(false)
    ensures message.Some? ==> message.value == FailingMessage
  {
    var checkStates: map<string, Tri> := map[];
    for i := 0 to |checks|
      invariant checkStates == LastWins(Entries(checks[..i]), Defaults.IgnoredChecks)
    {
      var check := checks[i];
      assert Entries(checks[..i + 1])[..i] == Entries(checks[..i]);
      if check.name !in Defaults.IgnoredChecks {
        if check.status != "completed" {
          checkStates := checkStates[check.name := None];
        } else if check.conclusion in Defaults.BadStates {
          checkStates := checkStates[check.name := Some(false)];
        } else {
          checkStates := checkStates[check.name := Some(true)];
        }
      }
    }
    assert checks[..|checks|] == checks;
    CollapseLastWins(Entries(checks), Defaults.IgnoredChecks);
    assert forall i | 0 <= i < |checks| :: Entries(checks)[i].key == checks[i].name;
    if |checkStates| == 0 {
      state, message := None, None;
    } else if !AllPass(checkStates) {
      state, message := Some(false), Some(FailingMessage);
    } else {
      state, message := Some(true), None;
    }
  }
}
