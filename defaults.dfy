/** The constants of the check-run package: the action's own check and the state lists. */
module Defaults {
  import opened Wrappers
  import Signals

  /** The action ignores its own check run. */
  const IgnoredChecks: seq<string> := ["regro-cf-autotick-bot-action"]

  /** States that mean "not finished yet". */
  const NeutralStates: seq<string> := ["pending"]

  /** States and conclusions that mean "failed". */
  const BadStates: seq<string> := ["failure", "error"]

  /** Only the action's own check run is ignored. */
  lemma IgnoredChecksExact(name: string)
    ensures name in IgnoredChecks <==> name == "regro-cf-autotick-bot-action"
  {
  }

  /**
   * Only `failure` and `error` fail a completed check, so conclusions such as
   * `cancelled`, `neutral` or `timed_out` count as passing; only `pending` is neutral.
   */
  lemma StateListsExact(c: string)
    ensures c in BadStates <==> c == "failure" || c == "error"
    ensures c in NeutralStates <==> c == "pending"
    ensures c !in BadStates ==> Signals.CheckVerdict("completed", c, BadStates) == Some(true)
  {
  }

  /** No state is both neutral and bad. */
  lemma StateListsDisjoint()
    ensures forall c :: c in NeutralStates ==> c !in BadStates
  {
  }
}
