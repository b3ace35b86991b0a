/** What the node driver and the operator share: a node's answer to a health check, and the unit
    of time, in nanoseconds. */
module Common {
  const MINUTE: int := 60_000_000_000

  const ACTION_NONE := "NoAction"
  const ACTION_NO_PODS := "NoEligiblePods"
  const ACTION_REPAIRED := "Repaired"
  const ACTION_ERROR := "Error"

  datatype Answer = Answer(response: string, podCount: nat, text: string)
}
