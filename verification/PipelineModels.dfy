/** Autonomy levels and decisions (ai-agents/shared/pipeline_models.py). */
module PipelineModels {
  import opened Prelude

  type PolicyId = string

  /** The level column is free text; the six known labels are ordered. */
  datatype Level = L0 | L1 | L2 | L3 | L4 | L5 | Unknown(text: string)

  const LEVEL_ORDER: seq<Level> := [L0, L1, L2, L3, L4, L5]

  /** `autonomy_level_index`: unknown labels count as L2. */
  function LevelIndex(level: Level): (i: nat)
    ensures i <= 5
    ensures !level.Unknown? ==> LEVEL_ORDER[i] == level
  {
    match level
    case L0 => 0
    case L1 => 1
    case L2 => 2
    case L3 => 3
    case L4 => 4
    case L5 => 5
    case Unknown(_) => 2
  }

  datatype AutonomyDecision = AutonomyDecision(
    level: Level,
    requiresApproval: bool,
    allowExecution: bool,
    policyId: Option<PolicyId>)
}
