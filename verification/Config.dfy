/** Constants and thresholds of the consensus. */
module Config {

  const CONSENSUS_MAX_ITER: nat := 50

  const PROPOSAL_COMMITTEE_CREDITS: nat := 1
  const VALIDATION_COMMITTEE_CREDITS: nat := 64
  const RATIFICATION_COMMITTEE_CREDITS: nat := 64

  const EMERGENCY_MODE_ITERATION_THRESHOLD: nat := 16

  const MESSAGE_MAX_FAILED_ITERATIONS: nat := 8

  // One DUSK, in Lux
  const DUSK: nat := 1_000_000_000
  const DEFAULT_MINIMUM_STAKE: nat := 1000 * DUSK

  datatype StepName = Proposal | Validation | Ratification

  function StepIndex(name: StepName): (r: nat)
    ensures r < 3
  {
    match name
    case Proposal => 0
    case Validation => 1
    case Ratification => 2
  }

  /** `iteration * 3 + step` in eight bits. */
  function ToStep(name: StepName, iteration: nat): (r: nat)
    ensures r < 256
    ensures iteration < 85 ==> r / 3 == iteration && r % 3 == StepIndex(name)
  {
    (iteration * 3 + StepIndex(name)) % 256
  }

  /** For one kind of step, step numbers tell any two iterations apart, wrapped or
      not. */
  lemma SameStep(name: StepName, i: nat, j: nat)
    requires i < 256 && j < 256
    ensures ToStep(name, i) == ToStep(name, j) <==> i == j
  {
    var a, b := i * 3 + StepIndex(name), j * 3 + StepIndex(name);
    assert a == a / 256 * 256 + a % 256 && b == b / 256 * 256 + b % 256;
    if a % 256 == b % 256 {
      assert 3 * (i - j) == 256 * (a / 256 - b / 256);
    }
  }

  /** `floor(value / 2) + 1` */
  function Majority(value: nat): nat {
    value / 2 + 1
  }

  /** `ceil(value / 3 * 2)` */
  function Supermajority(value: nat): nat {
    (2 * value + 2) / 3
  }

  predicate IsEmergencyIter(iter: nat) {
    iter >= EMERGENCY_MODE_ITERATION_THRESHOLD
  }

  /** The iteration after this one; the last one is followed by itself. */
  function NextIter(iter: nat): (r: nat)
    ensures iter < CONSENSUS_MAX_ITER ==> iter <= r < CONSENSUS_MAX_ITER
    ensures r == iter || r < CONSENSUS_MAX_ITER
  {
    if iter >= CONSENSUS_MAX_ITER - 1 then iter else iter + 1
  }

  predicate ExcludeNextGenerator(iter: nat) {
    iter < CONSENSUS_MAX_ITER - 1
  }
}
