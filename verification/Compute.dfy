/** The compute a member offers and the compute a challenge runs on. */
module Compute {
  datatype OfferedCompute = Cpu(cores: nat) | Gpu

  datatype ComputeType = CpuChallenge | GpuChallenge

  /** CPU offers consider only CPU challenges, GPU offers only GPU challenges. */
  predicate MatchesChallenge(offer: OfferedCompute, challenge: ComputeType) {
    (offer.Cpu? && challenge.CpuChallenge?) || (offer.Gpu? && challenge.GpuChallenge?)
  }
}
