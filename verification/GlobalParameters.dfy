/** `global_parameters`: how densely the sequences sample their pointers. */
module GlobalParameters {
  datatype Parameters = Parameters(efLogSampling0: nat, efLogSampling1: nat, rbLogRank1Sampling: nat, rbLogSampling1: nat)
}
