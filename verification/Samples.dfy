/** What the components of the samples share (samples/Samples.h). */
module Samples {

  /** Identity of one allocation of a streaming session; never used for a second allocation. */
  type Handle = nat

  /** DEFAULT_MAX_CONCURRENT_STREAMING_SESSION */
  const MAX_SESSIONS := 10

  const HUNDREDS_OF_NANOS_IN_A_SECOND := 10_000_000

  ghost predicate Distinct(list: seq<nat>) {
    forall i, j :: 0 <= i < j < |list| ==> list[i] != list[j]
  }
}
