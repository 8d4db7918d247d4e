/** Automated triage: the confidence label of a detection, a fixed-order
    decision list over the periodogram's detection strength (SDE), the transit
    depth, and the light curve's largest deviation and standard deviation. */
module Triage {

  datatype Confidence = SingleTransit | High | Low {

    /** The label written into the log and the CSV row. */
    function Label(): string {
      match this
      case SingleTransit => "SINGLE TRANSIT"
      case High => "HIGH"
      case Low => "LOW"
    }
  }

  const SingleMaxSde: real := 10.0
  const SingleMinDepth: real := 0.0015
  const DipSigmas: real := 3.0
  const HighMinSde: real := 15.0

  /** A weak periodic signal with a deep, isolated dip: a possible single
      transit. `fluxStd` is the standard deviation of the normalised flux
      (not the parts-per-million noise figure). */
  predicate IsSingleTransit(sde: real, depth: real, maxDip: real, fluxStd: real) {
    sde < SingleMaxSde && depth > SingleMinDepth && maxDip > DipSigmas * fluxStd
  }

  /** First matching rule wins: single transit, then high strength, else low.
      Because a single transit needs SDE below 10 and HIGH needs at least 15,
      HIGH is decided by the SDE alone. */
  function Classify(sde: real, depth: real, maxDip: real, fluxStd: real): (c: Confidence)
    ensures c == SingleTransit <==> sde < 10.0 && depth > 0.0015 && maxDip > 3.0 * fluxStd
    ensures c == High <==> sde >= 15.0
    ensures c == Low <==> sde < 15.0 && !IsSingleTransit(sde, depth, maxDip, fluxStd)
  {
    if IsSingleTransit(sde, depth, maxDip, fluxStd) then SingleTransit
    else if sde >= HighMinSde then High
    else Low
  }

  /** The single-transit test and the HIGH threshold never hold together, so
      the order of the first two rules does not change any label. */
  lemma SingleAndHighDisjoint(sde: real, depth: real, maxDip: real, fluxStd: real)
    ensures !(IsSingleTransit(sde, depth, maxDip, fluxStd) && sde >= HighMinSde)
  {
  }

  /** Every SDE in [10, 15) is LOW, whatever the other statistics. */
  lemma MiddleStrengthIsLow(sde: real, depth: real, maxDip: real, fluxStd: real)
    requires 10.0 <= sde < 15.0
    ensures Classify(sde, depth, maxDip, fluxStd) == Low
  {
  }
}
