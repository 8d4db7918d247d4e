/** Stellar parameter resolution: the catalog row of a target becomes the
    stellar parameters the rest of the pipeline uses (script/argos_exolab_v2.1.py,
    `estimate_spectral_type` and the first lines of the per-target block). */
module Stellar {
  import opened Wrappers

  /** Spectral class of the host star, coolest first. */
  datatype SpectralType = M | K | G | F {

    /** The letter written into the report and the CSV row. */
    function Letter(): string {
      match this
      case M => "M"
      case K => "K"
      case G => "G"
      case F => "F"
    }

    /** Position of the class on the temperature scale. */
    function Rank(): nat {
      match this
      case M => 0
      case K => 1
      case G => 2
      case F => 3
    }
  }

  /** Upper temperature bounds (K) of the M, K and G bands. */
  const MUpper: real := 3800.0
  const KUpper: real := 5300.0
  const GUpper: real := 6000.0

  /** The temperature band of each class as a table of half-open intervals,
      each closed at its lower end: M below 3800 K, K in [3800, 5300),
      G in [5300, 6000), F from 6000 K up. */
  predicate InBand(teff: real, t: SpectralType) {
    match t
    case M => teff < MUpper
    case K => MUpper <= teff && teff < KUpper
    case G => KUpper <= teff && teff < GUpper
    case F => GUpper <= teff
  }

  /** Classifies the host star from its effective temperature, testing the
      thresholds from the coolest up. Total: every temperature lands in the
      band of the class returned. */
  function EstimateSpectralType(teff: real): (t: SpectralType)
    ensures InBand(teff, t)
  {
    if teff < MUpper then M
    else if teff < KUpper then K
    else if teff < GUpper then G
    else F
  }

  /** The bands do not overlap, so the class of a temperature is exactly the
      one band containing it. */
  lemma SpectralTypeIsTheBand(teff: real, t: SpectralType)
    ensures EstimateSpectralType(teff) == t <==> InBand(teff, t)
  {
  }

  /** A hotter star never gets a cooler class. */
  lemma SpectralTypeMonotone(cool: real, hot: real)
    requires cool <= hot
    ensures EstimateSpectralType(cool).Rank() <= EstimateSpectralType(hot).Rank()
  {
  }

  /** Each boundary temperature belongs to the hotter band. */
  lemma BoundariesBelongToHotterBand()
    ensures EstimateSpectralType(3800.0) == K
    ensures EstimateSpectralType(5300.0) == G
    ensures EstimateSpectralType(6000.0) == F
  {
  }

  /** Solar values substituted for a catalog entry that is NaN. */
  const SolarRadius: real := 1.0
  const SolarTeff: real := 5778.0

  /** One row of the stellar catalog as returned by the lookup: radius and
      effective temperature may be absent (NaN); magnitude and coordinates are
      taken as they come. */
  datatype CatalogRow = CatalogRow(rad: Option<real>, teff: Option<real>, tmag: real, ra: real, dec: real)

  /** Stellar parameters after resolution: radius and temperature always defined. */
  datatype Star = Star(radius: real, teff: real, mag: real, ra: real, dec: real, spectral: SpectralType)

  /** Resolves a catalog row: an absent radius becomes one solar radius, an
      absent temperature the solar 5778 K, present values pass through, and the
      spectral class is that of the resolved temperature. */
  function ResolveStar(row: CatalogRow): (s: Star)
    ensures row.rad.None? ==> s.radius == SolarRadius
    ensures row.rad.Some? ==> s.radius == row.rad.value
    ensures row.teff.None? ==> s.teff == SolarTeff
    ensures row.teff.Some? ==> s.teff == row.teff.value
    ensures s.mag == row.tmag && s.ra == row.ra && s.dec == row.dec
    ensures InBand(s.teff, s.spectral)
  {
    var radius := row.rad.GetOr(SolarRadius);
    var teff := row.teff.GetOr(SolarTeff);
    Star(radius, teff, row.tmag, row.ra, row.dec, EstimateSpectralType(teff))
  }

  /** The catalog row that reports a star's parameters in full. */
  function CompleteRow(s: Star): CatalogRow {
    CatalogRow(Some(s.radius), Some(s.teff), s.mag, s.ra, s.dec)
  }

  /** Resolution loses nothing: a row carrying all of a star's parameters
      resolves back to that star, provided its class matches its temperature. */
  lemma ResolveCompleteRow(s: Star)
    requires InBand(s.teff, s.spectral)
    ensures ResolveStar(CompleteRow(s)) == s
  {
    SpectralTypeIsTheBand(s.teff, s.spectral);
  }

  /** A row with both values missing resolves to a solar-type (G) star. */
  lemma MissingValuesGiveTheSun(tmag: real, ra: real, dec: real)
    ensures var s := ResolveStar(CatalogRow(None, None, tmag, ra, dec));
            s.radius == 1.0 && s.teff == 5778.0 && s.spectral == G
  {
  }
}
