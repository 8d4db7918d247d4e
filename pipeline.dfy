/** One target's pass through the detection pipeline, from catalog lookup to
    the observation record. What the external services and numerical libraries
    answer for a target is given as a `TargetWorld`; the model decides, from
    those answers, whether the target succeeds, has no data, or fails. */
module Pipeline {
  import opened Wrappers
  import opened Stellar
  import opened Triage
  import opened Assessment

  /** Statistics of a downloaded light curve after normalising, flattening and
      outlier removal: the standard deviation of the normalised flux and the
      largest absolute deviation from 1.0. */
  datatype CurveStats = CurveStats(fluxStd: real, maxDip: real)

  /** What downloading a product yields: an exception, nothing (the
      download returns `None`), or a light curve. */
  datatype Fetch = Raised | Nothing | Fetched(stats: CurveStats)

  /** A light-curve product found by an archive search, described by what
      downloading it yields. */
  datatype Product = Product(download: Fetch)

  /** Results of the two archive searches, `None` for a search that raised:
      products of the SPOC pipeline, and products of any author (the second
      search runs only when the first finds nothing). */
  datatype Archive = Archive(spoc: Option<seq<Product>>, anyAuthor: Option<seq<Product>>)

  /** The product the pipeline downloads, if the searches get that far. */
  datatype Choice = SearchRaised | NoProducts | First(product: Product)

  /** Best peak of the box-least-squares periodogram. The duration is in days,
      as the periodogram reports it. */
  datatype Peak = Peak(period: real, epoch: real, sde: real, durationDays: real, depth: real)

  /** Results of the physical formulas (orbital distance, planet radius,
      equilibrium temperature, insolation), taken as given. */
  datatype Physics = Physics(distAu: real, planetRadius: real, teqK: real, insolation: real)

  /** What the outside world answers for one target. `None` in `catalog`,
      `periodogram` or `physics` stands for a lookup or computation that raised
      (`periodogram` also covers cleaning the light curve and its statistics);
      `rendered` is false when drawing or saving the identity card raised. */
  datatype TargetWorld = TargetWorld(
    catalog: Option<CatalogRow>,
    archive: Archive,
    periodogram: Option<Peak>,
    physics: Option<Physics>,
    rendered: bool)

  /** The row of the research database for one processed target. */
  datatype ObservationRecord = ObservationRecord(
    tic: nat, ra: real, dec: real, hemisphere: Hemisphere, spectral: SpectralType,
    planetRadius: real, distAu: real, teqK: real, teqC: real, insolation: real, hz: HzStatus,
    durationHours: real, noisePpm: real, sde: real, mag: real, confidence: Confidence)

  /** The stage whose exception ends a target's pass. */
  datatype FailedStage = CatalogLookup | LightCurveAcquisition | Detection | Characterization | Rendering

  /** How a target's pass ends before anything is written. */
  datatype Outcome = Success(record: ObservationRecord) | NoData | Fatal(stage: FailedStage)

  const HoursPerDay: real := 24.0
  const PartsPerMillion: real := 1000000.0
  const ZeroCelsius: real := 273.15

  /** Only the first product is used: the first SPOC product if there is
      one, else the first product of any author, else nothing. A raising search
      ends the choice, and the second search is not consulted once the first
      finds a product. */
  function ChooseProduct(a: Archive): (c: Choice)
    ensures c.SearchRaised? <==> a.spoc.None? || (a.spoc == Some([]) && a.anyAuthor.None?)
    ensures c.NoProducts? <==> a.spoc == Some([]) && a.anyAuthor == Some([])
    ensures a.spoc.Some? && a.spoc.value != [] ==> c == First(a.spoc.value[0])
    ensures a.spoc == Some([]) && a.anyAuthor.Some? && a.anyAuthor.value != [] ==> c == First(a.anyAuthor.value[0])
  {
    match a.spoc
    case None => SearchRaised
    case Some(spoc) =>
      if spoc != [] then First(spoc[0])
      else
        match a.anyAuthor
        case None => SearchRaised
        case Some(any) => if any != [] then First(any[0]) else NoProducts
  }

  /** Once the SPOC search finds a product, what the any-author search would
      answer, even an exception, makes no difference. */
  lemma SpocProductIgnoresFallback(a: Archive, fallback: Option<seq<Product>>)
    requires a.spoc.Some? && a.spoc.value != []
    ensures ChooseProduct(a.(anyAuthor := fallback)) == ChooseProduct(a)
  {
  }

  /** The light curve the pipeline works on: an exception from either search
      or from the download, nothing when no product is found or the download
      returns `None`, else the downloaded curve. */
  function AcquiredCurve(a: Archive): (f: Fetch)
    ensures f.Raised? <==>
              ChooseProduct(a).SearchRaised? || (ChooseProduct(a).First? && ChooseProduct(a).product.download.Raised?)
    ensures f.Nothing? <==>
              ChooseProduct(a).NoProducts? || (ChooseProduct(a).First? && ChooseProduct(a).product.download.Nothing?)
    ensures f.Fetched? ==> ChooseProduct(a).First? && ChooseProduct(a).product.download == f
  {
    match ChooseProduct(a)
    case SearchRaised => Raised
    case NoProducts => Nothing
    case First(p) => p.download
  }

  /** What every record states about itself, whatever the target: its labels
      agree with the thresholds they come from. */
  predicate RecordConsistent(r: ObservationRecord) {
    && (r.hemisphere == North <==> r.dec >= 0.0)
    && (r.hz == InHabitableZone <==> 0.5 <= r.insolation <= 2.0)
    && (r.confidence == High <==> r.sde >= 15.0)
    && (r.confidence == SingleTransit ==> r.sde < 10.0)
    && r.teqC == r.teqK - 273.15
  }

  /** Assembles the record of a target whose every stage succeeded. The noise
      figure is the flux standard deviation in parts per million, but triage
      compares the deepest dip with three raw standard deviations. */
  function MakeRecord(tic: nat, star: Star, stats: CurveStats, peak: Peak, phys: Physics): (r: ObservationRecord)
    ensures r.tic == tic && RecordConsistent(r)
    ensures r.ra == star.ra && r.dec == star.dec && r.mag == star.mag
    ensures r.sde == peak.sde && r.insolation == phys.insolation && r.distAu == phys.distAu
    ensures r.planetRadius == phys.planetRadius && r.teqK == phys.teqK
    ensures r.hz == HabitableZone(phys.insolation) && r.hemisphere == HemisphereOf(star.dec)
    ensures r.confidence == Classify(peak.sde, peak.depth, stats.maxDip, stats.fluxStd)
    ensures r.spectral == star.spectral
    ensures r.confidence == SingleTransit <==>
              peak.sde < 10.0 && peak.depth > 0.0015 && stats.maxDip > 3.0 * stats.fluxStd
    ensures r.durationHours == 24.0 * peak.durationDays && r.noisePpm == 1000000.0 * stats.fluxStd
  {
    ObservationRecord(
      tic, star.ra, star.dec, HemisphereOf(star.dec), star.spectral,
      phys.planetRadius, phys.distAu, phys.teqK, phys.teqK - ZeroCelsius, phys.insolation,
      HabitableZone(phys.insolation),
      peak.durationDays * HoursPerDay, stats.fluxStd * PartsPerMillion, peak.sde, star.mag,
      Classify(peak.sde, peak.depth, stats.maxDip, stats.fluxStd))
  }

  /** One target's pass, stage by stage in the order the script runs them. A
      failed catalog lookup is fatal even when the archive has no data; an
      exception from a search or the download is fatal too, while finding no
      product or downloading nothing is a no-data skip. */
  function Evaluate(tic: nat, w: TargetWorld): (o: Outcome)
    ensures w.catalog.None? <==> o == Fatal(CatalogLookup)
    ensures o == Fatal(LightCurveAcquisition) <==> w.catalog.Some? && AcquiredCurve(w.archive).Raised?
    ensures o.NoData? <==> w.catalog.Some? && AcquiredCurve(w.archive).Nothing?
    ensures o.Success? <==>
              && w.catalog.Some? && AcquiredCurve(w.archive).Fetched?
              && w.periodogram.Some? && w.physics.Some? && w.rendered
    ensures o.Success? ==>
              o.record == MakeRecord(tic, ResolveStar(w.catalog.value), AcquiredCurve(w.archive).stats,
                                     w.periodogram.value, w.physics.value)
    ensures o.Success? ==> InBand(w.catalog.value.teff.GetOr(SolarTeff), o.record.spectral)
  {
    match w.catalog
    case None => Fatal(CatalogLookup)
    case Some(row) =>
      var star := ResolveStar(row);
      match AcquiredCurve(w.archive)
      case Raised => Fatal(LightCurveAcquisition)
      case Nothing => NoData
      case Fetched(stats) =>
        match w.periodogram
        case None => Fatal(Detection)
        case Some(peak) =>
          match w.physics
          case None => Fatal(Characterization)
          case Some(phys) =>
            if !w.rendered then Fatal(Rendering)
            else Success(MakeRecord(tic, star, stats, peak, phys))
  }

  /** A successful pass yields a record of this target whose labels agree with
      their thresholds. */
  lemma SuccessIsConsistent(tic: nat, w: TargetWorld)
    requires Evaluate(tic, w).Success?
    ensures Evaluate(tic, w).record.tic == tic && RecordConsistent(Evaluate(tic, w).record)
  {
  }
}
