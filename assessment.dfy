/** The two threshold labels of the report: habitable-zone status from the
    insolation and the observing hemisphere from the declination. */
module Assessment {

  datatype HzStatus = InHabitableZone | OutsideHz {

    function Label(): string {
      match this
      case InHabitableZone => "IN HABITABLE ZONE"
      case OutsideHz => "OUTSIDE HZ"
    }
  }

  /** Insolation band (in Earth fluxes) counted as habitable, both ends included. */
  const HzMin: real := 0.5
  const HzMax: real := 2.0

  function HabitableZone(insolation: real): (s: HzStatus)
    ensures s == InHabitableZone <==> 0.5 <= insolation <= 2.0
  {
    if HzMin <= insolation <= HzMax then InHabitableZone else OutsideHz
  }

  /** The habitable zone is an interval: anything between two habitable
      insolations is habitable too. */
  lemma HabitableZoneIsInterval(low: real, x: real, high: real)
    requires HabitableZone(low) == InHabitableZone && HabitableZone(high) == InHabitableZone
    requires low <= x <= high
    ensures HabitableZone(x) == InHabitableZone
  {
  }

  datatype Hemisphere = North | South {

    function Label(): string {
      match this
      case North => "North"
      case South => "South"
    }
  }

  /** The celestial equator (declination 0) counts as North. */
  function HemisphereOf(dec: real): (h: Hemisphere)
    ensures h == North <==> dec >= 0.0
  {
    if dec >= 0.0 then North else South
  }
}
