/**
 The tour's configuration: the initial POI table and the factor that widens
 a trigger radius into the "approaching" band.
 */
module Constants {
  import opened Types

  /** How much further than the trigger radius a POI counts as approached. */
  const ApproachMultiplier: real := 2.5

  /** Trigger radius of every configured POI, in metres. */
  const TourRadius: real := 70.0

  /** The configured POIs, in display order, all starting `Idle`. */
  const InitialPois: seq<POI> := [
    POI("poi_rua_tremembe", TourRadius, Idle),
    POI("poi_rotatoria_horto", TourRadius, Idle),
    POI("poi_antiga_estacao_tremembe", TourRadius, Idle),
    POI("poi_prefeitura_tremembe", TourRadius, Idle)
  ]

  /**
   The outer edge of the "approaching" band of a POI. For a positive trigger
   radius the band strictly contains the trigger disc, so every in-range POI
   is also within the band.
   */
  function ApproachBand(p: POI): (band: real)
    ensures p.radius > 0.0 ==> band > p.radius
    ensures p.radius >= 0.0 ==> p.radius <= band
  {
    p.radius * ApproachMultiplier
  }

  /**
   The configuration is well formed: ids are non-empty and pairwise distinct, every radius
   is positive (all are 70 m), every POI starts `Idle`, and the approach
   multiplier exceeds one.
   */
  lemma InitialPoisWellFormed()
    ensures |InitialPois| == 4
    ensures UniqueIds(InitialPois)
    ensures forall i :: 0 <= i < |InitialPois| ==> |InitialPois[i].id| > 0
    ensures forall i :: 0 <= i < |InitialPois| ==> InitialPois[i].radius == 70.0 && InitialPois[i].radius > 0.0
    ensures forall i :: 0 <= i < |InitialPois| ==> InitialPois[i].status == Idle
    ensures ApproachMultiplier > 1.0
    ensures forall i :: 0 <= i < |InitialPois| ==> ApproachBand(InitialPois[i]) == 175.0
  {
  }
}
