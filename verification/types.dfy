/**
 The entities of the audio tour: a point of interest (POI) with its trigger
 radius and its place in the status lifecycle, and the commands the
 reconciler sends to the single audio element.
 Geometry other than the trigger radius, the name, the description and the
 audio locator are not part of this model: the reconciler never reads them
 except through a distance, which the model receives as an input.
 */
module Types {

  datatype Option<+T> = None | Some(value: T)

  /** POI identifiers are plain strings, as in the configuration table. */
  type Id = string

  /** The five statuses a POI can show. `Played` and `Error` are terminal. */
  datatype Status = Idle | Approaching | Playing | Played | Error {
    predicate IsTerminal() {
      this == Played || this == Error
    }
  }

  /** A POI as the reconciler sees it: identity, trigger radius in metres, status. */
  datatype POI = POI(id: Id, radius: real, status: Status)

  /** What a reconciliation run asks of the audio element. */
  datatype Command = Pause | Start(id: Id)

  /** No two POIs share an id. */
  ghost predicate UniqueIds(pois: seq<POI>) {
    forall i, j :: 0 <= i < |pois| && 0 <= j < |pois| && pois[i].id == pois[j].id ==> i == j
  }

  /** At most one POI shows `Playing`. */
  ghost predicate AtMostOnePlaying(pois: seq<POI>) {
    forall i, j :: 0 <= i < |pois| && 0 <= j < |pois| && pois[i].status == Playing && pois[j].status == Playing ==> i == j
  }

  /** `after` is `before` with only statuses rewritten: same length, ids and radii. */
  ghost predicate SameGeometry(before: seq<POI>, after: seq<POI>) {
    && |after| == |before|
    && forall i :: 0 <= i < |before| ==> after[i].id == before[i].id && after[i].radius == before[i].radius
  }

  /**
   Rewrites the status of every POI whose id is `id` and leaves every other
   POI as it was; the `map(p => p.id === x ? {...p, status} : p)` idiom of
   the event handlers.
   */
  function SetStatusOf(pois: seq<POI>, id: Id, st: Status): (r: seq<POI>)
    ensures SameGeometry(pois, r)
    ensures forall i :: 0 <= i < |pois| && pois[i].id == id ==> r[i].status == st
    ensures forall i :: 0 <= i < |pois| && pois[i].id != id ==> r[i] == pois[i]
  {
    seq(|pois|, i requires 0 <= i < |pois| => if pois[i].id == id then pois[i].(status := st) else pois[i])
  }
}
