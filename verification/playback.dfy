/**
 The audio element's events as seen by the tour screen: natural end of the
 narration, a media error, and the rejection of the promise returned by
 `play()` for a given POI.
 */
module Playback {
  import opened Types
  import opened Reconciler

  /**
   Ends the session of the slot holder with `outcome`: every POI carrying
   the holder's id takes that status and the slot is emptied. Nothing
   happens when the slot is empty.
   */
  function ReleaseSlot(s: State, outcome: Status): (r: State)
    ensures s.slot.None? ==> r == s
    ensures s.slot.Some? ==>
      && r.slot == None
      && SameGeometry(s.pois, r.pois)
      && (forall i :: 0 <= i < |s.pois| && s.pois[i].id == s.slot.value ==> r.pois[i].status == outcome)
      && (forall i :: 0 <= i < |s.pois| && s.pois[i].id != s.slot.value ==> r.pois[i] == s.pois[i])
  {
    match s.slot
    case None => s
    case Some(holder) => State(SetStatusOf(s.pois, holder, outcome), None)
  }

  /** The narration finished: its POI is `Played` and the slot is free. */
  function OnEnded(s: State): (r: State)
    ensures s.slot.None? ==> r == s
    ensures s.slot.Some? ==>
      && r.slot == None
      && SameGeometry(s.pois, r.pois)
      && (forall i :: 0 <= i < |s.pois| && s.pois[i].id == s.slot.value ==> r.pois[i].status == Played)
      && (forall i :: 0 <= i < |s.pois| && s.pois[i].id != s.slot.value ==> r.pois[i] == s.pois[i])
  {
    ReleaseSlot(s, Played)
  }

  /** The media element failed: its POI is `Error` and the slot is free. */
  function OnError(s: State): (r: State)
    ensures s.slot.None? ==> r == s
    ensures s.slot.Some? ==>
      && r.slot == None
      && SameGeometry(s.pois, r.pois)
      && (forall i :: 0 <= i < |s.pois| && s.pois[i].id == s.slot.value ==> r.pois[i].status == Error)
      && (forall i :: 0 <= i < |s.pois| && s.pois[i].id != s.slot.value ==> r.pois[i] == s.pois[i])
  {
    ReleaseSlot(s, Error)
  }

  /**
   The `play()` promise for POI `id` was rejected. That POI is marked
   `Error` whatever happened since; the slot is released only if `id` still
   holds it, so a late rejection never disturbs a POI that took the slot in
   the meantime.
   */
  function OnPlayRejected(s: State, id: Id): (r: State)
    ensures SameGeometry(s.pois, r.pois)
    ensures forall i :: 0 <= i < |s.pois| && s.pois[i].id == id ==> r.pois[i].status == Error
    ensures forall i :: 0 <= i < |s.pois| && s.pois[i].id != id ==> r.pois[i] == s.pois[i]
    ensures s.slot == Some(id) ==> r.slot == None
    ensures s.slot != Some(id) ==> r.slot == s.slot
  {
    State(SetStatusOf(s.pois, id, Error), if s.slot == Some(id) then None else s.slot)
  }
}
