/**
 The proximity-driven reconciliation effect of the tour screen: on each run it
 looks at the tracking flag, the welcome screen, the current location and the
 POI list, picks the closest POI that may play, emits pause/start commands for
 the single audio element and writes back a status for every POI.

 Distances are not computed here: a location is given as the sequence of
 distances, in metres, from the device to each POI, in list order.
 */
module Reconciler {
  import opened Types
  import opened Constants

  /** The state the effect reads and writes: the POI list and the playback slot. */
  datatype State = State(pois: seq<POI>, slot: Option<Id>)

  /**
   The outcome of one run: the new state, the commands sent to the audio
   element in order, and whether the run wrote the POI list or the slot.
   Both are dependencies of the effect, so a write makes React run the
   effect again with the same location.
   */
  datatype Run = Run(state: State, commands: seq<Command>, rerun: bool)

  /** The state the screen starts in: the configured POIs and an empty slot. */
  function Initial(): (s: State)
    ensures s.slot == None
    ensures |s.pois| == 4 && UniqueIds(s.pois)
    ensures forall i :: 0 <= i < |s.pois| ==> s.pois[i].status == Idle && s.pois[i].radius > 0.0
  {
    InitialPoisWellFormed();
    State(InitialPois, None)
  }

  // ---------------------------------------------------------------------------
  // Candidate selection
  // ---------------------------------------------------------------------------

  /** A POI may be chosen when it is not finished and the device is inside its trigger radius. */
  predicate Eligible(p: POI, d: real) {
    !p.status.IsTerminal() && d <= p.radius
  }

  /**
   `best` is the choice of a left-to-right scan of the first `n` POIs that
   keeps the first POI it meets at a strictly smaller distance: it is
   eligible, no eligible POI among the first `n` is closer, and every
   eligible POI before it is strictly farther. `None` means none of the
   first `n` POIs is eligible.
   */
  ghost predicate ClosestSoFar(pois: seq<POI>, dist: seq<real>, n: nat, best: Option<nat>)
    requires |dist| == |pois| && n <= |pois|
  {
    match best
    case None =>
      forall j :: 0 <= j < n ==> !Eligible(pois[j], dist[j])
    case Some(b) =>
      && b < n
      && Eligible(pois[b], dist[b])
      && (forall j :: 0 <= j < n && Eligible(pois[j], dist[j]) ==> dist[b] <= dist[j])
      && (forall j :: 0 <= j < b && Eligible(pois[j], dist[j]) ==> dist[b] < dist[j])
  }

  /**
   The `forEach` scan: the running minimum starts at infinity (`None`), and a
   POI replaces the current best only when it is eligible and strictly closer.
   */
  function Scan(pois: seq<POI>, dist: seq<real>, i: nat, best: Option<nat>): (r: Option<nat>)
    requires |dist| == |pois| && i <= |pois|
    requires ClosestSoFar(pois, dist, i, best)
    ensures ClosestSoFar(pois, dist, |pois|, r)
    decreases |pois| - i
  {
    if i == |pois| then best
    else if Eligible(pois[i], dist[i]) && (best.None? || dist[i] < dist[best.value]) then
      Scan(pois, dist, i + 1, Some(i))
    else
      Scan(pois, dist, i + 1, best)
  }

  /**
   The index of the POI to play, if any: the closest eligible POI, the
   earliest in list order among equally close ones.
   */
  function Candidate(pois: seq<POI>, dist: seq<real>): (c: Option<nat>)
    requires |dist| == |pois|
    ensures c.Some? ==> c.value < |pois| && Eligible(pois[c.value], dist[c.value])
    ensures c.Some? ==> forall j :: 0 <= j < |pois| && Eligible(pois[j], dist[j]) ==> dist[c.value] <= dist[j]
    ensures c.Some? ==> forall j :: 0 <= j < c.value && Eligible(pois[j], dist[j]) ==> dist[c.value] < dist[j]
    ensures c.None? <==> forall j :: 0 <= j < |pois| ==> !Eligible(pois[j], dist[j])
  {
    Scan(pois, dist, 0, None)
  }

  /**
   The slot the run aims for: the candidate's id when there is a candidate,
   otherwise whatever holds the slot now, even a POI the device has left.
   */
  function Target(s: State, dist: seq<real>): (next: Option<Id>)
    requires |dist| == |s.pois|
  {
    var c := Candidate(s.pois, dist);
    if c.Some? then Some(s.pois[c.value].id) else s.slot
  }

  /**
   The commands of a slot change: pause the audio if the slot was occupied,
   then start the new target. Nothing when the target is the current holder.
   The branch for "no target but an occupied slot" only writes the slot.
   */
  function SlotCommands(slot: Option<Id>, next: Option<Id>): seq<Command>
  {
    if next.Some? && next != slot then
      (if slot.Some? then [Pause] else []) + [Start(next.value)]
    else []
  }

  // ---------------------------------------------------------------------------
  // Status projection
  // ---------------------------------------------------------------------------

  /**
   The status a POI is shown with after a run that saw `slot` as the slot
   holder and `d` as its distance.
   */
  function Projected(p: POI, slot: Option<Id>, d: real): Status
  {
    if p.status.IsTerminal() then p.status
    else if slot == Some(p.id) then Playing
    else if d <= ApproachBand(p) then Approaching
    else Idle
  }

  /**
   The status write-back: finished POIs keep their status, the holder of
   `slot` (the slot as it was BEFORE the run) shows `Playing`, and every
   other POI shows `Approaching` inside its approach band and `Idle` outside.
   */
  function Project(pois: seq<POI>, slot: Option<Id>, dist: seq<real>): (r: seq<POI>)
    requires |dist| == |pois|
    ensures SameGeometry(pois, r)
    ensures forall i :: 0 <= i < |pois| && pois[i].status.IsTerminal() ==> r[i] == pois[i]
    ensures forall i :: 0 <= i < |pois| && !pois[i].status.IsTerminal() ==>
      && !r[i].status.IsTerminal()
      && (r[i].status == Playing <==> slot == Some(pois[i].id))
      && (slot != Some(pois[i].id) ==> (r[i].status == Approaching <==> dist[i] <= ApproachBand(pois[i])))
    ensures UniqueIds(pois) ==> AtMostOnePlaying(r)
  {
    seq(|pois|, i requires 0 <= i < |pois| => pois[i].(status := Projected(pois[i], slot, dist[i])))
  }

  // ---------------------------------------------------------------------------
  // Guard branch
  // ---------------------------------------------------------------------------

  /** The tracking-off normalisation: every `Approaching` or `Playing` POI goes back to `Idle`. */
  function Normalize(pois: seq<POI>): (r: seq<POI>)
    ensures SameGeometry(pois, r)
    ensures forall i :: 0 <= i < |pois| ==>
      r[i].status == (if pois[i].status == Approaching || pois[i].status == Playing then Idle else pois[i].status)
  {
    seq(|pois|, i requires 0 <= i < |pois| =>
      if pois[i].status == Approaching || pois[i].status == Playing then pois[i].(status := Idle) else pois[i])
  }

  /**
   The tracking-off branch as the effect performs it: pause and release an
   occupied slot, demote its holder from `Playing`, then normalise every POI.
   The normalisation is a functional update that always builds a new list,
   so the run always counts as a write.
   */
  function ResetAsWritten(s: State): (r: Run)
    ensures r.rerun
    ensures r.state.slot == None
    ensures r.commands == (if s.slot.Some? then [Pause] else [])
    ensures SameGeometry(s.pois, r.state.pois)
    ensures forall i :: 0 <= i < |s.pois| ==>
      (s.pois[i].status in {Idle, Played, Error} ==> r.state.pois[i] == s.pois[i])
      && (s.pois[i].status in {Approaching, Playing} ==> r.state.pois[i].status == Idle)
  {
    var stopped := if s.slot.Some? then SetStatusOfPlaying(s.pois, s.slot.value) else s.pois;
    Run(State(Normalize(stopped), None), if s.slot.Some? then [Pause] else [], true)
  }

  /** The holder's own demotion: the POI with this id goes from `Playing` to `Idle`. */
  function SetStatusOfPlaying(pois: seq<POI>, id: Id): (r: seq<POI>)
    ensures SameGeometry(pois, r)
    ensures forall i :: 0 <= i < |pois| ==>
      r[i].status == (if pois[i].id == id && pois[i].status == Playing then Idle else pois[i].status)
  {
    seq(|pois|, i requires 0 <= i < |pois| =>
      if pois[i].id == id && pois[i].status == Playing then pois[i].(status := Idle) else pois[i])
  }

  /**
   The tracking-off branch with the write made conditional on a change, as
   the main branch already does: the slot is released, `Approaching` and
   `Playing` POIs become `Idle`, and the run writes only if that changed
   something.
   */
  function Reset(s: State): (r: Run)
    ensures r.state.slot == None
    ensures r.commands == (if s.slot.Some? then [Pause] else [])
    ensures SameGeometry(s.pois, r.state.pois)
    ensures forall i :: 0 <= i < |s.pois| ==>
      (s.pois[i].status in {Idle, Played, Error} ==> r.state.pois[i] == s.pois[i])
      && (s.pois[i].status in {Approaching, Playing} ==> r.state.pois[i].status == Idle)
    ensures r.rerun <==> r.state != s
  {
    var w := ResetAsWritten(s);
    w.(rerun := w.state != s)
  }

  // ---------------------------------------------------------------------------
  // One run of the effect
  // ---------------------------------------------------------------------------

  /** The run does the reconciliation proper: tracking, welcome screen dismissed, location known. */
  predicate Active(tracking: bool, welcome: bool, loc: Option<seq<real>>) {
    !welcome && tracking && loc.Some?
  }

  /**
   One run of the reconciliation effect. `loc` is `None` when no location
   is known and otherwise holds the distance to each POI.
   */
  function Tick(s: State, tracking: bool, welcome: bool, loc: Option<seq<real>>): (r: Run)
    requires loc.Some? ==> |loc.value| == |s.pois|
    ensures SameGeometry(s.pois, r.state.pois)
    // Guard: welcome screen, or tracking without a location: nothing changes.
    ensures welcome || (tracking && loc.None?) ==> r.state == s && r.commands == []
    // Guard: tracking off with the welcome screen gone: release the slot and normalise.
    ensures !welcome && !tracking ==>
      && r.state.slot == None
      && r.commands == (if s.slot.Some? then [Pause] else [])
      && forall i :: 0 <= i < |s.pois| ==>
           (s.pois[i].status in {Idle, Played, Error} ==> r.state.pois[i] == s.pois[i])
           && (s.pois[i].status in {Approaching, Playing} ==> r.state.pois[i].status == Idle)
    // Targeting: a candidate takes the slot, even from another holder; without one the slot stays.
    ensures Active(tracking, welcome, loc) ==>
      var c := Candidate(s.pois, loc.value);
      && (c.Some? ==> r.state.slot == Some(s.pois[c.value].id))
      && (c.None? ==> r.state.slot == s.slot)
    // Commands: none when the slot stays; otherwise pause an occupied slot, then start the target.
    ensures Active(tracking, welcome, loc) ==>
      && (r.state.slot == s.slot ==> r.commands == [])
      && (r.state.slot != s.slot ==>
            r.state.slot.Some? && r.commands == (if s.slot.Some? then [Pause] else []) + [Start(r.state.slot.value)])
    // Projection: statuses are written from the slot as it was before the run.
    ensures Active(tracking, welcome, loc) ==> r.state.pois == Project(s.pois, s.slot, loc.value)
    // In every branch finished POIs keep their status. The tracking-off branch
    // always writes; every other branch writes exactly when it changes the state.
    ensures forall i :: 0 <= i < |s.pois| && s.pois[i].status.IsTerminal() ==> r.state.pois[i] == s.pois[i]
    ensures !welcome && !tracking ==> r.rerun
    ensures welcome || tracking ==> (r.rerun <==> r.state != s)
  {
    if welcome || (tracking && loc.None?) then
      Run(s, [], false)
    else if !tracking then
      ResetAsWritten(s)
    else
      var dist := loc.value;
      var next := Target(s, dist);
      var pois := Project(s.pois, s.slot, dist);
      Run(State(pois, next), SlotCommands(s.slot, next), pois != s.pois || next != s.slot)
  }

  /**
   A run with the tracking-off branch replaced by the conditional-write
   `Reset`: the same state and commands as `Tick`, but the run writes
   exactly when it changes the state, in every branch.
   */
  function TickCorrected(s: State, tracking: bool, welcome: bool, loc: Option<seq<real>>): (r: Run)
    requires loc.Some? ==> |loc.value| == |s.pois|
    ensures r.state == Tick(s, tracking, welcome, loc).state
    ensures r.commands == Tick(s, tracking, welcome, loc).commands
    ensures r.rerun <==> r.state != s
  {
    if !welcome && !tracking then Reset(s) else Tick(s, tracking, welcome, loc)
  }
}
