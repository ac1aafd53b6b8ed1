/**
 Properties of the reconciler that relate several runs or several events:
 the choice of candidate is characterised independently of the scan, the
 status projection is a fixed point, repeated runs with the same inputs
 settle, and every state reachable from the initial one keeps the playback
 slot exclusive and finished POIs finished.
 */
module Properties {
  import opened Types
  import opened Constants
  import opened Reconciler
  import opened Playback

  // ---------------------------------------------------------------------------
  // Candidate selection
  // ---------------------------------------------------------------------------

  /**
   The closest-eligible characterisation determines the candidate: any index
   that is eligible, no farther than any eligible POI and strictly closer
   than every eligible POI before it is the one the scan returns.
   */
  lemma CandidateUnique(pois: seq<POI>, dist: seq<real>, c: Option<nat>)
    requires |dist| == |pois|
    requires ClosestSoFar(pois, dist, |pois|, c)
    ensures c == Candidate(pois, dist)
  {
  }

  /** Two POI lists with the same eligibility at every position yield the same candidate. */
  lemma CandidateByEligibility(a: seq<POI>, b: seq<POI>, dist: seq<real>)
    requires |a| == |b| == |dist|
    requires forall i :: 0 <= i < |a| ==> Eligible(a[i], dist[i]) == Eligible(b[i], dist[i])
    ensures Candidate(a, dist) == Candidate(b, dist)
  {
    var c := Candidate(a, dist);
    assert ClosestSoFar(b, dist, |b|, c);
    CandidateUnique(b, dist, c);
  }

  /**
   Writing statuses back does not change the next run's choice: the
   projection keeps every finished POI finished and every other POI
   unfinished, and radii are untouched.
   */
  lemma CandidateAfterProject(pois: seq<POI>, slot: Option<Id>, dist: seq<real>)
    requires |dist| == |pois|
    ensures Candidate(Project(pois, slot, dist), dist) == Candidate(pois, dist)
  {
    var p := Project(pois, slot, dist);
    forall i | 0 <= i < |pois|
      ensures Eligible(p[i], dist[i]) == Eligible(pois[i], dist[i])
    {
      if pois[i].status.IsTerminal() {
        assert p[i] == pois[i];
      }
    }
    CandidateByEligibility(p, pois, dist);
  }

  // ---------------------------------------------------------------------------
  // Projection and settling
  // ---------------------------------------------------------------------------

  /** Projecting twice with the same slot and distances is projecting once. */
  lemma ProjectIdempotent(pois: seq<POI>, slot: Option<Id>, dist: seq<real>)
    requires |dist| == |pois|
    ensures Project(Project(pois, slot, dist), slot, dist) == Project(pois, slot, dist)
  {
    var p := Project(pois, slot, dist);
    var q := Project(p, slot, dist);
    assert |q| == |p|;
    forall i | 0 <= i < |p|
      ensures q[i] == p[i]
    {
      assert p[i].id == pois[i].id && p[i].radius == pois[i].radius;
    }
  }

  /**
   Runs with unchanged inputs settle: the slot is final after one run, the
   statuses after two, and a third run sends no command. Outside the
   tracking-off branch the third run also writes nothing, so the effect
   stops re-running itself; in the tracking-off branch every run writes.
   */
  lemma Settles(s: State, tracking: bool, welcome: bool, loc: Option<seq<real>>)
    requires loc.Some? ==> |loc.value| == |s.pois|
    ensures
      var r1 := Tick(s, tracking, welcome, loc);
      var r2 := Tick(r1.state, tracking, welcome, loc);
      var r3 := Tick(r2.state, tracking, welcome, loc);
      && r2.state.slot == r1.state.slot
      && r3.state == r2.state
      && r3.commands == []
      && (welcome || tracking ==> !r3.rerun)
      && (!welcome && !tracking ==> r3.rerun)
  {
    var r1 := Tick(s, tracking, welcome, loc);
    var r2 := Tick(r1.state, tracking, welcome, loc);
    if Active(tracking, welcome, loc) {
      var dist := loc.value;
      CandidateAfterProject(s.pois, s.slot, dist);
      CandidateAfterProject(r1.state.pois, r1.state.slot, dist);
      ProjectIdempotent(r1.state.pois, r1.state.slot, dist);
      var c := Candidate(s.pois, dist);
      if c.Some? {
        assert r2.state.slot == Some(r1.state.pois[c.value].id);
      }
      assert r2.state.slot == r1.state.slot;
    } else if !welcome && !tracking {
      assert r2.state.slot == None;
      assert r2.state.pois == r1.state.pois;
    }
  }

  /** With the conditional-write reset, runs with unchanged inputs settle in every branch. */
  lemma SettlesCorrected(s: State, tracking: bool, welcome: bool, loc: Option<seq<real>>)
    requires loc.Some? ==> |loc.value| == |s.pois|
    ensures
      var r1 := TickCorrected(s, tracking, welcome, loc);
      var r2 := TickCorrected(r1.state, tracking, welcome, loc);
      var r3 := TickCorrected(r2.state, tracking, welcome, loc);
      r3.state == r2.state && r3.commands == [] && !r3.rerun
  {
    Settles(s, tracking, welcome, loc);
  }

  /**
   The projection reads the slot from before the run: a newly chosen POI is
   not shown `Playing` by the run that chooses it, but that run writes the
   slot, which triggers a second run that shows it `Playing`.
   */
  lemma TargetShownOnFollowUp(s: State, dist: seq<real>)
    requires |dist| == |s.pois|
    requires Candidate(s.pois, dist).Some?
    requires s.slot != Some(s.pois[Candidate(s.pois, dist).value].id)
    ensures
      var c := Candidate(s.pois, dist).value;
      var r1 := Tick(s, true, false, Some(dist));
      var r2 := Tick(r1.state, true, false, Some(dist));
      && r1.rerun
      && r1.state.pois[c].status != Playing
      && r2.state.pois[c].status == Playing
  {
    CandidateAfterProject(s.pois, s.slot, dist);
  }

  // ---------------------------------------------------------------------------
  // The tracking-off reset
  // ---------------------------------------------------------------------------

  /**
   As written, the tracking-off branch writes a fresh POI list on every run,
   even when the list is already normalised and the slot already empty, so
   the run that follows requests yet another run: the effect never settles
   while tracking is off.
   */
  lemma ResetAsWrittenNeverSettles(s: State)
    ensures
      var r1 := ResetAsWritten(s);
      var r2 := ResetAsWritten(r1.state);
      r2.state == r1.state && r2.rerun
  {
    var r1 := ResetAsWritten(s);
    var r2 := ResetAsWritten(r1.state);
    assert r2.state.pois == r1.state.pois;
  }

  /** The loop happens from the very first state, with nothing to reset. */
  lemma ResetAsWrittenLoopsFromInitial()
    ensures ResetAsWritten(Initial()).state == Initial()
    ensures ResetAsWritten(Initial()).rerun
  {
    var s := Initial();
    assert ResetAsWritten(s).state.pois == s.pois;
  }

  /** With the write made conditional, the second tracking-off run changes and requests nothing. */
  lemma ResetSettles(s: State)
    ensures
      var r1 := Reset(s);
      var r2 := Reset(r1.state);
      r2.state == r1.state && !r2.rerun && r2.commands == []
  {
    var r1 := Reset(s);
    var r2 := Reset(r1.state);
    assert r2.state.pois == r1.state.pois;
  }

  // ---------------------------------------------------------------------------
  // Reachable states
  // ---------------------------------------------------------------------------

  /** The slot holder, when there is one, is a POI of the list that has not finished. */
  ghost predicate HolderLive(s: State) {
    s.slot.Some? ==>
      exists h :: 0 <= h < |s.pois| && s.pois[h].id == s.slot.value && !s.pois[h].status.IsTerminal()
  }

  /** What holds of every reachable state. */
  ghost predicate Inv(s: State) {
    && UniqueIds(s.pois)
    && AtMostOnePlaying(s.pois)
    && HolderLive(s)
  }

  /** Everything that can happen to the screen's state. */
  datatype Event =
    | Effect(tracking: bool, welcome: bool, loc: Option<seq<real>>)
    | Ended
    | MediaError
    | PlayRejected(id: Id)

  /** A location fits a list of `n` POIs when it gives one distance per POI. */
  predicate Fits(e: Event, n: nat) {
    e.Effect? && e.loc.Some? ==> |e.loc.value| == n
  }

  /** One event applied to the state; every event rewrites statuses only. */
  function Step(s: State, e: Event): (r: State)
    requires Fits(e, |s.pois|)
    ensures SameGeometry(s.pois, r.pois)
  {
    match e
    case Effect(tracking, welcome, loc) => Tick(s, tracking, welcome, loc).state
    case Ended => OnEnded(s)
    case MediaError => OnError(s)
    case PlayRejected(id) => OnPlayRejected(s, id)
  }

  /** The state after the events `evs`, in order. */
  function Replay(s: State, evs: seq<Event>): (r: State)
    requires forall k :: 0 <= k < |evs| ==> Fits(evs[k], |s.pois|)
    ensures SameGeometry(s.pois, r.pois)
    decreases |evs|
  {
    if evs == [] then s
    else
      var t := Step(s, evs[0]);
      Replay(t, evs[1..])
  }

  /** Rewriting statuses cannot make two ids collide. */
  lemma SameGeometryKeepsIds(a: seq<POI>, b: seq<POI>)
    requires SameGeometry(a, b)
    requires UniqueIds(a)
    ensures UniqueIds(b)
  {
    forall i, j | 0 <= i < |b| && 0 <= j < |b| && b[i].id == b[j].id
      ensures i == j
    {
      assert a[i].id == a[j].id;
    }
  }

  lemma TickPreservesInv(s: State, tracking: bool, welcome: bool, loc: Option<seq<real>>)
    requires loc.Some? ==> |loc.value| == |s.pois|
    requires Inv(s)
    ensures Inv(Tick(s, tracking, welcome, loc).state)
  {
    var r := Tick(s, tracking, welcome, loc).state;
    SameGeometryKeepsIds(s.pois, r.pois);
    if Active(tracking, welcome, loc) {
      var c := Candidate(s.pois, loc.value);
      if c.Some? {
        var h := c.value;
        assert r.pois[h].id == r.slot.value && !r.pois[h].status.IsTerminal();
      } else if s.slot.Some? {
        var h :| 0 <= h < |s.pois| && s.pois[h].id == s.slot.value && !s.pois[h].status.IsTerminal();
        assert r.pois[h].id == r.slot.value && !r.pois[h].status.IsTerminal();
      }
    } else if !welcome && !tracking {
      assert AtMostOnePlaying(r.pois) by {
        forall i | 0 <= i < |r.pois| ensures r.pois[i].status != Playing { }
      }
    }
  }

  /** The holder of an occupied slot is the only POI with its id, and it has not finished. */
  lemma HolderIsUnique(s: State, i: int)
    requires Inv(s) && s.slot.Some?
    requires 0 <= i < |s.pois| && s.pois[i].id == s.slot.value
    ensures !s.pois[i].status.IsTerminal()
  {
    var h :| 0 <= h < |s.pois| && s.pois[h].id == s.slot.value && !s.pois[h].status.IsTerminal();
    assert i == h;
  }

  lemma ReleaseSlotPreservesInv(s: State, outcome: Status)
    requires Inv(s)
    requires outcome.IsTerminal()
    ensures Inv(ReleaseSlot(s, outcome))
  {
    var r := ReleaseSlot(s, outcome);
    if s.slot.Some? {
      SameGeometryKeepsIds(s.pois, r.pois);
      assert AtMostOnePlaying(r.pois) by {
        forall i, j | 0 <= i < |r.pois| && 0 <= j < |r.pois| && r.pois[i].status == Playing && r.pois[j].status == Playing
          ensures i == j
        {
          assert s.pois[i].id != s.slot.value && s.pois[j].id != s.slot.value;
        }
      }
    }
  }

  lemma PlayRejectedPreservesInv(s: State, id: Id)
    requires Inv(s)
    ensures Inv(OnPlayRejected(s, id))
  {
    var r := OnPlayRejected(s, id);
    SameGeometryKeepsIds(s.pois, r.pois);
    assert AtMostOnePlaying(r.pois) by {
      forall i, j | 0 <= i < |r.pois| && 0 <= j < |r.pois| && r.pois[i].status == Playing && r.pois[j].status == Playing
        ensures i == j
      {
        assert s.pois[i].id != id && s.pois[j].id != id;
      }
    }
    if r.slot.Some? {
      var h :| 0 <= h < |s.pois| && s.pois[h].id == s.slot.value && !s.pois[h].status.IsTerminal();
      assert r.pois[h] == s.pois[h];
    }
  }

  lemma StepPreservesInv(s: State, e: Event)
    requires Fits(e, |s.pois|)
    requires Inv(s)
    ensures Inv(Step(s, e))
  {
    match e
    case Effect(tracking, welcome, loc) => TickPreservesInv(s, tracking, welcome, loc);
    case Ended => ReleaseSlotPreservesInv(s, Played);
    case MediaError => ReleaseSlotPreservesInv(s, Error);
    case PlayRejected(id) => PlayRejectedPreservesInv(s, id);
  }

  lemma {:induction false} ReplayPreservesInv(s: State, evs: seq<Event>)
    requires forall k :: 0 <= k < |evs| ==> Fits(evs[k], |s.pois|)
    requires Inv(s)
    ensures Inv(Replay(s, evs))
    decreases |evs|
  {
    if evs != [] {
      StepPreservesInv(s, evs[0]);
      var t := Step(s, evs[0]);
      ReplayPreservesInv(t, evs[1..]);
    }
  }

  /**
   Slot exclusivity: in every state reachable from the initial one, ids stay
   distinct, at most one POI shows `Playing`, and an occupied slot belongs
   to a POI of the list that has not finished.
   */
  lemma ReachableExclusive(evs: seq<Event>)
    requires forall k :: 0 <= k < |evs| ==> Fits(evs[k], |Initial().pois|)
    ensures AtMostOnePlaying(Replay(Initial(), evs).pois)
    ensures Inv(Replay(Initial(), evs))
  {
    var s := Initial();
    assert AtMostOnePlaying(s.pois) by {
      forall i | 0 <= i < |s.pois| ensures s.pois[i].status != Playing { }
    }
    ReplayPreservesInv(s, evs);
  }

  /**
   Terminal stability for one event: a finished POI keeps its exact status,
   except that a `play()` rejection for its own id turns it into `Error`;
   either way it stays finished.
   */
  lemma StepKeepsFinished(s: State, e: Event, i: int)
    requires Fits(e, |s.pois|)
    requires Inv(s)
    requires 0 <= i < |s.pois| && s.pois[i].status.IsTerminal()
    ensures Step(s, e).pois[i].status.IsTerminal()
    ensures !(e.PlayRejected? && e.id == s.pois[i].id) ==> Step(s, e).pois[i] == s.pois[i]
  {
    match e
    case Effect(tracking, welcome, loc) =>
    case Ended =>
      if s.slot.Some? && s.pois[i].id == s.slot.value {
        HolderIsUnique(s, i);
      }
    case MediaError =>
      if s.slot.Some? && s.pois[i].id == s.slot.value {
        HolderIsUnique(s, i);
      }
    case PlayRejected(id) =>
  }

  /** Once a reachable POI has finished, it stays finished through any later events. */
  lemma {:induction false} ReplayKeepsFinished(s: State, evs: seq<Event>, i: int)
    requires forall k :: 0 <= k < |evs| ==> Fits(evs[k], |s.pois|)
    requires Inv(s)
    requires 0 <= i < |s.pois| && s.pois[i].status.IsTerminal()
    ensures Replay(s, evs).pois[i].status.IsTerminal()
    decreases |evs|
  {
    if evs != [] {
      StepKeepsFinished(s, evs[0], i);
      StepPreservesInv(s, evs[0]);
      var t := Step(s, evs[0]);
      ReplayKeepsFinished(t, evs[1..], i);
    }
  }

  // ---------------------------------------------------------------------------
  // Worked scenarios
  // ---------------------------------------------------------------------------

  /**
   Two idle POIs with 70 m radii at 50 m and 30 m, empty slot: the run
   selects the nearer one and starts it, both show `Approaching`; the
   follow-up run shows the nearer one `Playing`.
   */
  lemma NearerPoiWins()
    ensures
      var s := State([POI("a", 70.0, Idle), POI("b", 70.0, Idle)], None);
      var r1 := Tick(s, true, false, Some([50.0, 30.0]));
      var r2 := Tick(r1.state, true, false, Some([50.0, 30.0]));
      && r1.state.slot == Some("b")
      && r1.commands == [Start("b")]
      && r1.state.pois == [POI("a", 70.0, Approaching), POI("b", 70.0, Approaching)]
      && r2.commands == []
      && r2.state.pois == [POI("a", 70.0, Approaching), POI("b", 70.0, Playing)]
  {
    var s := State([POI("a", 70.0, Idle), POI("b", 70.0, Idle)], None);
    var dist := [50.0, 30.0];
    assert Candidate(s.pois, dist) == Some(1);
    var r1 := Tick(s, true, false, Some(dist));
    assert "a" != "b";
    assert r1.state.pois == [POI("a", 70.0, Approaching), POI("b", 70.0, Approaching)];
    assert Candidate(r1.state.pois, dist) == Some(1);
  }

  /**
   There is no release margin: a playing POI 80 m away, outside its 70 m
   radius, keeps the slot and keeps showing `Playing` while nothing else is
   in range.
   */
  lemma HolderOutsideRadiusKeepsSlot()
    ensures
      var s := State([POI("b", 70.0, Playing)], Some("b"));
      var r := Tick(s, true, false, Some([80.0]));
      r.state == s && r.commands == [] && !r.rerun
  {
    var s := State([POI("b", 70.0, Playing)], Some("b"));
    assert Candidate(s.pois, [80.0]) == None;
  }

  /**
   A closer POI preempts a holder that is still inside its own radius:
   the audio is paused and the closer POI started.
   */
  lemma CloserPoiPreempts()
    ensures
      var s := State([POI("a", 70.0, Playing), POI("b", 70.0, Approaching)], Some("a"));
      var r := Tick(s, true, false, Some([60.0, 20.0]));
      r.state.slot == Some("b") && r.commands == [Pause, Start("b")]
  {
    var s := State([POI("a", 70.0, Playing), POI("b", 70.0, Approaching)], Some("a"));
    assert Candidate(s.pois, [60.0, 20.0]) == Some(1);
    assert "a" != "b";
  }
}
