# Proximity-driven playback reconciler of the Caminhos Contados audio tour

Caminhos Contados is a location-triggered audio tour. As the device moves,
the tour screen finds the point of interest (POI) the visitor is closest to
and plays its narration. It allows one narration at a time. Each POI moves
through a small status lifecycle: `idle`, `approaching`, `playing`, and the
finished states `played` and `error`.

This project models the part of `App.tsx` that makes those decisions:

- the reconciliation effect, which runs whenever the location, the tracking
  flag, the welcome screen, the POI list or the playback slot
  (`currentlyPlayingId`) changes;
- the audio element's `ended` and `error` handlers;
- the handler for a rejected `play()` promise;
- the configuration in `constants.ts`.

Modules:

- `Types` (types.dfy): POI, status and command datatypes.
- `Constants` (constants.dfy): the initial POI table and the approach
  multiplier 2.5.
- `Reconciler` (reconciler.dfy): one run of the effect. `Tick` returns the
  new POI list and slot, the `Pause`/`Start(id)` commands, and whether the
  run wrote one of its own dependencies. Such a write makes React run the
  effect again.
- `Playback` (playback.dfy): the three playback events.
- `Properties` (properties.dfy): properties that span several runs or
  events:
  - an independent characterisation of the chosen candidate;
  - idempotence of the status projection;
  - settling of repeated runs with the same inputs;
  - slot exclusivity and terminal stability over every event sequence from
    the initial state;
  - worked scenarios.

The device location is given as one distance per POI, in list order,
instead of coordinates.

Notable behaviours of the code, which the model keeps:

- There is no release margin around the trigger radius.
- A closer in-range POI preempts the current holder, even when the holder
  is still inside its own radius.
- A holder that leaves its radius keeps the slot. The code never stops it
  for distance. The `!nextAudioTargetId && currentlyPlayingId` branch
  (App.tsx:172-178) cannot be reached, because without a candidate the
  target is the current holder.
- With tracking on but no location, the run changes nothing.
- While tracking is off and the welcome screen is dismissed, every run
  writes a fresh POI list and so schedules another run (see "## Findings").
  While the welcome screen shows, runs write nothing.
- The status projection reads the slot as it was before the run. A newly
  chosen POI is shown `playing` only by the next run, which the slot write
  triggers.

## Model

| member | source | states |
|---|---|---|
| Constants.ApproachBand | constants.ts:51-53 | For a positive trigger radius, the approach band (radius × 2.5) is strictly larger than the radius. So every POI in trigger range is also in the approach band. |
| Constants.InitialPoisWellFormed | constants.ts:12-53 | The four configured POIs have non-empty, pairwise distinct ids and a 70 m radius (positive), and all start `idle`. The multiplier exceeds 1, and each approach band is 175 m. |
| Reconciler.Initial | App.tsx:31-32 | The screen starts with the configured POIs (distinct ids, all `idle`, positive radii) and an empty slot. |
| Reconciler.Scan | App.tsx:119-137 | The left-to-right scan with a strict `<` against a running minimum that starts at infinity. It returns an eligible POI that no eligible POI beats, and earlier POIs at equal distance win. It returns nothing exactly when no POI is eligible. |
| Reconciler.Candidate | App.tsx:124-137 | The chosen POI is unfinished and inside its trigger radius. No such POI is strictly closer, and every such POI before it in the list is strictly farther. There is no candidate exactly when no POI qualifies. |
| Reconciler.Project | App.tsx:182-199 | Finished POIs are unchanged. An unfinished POI shows `playing` exactly when it holds the slot as it was before the run. Otherwise it shows `approaching` exactly when it is inside its approach band, and `idle` outside it. With distinct ids, at most one POI shows `playing`. |
| Reconciler.Normalize | App.tsx:111-115 | `approaching` and `playing` become `idle`. `idle`, `played` and `error` are unchanged. |
| Reconciler.ResetAsWritten | App.tsx:103-117 | The tracking-off branch as written: an occupied slot is paused and released, `approaching` and `playing` POIs become `idle`, `idle`, `played` and `error` POIs are unchanged, ids and radii stay, and the run always counts as a write. |
| Reconciler.SetStatusOfPlaying | App.tsx:106-108 | The holder's demotion: a POI with the holder's id that shows `playing` becomes `idle`. Every other status is unchanged, as are ids and radii. |
| Types.SetStatusOf | App.tsx:51-55 | The per-id status update used by the `ended`, `error` and rejection handlers (also App.tsx:64-68 and 164): every POI with the given id takes the given status, and every other POI is unchanged. |
| Reconciler.Reset | App.tsx:103-117 | The tracking-off branch with the write made conditional: the slot is empty, a `Pause` is sent only if the slot was occupied, and non-idle unfinished POIs become `idle`. The run requests another run exactly when it changed the state. |
| Reconciler.Tick | App.tsx:102-212 | Welcome screen shown, or tracking without a location: nothing changes and no command is sent. Tracking off: the tracking-off branch as written, which always writes. Otherwise a candidate takes the slot, even from another holder, and without one the slot stays. No command is sent when the slot stays. Otherwise the audio is paused if the slot was occupied, then the target is started. Statuses come from the projection. Geometry never changes and finished POIs keep their status. Outside the tracking-off branch the run writes exactly when the state changes. |
| Reconciler.TickCorrected | App.tsx:102-212 | The same state and commands as `Tick`, with the conditional-write reset: the run writes exactly when the state changes, in every branch. |
| Playback.ReleaseSlot | App.tsx:48-71 | With an occupied slot, the holder takes the given outcome status, the slot is emptied, and no other POI changes. With an empty slot, nothing happens. |
| Playback.OnEnded | App.tsx:48-58 | `ended`: the holder becomes `played` and the slot is emptied. Other POIs are unchanged. With an empty slot, nothing happens. |
| Playback.OnError | App.tsx:60-71 | `error`: the holder becomes `error` and the slot is emptied. Other POIs are unchanged. With an empty slot, nothing happens. |
| Playback.OnPlayRejected | App.tsx:162-168 | A rejected `play()` for POI X always marks X `error`. It empties the slot only if X still holds it, and otherwise leaves the slot and every other POI alone. |
| Properties.CandidateUnique | App.tsx:124-137 | The closest-eligible, earliest-on-ties characterisation determines the candidate uniquely. |
| Properties.CandidateByEligibility | App.tsx:125-129 | The candidate depends only on which POIs are eligible and on the distances. |
| Properties.CandidateAfterProject | App.tsx:183-199 | Writing statuses back does not change the next run's candidate. |
| Properties.ProjectIdempotent | App.tsx:183-203 | Projecting again with the same slot and distances changes nothing. So after the first projection the list is not replaced again. |
| Properties.Settles | App.tsx:102-212 | With unchanged inputs, the slot is final after one run and the statuses after two, and a third run sends no command. Outside the tracking-off branch the third run writes nothing. With tracking off it still writes, so the effect keeps re-running. |
| Properties.SettlesCorrected | App.tsx:102-212 | With the conditional-write reset, the third run with unchanged inputs changes nothing, sends nothing and writes nothing, in every branch. |
| Properties.TargetShownOnFollowUp | App.tsx:187-212 | A newly chosen POI is not `playing` after the run that picks it. That run writes the slot, and the follow-up run shows the POI `playing`. |
| Properties.ResetAsWrittenNeverSettles | App.tsx:111-115 | As written, a second tracking-off run leaves the state unchanged but still writes. So the effect re-runs forever while tracking is off. |
| Properties.ResetAsWrittenLoopsFromInitial | App.tsx:111-115 | Concrete case of the loop: from the initial state, with nothing to reset, the run still writes. |
| Properties.ResetSettles | App.tsx:111-115 | With the conditional write, the second tracking-off run changes nothing, writes nothing and sends nothing. |
| Properties.Step | App.tsx:48-212 | Every event (effect run, `ended`, `error`, `play()` rejection) rewrites statuses only: ids and radii stay as they were. |
| Properties.Replay | App.tsx:48-212 | Every event sequence rewrites statuses only. |
| Properties.TickPreservesInv | App.tsx:102-212 | An effect run keeps ids distinct and at most one POI `playing`, and an occupied slot keeps belonging to an unfinished POI. |
| Properties.ReleaseSlotPreservesInv | App.tsx:48-71 | The `ended` and `error` handlers keep that invariant. |
| Properties.PlayRejectedPreservesInv | App.tsx:162-168 | The `play()` rejection handler keeps that invariant, including when the rejection is stale. |
| Properties.StepPreservesInv | App.tsx:48-212 | Every event keeps the invariant. |
| Properties.ReplayPreservesInv | App.tsx:48-212 | Every event sequence keeps the invariant. |
| Properties.ReachableExclusive | App.tsx:31-212 | In every state reachable from the initial one, at most one POI shows `playing`. |
| Properties.StepKeepsFinished | App.tsx:102-168 | In a reachable state, a finished POI keeps its exact status through every event. The one exception is a `play()` rejection for its own id, which makes it `error`. Either way it stays finished. |
| Properties.ReplayKeepsFinished | App.tsx:102-168 | A finished POI stays finished through any later sequence of events. |
| Properties.NearerPoiWins | App.tsx:124-199 | Two idle 70 m POIs at 50 m and 30 m with an empty slot: the run starts the nearer one and both show `approaching`. The follow-up run shows the nearer one `playing`. |
| Properties.HolderOutsideRadiusKeepsSlot | App.tsx:144-148 | A `playing` holder 80 m from a 70 m POI, with nothing else in range, keeps the slot. The run sends nothing and writes nothing. |
| Properties.CloserPoiPreempts | App.tsx:141-156 | A closer in-range POI takes the slot from a holder that is still in range. The commands are `Pause` then `Start`. |

## Findings

| source | as written | input that shows it | evidently intended | confidence | as-written member | corrected member |
|---|---|---|---|---|---|---|
| App.tsx:111-115 | While tracking is off and the welcome screen is dismissed, every run calls `setPois(prev => prev.map(...))`. `map` always builds a new array, and `pois` is a dependency of the effect (App.tsx:212). So each run schedules another run, without end. | Tracking stopped after the welcome screen, from any state, e.g. the initial one: the run changes nothing and still writes. | Write only when a status changes, as the main branch does with its comparison at App.tsx:201-203. The loop then stops after one run. | medium; not executed | Reconciler.ResetAsWritten, Properties.ResetAsWrittenNeverSettles | Reconciler.Reset, Properties.ResetSettles, Reconciler.TickCorrected, Properties.SettlesCorrected |

`Reconciler.Tick` models the code as written and calls `ResetAsWritten`.
`Reconciler.TickCorrected` uses `Reset` instead. The two differ only in
whether the run requests another run; the state and the commands are the same.

## Left out

- Distance: the haversine formula in utils/distance.ts is floating-point trigonometry. Runs take one distance per POI as input, and every property is stated in terms of that input.
- Floating point: distances and radii are exact reals. The only product, 70 × 2.5, is exact in binary floating point too.
- Geolocation: permissions, `watchPosition` and error messages in hooks/useGeolocation.ts are reduced to a tracking flag and an optional location. When tracking is off, or when permission is denied, the hook substitutes default coordinates for a missing location (useGeolocation.ts:133). With tracking off the guard fires anyway. With permission denied while tracking, the main branch runs against the default point; the model treats that as a present location, whose distances are the input.
- Audio element: it is always present, because it is created by the mount effect that runs before the reconciler.
- Audio element: the `src`/`paused` check at App.tsx:160 is assumed to pass, so a slot change always emits `Start`. After a pause, or after the media has ended, the element is paused, so the check passes. After an `error` event or a `play()` rejection nothing pauses the element, but the next POI's audio locator differs from the current one, because every configured locator is distinct (constants.ts:18-45), so the check passes too.
- Audio element: `pause()`, `play()`, listener wiring and the promise itself become commands and later event calls.
- Audio lookup: `pois.find` at App.tsx:157 always finds the candidate it was given. Only its audio locator is used from it, and audio locators are not modelled.
- POI fields: `name`, `description`, `coordinates` and `audioSrc` are not modelled. The reconciler never changes them.
- Ref mirroring (App.tsx:39-42): the event handlers read the slot state itself, not the ref, which lags the state by one commit.
- Playback.OnPlayRejected: the source compares against the ref (App.tsx:165). A `play()` promise that is already rejected, for example when autoplay is blocked, is handled before the commit that updates the ref. The source then marks X `error` but leaves X in the slot. The model empties the slot in that case.
- Properties.ReachableExclusive: because of the rejection timing above, the part of the invariant that says an occupied slot belongs to an unfinished POI holds of the model, not of the source. The source can hold an `error` POI in the slot until the next event frees it. At most one `playing`, and finished POIs staying finished, do not depend on it. The exact finished status could still change from `error` to `played` if an `ended` event came for that POI while it held the slot. The same applies to Properties.PlayRejectedPreservesInv, Properties.StepPreservesInv and Properties.ReplayPreservesInv.
- React scheduling: batching is left out. The `JSON.stringify` comparison becomes sequence equality, which is equivalent because only statuses ever change.
- Empty ids: the code tests ids for JavaScript truthiness (App.tsx:50, 63, 104, 151, 154), so a POI with the id `""` would count as no holder. Every configured id is non-empty, and the model treats every id as a real id.
- Configuration checks: nothing in the code checks configuration at load time. The model instead proves that the one configured table has distinct ids and positive radii.
- Not part of this model: background music (App.tsx:86-100, 240-246), the disclaimer handlers (App.tsx:223-238), and all rendering (App.tsx:248-395 and the components).
- Tracking handlers: the tracking start/stop handlers (App.tsx:215-221) are not modelled; their effect is the `tracking` input of each run.
