# Nefties Defenders — a verified model of the match logic

Nefties Defenders is a two-player real-time tower-defence prototype. It has an authoritative server and a
browser client. This project models the following parts in Dafny.

- **Server: the match.**
  - Players join and leave.
  - The match moves from waiting to starting to playing. When it starts, it spawns every player's towers.
  - Each tick of a running match does three things:
    - it regenerates mana;
    - it runs the entity AI;
    - it removes the entities whose hit points reached zero.
  - A card play from a client goes through these steps:
    - it is sanitised;
    - it is validated: the card is in the hand, the tile is on land, the mana is enough;
    - it is paid for, and the card rotates through the deck;
    - it becomes a new entity.
- **Server: the entity manager.**
  - The entity manager does the following once per tick, for every entity in list order:
    - it resolves an attack that ends this tick;
    - it validates or re-picks the target (the nearest eligible enemy within range);
    - it decides between attacking, walking towards the target, walking towards the opponent's side, and standing.
  - Then it moves the walking units, pushes overlapping ones apart and copies positions into the synchronised state.
- **Server: the navigation field.** Large navmesh rectangles are split until no side exceeds four tiles.
- **Shared code.**
  - The card and entity tables.
  - The targeting rule for flying victims.
  - The fixed-timestep scheduler.
- **Client.**
  - The local card hand, with its pending play requests and the results it applies after each state sync.
  - The interpolation ring buffer.
  - The start-time estimator.

The modules follow the source files, one to one:

| module | source file | kind of model |
|---|---|---|
| `Cards` | shared/cards.ts | values |
| `Entities` | shared/entities.ts | values |
| `Constants` | shared/constants.ts | constants |
| `Decks` | server/src/logic/PlayerDeck.ts | spec functions, plus a class over two arrays |
| `Navigation` | server/src/logic/Field.ts | spec functions, plus loop methods |
| `EntityAi` | server/src/logic/EntityManager.ts | spec functions, plus a class |
| `Engine` | server/src/logic/ServerLogicEngine.ts | spec functions, plus a class |
| `Timestep` | shared/FixedTimestep.ts | spec functions, plus a class |
| `Interpolation` | client/src/util/Interpolator.ts | spec functions, plus a class over an array |
| `Hand` | client/src/logic/CardHand.ts | spec functions, plus a class |
| `StartTime` | client/src/logic/InitTimeSync.ts | spec functions, plus a class |

`Maybe` (an option type) and `RealMath` (`Math.ceil`) are shared helpers.

Each class keeps the source's fields and updates them in place. Its methods are proved against pure
specification functions. The lemmas next to those functions state what the source promises.

Some constants and services come from files that are not part of this model. These are:

- `HAND_SIZE`, `MANA_MAX` and the other mana constants, `TICKS_1S`, the field size, the lanes, the
  towers and the water map;
- the path finder, the point in front of a building, path following and the collision push-out.

Each of them is an uninterpreted constant. Two of them are restricted to the values for which the
code works: `HAND_SIZE` and `MANA_START` (see "## Left out"). Every property below holds for every
value the constants could take within those restrictions.

## Model

| member | source | states |
|---|---|---|
| Cards.FromCode | shared/cards.ts:1-5 | a numeric card code decodes exactly when it is 1, 2 or 3, and decodes to the card with that code |
| Cards.CodeRoundTrip | shared/cards.ts:1-5 | decoding a card's code gives back the card |
| Cards.Card | shared/cards.ts:7-35 | the mana cost is 3, 4, 5 in enum order, and only the Flying card flies |
| Cards.CanTarget | shared/cards.ts:54-58 | a ground victim is always targetable, and a flying victim only by the Flying card |
| Cards.RangedFighterIsNotRanged | shared/cards.ts:17-25 | the ranged fighter's range equals the threshold, so the strict comparison denies it flying victims |
| Entities.Stats | shared/entities.ts:25-71 | all stats are positive; exactly the towers do not walk, and they are the square-footprint kinds; only Flying flies |
| Entities.CanTarget | shared/entities.ts:76-80 | a ground victim is always targetable, and only the melee fighter cannot target a flying one |
| Entities.FlyingVictimRule | shared/entities.ts:73-80 | against a flying victim, targeting is allowed iff the attacker flies or its range exceeds the ranged threshold |
| Entities.RangedKinds | shared/entities.ts:25-80 | which kinds count as ranged: both towers and the ranged fighter do, the melee fighter does not |
| RealMath.Ceil | shared/FixedTimestep.ts:72 | `Math.ceil`: the least integer not below its argument |
| Decks.FirstIndex | server/src/logic/PlayerDeck.ts:30 | `indexOf` finds the first occurrence of a card in the hand |
| Decks.NextCard | server/src/logic/PlayerDeck.ts:37-39 | the card under the cursor; `UseAdvancesCursor` proves that after a use it is the deck's following card |
| Decks.AfterUse | server/src/logic/PlayerDeck.ts:29-35 | the deck after using a card; `UseKeepsCards`, `UseTouchesTwoSlots` and `UseAdvancesCursor` prove it keeps the multiset of cards, swaps exactly two slots and moves the cursor one slot with wrap-around |
| Decks.UseKeepsCards | server/src/logic/PlayerDeck.ts:29-35 | using a card keeps the hand and deck sizes and the multiset of all the player's cards |
| Decks.UseTouchesTwoSlots | server/src/logic/PlayerDeck.ts:29-33 | the first hand slot with the card gets the deck's next card, the cursor slot gets the played card, and nothing else changes |
| Decks.UseAdvancesCursor | server/src/logic/PlayerDeck.ts:34-39 | the cursor moves one slot and wraps to 0, and the next card becomes the following deck card |
| Decks.PlayerDeck.constructor | server/src/logic/PlayerDeck.ts:11-16 | a fresh deck holds exactly the dummy deck's cards, with a full hand and the cursor at 0 |
| Decks.PlayerDeck.Deal | server/src/logic/PlayerDeck.ts:12-14 | the shuffled copy of the dummy deck is cut into a fresh hand of HAND_SIZE cards and a fresh rest, together holding exactly the dummy deck's cards |
| Decks.PlayerDeck.ArrayOf | server/src/logic/PlayerDeck.ts:12 | a fresh array copy of a card list |
| Decks.PlayerDeck.GetHand | server/src/logic/PlayerDeck.ts:18-23 | the hand message holds the hand and the next card |
| Decks.PlayerDeck.HasCard | server/src/logic/PlayerDeck.ts:25-27 | true iff some hand slot holds the card |
| Decks.PlayerDeck.UseCard | server/src/logic/PlayerDeck.ts:29-35 | the arrays are updated in place to exactly the state `AfterUse` describes |
| Decks.PlayerDeck.GetNextCard | server/src/logic/PlayerDeck.ts:37-39 | the card under the cursor |
| Decks.PlayerDeck.Shuffle | server/src/logic/PlayerDeck.ts:41-50 | the Fisher-Yates loop permutes the deck |
| Navigation.Strips | server/src/logic/Field.ts:37-47 | a side is cut into at least one strip, and into exactly one iff it is at most four tiles |
| Navigation.ReplaceAndAppend | server/src/logic/Field.ts:39-46 | shrinking a rectangle in place and appending the cut-off part keeps the covered points, the area and the piece count |
| Navigation.SplitWidth | server/src/logic/Field.ts:37-47 | a vertical cut gives two aligned halves of half the width each, and the left one keeps the top-left corner |
| Navigation.SplitHeight | server/src/logic/Field.ts:48-58 | a horizontal cut gives two aligned halves of half the height each, and the top one keeps the top edge |
| Navigation.SplitWidthPartitions | server/src/logic/Field.ts:37-47 | the two halves of a vertical cut cover each point of the rectangle exactly once, and their areas add up |
| Navigation.SplitHeightPartitions | server/src/logic/Field.ts:48-58 | the two halves of a horizontal cut cover each point of the rectangle exactly once, and their areas add up |
| Navigation.SplitWidths | server/src/logic/Field.ts:37-47 | after the first loop, rectangle i is at most four wide and the list still covers the same points |
| Navigation.SplitHeights | server/src/logic/Field.ts:48-58 | after the second loop, rectangle i is at most four high and the list still covers the same points |
| Navigation.SplitRect | server/src/logic/Field.ts:36-58 | one turn of the outer loop leaves rectangle i small with its top-left corner, changes no other existing slot, leaves a small rectangle alone, keeps coverage and area, and accounts for exactly one of the predicted pieces |
| Navigation.SplitPolys | server/src/logic/Field.ts:33-60 | every resulting rectangle is aligned and small; the originals keep their top-left corners and small ones are untouched; the result covers every point the input covers, as often, with the same total area |
| Timestep.Stopped | shared/FixedTimestep.ts:39-42 | stopping disables the scheduler and keeps its counters |
| Timestep.Check | shared/FixedTimestep.ts:44-52 | one check of `tick`; `CheckAll`, `StoppedStaysPut` and `OnTimeChecksStepOnce` prove each check steps at most once and moves the deadline one timestep per step, a stopped scheduler never steps, and checks on time step exactly once each |
| Timestep.CheckAll | shared/FixedTimestep.ts:44-54 | a run of checks takes at most one step each, and the deadline advances one timestep per step |
| Timestep.StoppedStaysPut | shared/FixedTimestep.ts:39-54 | a stopped scheduler never steps again |
| Timestep.OnTimeChecksStepOnce | shared/FixedTimestep.ts:44-54 | checks that each come no earlier than their deadline step exactly once each |
| Timestep.FixedTimestep.constructor | shared/FixedTimestep.ts:3-15 | a new scheduler is disabled at tick 0 and has not called `onTick` |
| Timestep.FixedTimestep.IsEnabled | shared/FixedTimestep.ts:17-19 | whether the scheduler is enabled |
| Timestep.FixedTimestep.HasStarted | shared/FixedTimestep.ts:21-23 | true iff enabled and the start time has been reached |
| Timestep.FixedTimestep.Start | shared/FixedTimestep.ts:25-31 | enables with the given ticks, start and deadline, then runs one check |
| Timestep.FixedTimestep.StartNowAtTick | shared/FixedTimestep.ts:33-37 | starting at tick n steps at once to tick n, dates the start n timesteps back and sets the next deadline one timestep ahead |
| Timestep.FixedTimestep.Stop | shared/FixedTimestep.ts:39-42 | stopping leaves the state `Stopped` describes and calls nothing |
| Timestep.FixedTimestep.Tick | shared/FixedTimestep.ts:44-54 | one check; `onTick` runs exactly when a step is taken |
| Timestep.FixedTimestep.GetSteppedTime | shared/FixedTimestep.ts:59-61 | ticks times timestep |
| Timestep.FixedTimestep.GetCurrentTime | shared/FixedTimestep.ts:63-69 | the time since the start; alpha is 0 one timestep before the deadline and 1 at the deadline |
| Timestep.FixedTimestep.SecondsUntil | shared/FixedTimestep.ts:71-73 | the exact seconds until the tick, rounded up |
| Interpolation.Copy | client/src/util/Interpolator.ts:3-8 | `setFrom` copies the sample |
| Interpolation.Lerp | client/src/util/Interpolator.ts:10-16 | alpha 0 gives the first sample and alpha 1 the second |
| Interpolation.LerpBetweenSamples | client/src/util/Interpolator.ts:10-16 | for alpha in [0, 1] each coordinate lies between the two samples' |
| Interpolation.LerpBetween | client/src/util/Interpolator.ts:11-13 | a single interpolated coordinate lies between its end points |
| Interpolation.Slot | client/src/util/Interpolator.ts:43 | the write slot is a valid buffer index |
| Interpolation.SlotIsMod | client/src/util/Interpolator.ts:43 | the write slot is `(startIndex + count) % size` |
| Interpolation.Ring | client/src/util/Interpolator.ts:20-23 | the logical contents have `count` samples, starting at `startIndex` |
| Interpolation.AddRing | client/src/util/Interpolator.ts:42-53 | writing at the next slot appends the sample; when full, the oldest sample goes |
| Interpolation.RingSecond | client/src/util/Interpolator.ts:60-65 | the second logical sample sits at `increment(startIndex)` |
| Interpolation.DropStale | client/src/util/Interpolator.ts:81-90 | the pruning of `clearOlderThan`; `DropStaleShape` proves it drops only a prefix of stale samples, keeps at least two of more than two, and stops at a second sample not older than the time |
| Interpolation.DropStaleShape | client/src/util/Interpolator.ts:81-90 | pruning drops only a prefix of stale samples and keeps at least two; when more than two remain, the second is not stale |
| Interpolation.DropStaleStep | client/src/util/Interpolator.ts:84-89 | with more than two samples and a stale second one, the oldest is dropped |
| Interpolation.PruneStep | client/src/util/Interpolator.ts:84-89 | one loop iteration advances the ring by one over the stale prefix |
| Interpolation.PruneDone | client/src/util/Interpolator.ts:84-90 | when the loop guard fails, the ring equals the pruned contents |
| Interpolation.DropStaleFrom | client/src/util/Interpolator.ts:81-90 | dropping any stale prefix first does not change the result |
| Interpolation.DropStaleStop | client/src/util/Interpolator.ts:84 | when the guard fails at once, nothing is dropped |
| Interpolation.DropStaleIdempotent | client/src/util/Interpolator.ts:81-90 | pruning twice equals pruning once |
| Interpolation.Query | client/src/util/Interpolator.ts:56-69 | no data iff empty; the oldest sample when it is not older than t or is alone; undefined exactly when it must interpolate between two samples with the same time |
| Interpolation.Alpha | client/src/util/Interpolator.ts:66 | the interpolation factor; `QueryHitsTime` proves the interpolated sample then lands exactly at the asked time, and `QueryInterpolates` that it lies between the two samples for a time inside the first interval |
| Interpolation.QueryHitsTime | client/src/util/Interpolator.ts:64-67 | an interpolated answer carries exactly the asked time |
| Interpolation.QueryInterpolates | client/src/util/Interpolator.ts:64-67 | with t inside the first two samples' interval, the answer has time t and lies between them |
| Interpolation.PrunedQueryInterpolates | client/src/util/Interpolator.ts:56-69 | after pruning with more than two samples left, the answer at t lies between the two oldest and has time t |
| Interpolation.Interpolator.Contents | client/src/util/Interpolator.ts:20-23 | the logical contents have `count` samples |
| Interpolation.Interpolator.constructor | client/src/util/Interpolator.ts:32-37 | the size is `ceil(window * sizeCoef / minStepTime) + 1` and the buffer starts empty |
| Interpolation.Interpolator.Increment | client/src/util/Interpolator.ts:96-98 | the next index stays in the buffer |
| Interpolation.Interpolator.IncrementIsMod | client/src/util/Interpolator.ts:96-98 | `increment` is `(i + 1) % size`, and wraps to 0 exactly at the last slot |
| Interpolation.Interpolator.Add | client/src/util/Interpolator.ts:42-53 | the contents become the old contents plus the sample, minus the oldest sample when full |
| Interpolation.Interpolator.ClearOlderThan | client/src/util/Interpolator.ts:81-90 | the contents become the pruned old contents; the count never grows and never drops to zero |
| Interpolation.Interpolator.GetAtTime | client/src/util/Interpolator.ts:56-69 | empty gives null and changes nothing; otherwise it prunes at time minus window and answers `Query` on what remains |
| Interpolation.Interpolator.CanStart | client/src/util/Interpolator.ts:72-74 | true iff there are two samples and the oldest is at or before time minus window |
| Interpolation.Interpolator.HasDataFor | client/src/util/Interpolator.ts:76-79 | true iff the newest sample is at or after time minus window |
| Interpolation.Interpolator.ClearAll | client/src/util/Interpolator.ts:92-94 | the contents become empty |
| Hand.FindRequest | client/src/logic/CardHand.ts:37 | `findIndex`: the first request with the id, or -1 iff there is none |
| Hand.SpliceSlot | client/src/logic/CardHand.ts:38 | the slot `splice(i, 1)` removes: i itself, or the last slot for -1 |
| Hand.RemoveAt | client/src/logic/CardHand.ts:38 | removal of one element, keeping the order of the rest |
| Hand.SetSlot | client/src/logic/CardHand.ts:41 | a JavaScript array write: slot i gets the value and no other element changes; a write past the end grows the array to i + 1, the gap reading as undefined; a negative index changes no element |
| Hand.ApplyResult | client/src/logic/CardHand.ts:36-43 | one result fails iff no request is pending and the play succeeded; otherwise it removes one request, and a success installs the new next card |
| Hand.ApplyAll | client/src/logic/CardHand.ts:35-46 | the results loop removes one pending request per result while it does not fail |
| Hand.Play | client/src/logic/CardHand.ts:17-26 | the request is recorded under the current id, but the message carries the incremented id |
| Hand.PlayKeepsIdsOrdered | client/src/logic/CardHand.ts:17-21 | pending request ids stay strictly increasing and below the counter |
| Hand.SinglePlayResolves | client/src/logic/CardHand.ts:17-43 | with one play in flight, its result still resolves it, because the -1 of a missed lookup splices the last request |
| Hand.SecondPlayMisroutesFirstResult | client/src/logic/CardHand.ts:17-43 | with two plays in flight, the first play's result resolves the second request and replaces the wrong hand slot |
| Hand.PlayMatched | client/src/logic/CardHand.ts:17-26 | the corrected play records the id it sends |
| Hand.MatchedResultResolvesOwnRequest | client/src/logic/CardHand.ts:36-43 | a result resolves the pending request with its own id and writes the next card to that request's slot |
| Hand.PlayMatchedResolvesOwnRequest | client/src/logic/CardHand.ts:17-43 | with the corrected play, the play's own result removes exactly its request and fills its slot |
| Hand.CardHand.constructor | client/src/logic/CardHand.ts:6-10 | an empty hand with the counter at 1 |
| Hand.CardHand.OnCardHand | client/src/logic/CardHand.ts:12-15 | the hand and the next card are replaced by the message's |
| Hand.CardHand.PlayCard | client/src/logic/CardHand.ts:17-26 | records a pending request under the current id and returns a message carrying the incremented id, as `Play` describes (see Findings) |
| Hand.CardHand.OnPlayCardResult | client/src/logic/CardHand.ts:28-33 | the result is queued and nothing else changes |
| Hand.CardHand.OnAfterSchemaSync | client/src/logic/CardHand.ts:35-46 | the queue is applied as `ApplyAll` describes and then emptied; an exception leaves the queue in place |
| StartTime.SumBounds | client/src/logic/InitTimeSync.ts:25 | the sum of n values within [lo, hi] lies within [n·lo, n·hi] |
| StartTime.Sum | client/src/logic/InitTimeSync.ts:25 | the `reduce` sum; `SumBounds` and `MeanWithin` prove the sum and the mean of values in [lo, hi] stay in range |
| StartTime.MeanWithin | client/src/logic/InitTimeSync.ts:25 | the mean of values within [lo, hi] lies within [lo, hi] |
| StartTime.Near | client/src/logic/InitTimeSync.ts:27 | the filter keeps only values within one timestep of the average, and keeps any bounds of the input; `NearKeepsEveryNear` proves it keeps every such value |
| StartTime.NearKeepsEveryNear | client/src/logic/InitTimeSync.ts:27 | the filter is exact: each value within one timestep of the average is kept as often as it occurs, and no other value is kept |
| StartTime.MiddleHalf | client/src/logic/InitTimeSync.ts:20-22 | the middle-half bounds are ordered, and not empty for a non-empty list |
| StartTime.Estimate | client/src/logic/InitTimeSync.ts:17-37 | the estimate is undefined (0/0) exactly for no values |
| StartTime.EstimateInRange | client/src/logic/InitTimeSync.ts:24-32 | with more than three middle values, the estimate lies within the values' range, and within one timestep of the middle average when more than three values are near it |
| StartTime.FourEqualEstimatesDoubled | client/src/logic/InitTimeSync.ts:33-35 | the fallback as written turns four equal estimates v into 2v |
| StartTime.EstimateCorrected | client/src/logic/InitTimeSync.ts:33-35 | the corrected fallback is undefined exactly for no values |
| StartTime.EstimateCorrectedInRange | client/src/logic/InitTimeSync.ts:17-37 | the corrected estimate always lies within the range of the values |
| StartTime.InitTimeSync.constructor | client/src/logic/InitTimeSync.ts:3-5 | no estimates yet |
| StartTime.InitTimeSync.AddTimePoint | client/src/logic/InitTimeSync.ts:10-12 | appends `now + ticksLeft * timestep` |
| StartTime.InitTimeSync.EstimateStart | client/src/logic/InitTimeSync.ts:17-37 | reorders the stored estimates without losing any, and returns their estimate as written, `Estimate` (see Findings) |
| EntityAi.FindId | server/src/logic/EntityManager.ts:39-40 | resolving a target reference (an id) finds the entity with that id |
| EntityAi.FindIdFirst | server/src/logic/EntityManager.ts:39-40 | the lookup finds the first such entity, and fails iff there is none |
| EntityAi.Strike | server/src/logic/EntityManager.ts:36-44 | an attack ending this tick on a target still in the list takes the attacker's damage off that target; with no target, a target no longer in the list, or no attack ending, nothing changes; nothing but the target's hit points ever changes |
| EntityAi.Nearest | server/src/logic/EntityManager.ts:100-111 | the scan picks an index among those scanned |
| EntityAi.NearestIsNearest | server/src/logic/EntityManager.ts:93-112 | the pick is eligible (enemy, not spawning, targetable, alive, within range) and no eligible entity is nearer; on ties the earliest is kept; no pick iff none is eligible |
| EntityAi.TargetIsValid | server/src/logic/EntityManager.ts:60-63 | a living target is kept; a new target is alive; no target means nothing eligible in range |
| EntityAi.Decide | server/src/logic/EntityManager.ts:59-80 | a decision keeps the entity's identity and position, and sets the validated target |
| EntityAi.DecisionOutcome | server/src/logic/EntityManager.ts:59-80 | target in range: attack for `ceil(hitSpeed * TICKS_1S)` ticks; out of range: a unit walks a fresh path towards it; no target: a building stands and a unit walks towards the opponent's side |
| EntityAi.InAttackRange | server/src/logic/EntityManager.ts:207-213 | the squared range test; `DecisionOutcome` and `ThrowsIffBuildingOutOfRange` prove an entity attacks exactly when its target passes it, and a building whose target fails it throws |
| EntityAi.Waypoint | server/src/logic/EntityManager.ts:114-142 | where `walkToOpponentSide` walks; `WaypointRule` proves the bridge comes first on the own half, then 7 tiles from the end with an enemy small tower on the lane, else 3 |
| EntityAi.CheckNext | server/src/logic/EntityManager.ts:59-80 | one decision applied to the list; `CheckNextUnmoved` proves it moves no one and keeps the roster, and `ThrowsIffBuildingOutOfRange` says when it throws |
| EntityAi.Turn | server/src/logic/EntityManager.ts:35-48 | one entity's turn; `TurnUnmoved` proves it moves no one and keeps the roster, and `BusyEntityIsSkipped` that a busy entity changes nothing |
| EntityAi.ThrowsIffBuildingOutOfRange | server/src/logic/EntityManager.ts:64-72 | the decision throws exactly for a building whose target is out of range |
| EntityAi.WaypointRule | server/src/logic/EntityManager.ts:114-142 | the waypoint is the bridge while on its own half; otherwise 7 tiles in front of an enemy small tower on the lane, else 3 tiles, swinging towards the big tower only on the last four rows |
| EntityAi.CheckNextUnmoved | server/src/logic/EntityManager.ts:59-80 | a decision never changes who is in the list or where anything stands |
| EntityAi.TurnUnmoved | server/src/logic/EntityManager.ts:35-48 | one entity's turn never changes who is in the list or where anything stands |
| EntityAi.BusyEntityIsSkipped | server/src/logic/EntityManager.ts:46-48 | an entity locked in an activity changes nothing on its turn |
| EntityAi.TurnKeepsBusy | server/src/logic/EntityManager.ts:35-48 | any one turn leaves an entity that is busy until a later tick unchanged except for its hit points |
| EntityAi.BusyKeptThroughPass | server/src/logic/EntityManager.ts:35-49 | through the whole decision pass, an entity busy until a later tick keeps its state, target, path and all else except its hit points |
| EntityAi.Decisions | server/src/logic/EntityManager.ts:35-49 | the decision pass keeps the list length; `DecisionsUnmoved` proves it keeps the roster and positions, `ThrowEndsPass` that it stops at a throw, and `BusyKeptThroughPass` that busy entities keep all but their hit points |
| EntityAi.ThrowEndsPass | server/src/logic/EntityManager.ts:35-49 | once a turn throws, later turns do not run |
| EntityAi.DecisionsUnmoved | server/src/logic/EntityManager.ts:33-49 | the decision pass changes hit points, states, targets and paths, never the roster or positions |
| EntityAi.Move | server/src/logic/EntityManager.ts:156-169 | moveEntity; `MovesRule` proves it changes only the position and path index, and only of a moving entity with a path |
| EntityAi.MovesRule | server/src/logic/EntityManager.ts:51-56 | the moves keep the roster, change only positions and path indices, and leave entities that are not moving or have no path unchanged |
| EntityAi.Collide | server/src/logic/EntityManager.ts:17-20 | collideEntities and collideWalls; `CollideRule` proves they change only positions and never move a building |
| EntityAi.CollideRule | server/src/logic/EntityManager.ts:17-20 | the collision step keeps the roster, changes only positions, and leaves every building where it stands |
| EntityAi.UpdateStep | server/src/logic/EntityManager.ts:15-25 | one update; `UpdateSyncsTiles` proves a completed one keeps the roster and syncs every tile to its position |
| EntityAi.UpdateSyncsTiles | server/src/logic/EntityManager.ts:15-25 | a completed update keeps the roster, and every synchronised tile equals the entity's position |
| EntityAi.StrayTargetAbortsTick | server/src/logic/EntityManager.ts:64-69 | a tower whose target walked out of range throws, which aborts the tick |
| EntityAi.CheckNextFixed | server/src/logic/EntityManager.ts:59-80 | the corrected decision; `FixedDecisionNeverThrows` proves it never throws, agrees with the code wherever that does not throw, and leaves a building attacking only a target in range |
| EntityAi.FixedDecisionNeverThrows | server/src/logic/EntityManager.ts:59-80 | the corrected decision never throws and otherwise agrees; a building only attacks a target in range, or stands |
| EntityAi.EntityManager.constructor | server/src/logic/EntityManager.ts:11-13 | no entities |
| EntityAi.EntityManager.Update | server/src/logic/EntityManager.ts:15-25 | the list becomes `UpdateStep` of the old list, and a throw is reported |
| EntityAi.EntityManager.SyncPositions | server/src/logic/EntityManager.ts:21-24 | every tile is set to its entity's position |
| EntityAi.EntityManager.GameOver | server/src/logic/EntityManager.ts:27-31 | every entity becomes idle, and nothing else changes |
| EntityAi.EntityManager.Ai | server/src/logic/EntityManager.ts:33-57 | the decision pass and then, unless it threw, the moves |
| EntityAi.EntityManager.Turns | server/src/logic/EntityManager.ts:35-49 | the first loop ends with the outcome of the decision pass over the old list: thrown, or done with its list |
| EntityAi.EntityManager.NextTurn | server/src/logic/EntityManager.ts:35-48 | one turn of the first loop is the next step of the decision pass |
| EntityAi.EntityManager.MoveAll | server/src/logic/EntityManager.ts:51-56 | exactly the moving entities move |
| EntityAi.EntityManager.TakeTurn | server/src/logic/EntityManager.ts:35-49 | one entity's turn as `Turn` describes |
| EntityAi.EntityManager.ResolveAttack | server/src/logic/EntityManager.ts:36-44 | the attack resolution as `Strike` describes |
| EntityAi.EntityManager.MoveEntity | server/src/logic/EntityManager.ts:156-169 | only entity k moves, along its path |
| EntityAi.EntityManager.CheckNextAction | server/src/logic/EntityManager.ts:59-80 | the decision as `CheckNext` describes |
| EntityAi.EntityManager.ValidateTarget | server/src/logic/EntityManager.ts:60-63 | only entity i's target changes: a dead one is dropped and, when none is left, re-picked |
| EntityAi.EntityManager.SetPathTowards | server/src/logic/EntityManager.ts:82-91 | a path to the target's centre, or to the point in front of a building |
| EntityAi.EntityManager.SetTarget | server/src/logic/EntityManager.ts:93-112 | only entity i's target changes, to the nearest eligible one |
| EntityAi.EntityManager.WalkToOpponentSide | server/src/logic/EntityManager.ts:114-142 | entity i starts moving along a path to its waypoint |
| EntityAi.EntityManager.SetPath | server/src/logic/EntityManager.ts:144-147 | a fresh navmesh path, with path index 1 |
| EntityAi.EntityManager.TriggerAttack | server/src/logic/EntityManager.ts:215-218 | attacking until `tick + ceil(hitSpeed * TICKS_1S)` |
| Engine.PlayerIndex | server/src/logic/ServerLogicEngine.ts:115 | the player map lookup finds the player with the key, or reports that there is none |
| Engine.WithPlayer | server/src/logic/ServerLogicEngine.ts:31-45 | addPlayer on the player list; `AddPlayerRule` and `AddKeepsPlayers` prove the key then maps to a fresh record, flipped iff someone was there, and the others are kept |
| Engine.WithoutPlayer | server/src/logic/ServerLogicEngine.ts:47-50 | removePlayer on the player list; `RemovePlayerRule` proves the key is gone, the others are kept and nobody is added |
| Engine.AddKeepsPlayers | server/src/logic/ServerLogicEngine.ts:31-45 | adding a player keeps keys distinct, decks well formed and mana in bounds |
| Engine.AddPlayerRule | server/src/logic/ServerLogicEngine.ts:31-45 | the key now maps to a fresh record that is flipped iff someone was already there; other players are kept; a known key replaces and a new key appends |
| Engine.RemoveKeepsPlayers | server/src/logic/ServerLogicEngine.ts:47-50 | removal keeps the players well formed |
| Engine.RemovePlayerRule | server/src/logic/ServerLogicEngine.ts:47-50 | the key is gone, every other player is kept, nothing new appears, and the count drops by one iff the key was there |
| Engine.RemoveDropsKey | server/src/logic/ServerLogicEngine.ts:47-50 | after the removal no player is found under the key |
| Engine.RemoveKeepsOthers | server/src/logic/ServerLogicEngine.ts:47-50 | every player under another key is still there |
| Engine.RemoveAddsNobody | server/src/logic/ServerLogicEngine.ts:47-50 | every remaining player was there before |
| Engine.RegenRule | server/src/logic/ServerLogicEngine.ts:95-101 | mana grows by one, and the regen tick resets, iff below the cap and the regen interval has passed; otherwise nothing changes; the cap holds |
| Engine.RegenAllKeepsPlayers | server/src/logic/ServerLogicEngine.ts:95-101 | regeneration keeps the players well formed |
| Engine.Regen | server/src/logic/ServerLogicEngine.ts:95-101 | one player's regeneration; `RegenRule` proves one mana is added, and the timer restarts, iff below the cap and the period has passed |
| Engine.Spend | server/src/logic/ServerLogicEngine.ts:153-159 | useMana; `PlayAccepted` proves an accepted play spends exactly the cost, and restarts the timer iff the mana was full |
| Engine.SpawnKeepsBookkeeping | server/src/logic/ServerLogicEngine.ts:161-195 | a new id is fresh, and the entity map, the synchronised map and the manager's list keep the same keys |
| Engine.Spawned | server/src/logic/ServerLogicEngine.ts:161-195 | the record spawnEntity creates; `SpawnedRule` proves it is the owner's, at the point with its tile synced, at full hit points, and inert for its first second |
| Engine.SpawnedRule | server/src/logic/ServerLogicEngine.ts:161-195 | a spawned entity is its owner's, at the point with its tile synced and full hit points; before a second has passed its turn changes nothing and nobody can target it |
| Engine.RosterKeepsBookkeeping | server/src/logic/ServerLogicEngine.ts:102 | an entity-manager update that keeps the roster keeps the three collections in step |
| Engine.StartSpawnsRule | server/src/logic/ServerLogicEngine.ts:56-66 | the start spawns are numbered consecutively, and each is a tower of some player, mirrored for the flipped player |
| Engine.LivingRule | server/src/logic/ServerLogicEngine.ts:103-111 | an entity survives removal iff it was there with positive hit points |
| Engine.LivingIds | server/src/logic/ServerLogicEngine.ts:103-111 | the surviving ids are the old ids minus the dead ones |
| Engine.LivingUnique | server/src/logic/ServerLogicEngine.ts:103-111 | removal keeps ids unique |
| Engine.LivingKeepsBookkeeping | server/src/logic/ServerLogicEngine.ts:103-111 | deleting the dead keys from both maps, and the dead entities from the list, keeps the three in step |
| Engine.AfterLogicRemovesDead | server/src/logic/ServerLogicEngine.ts:102-111 | after a completed tick exactly the entities with positive hit points remain |
| Engine.AfterLogic | server/src/logic/ServerLogicEngine.ts:93-112 | one tick of the entity manager and then the removal of the dead; `AfterLogicRemovesDead` proves exactly the entities with hit points survive |
| Engine.KindOf | server/src/logic/ServerLogicEngine.ts:137 | a card spawns a walking entity that flies iff the card does |
| Engine.CanSpawn | server/src/logic/ServerLogicEngine.ts:146-151 | a tile on the field that is not water; `PlayValidation` proves a play on any other tile is rejected |
| Engine.DecidePlay | server/src/logic/ServerLogicEngine.ts:114-144 | the decision of onPlayCard; `PlayValidation` and `PlayAccepted` prove when it is ignored, rejected or accepted, and what an accepted play does |
| Engine.PlayValidation | server/src/logic/ServerLogicEngine.ts:114-151 | a request is ignored iff a field is not an integer; it is rejected iff the card is not in the hand, the tile is off the field or water, or mana is short; any answer carries the request id |
| Engine.PlayAccepted | server/src/logic/ServerLogicEngine.ts:125-159 | an accepted play rotates the card through the deck, keeps all cards, costs exactly the card's mana (never below 0), resets the regen timer iff mana was full, and spawns at the tile's centre |
| Engine.StateOrder | server/src/logic/ServerLogicEngine.ts:74-91 | the only state change an update makes is starting to playing, once the start tick is reached |
| Engine.NextState | server/src/logic/ServerLogicEngine.ts:74-91 | the state step of update; `StateOrder` proves only a due start changes the state, to playing |
| Engine.RetimedKeepsPlayers | server/src/logic/ServerLogicEngine.ts:56-57 | setting the regen ticks keeps the players well formed |
| Engine.ServerLogicEngine.constructor | server/src/logic/ServerLogicEngine.ts:16-29 | an empty waiting match with ids starting at 1 |
| Engine.ServerLogicEngine.AddPlayer | server/src/logic/ServerLogicEngine.ts:31-45 | the players become `WithPlayer` of the old ones, and the invariant holds |
| Engine.ServerLogicEngine.RemovePlayer | server/src/logic/ServerLogicEngine.ts:47-50 | the players become `WithoutPlayer` of the old ones, and the invariant holds |
| Engine.ServerLogicEngine.SpawnEntity | server/src/logic/ServerLogicEngine.ts:161-195 | appends a spawning entity under a fresh id, and the bookkeeping holds |
| Engine.ServerLogicEngine.SpawnTowers | server/src/logic/ServerLogicEngine.ts:59-66 | appends the player's towers, one fresh id each |
| Engine.ServerLogicEngine.Start | server/src/logic/ServerLogicEngine.ts:52-72 | outside the waiting state nothing changes; otherwise the match starts in three seconds, every player's regen waits for it, every player gets its hand, and every player's towers spawn |
| Engine.ServerLogicEngine.RetimeAll | server/src/logic/ServerLogicEngine.ts:56-57 | every player's regen tick is set |
| Engine.ServerLogicEngine.StartPlayers | server/src/logic/ServerLogicEngine.ts:56-67 | one hand message per player, and each player's towers |
| Engine.ServerLogicEngine.StartPlayer | server/src/logic/ServerLogicEngine.ts:58-66 | one player is sent its hand and its towers spawn, numbered on from the counter, keeping the bookkeeping |
| Engine.ServerLogicEngine.Update | server/src/logic/ServerLogicEngine.ts:74-91 | the state advances per `NextState`; only a playing match runs game logic; a finished match disconnects once its tick is reached |
| Engine.ServerLogicEngine.GameLogic | server/src/logic/ServerLogicEngine.ts:93-112 | mana regenerates, the entity manager updates, and on completion no entity with hit points at or below zero remains |
| Engine.ServerLogicEngine.RegenMana | server/src/logic/ServerLogicEngine.ts:95-101 | every player regenerates per `Regen` |
| Engine.ServerLogicEngine.RemoveDead | server/src/logic/ServerLogicEngine.ts:103-111 | the dead leave the list and both key sets, and the bookkeeping holds |
| Engine.ServerLogicEngine.OnPlayCard | server/src/logic/ServerLogicEngine.ts:114-144 | an ignored request changes nothing; a rejected one only answers with no card; an accepted one updates the player, answers with the next card and spawns one entity |

## Left out

- The field helpers `Field.initialize`, `removeBuilding` and `collideWalls` are not part of this
  model. They appear only as calls, and the navmesh is not rebuilt when a building is added or removed.
- Geometry is abstract, each piece as an uninterpreted function:
  - `Field.getPath` and the `navmesh` library;
  - `findBuildingPoint`;
  - the path following inside `moveEntity`;
  - the SAT collision push-out.
  - The push-out is only known to move circles, never buildings.
- Floating point is modelled as exact reals. NaN and Infinity are not modelled, except where the
  source divides by zero: `Interpolation.Query` returns `Undefined` and `StartTime.Estimate` returns `None`.
- The synchronised fields' `uint8`/`uint16` widths are not modelled.
- I/O is modelled as values:
  - Wall-clock readings (`performance.now()`) are parameters.
  - `setTimeout` rescheduling is left out.
  - `Math.random` and `sendMessage` are modelled as described in the lines below.
- The room's tick counter is advanced outside the engine, so it is read but never written here.
- Nothing in these files ever sets the finished (`DONE`) state. `Update` still models what happens in it.
- `room.disconnect()` is modelled as a flag.
- `sendMessage` is modelled as an outbox of messages.
- `CARDS` carries no `entityType`, although `onPlayCard` reads one. `Engine.KindOf` maps each card to
  the entity kind of the same name.
- The enum in shared/entities.ts lacks `STANDING` and `IDLE`, although the entity manager uses both;
  the model adds them.
- A new entity's state is `Spawning`, taken as the default of `EntitySync`. That schema class is not
  part of this model.
- Entity keys `'e' + n` are modelled by n.
- The engine's entity map and the synchronised entity map are modelled by their key sets.
- A target reference is modelled by the target's id.
- EntityAi.IsCandidate and EntityAi.EnemySmallTowerOnLane: an entity's owner is modelled by the player's key and side, fixed when the
  entity spawns. The source keeps a reference to the player record and compares records by identity
  (server/src/logic/EntityManager.ts:102,129), and reads the side from the record (line 116). When
  `addPlayer` replaces the record under a present key, or a player leaves and joins again, the old
  record's entities become enemies of the new record's entities in the source. In the model they stay
  on the same side. This identity is not captured.
- The removal loop of `gameLogic` is modelled over the manager's list rather than the map. The two
  hold the same entities, so the order of removal does not affect the result.
- `Engine.ServerLogicEngine.Start` sets the regen ticks in a loop of its own, after the hands and the
  spawns. The source does this in the same loop. Each player record is touched by only one of the two
  steps, so the final state is the same.
- The engine holds each player's deck as a value (`Decks.DeckState`), updated by `Decks.AfterUse`.
  The in-place `PlayerDeck` class is verified separately against the same function.
- Decks.PlayerDeck.Shuffle: it is proved to permute the deck, and nothing more. The random choice of
  `Math.random` is a parameter, so no claim about the distribution is made.
- StartTime.InitTimeSync.EstimateStart: `Array.prototype.sort()` compares the numbers as strings. It
  is modelled only as a permutation, so the estimate is stated for whatever order that sort produces.
- Timestep.FixedTimestep.Tick: what `onTick` does is not modelled, only how many times it is called.
- `Interpolator.getAtTime` returns the shared `temp` object, which the next call overwrites. The
  model returns a fresh value each time, so that aliasing is not captured.
- `HAND_SIZE` is assumed to satisfy 0 < HAND_SIZE < 14, the size of the dummy deck. No line of the
  code imposes it. With 14 or more, server/src/logic/PlayerDeck.ts:14 leaves the deck empty and
  `getNextCard` reads `undefined`, which the model does not capture.
- `MANA_START` is assumed to satisfy 0 <= MANA_START <= MANA_MAX. No line of the code imposes it.
- Hand.CardHand.constructor: the source leaves `cards` and `nextCard` undefined until `onCardHand`
  (client/src/logic/CardHand.ts:6-7). The model starts from an empty hand and no next card. So a
  `playCard` before the first hand is not modelled as the TypeError the source raises at line 24, after
  recording the request and incrementing the counter. In the model it returns a message without a card.
- Interpolation.Interpolator.constructor: it takes `minStepTime` and `sizeCoef` explicitly. The
  source's defaults (`minStepTime = interpolationWindow`, `sizeCoef = 1`) are not modelled.
- The code of the room, the schema, the renderers and the client's room manager is not part of this model.

## Findings

| source | as written | input that shows it | evidently intended | confidence | as-written member | corrected member |
|---|---|---|---|---|---|---|
| client/src/logic/CardHand.ts:17-26 | `playCard` records the request under id n (post-increment), but sends the incremented id n+1 | two plays in flight, slot 0 then slot 1, and the first play's result arrives: it matches the second request, so slot 1 is replaced and slot 0's request stays pending | the request is recorded under the id it sends | not executed | Hand.SecondPlayMisroutesFirstResult | Hand.PlayMatchedResolvesOwnRequest |
| client/src/logic/InitTimeSync.ts:33-35 | the fallback divides the sum of all values by `end - start`, the size of the middle half | four equal estimates v: the middle half has 2 values, and the result is 4v / 2 = 2v | the average of all values, i.e. divide by their count | not executed | StartTime.FourEqualEstimatesDoubled | StartTime.EstimateCorrectedInRange |
| server/src/logic/EntityManager.ts:64-69 | a building whose target is alive but out of range fails the assertion, which throws out of `update` and aborts the whole server tick | a small tower at (0, 0) attacking a melee fighter that has walked to (7, 0), beyond the tower's range of 6 | the building lets the target go and stands, then picks a new target on its next turn | not executed | EntityAi.StrayTargetAbortsTick | EntityAi.FixedDecisionNeverThrows |
