# Sabiá in Dafny

Models of the hard logic of the Sabiá flight logger, with proofs. `dafny verify dfyconfig.toml` checks everything.

The tables are maps from id to row, foreign-key actions are written out, and a throw inside a transaction restores the
tables. Code that changes state is a class whose methods are verified against a function of the old state; the theorems
are about that function. Positions and times are reals and integer milliseconds, great-circle distance is an
uninterpreted function, and what the outside world answers (clock, nearest airport, matcher, failing inserts) is an
argument.

- `LinkModel`, `LinkStore`, `LinkRuns`, `LinkEffects`: flights, planned legs and trips. `LinkModel` says what a consistent
  database is and what each operation means; `LinkStore.Store` carries the operations out statement by statement;
  `LinkRuns` proves what whole runs keep, what an unlink gives back, and by which operations alone a flight lets go of its
  leg; `LinkEffects` what each operation leaves in which row.
- `FlightMerge`: the track and totals of two flights combined into one.
- `LegMatcher`, `AutoLink`: which leg a takeoff belongs to, and why linking it cannot fail.
- `BatchChain`: the order of an import batch, and exactly which batches are given one.
- `RecorderModel`, `RecorderAccounts`, `RecorderRuns`, `RecorderFlights`, `RecorderEdits`, `FlightManager`: the recorder as
  a state machine over telemetry, operator actions, restarts, deaths between writes, and deletions and combinations behind
  its back; what one event can do to a flight; what every run keeps; how a flight's row, points, time and messages come of
  its list of events; what those deletions and combinations do; and the class with its fields and handlers. `Track` holds
  the stored points and gap sums, `AcarsKeys` the dedup keys, `GroundSessions` the pre-flight sessions, `RouteProgress` the
  live route.
- `DemandModel`, `DemandBuilder`, `DemandRefinement`, `DemandAnswer`, `DemandRotation`, `DemandPromises`, `DemandSources`,
  `DemandReply`: what the sidecar should fetch next. The builder with its memo maps and early exits answers as the model,
  the model answers as the naive computation, its rotation starves no leg, and the reply has what plans and requests name
  and nothing else but fixes of broken airways.
- `LikeSearch`, `Clearance`, `AirportTiers`, `CellQuery`: the search clause, the clipped clearance, viewport thinning, and
  the coverage grid with the airway legs of a viewport.

Where the code and its own words differ, the model follows the code:

- `src/flightManager.ts:783-788` says the first leg after a resume without points is measured from the departure. It is
  not, since `writePoint` adds distance only from the second point on (`RecorderRuns.DepartureIsNeverMeasured`; a death
  during takeoff leaves such a flight, `RecorderRuns.TakeoffWritesKeep`).
- `src/routes/groundSessions.ts:17-24` says the live status can never drift from the session row. Its own writes refresh
  it, but deleting the matched leg, or its trip, sets the row's leg to NULL without a refresh
  (`RecorderEdits.DeletedLegStaysLive`, `RecorderEdits.StatusNamesADeletedLeg`).
- `src/db/schema.ts:420-421` gives `pdc:leg:29` and `oooi:81:OUT` as dedup keys; the builders write `clearance:leg:29` and
  `oooi:flight:81:OUT` (`AcarsKeys.KeysLookLikeThis`).
- The filter of `src/navdata/query.ts:191-200` compares a replica ident as it stands while the feature row folds it to
  upper case (`AirportTiers.ClassifiedAlike`, `AirportTiers.LowerCaseIdentDiffers`).
- `totalCells` counts a column twice when a box across the antimeridian begins and ends in it
  (`CellQuery.TotalIsAnUpperBound`, `CellQuery.SharedColumnCountsTwice`).
- `src/db/flights.ts:249` says fillers between overlapping tracks are a second apart; all eight fall within one second, and
  the merged points are then out of order (`FlightMerge.SpreadOverOneSecond`, `FlightMerge.MergedInOrderExactlyWhen`).

## Model

| member | source | states |
|---|---|---|
| `LinkRuns.RunKeeps` | `src/db/plannedLegs.ts:126-706` | From any consistent database, the empty one included, every sequence of the seventeen operations ends in a consistent one: no two flights hold one leg, a linked flight sits in its leg's trip, link columns are set exactly together, a flown or diverted leg is held and only by an ended flight, deviations only on closed legs, always on diverted and always on auto-linked flown ones, one active trip, distinct seq numbers per trip and in the loose pool |
| `LinkRuns.StepKeeps` | `src/db/plannedLegs.ts:126-706` | Each single operation, refused or not, a death between closing a flight and judging its leg included, keeps all of that |
| `LinkRuns.RunKeepsHome` | `src/db/plannedLegs.ts:497-594` | Through any run that does not overrule the flight's own trip or delete its row, dropping the link at the end (unlink, deleting the leg, deleting the leg's trip) puts the flight back in the trip it was in before its first link |
| `LinkRuns.LinkCallsAreUndone` | `src/db/plannedLegs.ts:521-594` | Any sequence of link, re-target, repeated and refused link calls followed by one unlink restores the flights table exactly and leaves every leg held on the way unheld, planned and without deviation, with no other leg changed |
| `LinkRuns.LinkCallsThenUnlink` | `src/db/plannedLegs.ts:521-594` | The same for a flight that already had a link: the sequence then unlink equals the unlink alone, plus reopening the legs touched |
| `LinkRuns.RetargetIsUnlinkThenLink` | `src/db/plannedLegs.ts:530-561` | Re-targeting an allowed link is exactly a full unlink followed by a full link |
| `LinkRuns.DeletionUnlinksFirst` | `src/db/plannedLegs.ts:274-295` | Deleting a held leg, or its trip, leaves the same database as unlinking its flight first |
| `LinkRuns.LinkCallsThenDeletion` | `src/db/plannedLegs.ts:521-594` | After any sequence of link calls, deleting the leg held at the end, or its trip, leaves the original database with every leg touched on the way reopened and that leg, or trip, deleted from it |
| `LinkRuns.ReleasedExactlyBy` | `src/db/plannedLegs.ts:126-706` | A flight lets go of its leg at an operation exactly when that is its unlink, its allowed re-target, its move to another trip, its removal from its trip, its deletion, a combination of two existing flights naming it, or the deletion of the leg or of the leg's trip |
| `LinkRuns.SomeOperationReleased` | `src/db/plannedLegs.ts:126-706` | A flight that no longer holds its leg at the end of a run held it up to some operation of the run, and that operation is one of those |
| `LinkRuns.NoLegTwiceWithoutRelease` | `src/db/plannedLegs.ts:521-529` | A second flight may be linked to a leg only if such an operation came in between |
| `LinkRuns.RenumberedIsReorder` | `src/db/plannedLegs.ts:301-309` | On an exact listing of the trip the updates give its legs the numbers 1 to n in the listed order and touch no other leg |
| `LinkRuns.ListsTripIsMultiset` | `src/routes/plannedLegs.ts:474-478` | The endpoint's comparison of sorted ids passes exactly the lists without repetition of exactly the trip's legs |
| `LinkRuns.CloseFlightKeeps` | `src/flightManager.ts:866-900` | A recorder that dies after closing the row and before judging the leg leaves a consistent store |
| `LinkRuns.DeleteTripStepwise` | `src/db/trips.ts:109-133` | Sending the linked flights home before the delete leaves the cascade's SET NULL nothing to do |
| `LinkRuns.MergeStepwise` | `src/db/flights.ts:225-346` | Inserting the merged row, clearing both links and deleting both rows equals deleting both flights and adding the merged one |
| `LinkRuns.HandGateIsExact` | `src/plannedLegClose.ts:92-149` | A hand request is allowed exactly when the flight holds a leg by hand, has ended, and the leg is planned (to mark flown) or flown (to reopen); it never decides diverted |
| `LinkRuns.HandCloseRoundTrip` | `src/plannedLegClose.ts:92-149` | Marking a leg flown by hand and reopening it restores the database |
| `LinkRuns.MaxSeqBounds` | `src/db/plannedLegs.ts:126-203` | COALESCE(MAX(seq), 0) is at least every seq of the pool, so a new leg's number is fresh |
| `LinkRuns.MaxSeqAttained` | `src/db/plannedLegs.ts:126-203` | and it is zero or one of them |
| `LinkEffects.LandingDecidesTheLeg` | `src/flightManager.ts:1080-1102` | The leg a landing flight holds is flown within ten nautical miles of its destination and diverted beyond, with the distance to the tenth on both; the flight has its end, arrival and seconds; no other row changes |
| `LinkEffects.LandingWithoutALeg` | `src/flightManager.ts:1080-1084` | A flight without a link lands without touching a leg |
| `LinkEffects.LinkEffect` | `src/db/plannedLegs.ts:521-564` | A free leg is held by the flight under this source; the flight sits in its trip and remembers the one it was in before any link; the leg it held before is planned again; no other row changes |
| `LinkEffects.LinkRefused` | `src/db/plannedLegs.ts:521-529` | A leg that is held, and a leg or flight that does not exist, change nothing |
| `LinkEffects.UnlinkEffect` | `src/db/plannedLegs.ts:572-594` | The flight is unlinked and back in its remembered trip, its leg is planned without deviation, and no other row or column changes |
| `LinkEffects.ClearLinkEffect` | `src/db/plannedLegs.ts:605-624` | The same with the trip left alone |
| `LinkEffects.AssignTripEffect` | `src/db/trips.ts:151-167` | The flight is in the trip, with its link exactly when its leg is in it and with the leg freed otherwise |
| `LinkEffects.RemoveFromTripEffect` | `src/db/trips.ts:170-176` | The flight is in no trip and unlinked, its leg free |
| `LinkEffects.DeleteLegEffect` | `src/db/plannedLegs.ts:274-295` | The leg is gone, the flight that held it is unlinked and home, and nothing else changes |
| `LinkEffects.DeleteTripEffect` | `src/db/trips.ts:109-133` | The trip and exactly its legs are gone, exactly the flights they held are unlinked and home |
| `LinkEffects.CreateLegEffect` | `src/db/plannedLegs.ts:126-203` | One planned leg with the plan's ends, numbered past all of its pool and right after the last of them |
| `LinkEffects.SetLegStatusEffect` | `src/db/plannedLegs.ts:402-420` | A leg nobody holds is skipped or planned as asked, without deviation; a held one stays |
| `LinkEffects.SetActiveTripEffect` | `src/db/plannedLegs.ts:358-369` | Exactly the named trip is active, or none, and names stay |
| `LinkEffects.CombineEffect` | `src/db/flights.ts:225-346` | The merged row starts with the earlier flight, ends and arrives with the later one and has both flights' own seconds, in no trip and unlinked; both rows are gone |
| `LinkEffects.OwnDuration` | `src/db/flights.ts:216-222` | The stored seconds, or those from start to end to the nearest, or none |
| `LinkEffects.HandCloseEffect` | `src/plannedLegClose.ts:92-176` | By hand a planned leg becomes flown with how far off its flight came down, and a flown one planned; no other request changes anything |
| `LinkStore.Store.CreateTrip` | `src/db/trips.ts:10-15` | A new inactive trip under a fresh id; the store stays consistent |
| `LinkStore.Store.SetActiveTrip` | `src/db/plannedLegs.ts:358-369` | Exactly the named trip becomes active, or none; an unknown trip changes nothing |
| `LinkStore.Store.InsertFlight` | `src/db/flights.ts:32-38` | An open, unlinked flight in no trip under a fresh id |
| `LinkStore.Store.CreatePlannedLeg` | `src/db/plannedLegs.ts:126-203` | A planned leg one past the highest seq of its pool; a foreign-key failure leaves the tables as they were |
| `LinkStore.Store.DeletePlannedLeg` | `src/db/plannedLegs.ts:274-295` | The leg goes and its flight goes home, in the order of the statements and foreign-key actions |
| `LinkStore.Store.DeleteTrip` | `src/db/trips.ts:109-133` | Trip and legs go, every flight they held goes home, flights merely assigned to the trip keep its dangling id |
| `LinkStore.Store.ReorderPlannedLegs` | `src/db/plannedLegs.ts:301-309` | Whatever the list, repeats and strangers included, each named leg of this trip gets the last place it is named at, and no other leg changes |
| `LinkRuns.RenumberedAt` | `src/db/plannedLegs.ts:301-309` | The same of the statements as a function |
| `LinkStore.Store.PutTripOrder` | `src/routes/plannedLegs.ts:459-486` | The endpoint accepts exactly the lists that hold each leg of an existing trip once, and then numbers them 1 to n in that order; anything else changes nothing |
| `LinkStore.Store.SetPlannedLegStatus` | `src/db/plannedLegs.ts:402-420` | Throws exactly when a flight holds the leg, naming the holder; otherwise the status is set and the deviation cleared |
| `LinkStore.Store.LinkFlightToPlannedLeg` | `src/db/plannedLegs.ts:521-564` | Succeeds exactly when the flight exists and the leg is its own or exists unheld; a throw, even after the inner unlink, changes nothing and names the right cause; the previous trip is remembered once |
| `LinkStore.Store.UnlinkFlightFromPlannedLeg` | `src/db/plannedLegs.ts:572-594` | The leg is planned again, the flight is back in its remembered trip, and the answer says whether there was a link |
| `LinkStore.Store.ClearPlannedLegLink` | `src/db/plannedLegs.ts:605-624` | Unlink that leaves the flight's trip alone |
| `LinkStore.Store.AssignFlightToTrip` | `src/db/trips.ts:151-167` | The flight moves; its link survives exactly when its leg is already in that trip |
| `LinkStore.Store.RemoveFlightFromTrip` | `src/db/trips.ts:170-176` | The flight leaves its trip and drops its link |
| `LinkStore.Store.DeleteFlight` | `src/db/flights.ts:125-133` | The row goes and the leg it held is planned again |
| `LinkStore.Store.CombineFlights` | `src/db/flights.ts:225-346` | Two rows become one unlinked row spanning both, with the sum of their own durations; both held legs are released |
| `FlightMerge.MergeTracks` | `src/db/flights.ts:236-322` | The loop puts eight evenly spaced points between two non-empty tracks and none otherwise |
| `FlightMerge.FillersAreEven` | `src/db/flights.ts:246-265` | The eight points lie at every ninth of the way in place, height and whole milliseconds, with no airspeed |
| `FlightMerge.MissingCountsNothing` | `src/db/flights.ts:277-279` | A missing distance or maximum counts as zero |
| `FlightMerge.MergedColumnsDescribe` | `src/db/flights.ts:269-280` | If two rows tell of their tracks within s and t miles, the merged row tells of the two flown as one, the way across the gap included, within s + t and one more rounding, 0.15 miles for rows closed by the recorder; its maxima are exact to the foot and knot |
| `FlightMerge.FillersNeverShorten` | `src/db/flights.ts:246-278` | The merged track with its drawn points falls short of the merged row's distance by no more than those roundings |
| `FlightMerge.MergedRowOverstates` | `src/db/flights.ts:269` | and it can: two tracks of 1.06 miles become 2.12 miles stored as 2.2 |
| `FlightMerge.ByTimeSorts` | `src/db/flights.ts:236-238` | Reading a track oldest first loses and invents no point, and changes exactly the tracks that are out of order |
| `FlightMerge.ReadBackExactlyWhen` | `src/db/flights.ts:236-255` | Two tracks in order merge into one that is read back as it was written exactly when the second begins after the first has ended |
| `FlightMerge.MergedInOrderExactlyWhen` | `src/db/flights.ts:246-255` | Two tracks in order of time merge into one in order exactly when the second begins after the first has ended |
| `FlightMerge.SpreadOverOneSecond` | `src/db/flights.ts:249-255` | Otherwise the drawn points lie within a single second of the first track's end |
| `LinkStore.Store.EndFlight` | `src/flightManager.ts:1080-1102` | The closed flight's leg is flown within ten nautical miles of its destination and diverted beyond, with the rounded deviation on both |
| `LinkStore.Store.SetPlannedLegHandOutcome` | `src/db/plannedLegs.ts:675-706` | Writes exactly when the leg's holder is linked by hand and has ended, and otherwise throws without a change |
| `LinkStore.Store.HandClose` | `src/plannedLegClose.ts:92-176` | Whatever the gate allows the writer accepts: no allowed request is refused at the write |
| `LinkStore.Store.constructor` | `src/db/plannedLegs.ts:126-203` | An empty store is consistent |
| `AutoLink.MatchedCanBeLinked` | `src/legMatcher.ts:148-233` | On a consistent store with the active trip's candidates, a matched leg is planned and unheld; linking it cannot throw, keeps consistency and puts the flight in the active trip |
| `AutoLink.AMatchHappens` | `src/legMatcher.ts:148-233` | A consistent store and a takeoff that does match |
| `AutoLink.NeverLinkedTwice` | `src/flightManager.ts:1013-1060` | If, after any run, a leg once linked automatically is matched again and linked to another flight, some operation of that run found the first flight still holding it and was one of those that release it |
| `AutoLink.AutoLinkPlannedLeg` | `src/flightManager.ts:1013-1060` | A match links the matched leg and nothing else; every refusal leaves the store as it was |
| `LegMatcher.MatchedIffOneUsable` | `src/legMatcher.ts:148-233` | Matched exactly when one candidate of the active trip lies within the radius, planned, unlinked and departing from an airport; the answer then names that leg, its trip and its distance, and no other answer names a leg |
| `LegMatcher.WhyRefused` | `src/legMatcher.ts:148-233` | Which refusal each takeoff gets, from the list alone, with the least distance among the legs it is about; a blocked answer names the obstacle of a nearest leg in radius |
| `LegMatcher.ObstacleIs` | `src/legMatcher.ts:115-132` | What stands against a leg is decided by its status, then its link, then its departure |
| `LegMatcher.NearbyIsExact` | `src/legMatcher.ts:183-232` | The nearby ids are ascending and are exactly the legs in radius, for an ambiguous answer exactly the usable ones |
| `LegMatcher.OrderIsIrrelevant` | `src/legMatcher.ts:139-233` | Reordering the candidates changes nothing but, at most, the named obstacle of an exact tie |
| `LegMatcher.OrderMattersIffTied` | `src/legMatcher.ts:139-233` | and some reordering does change it exactly when two nearest, differently blocked legs tie with none usable |
| `LegMatcher.Nearest` | `src/legMatcher.ts:139-143` | A leg of least distance, the first listed among ties |
| `BatchChain.ChainOrderForBatch` | `src/lnmpln.ts:938-980` | The loop gives the specified verdict: chained is the only route through the whole batch, a broken chain or two heads mean none exists, ambiguous means some place is left twice, an unresolved batch keeps its order |
| `BatchChain.ChainOfIsRight` | `src/lnmpln.ts:938-980` | The same of the recursive form |
| `BatchChain.WalkIsRight` | `src/lnmpln.ts:960-979` | From any prefix that every route starts with, the walk ends in a right verdict |
| `BatchChain.UploadOrderIsIrrelevant` | `src/lnmpln.ts:938-980` | Shuffling the upload changes neither the reason nor the order in which the plans are flown |
| `BatchChain.ChainedExactlyWhen` | `src/lnmpln.ts:938-980` | A batch of two or more airport plans is chained exactly when it has a route, begins somewhere no plan arrives, and leaves no place twice |
| `BatchChain.RoutedBatch` | `src/lnmpln.ts:938-980` | A batch that has a route but no head is refused for that, and one with a head and a place left twice is refused as ambiguous, however many routes it has |
| `BatchChain.AmbiguityWithOneRoute` | `src/lnmpln.ts:966-972` | An instance of that: four plans with exactly one route, answered as ambiguous |
| `RecorderRuns.RunsAreSound` | `src/flightManager.ts:191-939` | From any database the schema allows, with any of its flights closed, merged, edited or left open by others, after any run of frames, pauses, crashes, disconnects, restarts, deaths between writes, operator entries, plan changes, flight deletions and combinations: at most one open flight is the recorder's own, and every other open one was left open before the run began; while flying its own is the latest open one and the one being recorded, and after the boot check it has none open otherwise; app state mirrors the machine, the anchor exists exactly on the ground, at most one session is open; totals and the summaries of its own closed flights agree with the stored points; message keys never repeat; the live leg is the row's; the live session is the open row exactly unless the leg it names was deleted since it was read, and then differs in that leg only; report windows strictly rise |
| `RecorderEdits.EveryDatabaseQualifies` | `src/db/schema.ts:186-222` | Every database with intact references, unique keys, at most one open session and no open flight from the future is one that runs may start on |
| `RecorderRuns.AtMostOneIsOpen` | `src/flightManager.ts:191-939` | From any such database in which no flight is open, merged and foreign ones included, no run ever has two open flights; while flying exactly the one being recorded is open, and none is open on a checked machine that is not flying |
| `RecorderAccounts.StepAccounts` | `src/flightManager.ts:191-939` | One event opens no flight but a new one; the recorder stops answering for a flight only when a combination makes it; the live session goes stale only when the leg it names is deleted; a flight loses messages only to an insert that fails while it is recorded, a death in its takeoff or landing, the deletion of a leg one of them was filed under, or its own deletion or combination |
| `RecorderRuns.SomeEventTore` | `src/flightManager.ts:191-939` | A flight that misses messages at the end of a run met such an event in the run |
| `RecorderRuns.UntornMeansFiled` | `src/db/acarsMessages.ts:83-118` | A flight that is closed at the end of a run, lacked none at its start and met none of these events has exactly one OUT, OFF, ON and IN |
| `RecorderEdits.DeletedLegStaysLive` | `src/routes/plannedLegs.ts:497-513` | After legs are deleted, one by one or with their trip, the live session is still what it was, and equals the open row exactly when it names none of them |
| `RecorderEdits.StatusNamesADeletedLeg` | `src/db/schema.ts:478-481` | A run of five parked frames and a deletion after which the row names no leg and the live session still names leg 7 |
| `RecorderEdits.MergedRowTells` | `src/db/flights.ts:225-346` | Two flights of the recorder's own combine into one row with the right maxima and number of points, the sum of their durations, and a distance within 0.15 miles of that of the two tracks flown as one |
| `RecorderEdits.MergedRowSpans` | `src/db/flights.ts:281-296` | An open flight counts no seconds, and when the later one is open the row ends with its last point and has no arrival |
| `RecorderRuns.CombineKeeps` | `src/routes/flights.ts:46-87` | Combining two flights with points, neither being recorded, keeps the full invariant |
| `RecorderRuns.DeleteFlightKeeps` | `src/routes/flights.ts:223-238` | and so does deleting a flight that is not being recorded |
| `RecorderEdits.DeletionTells` | `src/db/flights.ts:125-133` | A deleted flight takes along its points, its link and exactly its messages, frees its leg, and is forgotten by its session |
| `RecorderEdits.WhoMayCombine` | `src/routes/flights.ts:46-70` | Two different flights with points, neither being recorded, combine; any other request changes nothing |
| `RecorderEdits.CombinationTells` | `src/db/flights.ts:225-346` | Two combined flights leave the new row and go like deleted ones; every other flight stays |
| `RecorderEdits.PlanChangeTells` | `src/db/schema.ts:386-395` | When links and legs change, a message goes exactly when its leg does, and the live leg follows its flight's row |
| `RecorderRuns.RemainingAre` | `src/db/schema.ts:386-395` | A deletion takes along exactly the messages about a deleted flight and those filed under a deleted leg |
| `GroundSessions.UnreferencedKeeps` | `src/db/schema.ts:478-499` | Deleting legs and flights opens no session, ends none, and leaves the open one open |
| `RecorderRuns.RunKeeps` | `src/flightManager.ts:191-939` | The full invariant behind RunsAreSound is kept by every run |
| `RecorderRuns.StepKeeps` | `src/flightManager.ts:294-939` | and by every single event, whenever it comes |
| `RecorderFlights.WholeFlight` | `src/flightManager.ts:659-939` | A flight from its takeoff frame to its end, through any events: its points are the takeoff frame, every frame five seconds or more after the last stored one, and so the last; its row has its first frame's time and place, its last one's, and the distance, maxima, count and seconds of those points and of the gaps no pause, slew or paused frame fell into |
| `RecorderFlights.StepIsTold` | `src/flightManager.ts:294-372` | One event, whatever it is, adds to the flight under way exactly what its frame, its pause or its end amounts to, and ends it exactly on a stopped simulator, a crash, a lost connection, the tenth slow frame on the ground, or a death in landing |
| `RecorderFlights.FlightIsTold` | `src/flightManager.ts:1104-1149` | While a flight goes on, its points and its active time are those its list of events tells |
| `RecorderFlights.WhichFramesAreStored` | `src/flightManager.ts:1104-1107` | In the air a frame is stored, as it is, exactly when the last stored point is five seconds old |
| `RecorderFlights.PauseIsNotFlown` | `src/flightManager.ts:256-263` | After a pause, frames or none in it, the next frame adds no active time however soon it comes |
| `RecorderFlights.HowLongAFlightTook` | `src/flightManager.ts:866-876` | The seconds stored at the end are the unbroken gaps up to that moment, in milliseconds, rounded |
| `RecorderFlights.EndFlightFinishes` | `src/flightManager.ts:866-900` | The row that ends has this moment, this place, and the length, maxima and number of its points; no other row changes |
| `RecorderFlights.LandingLeavesNothing` | `src/flightManager.ts:931-939` | After a flight the machine holds no flight, no live leg and no counted frames |
| `RecorderFlights.AirborneFramesCount` | `src/flightManager.ts:376-406` | A flight begins with the third frame in a row off the ground above thirty knots, and any other frame starts the count again |
| `RecorderFlights.TakeoffTells` | `src/flightManager.ts:659-748` | The new row starts now and here, has this frame as its only point, no active time, and the matched leg if it is free; the open session ends for it |
| `RecorderFlights.TakeoffSpeaks` | `src/flightManager.ts:718-744` | A takeoff files its OUT and its OFF and nothing else |
| `RecorderFlights.FrameSpeaks` | `src/flightManager.ts:294-939` | A frame in flight files a report when it is stored in a new window of a linked flight, ON on touchdown, IN on the end and ON if it is still due, and nothing else, each under the live leg |
| `RecorderFlights.WhatIsStillDue` | `src/flightManager.ts:1158-1165` | ON is due until the first frame on the ground, and a report window is used up by the first frame stored in it |
| `RecorderFlights.ResumeTells` | `src/flightManager.ts:763-864` | The flight taken up gets its first frame as one more point; its row, the plans and the sessions stay; ON is due again, and the only message is a report of the current window past the first |
| `RecorderFlights.ParkedFramesCount` | `src/flightManager.ts:309-317` | The fifth parked frame in a row enters the ground state, if the session can be written, and any other frame starts the count again |
| `RecorderFlights.DetectedSession` | `src/flightManager.ts:493-508` | With none open, the session opened says what was detected, where and when |
| `RecorderFlights.GroundEnds` | `src/flightManager.ts:294-372` | A stopped simulator, a slew and a jump of more than ten miles end the session whoever entered it, a crash and a lost connection only one the operator did not, each with its reason |
| `RecorderRuns.FiledOnce` | `src/db/acarsMessages.ts:83-118` | Across restarts no two stored rows have the same dedup key text, so each flight has at most one row per OOOI event and per report window; and a closed flight none of whose messages failed, or went with a deleted leg, has exactly one OUT, OFF, ON and IN |
| `RecorderRuns.TakenMeansSaid` | `src/db/acarsMessages.ts:83-118` | An insert is ignored exactly when this very message is stored: no other message has its key text |
| `RecorderRuns.ActiveTimeBounds` | `src/flightManager.ts:866-876` | Active time is the sum of the unbroken gaps of at most a minute, never more than the stored gaps of at most a minute, nor those more than last minus first timestamp; the tail never takes the duration past the end |
| `RecorderRuns.RestartLosesOnlyTime` | `src/flightManager.ts:763-864` | A process that dies and returns has, after its first frame, the track, distance, maxima, count, last position and live leg of one that was merely interrupted, and the stored gaps as its active time |
| `RecorderRuns.DepartureIsNeverMeasured` | `src/flightManager.ts:783-796` | On a resume the way from the last known place, the departure when nothing is stored yet, is added exactly when there are stored points or there is no way |
| `RecorderRuns.TakeoffWritesKeep` | `src/flightManager.ts:659-687` | A flight without points exists: a death after any of the takeoff's row, session and link writes leaves a sound database whose latest open flight has none |
| `RecorderRuns.TakeoffClosesGround` | `src/flightManager.ts:659-684` | The frame that takes off leaves no ground session open |
| `RecorderRuns.ThirdFrameTakesOff` | `src/flightManager.ts:397-405` | The third airborne frame in a row starts a flight, from idle and from the ground alike |
| `RecorderRuns.EndFlightKeeps` | `src/flightManager.ts:866-939` | Closing writes a summary that agrees with the stored points, files ON and IN, and leaves the machine idle with no flight of its own open |
| `RecorderRuns.WritePointKeeps` | `src/flightManager.ts:1109-1149` | One point extends the stored track by exactly itself and keeps every running total in step |
| `RecorderRuns.StartFlightKeeps` | `src/flightManager.ts:659-748` | A takeoff from a sound state reaches a sound flying state |
| `RecorderRuns.ResumeFlightKeeps` | `src/flightManager.ts:763-864` | So does a resume of the latest open flight, whoever left it open, with any number of stored points |
| `RecorderRuns.DieAtTakeoffKeeps` | `src/flightManager.ts:659-687` | Dying between the takeoff's writes leaves a state the next process recovers from |
| `RecorderRuns.DieAtLandingKeeps` | `src/flightManager.ts:866-900` | and so does dying right after the row is closed |
| `FlightManager.Manager.constructor` | `src/flightManager.ts:191-254` | A new process starts idle with nothing counted and the boot check still to come |
| `FlightManager.Manager.OnFrame` | `src/flightManager.ts:294-356` | The handler takes exactly the step the state machine prescribes for a frame, and keeps the invariant |
| `FlightManager.Manager.OnLoss` | `src/flightManager.ts:358-372` | A crash or disconnect ends a flight at the last frame, and on the ground closes only an automatic session |
| `FlightManager.Manager.SetPaused` | `src/flightManager.ts:256-263` | A pause disowns the gap it falls in even if no frame follows |
| `FlightManager.Manager.CheckAirborneDebounce` | `src/flightManager.ts:379-406` | The open-flight lookup happens once per process, before any airborne counting |
| `FlightManager.Manager.StartFlight` | `src/flightManager.ts:659-748` | The takeoff's writes, in order, end in the specified flying state |
| `FlightManager.Manager.WriteTakeoff` | `src/flightManager.ts:659-687` | Row, closed session and link are written in that order, and the live leg is the link |
| `FlightManager.Manager.Rebuild` | `src/flightManager.ts:798-813` | Distance, maxima and counted time equal path length, maxima and gap sum of the stored points |
| `FlightManager.Manager.ResumeFlight` | `src/flightManager.ts:763-864` | The resumed machine is the one rebuilt from the stored points, then one point on |
| `FlightManager.Manager.WritePoint` | `src/flightManager.ts:1109-1149` | Totals, stored point and report advance together |
| `FlightManager.Manager.MaybeFilePositionReport` | `src/flightManager.ts:1158-1188` | At most one report per window, and only for a linked flight |
| `FlightManager.Manager.CloseFlight` | `src/flightManager.ts:866-900` | The row gets the totals with the tail counted unless interrupted or over a minute |
| `FlightManager.Manager.FileTouchdownOn` | `src/flightManager.ts:639-657` | ON is filed by whichever of touchdown and end comes first |
| `FlightManager.Manager.EndFlight` | `src/flightManager.ts:866-939` | Close, judge the planned leg, ON if still due, IN, then idle with nothing recorded |
| `FlightManager.Manager.RecordArrivalOnPlannedLeg` | `src/flightManager.ts:1080-1102` | The leg is the one on the flight's row at landing, and only that leg gets an outcome |
| `RecorderRuns.LandingJudgesTheLeg` | `src/flightManager.ts:1080-1102` | The live leg gets flown within ten nautical miles of its destination and not beyond, with the rounded distance of the last frame, and every other leg stays |
| `FlightManager.Manager.EnterGround` | `src/flightManager.ts:454-525` | The parked aircraft adopts the open session or gets one, the anchor is set and the live session is the adopted row; a failure stays idle with its counter cleared |
| `FlightManager.Manager.CloseAutoGroundSessionAndReturnToIdle` | `src/flightManager.ts:595-605` | Only a session that is automatic in the table is closed |
| `FlightManager.Manager.RefreshGroundSession` | `src/flightManager.ts:433-447` | The open row becomes the live session; a session closed behind the machine's back takes it from ground to idle |
| `FlightManager.Manager.RefreshPlannedLegForFlight` | `src/flightManager.ts:988-995` | The live leg follows the row of the flight in progress and of no other |
| `FlightManager.Tables.GetOpenFlight` | `src/db/flights.ts:170-187` | The open flight started last, the highest id among ties, or none exactly when none is open |
| `Track.BackfillActiveMs` | `src/backfill-durations.ts:41-52` | The backfill loop's sum, equal to the resuming recorder's on ordered timestamps |
| `Track.SumsAgreeIffForward` | `src/backfill-durations.ts:41-52` | The two gap sums agree exactly when no timestamp is earlier than the one before it |
| `Track.ReseededBounds` | `src/flightManager.ts:806-811` | The stored gaps of at most a minute sum to at most last minus first timestamp |
| `Track.UnbrokenBounds` | `src/flightManager.ts:1115-1124` | The live sum, breaks left out, never exceeds the stored sum |
| `Track.StoredLogFacts` | `src/flightManager.ts:806-811` | Counted live without a break, the stored points give the re-seeded sum |
| `Track.MaximaAre` | `src/flightManager.ts:790-796` | The maxima are those of some point, and no point is above them |
| `Track.PathOfPoints` | `src/flightManager.ts:806-808` | Each further point adds the way to it |
| `AcarsKeys.KeysAreInjective` | `src/acars.ts:143-151` | Two things have the same dedup key exactly when they are the same thing, across all eight builders and all integer ids |
| `AcarsKeys.KeysLookLikeThis` | `src/acars.ts:657-659` | The stored texts, colon by colon |
| `AcarsKeys.JoinInjective` | `src/acars.ts:657-659` | Colon-joined keys split back into their parts |
| `AcarsKeys.DecimalInjective` | `src/acars.ts:746-748` | Decimal texts of integers, negative ones included, are distinct |
| `GroundSessions.GroundSessionStore.InsertGroundSession` | `src/db/groundSessions.ts:35-64` | Refused exactly while a session is open, otherwise the one open session |
| `GroundSessions.GroundSessionStore.CloseOpenGroundSession` | `src/db/groundSessions.ts:84-101` | The open session, if any, ends with this reason, and none is left open |
| `GroundSessions.GroundSessionStore.FillOpenGroundSessionGaps` | `src/db/groundSessions.ts:132-167` | Blank columns of the open row are filled and nothing known is touched |
| `GroundSessions.GroundSessionStore.EnterGround` | `src/flightManager.ts:454-525` | Adoption or insertion, leaving exactly one open session |
| `GroundSessions.GroundSessionStore.InsertManualGroundSession` | `src/db/groundSessions.ts:225-259` | Refines an automatic session at the same airport in place, otherwise replaces the open one |
| `GroundSessions.FillingIsIdempotent` | `src/db/groundSessions.ts:132-167` | Filling twice is filling once; source, ending and known values survive |
| `GroundSessions.NameMatchesCode` | `src/flightManager.ts:468-476` | A name is only ever added beside the code of the same airport |
| `GroundSessions.EnterByHandKeeps` | `src/db/groundSessions.ts:225-259` | One session is open after an operator's entry, never two |
| `GroundSessions.EntryOpens` | `src/db/groundSessions.ts:226-244` | With nothing open the operator's entry becomes the open session, only what was typed in it |
| `GroundSessions.EntryRefines` | `src/db/groundSessions.ts:246-255` | A detected session at the airport named keeps its source and takes just the stand and the leg given |
| `GroundSessions.EntryReplaces` | `src/db/groundSessions.ts:257-258` | Any other open session ends, superseded or corrected, and the entry replaces it |
| `RouteProgress.BuildRemaining` | `src/flightManager.ts:134-150` | The table filled backwards holds, at every waypoint, the path length from there to the destination |
| `RouteProgress.GetPlannedLegStatus` | `src/flightManager.ts:955-978` | For two waypoints or more, the next waypoint is in bounds and ends the first of the nearest segments, and the distance is direct to it plus the rest of the route; with fewer the original reads past the route |
| `RouteProgress.FlownPlusRemaining` | `src/flightManager.ts:134-150` | Route up to a waypoint plus remaining from it is the whole route |
| `RouteProgress.NeverShorterThanDirect` | `src/flightManager.ts:134-150` | A route is at least as long as the way straight to its end |
| `RouteProgress.RemainingIsEnough` | `src/flightManager.ts:955-978` | The unrounded remaining distance is never below the direct distance to the destination |
| `DemandRefinement.SameAsNaive` | `src/navdata/demand.ts:443-567` | Unless the time budget cut the pass short, the first fifty wants and the more flag equal those of collecting every want of every request, leg and airway pair first |
| `DemandRefinement.InTimeSameAsNaive` | `src/navdata/demand.ts:443-567` | In particular for every clock that stays within the allowance |
| `DemandRefinement.LegsAgree` | `src/navdata/demand.ts:495-503` | Stopping the leg scan once the primary group overflows cannot change the first fifty |
| `DemandRefinement.PassAgrees` | `src/navdata/demand.ts:507-547` | Nor can capping the gap pass |
| `DemandRefinement.OfferAgrees` | `src/navdata/demand.ts:495-503` | Nor can leaving a leg's wants early |
| `DemandAnswer.AnswerIsSound` | `src/navdata/demand.ts:443-567` | Whatever the clock does, the answer has at most fifty wants, none twice, none skipped by the sidecar and none the replica already answers |
| `DemandAnswer.NothingIsMissing` | `src/navdata/demand.ts:443-567` | When the answer says there is no more, every unskipped, unheld want of a request or scanned leg is in it |
| `DemandAnswer.ScanIsBounded` | `src/navdata/demand.ts:423-429` | The legs scanned are the first two hundred of the active trip's and then the planned ones |
| `DemandPromises.WhatIsNamedIsAnswered` | `src/navdata/demand.ts:213-240` | When there is no more, every airport and fix a request or a scanned leg names by its fields is in the answer as its kind, all but the parked and the held |
| `DemandPromises.LegWantsWhatItNames` | `src/navdata/demand.ts:213-240` | A leg wants exactly its departure and destination when they are airports, its alternates, and its waypoints of the four types, under normalised ident and region |
| `DemandPromises.HeldExactlyWhen` | `src/navdata/demand.ts:198-212` | A want is held exactly when the replica has a usable row or a recorded absence under its kind and ident, in its region if it names one |
| `DemandPromises.KeysTell` | `src/navdata/demand.ts:443-567` | Wants with one key are of one kind, and the same want when no ident has a bar |
| `DemandPromises.MoreExactlyWhen` | `src/navdata/demand.ts:549-567` | There is more exactly when over fifty were collected; the answer is the first fifty |
| `DemandPromises.PairsExactly` | `src/navdata/demand.ts:388-421` | The pairs looked at are those of neighbouring waypoints that stand for two different fixes with an airway between, each resolved near the last position before it |
| `DemandPromises.PassAsksInTime` | `src/navdata/demand.ts:524-531` | A pass is cut only after a question finds more than a tenth of a second gone, and looks at no pair after one does |
| `DemandPromises.ExaminedHavePairs` | `src/navdata/demand.ts:534-546` | A leg counts as looked at only when it has a pair |
| `DemandPromises.NearestFirst` | `src/navdata/demand.ts:281-286` | A fix left out of a frontier is no nearer to the far end than one asked for, the smaller key winning ties |
| `DemandSources.NothingElseIsAsked` | `src/navdata/demand.ts:443-567` | Whatever is in the answer is named by a request or a scanned leg, or is a fix on an airway between two of its waypoints that the replica does not join, and is neither parked nor held |
| `DemandSources.WantedNavaidsExactly` | `src/navdata/demand.ts:256-280` | A navaid counts as wanted for a fix exactly when one of its ident, and of its region or none, was collected |
| `DemandReply.ReplyHasWhatIsNamed` | `src/navdata/demand.ts:443-567` | The reply itself, when it says there is no more, sends every open airport and fix that is named |
| `DemandReply.ReplyHasNothingElse` | `src/navdata/demand.ts:443-567` | and sends nothing that is not named or on a broken airway |
| `DemandReply.ReplyTells` | `src/navdata/demand.ts:549-567` | Airports go by ident, the rest as they are, with the cap, the flag and the time |
| `DemandReply.StaysExactly` | `src/navdata/demand.ts:484-493` | A request stays unless what it names is held and not parked |
| `DemandReply.LiveExactly` | `src/navdata/demand.ts:443-450` | and lives until it expires |
| `DemandAnswer.OpenNodesNeedFetching` | `src/navdata/demand.ts:262-280` | Every fix a frontier may ask for lies on the walk and is unanswered under its own ident and region, as the navaid the replica has there or as a waypoint where it has none |
| `DemandAnswer.OpenNodesAreDistinct` | `src/navdata/demand.ts:262-267` | No fix is considered twice |
| `DemandAnswer.ChosenAreNearest` | `src/navdata/demand.ts:256-287` | A frontier never leaves out a fix strictly nearer to the far end than one it asks for |
| `DemandAnswer.FrontierIsTheChosen` | `src/navdata/demand.ts:281-286` | and asks for exactly the chosen ones: all up to two, else two |
| `DemandRotation.EveryLegGetsATurn` | `src/navdata/demand.ts:525-546` | With unchanged legs and no cap, any n polls in a row over n legs look at an airway pair of every leg that has one, whatever the clocks do and whichever replicas the polls see |
| `DemandRotation.ATurnComes` | `src/navdata/demand.ts:525-546` | A leg with one connected pair, and a poll that looks at it |
| `DemandRotation.OnePoll` | `src/navdata/demand.ts:525-546` | One pass looks at the leg in question or leaves it strictly fewer places ahead of the next pass |
| `DemandRotation.PassMovesOn` | `src/navdata/demand.ts:524-531` | A pass cut short still got through at least one leg, because its first pair is free |
| `DemandRotation.NextStartsWhereItEnded` | `src/navdata/demand.ts:543-546` | The next pass begins at the leg not reached, or right after the leg that was cut |
| `DemandRotation.PassExamines` | `src/navdata/demand.ts:534-545` | Every leg got through that has pairs had one looked at |
| `DemandBuilder.Builder.BuildDemand` | `src/navdata/demand.ts:443-567` | The memoised, early-exiting poll answers as the model with direct lookups, deletes exactly the expired and the answered unskipped requests, and moves the offset as specified; when the time budget cut nothing, its response is that of collecting everything first and keeping fifty |
| `DemandBuilder.Builder.GapWants` | `src/navdata/demand.ts:388-421` | The loop over a leg's waypoints looks at exactly its airway pairs, in order, until capped or out of time |
| `DemandBuilder.Builder.GapPass` | `src/navdata/demand.ts:532-546` | The rotation over the legs and where it stops |
| `DemandBuilder.Builder.CurrentGapState` | `src/navdata/demand.ts:332-347` | Nothing remembered outlives the stamp it was looked up under; the offset does |
| `DemandBuilder.Builder.WalkOnce` | `src/navdata/demand.ts:360-365` | A remembered walk is the walk of the replica as it is |
| `DemandBuilder.Builder.ResolveOnce` | `src/navdata/demand.ts:367-373` | A remembered key is the key of this waypoint, whatever anchor it was first looked up with |
| `DemandBuilder.Builder.TakeRequests` | `src/navdata/demand.ts:484-493` | Requests are collected in order, and only answered, unskipped ones are deleted |
| `DemandBuilder.Collector.Frontier` | `src/navdata/demand.ts:256-287` | The loop with its seen set asks for the frontier of the walk |
| `DemandBuilder.Collector.EmitAll` | `src/navdata/demand.ts:538-541` | Emitting stops exactly when nothing more can be accepted |
| `Clearance.ClipRouteToBudget` | `src/acars.ts:533-551` | The whole route if it fits; else first and last token, when they fit, around the longest fitting prefix; else a hard clip or NIL; within the budget exactly when it is at least three or the whole route fits |
| `Clearance.BuildCondensedClearanceMessage` | `src/acars.ts:559-578` | At most 128 characters: the fixed parts around NIL or the route clipped to what they leave, and the final slice cuts nothing exactly when that is at least three |
| `Clearance.NormalisedIsTidy` | `src/acars.ts:516-524` | A normalised route is non-empty upper-case printable ASCII with single spaces, none at either end |
| `Clearance.NormalisedIsItsWords` | `src/acars.ts:516-524` | A route normalises to its words in upper-case printable ASCII with single spaces between them, and to nothing when it has none |
| `Clearance.SplitJoins` | `src/acars.ts:574` | Splitting a route at spaces and joining it again loses nothing |
| `Clearance.LongerIsLonger` | `src/acars.ts:541-545` | More tokens never make a shorter text, so the first one that does not fit ends the search |
| `LikeSearch.BuildSearchWhere` | `src/db/flights.ts:506-515` | The clause with its bound parameters accepts a row exactly when every token occurs, letter case aside, in at least one of the six columns |
| `LikeSearch.PatternMeansContains` | `src/db/flights.ts:499-515` | An escaped token between percent signs matches exactly where the token occurs literally |
| `LikeSearch.EscapedIsPrefix` | `src/db/flights.ts:499-501` | An escaped token followed by a percent sign matches exactly the texts that start with it |
| `LikeSearch.LeadingPercent` | `src/db/flights.ts:511` | A leading percent sign matches any start |
| `LikeSearch.FoldIs` | `src/db/flights.ts:506-515` | The 26 capital letters fold to the small ones and nothing else changes |
| `AirportTiers.ClassifiedAlike` | `src/navdata/query.ts:191-200` | Filter and feature row give an airport the same tier exactly when its runway is known, its ident is in upper case, or the classes do not know it |
| `AirportTiers.LowerCaseIdentDiffers` | `src/navdata/airportTiers.ts:150-175` | A lower-case replica ident filtered as unknown and shown as large |
| `AirportTiers.MaxIsLongest` | `src/navdata/query.ts:156-200` | MAX(length) and the first row by descending length agree, unknown lengths aside |
| `AirportTiers.EntriesLoad` | `src/navdata/airportTiers.ts:135-140` | Entries of the four stored codes load as upper-case idents with those codes |
| `AirportTiers.SetAirportTiers` | `src/navdata/airportTiers.ts:135-140` | Idents are folded to upper case and later entries win |
| `AirportTiers.AirportTierFloor` | `src/navdata/airportTiers.ts:216-222` | The highest tier the zoom alone admits |
| `AirportTiers.FloorOf` | `src/navdata/airportTiers.ts:51-53` | Large from zoom 6, medium from 7, small from 8, all from 9 |
| `AirportTiers.ChooseAirportTier` | `src/navdata/airportTiers.ts:232-241` | The larger of the floor and the greatest classified tier up to which everything fits 500; if lifted, at most 500 are admitted |
| `AirportTiers.ChoiceIsMonotone` | `src/navdata/airportTiers.ts:232-241` | There is one such tier, and zooming in never lowers it |
| `AirportTiers.Histogram` | `src/navdata/query.ts:210-214` | The counts per tier of the box |
| `AirportTiers.AdmittedCount` | `src/navdata/query.ts:326-351` | The filter admits exactly the cumulative count of the histogram |
| `AirportTiers.QueryAirports` | `src/navdata/query.ts:283-351` | Nothing is thinned exactly when no classes are loaded or the choice is the last tier; otherwise the tier applied is the choice for the box's histogram, the hidden are the rest, the zoom named is where the next tier appears, and truncation is exact |
| `AirportTiers.ChooseThinning` | `src/navdata/query.ts:298-325` | The same of the choice alone |
| `AirportTiers.HiddenAreTheRest` | `src/navdata/query.ts:298-325` | Of the airports in the box, the filter keeps the histogram's count through the tier, and the five counts together are all of them |
| `AirportTiers.HistogramCounts` | `src/navdata/query.ts:210-214` | The grouped rows, read with zero for a missing tier, count every tier of the box |
| `CellQuery.SelectedIsTouched` | `src/navdata/query.ts:111-137` | A cell is selected exactly when the box has a point in it, across the antimeridian too |
| `CellQuery.SelectedIsRectangle` | `src/navdata/query.ts:117-124` | The one-dimensional test selects exactly the rows and columns of the box |
| `CellQuery.CellsAreHalfDegrees` | `src/navdata/query.ts:60-62` | Every position lies in the half-degree cell of its row and column, the far edges in the last ones |
| `CellQuery.TotalCells` | `src/navdata/query.ts:63-69` | The loop's total |
| `CellQuery.TotalIsAnUpperBound` | `src/navdata/query.ts:63-69` | The total never falls short of the selectable cells, and equals them exactly unless both sides of a crossing box share a column and a row is left out |
| `CellQuery.SharedColumnCountsTwice` | `src/navdata/query.ts:63-69` | A box for which the total counts one column twice |
| `CellQuery.CoverageFor` | `src/navdata/query.ts:111-137` | The harvested count is that of the stored cells the box touches, never above the total, so the fraction is at most one, and zero when the total is |
| `CellQuery.RangesAreTheBox` | `src/navdata/query.ts:55-58` | The one or two longitude ranges cover exactly the box |
| `CellQuery.LegSelectedIffItMeetsTheBox` | `src/navdata/query.ts:395-409` | An airway leg is selected exactly when its latitudes and its longitudes, wrapped for a dateline leg, meet the box |

## Left out

- Routers, event streams, authentication, exports, weather, flight-plan and radio clients, and the React client: input and output.
- Parsing of `.lnmpln` and SimBrief plans, and the wording and payloads of messages.
- Floating-point rounding and trigonometry: reals, and distance and cross-track functions without a definition; the bounds on remaining distance assume a metric.
- SQLite itself: isolation, write-ahead logging, migrations. Queries do not fail, except that message inserts may.
- Free-text columns, airports' names and codes on flight rows, and timestamps of edits: copied, never decided on.
- SQL ordering: a query's result order is an assumption of the caller (candidates in trip order, requests oldest first, airports by ident), not a sort that is proved.
- Unicode: trimming and upper-casing are uninterpreted where idents are compared, and in the flight search `toLowerCase` is that of ASCII letters, so the claim is for ASCII tokens.
- RecorderRuns.RunsAreSound: one clock reading per event, where the handler reads the clock several times; and deleting the very flight being recorded, which the API does not refuse, is not among the events.
- RecorderRuns.DieAtTakeoffKeeps: deaths are modelled between the takeoff's row, session and link writes, and `DieAtLandingKeeps` after the row is closed; a death later in either handler loses only messages and is not a separate event.
- LinkRuns.RunKeeps: nothing is claimed of an unlinked flight's own trip, nor of the trip a linked flight remembers, since deleting a trip leaves both ids in place (`src/db/trips.ts:95-97`).
- FlightManager.Manager.ResumeFlight: a flights row always has a departure position and points always have parseable timestamps.
- FlightManager.Manager.EnterGround: the off-blocks time; the planned-leg and stand guess for a parked aircraft is part of the world's answer.
- FlightManager.Manager.RefreshGroundSession: the trip and the airport idents that the live status copies from the leg.
- LinkStore.Store.CombineFlights: flights have no points here, so the end of an unfinished second flight is a parameter; track, distance, maxima and number of points are in `FlightMerge` and `RecorderEdits.MergedRowTells`. Copied text columns and the fillers' heading are not modelled.
- DemandBuilder.Builder.BuildDemand: `walkAirway`, `resolvePlannedKey` and `airwayAttempted` are uninterpreted functions of the replica's rows; a remembered entry is right because an empty target means no target and a positioned waypoint resolves by its place alone, and because replicas with the same stamp hold the same rows.
- DemandBuilder.Builder.WalkOnce: memo keys are records, where the original joins their parts with NUL characters.
- DemandAnswer.AnswerIsSound: wants count as the same when their keys are, and a key joins its parts with a bar as the original does.
- Clearance.BuildCondensedClearanceMessage: codes, level text and squawk come in as text.
- AirportTiers.QueryAirports: runway surfaces, towers and the other feature kinds; reloading the temporary tier table.
- Skip-list parsing, runway designations, squawk codes, journey statistics, event hubs and throttles: easy, or over finite domains.
