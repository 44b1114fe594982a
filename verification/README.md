# Market feed core: a verified model

The repository turns venue feeds into books, candles, profiles, bubbles and levels. This project
models its deterministic state machines and proves what they keep over whole runs.

- **Event phases** (`PhaseModel`, `PhaseRuns`, `PhaseMachine`): a dwell-timed phase classifier.
- **Order book** (`BookSides`, `BookModel`, `OrderBook`): two price maps with depth trimming, crossing
  checks and transactional messages with an undo log.
- **Book synchronizer** (`BookSync`, `SyncRuns`, `SyncValidity`, `BookSynchronizer`): snapshot, buffer
  and live deltas.
- **Grid and periods** (`Decimal`, `Grid`): exact decimals, ticks, buckets, event-time periods.
- **Session profile** (`ValueArea`, `AreaShape`, `ProfileBatch`, `ProfileModel`, `ProfileRefusals`,
  `ProfileRuns`, `ProfileTotals`, `ProfileSessions`, `ProfileAreas`, `ProfileExamples`,
  `SessionProfile`): volume and time at price, point of control, value area.
- **Candle flow** (`FlowModel`, `FlowRuns`, `FlowExamples`, `CandleFlow`): volumes by source, level and
  side.
- **Bubbles** (`BubbleThreshold`, `BubbleAggregate`, `BubbleDetect`, `BubbleOutput`, `BubbleDetector`,
  `BubbleOrder`, `BubbleStyle`, `BubbleGroups`, `BubbleMerge`, `BubbleClusters`): detection against
  adaptive thresholds, sizes, and merging.
- **Structural levels** (`LevelModel`, `StructuralLevels`, `TopLevels`, `TopLevelTrim`, `TopLevelRuns`,
  `LevelCapacity`, `LevelRuns`, `LevelCrowding`, `LevelEngine`): naked, reaction, day and week levels in
  one bounded list.
- **Sink mailbox** (`SinkMailbox`, `SinkProtocol`): producers, one worker and close, as atomic steps.
- **Valid-book gauge** (`ValidBooks`): reference counts of books held by sessions.

`Common`, `Ordering` and `Sorting` hold shared types, finite ordered sets and a stable sort. Where the source changes fields, a
class does the same and is proved against functions on values; whole runs are sequences of calls over
those functions, with failed calls included. Clocks, evidence, trades, venues and hash-derived ids are
parameters. `dafny verify dfyconfig.toml` checks everything.

## Where the code does less than one might expect

- A session profile is not always failure-atomic: an advance or a finish that ends the session closes
  the open period before the record that may be refused (`ProfileRuns.FailuresChangeNothing` gives the
  exact condition, `ProfileRuns.HalfClosedCountsTwice` the cost, `ProfileExamples.LowPriceHalfCloses`
  a run). It never reaches a returned profile, because such a session is refused for good
  (`ProfileRuns.RefusedForever`).
- A trade below the first full price bucket is accepted, but its session or candle can never be
  recorded and nothing later is (`ProfileRuns.LowPriceIsFatal`, `ProfileRuns.NothingFollowsRefusal`,
  `FlowRuns.RecordableExactly`, `FlowRuns.NothingFollowsRefusal`, `FlowExamples.LowTradeIsFatal`).
- A session that was finished early starts again with its next trade and is returned again
  (`ProfileExamples.FinishedSessionIsResumed`; `ProfileSessions.OnceExactly` gives the exact condition).
- A live synchronizer does not always have a valid book (`SyncRuns.LiveInvalidExactly`,
  `SyncRuns.ACrossedRun`).
- A drain that stops at a refused delta leaves a valid book whose levels are past its own sequence
  (`SyncValidity.ValidBookExactly`, `SyncValidity.ABookPastItsSequence`).
- Bubble merging is single-linkage clustering exactly while no bubble of a disabled tier stands between
  near ones (`BubbleGroups.SingleLinkageExactly`, `BubbleClusters.OutputIsClusters`,
  `BubbleGroups.DisabledBubbleSeparates`).
- The greedy value area is smallest for every target exactly when activity falls away from the point of
  control (`AreaShape.SmallestExactly`; `ValueArea.GapMakesAreaLarger` is an input where it is not).
- The room that the configuration of structural levels reserves for day and week levels does not protect
  them: new naked and reaction levels crowd them out (`LevelRuns.CandleEvictsTopExactly`,
  `LevelCrowding.CrowdedOut`, `LevelCrowding.ReservedLevelIsCrowdedOut`).
- A phase machine whose next deadline exceeds the clock's range is stuck
  (`PhaseModel.AdvanceFailsExactly`, `PhaseModel.OverflowIsAbsorbing`, `PhaseRuns.ObservedAtTheEnd`).

## Model

| member | source | states |
|---|---|---|
| PhaseModel.AdvanceCoherent | crates/event-pulse/src/mechanics.rs:149-172 | From every coherent state an advance, also a failing one, leaves a coherent state: while the evidence in force is invalid the phase is Invalid at the return, although the loop may pass through Normal. |
| PhaseModel.ObserveCoherent | crates/event-pulse/src/mechanics.rs:124-147 | Observing keeps the same invariant, whatever it returns. |
| PhaseModel.QuietPoll | crates/event-pulse/src/mechanics.rs:149-172 | A poll before the next deadline moves only the clock, and a later poll then ends as if it had not happened. |
| PhaseModel.PollingGranularity | crates/event-pulse/src/mechanics.rs:149-192 | Advancing to a and then to b equals advancing to b at once: phase, candidate with its original start, clock, transitions and error; a first poll that fails makes the longer one fail identically. |
| PhaseModel.OverflowIsAbsorbing | crates/event-pulse/src/mechanics.rs:149-172 | When the first deadline of the chain past the target time exceeds 64 bits, the call fails, and then every later call of either kind fails and changes nothing. |
| PhaseModel.AdvanceFailsExactly | crates/event-pulse/src/mechanics.rs:149-172 | An advance fails exactly when time runs backwards or the first deadline of the chain past the target time exceeds 64 bits. |
| PhaseModel.InRangeNeverFails | crates/event-pulse/src/mechanics.rs:149-172 | So no advance that does not run backwards fails up to five seconds before the end of the clock's range. |
| PhaseModel.NoFourStepChain | crates/event-pulse/src/mechanics.rs:194-244 | For one valid evidence the guarded transition graph has no chain of four changes, hence no cycle. |
| PhaseModel.SettleBounds | crates/event-pulse/src/mechanics.rs:194-244 | From any phase valid evidence allows at most three changes, which take at most five seconds in all. |
| PhaseModel.QuietForever | crates/event-pulse/src/mechanics.rs:149-192 | When the evidence names no target, advancing any distance moves only the clock. |
| PhaseModel.Settling | crates/event-pulse/src/mechanics.rs:149-192 | With valid evidence held fixed the machine makes at most three more changes, reaches the end of its chain within the settling time, and then never moves again however far time advances. |
| PhaseModel.ThreeChangesHappen | crates/event-pulse/src/mechanics.rs:194-244 | The bound of three is attained. |
| PhaseModel.DwellDetermined | crates/event-pulse/src/mechanics.rs:194-244 | The dwell of a transition is determined by its two phases, no transition stays where it is, and all but those into Invalid dwell at least 100 ms. |
| PhaseRuns.RunsAreSound | crates/event-pulse/src/mechanics.rs:124-192 | Over every run of both calls, failed ones included: the log of observations and entries is ordered in time, each entry is justified by the log before it, and the state is what the log says. |
| PhaseRuns.PendingWindow | crates/event-pulse/src/mechanics.rs:174-191 | From the pending position of a log on, the phase stood and every evidence was valid and named the same target with the same dwell. |
| PhaseRuns.PendingIsEarliest | crates/event-pulse/src/mechanics.rs:174-191 | That position goes back as far as possible: its own entry brought the phase or the target about. |
| PhaseRuns.CandidateSince | crates/event-pulse/src/mechanics.rs:124-192 | In every run the candidate that the machine keeps is the target named now, and its start is the time of the earliest log entry since when it was named without a break. |
| PhaseRuns.Hysteresis | crates/event-pulse/src/mechanics.rs:124-192 | In every run a phase is entered at t only if a log entry lies exactly its dwell before t and from there to t the phase stood, no invalid evidence arrived and every evidence in force named that target. |
| PhaseRuns.EntriesAreSpaced | crates/event-pulse/src/mechanics.rs:124-192 | In every run an entry into a phase other than Invalid is at least 100 ms after the entry or invalidation before it. |
| PhaseRuns.PollsDoNotMatter | crates/event-pulse/src/mechanics.rs:124-172 | A run of accepted calls with polls anywhere in it, polled at the end, has the same state, log and error as its observations alone. |
| PhaseRuns.ObservedAtTheEnd | crates/event-pulse/src/mechanics.rs:124-192 | Evidence of all families at the last instant of the clock is observed without an error, and then every call fails and changes nothing. |
| PhaseMachine.Machine.constructor | crates/event-pulse/src/mechanics.rs:107-114 | A new machine is in the initial state of the model. |
| PhaseMachine.Machine.RefreshCandidate | crates/event-pulse/src/mechanics.rs:174-191 | The object follows the model: the candidate is dropped, kept or replaced. |
| PhaseMachine.Machine.TakeTurn | crates/event-pulse/src/mechanics.rs:153-168 | One turn of the loop makes exactly the due transition, fails on an unrepresentable deadline, or stays. |
| PhaseMachine.Machine.AdvanceTo | crates/event-pulse/src/mechanics.rs:149-172 | The loop terminates, by less time left or leaving for Invalid, and ends in exactly the state and result of the model. |
| PhaseMachine.Machine.Observe | crates/event-pulse/src/mechanics.rs:124-147 | Observing ends in exactly the state and result of the model. |
| BookModel.BestDecidesCrossing | crates/book/src/l2.rs:338-349 | Comparing the two best prices decides whether any bid reaches any ask. |
| BookModel.CutSize | crates/book/src/l2.rs:315-336 | The depth cut keeps at most the depth, and exactly the depth when there are enough levels. |
| BookModel.DropWorst | crates/book/src/l2.rs:315-336 | Dropping the worst level of an overfull side leaves its cut unchanged, so the trimming loop computes the cut. |
| BookModel.CutKeepsCrossing | crates/book/src/l2.rs:315-349 | Unless the depth is zero the cut neither hides nor causes a cross. |
| BookModel.BestFirstRanks | crates/book/src/l2.rs:254-281 | A bounded listing has, at each place, the level with exactly that many better ones, and lists as many as the limit or the side allows. |
| BookModel.BatchLookup | crates/book/src/l2.rs:150-226 | After a batch every side and price holds its last mutation in the batch, or else its old level. |
| BookModel.SameLastMutations | crates/book/src/l2.rs:150-226 | Batches that agree on the last mutation of every level give the same levels. |
| BookModel.UndoRestores | crates/book/src/l2.rs:186-223 | Replaying an undo log that recorded each touched level once restores the original exactly. |
| BookModel.PreparedAllPositive | crates/book/src/l2.rs:158-184 | Changes that pass preparation carry only positive quantities. |
| OrderBook.ReplacedSane | crates/book/src/l2.rs:88-109 | An accepted snapshot is uncrossed, positive and within its depth. |
| OrderBook.ChangedSane | crates/book/src/l2.rs:111-142 | A single change keeps a valid book uncrossed, positive and within its depth, or gives up its validity. |
| OrderBook.CrossesExactly | crates/book/src/l2.rs:111-142 | A change takes a valid book's validity, with a crossing error, exactly when it sets a level, at a price and quantity that the book's scales hold, that reaches a level of the other side. |
| OrderBook.ChangedAtomicallySane | crates/book/src/l2.rs:150-226 | So does a message of changes. |
| OrderBook.MessageMeaning | crates/book/src/l2.rs:150-226 | A refused message leaves levels, validity and sequence as they were; an accepted one is the depth cut of an uncrossed book that holds each level at its last mutation or as it was. |
| OrderBook.MessagesAlike | crates/book/src/l2.rs:150-226 | Messages that agree on every last mutation have the same effect and result. |
| OrderBook.MessageOfOne | crates/book/src/l2.rs:111-226 | A message of one change is accepted exactly when the single-change call accepts it, with the same book. |
| OrderBook.L2Book.constructor | crates/book/src/l2.rs:54-64 | A new book is empty and not yet valid. |
| OrderBook.L2Book.Clear | crates/book/src/l2.rs:82-86 | Clearing empties both sides and forgets the sequence. |
| OrderBook.L2Book.ApplySnapshot | crates/book/src/l2.rs:88-109 | The object follows the model; a refused snapshot leaves the book as it was. |
| OrderBook.L2Book.ApplyChange | crates/book/src/l2.rs:111-142 | The object follows the model, error paths included. |
| OrderBook.L2Book.ApplyChangesAtomic | crates/book/src/l2.rs:150-226 | Preparing, applying in place with an undo log, undoing on a cross and trimming end in the state and result of the model. |
| OrderBook.L2Book.PrepareChanges | crates/book/src/l2.rs:158-184 | The preparing loop yields the scaled mutations, or the first error. |
| OrderBook.L2Book.ApplyRecorded | crates/book/src/l2.rs:186-207 | The applying loop yields the mutated levels and a log that undoes them. |
| OrderBook.L2Book.TrimDepth | crates/book/src/l2.rs:315-336 | The trimming loops end with the depth cut. |
| OrderBook.L2Book.CheckNotCrossed | crates/book/src/l2.rs:338-349 | The check fails exactly when some bid reaches some ask. |
| OrderBook.L2Book.SnapshotLevelsBounded | crates/book/src/l2.rs:254-281 | Nothing unless the book is valid; otherwise the best levels of each side, best first. |
| OrderBook.L2Book.UpsertLevel | crates/book/src/l2.rs:283-298 | One level is set; a quantity that is not positive or a figure the scales cannot hold is reported and changes nothing. |
| OrderBook.L2Book.DeleteLevel | crates/book/src/l2.rs:300-313 | One level is removed; a price that the scale cannot hold is no level and changes nothing. |
| BookSync.NewerIsRedundant | crates/book/src/sync.rs:141-177 | The filter on buffered deltas never changes what the drain does. |
| BookSync.DrainRefinesLive | crates/book/src/sync.rs:141-202 | With an accepted snapshot, draining a buffer and draining an empty one followed by live delivery of the buffer give the same result and, on success, equal synchronizers. |
| BookSync.BufferingKeepsAggregates | crates/book/src/sync.rs:113-139 | Buffering keeps the byte and time aggregates true and the buffer within its limits. |
| SyncRuns.RunsAreSound | crates/book/src/sync.rs:78-202 | Over every run of all calls: a valid book is uncrossed, positive and within depth, the buffer is within its limits with true aggregates, and a live book stands just before what it expects. |
| SyncRuns.SnapshotHolds | crates/book/src/sync.rs:141-177 | An accepted snapshot call leaves the snapshot plus one buffered delta for each consecutive sequence. |
| SyncRuns.OtherwiseUnchanged | crates/book/src/sync.rs:78-202 | No other call makes a live book or changes one without an accepted delta. |
| SyncRuns.LiveBookIsExplained | crates/book/src/sync.rs:78-202 | Over every run a book that is live and valid is the last accepted snapshot plus exactly one delivered delta for each sequence up to its own, with the next one expected. |
| SyncRuns.LiveInvalidStep | crates/book/src/sync.rs:78-202 | Exactly which call leaves a live synchronizer over a book that is not valid: the expected live delta that reaches the other side of a valid book, or afterwards a delta that is not beyond the expected one, or one that the buffer takes. |
| SyncRuns.LiveInvalidExactly | crates/book/src/sync.rs:78-202 | After every run the synchronizer is live over a book that is not valid if and only if a live delta crossed and every call since was of that quiet kind. |
| SyncRuns.ACrossedRun | crates/book/src/sync.rs:141-202 | A snapshot of one bid and one ask and a live bid at the ask's price is such a run, under all limits. |
| SyncRuns.CrossedWhileLive | crates/book/src/sync.rs:179-202 | From a crossing live delta on, no live delta changes the book, and only an older one is not an error. |
| SyncValidity.AppliedMeaning | crates/book/src/sync.rs:148-177 | The deltas that a drain applies are consecutive, and a book that is still valid is the one they lead to. |
| SyncValidity.ValidBookExactly | crates/book/src/sync.rs:78-202 | After every run a valid book, live or not, is the last snapshot that replaced it plus one delivered, accepted delta for each sequence after it, and its own sequence is that of the last of them if and only if the drain of that snapshot did not stop at a refused delta after it applied another; without such a snapshot it is the first book. |
| SyncValidity.ABookPastItsSequence | crates/book/src/sync.rs:141-177 | A buffered bid of sequence 6, a buffered upsert of sequence 7 without a quantity and a snapshot of sequence 5 leave a valid book of sequence 5 that holds the bid. |
| BookSynchronizer.Synchronizer.constructor | crates/book/src/sync.rs:64-76 | A new synchronizer is the initial one of the model. |
| BookSynchronizer.Synchronizer.BeginResync | crates/book/src/sync.rs:78-87 | The object follows the model. |
| BookSynchronizer.Synchronizer.Invalidate | crates/book/src/sync.rs:89-96 | The object follows the model. |
| BookSynchronizer.Synchronizer.RequestSnapshot | crates/book/src/sync.rs:98-101 | The object follows the model. |
| BookSynchronizer.Synchronizer.NoteGap | crates/book/src/sync.rs:103-110 | The object follows the model. |
| BookSynchronizer.Synchronizer.BufferDelta | crates/book/src/sync.rs:113-139 | The object follows the model, limits and overflow included. |
| BookSynchronizer.Synchronizer.ApplySnapshotAndDrain | crates/book/src/sync.rs:141-177 | The loop over the buffer ends in the state and result of the model. |
| BookSynchronizer.Synchronizer.OnLiveDelta | crates/book/src/sync.rs:179-202 | The object follows the model, early returns included. |
| Decimal.RescaleIsExact | crates/model/src/fixed.rs:189-262 | Exact-only rescaling keeps value and sign, and when it refuses for inexactness no coefficient at the new scale has the value. |
| Grid.TickRoundTrip | crates/analytics/src/grid.rs:105-153 | An accepted price comes back from its tick and lies within its bucket; the bucket has no price exactly when the tick is below one bucket. |
| Grid.BucketRoundTrip | crates/analytics/src/grid.rs:105-153 | A bucket that has a price comes back from that price. |
| Grid.BucketsAreMonotone | crates/analytics/src/grid.rs:105-127 | Higher prices never fall into lower buckets. |
| Grid.PeriodHolds | crates/analytics/src/config.rs:174-193 | A period holds the times that start in it, also before the anchor. |
| Grid.PeriodsAreMonotone | crates/analytics/src/config.rs:174-193 | Later times lie in the same or a later, disjoint period. |
| Grid.PeriodsNest | crates/analytics/src/config.rs:123-128 | A period whose length divides the session lies within one session. |
| ValueArea.WinnerBeatsAll | crates/analytics/src/profile.rs:597-622 | The scan finds the level that beats every other by activity, closeness to the middle and lower price. |
| ValueArea.TargetIsShare | crates/analytics/src/profile.rs:629-635 | Reaching the rounded target is holding the configured share. |
| ValueArea.AreaHoldsShare | crates/analytics/src/profile.rs:576-696 | The window surrounds the point of control, lies on traded levels and holds at least its share of all activity. |
| ValueArea.DominatingIsMost | crates/analytics/src/profile.rs:637-690 | No set of at most as many levels holds more than a window that dominates the rest. |
| ValueArea.AreaIsSmallest | crates/analytics/src/profile.rs:576-696 | When activity falls away from the point of control on both sides, no set of fewer levels, contiguous or not, holds the share. |
| AreaShape.SmallestExactly | crates/analytics/src/profile.rs:637-690 | For a busiest level the greedy window is the smallest of all sets of levels, for every target from one to the total, if and only if activity does not rise on the way outwards. |
| AreaShape.SmallerSet | crates/analytics/src/profile.rs:637-690 | When a level outside the window is busier than the one that joins next, the window with that level is a smaller set for what they sum to. |
| AreaShape.AreaSmallestExactly | crates/analytics/src/profile.rs:576-696 | While activity sums to at most 10,000, so that every target is that of a configured share, the value area is smallest for every share if and only if activity falls away from the point of control. |
| ValueArea.GapMakesAreaLarger | crates/analytics/src/profile.rs:637-690 | Without that shape the window can be larger than needed: of the levels 10, 1 and 9 it takes all three for a share that two of them hold. |
| ValueArea.FindPoc | crates/analytics/src/profile.rs:601-622 | The scan loop returns the winner, or fails on overflow. |
| ValueArea.TotalActivity | crates/analytics/src/profile.rs:624-628 | The checked sum fails exactly when the sum overflows. |
| ValueArea.ExpandWindow | crates/analytics/src/profile.rs:637-690 | The expanding loop with its tie rule ends with the window of the model. |
| ValueArea.Compute | crates/analytics/src/profile.rs:576-696 | The whole computation fails exactly on overflow. |
| ProfileBatch.RowsMeaning | crates/analytics/src/profile.rs:445-497 | The rows of the batch definition are the periods with trades, in order, each once, with their true extremes. |
| ProfileModel.AddRepresents | crates/analytics/src/profile.rs:411-443 | Adding a trade to its period keeps the accumulator equal to the batch figures of its trades. |
| ProfileModel.StartRepresents | crates/analytics/src/profile.rs:368-371 | A session that starts with a trade equals the batch figures of that trade. |
| ProfileModel.CloseRepresents | crates/analytics/src/profile.rs:445-497 | Closing a period and moving on keeps it equal to the batch figures. |
| ProfileModel.CloseHoldsAll | crates/analytics/src/profile.rs:461-497 | After a close, counts and rotation are those of all periods. |
| ProfileModel.SnapshotIsProfile | crates/analytics/src/profile.rs:499-574 | The record made from such an accumulator is the batch profile of its trades. |
| ProfileModel.AreaMeaning | crates/analytics/src/profile.rs:576-696 | The value area of a record is on traded buckets, in order, and holds its share. |
| ProfileModel.ProfileArea | crates/analytics/src/profile.rs:506-574 | So is that of every profile of trades with positive quantities. |
| ProfileRefusals.RefusedExactly | crates/analytics/src/profile.rs:506-574 | A record is refused exactly when its end, a bucket or a sum overflows, or a level traded in the bucket of no positive price. |
| ProfileRefusals.OverflowingGrows | crates/analytics/src/profile.rs:506-574 | What refuses a record persists as volumes and counts grow. |
| ProfileRuns.FailureLeaves | crates/analytics/src/profile.rs:176-304 | A failed call leaves everything as it was, or, for an advance or a finish that ends the session, the period closed. |
| ProfileRuns.FailuresChangeNothing | crates/analytics/src/profile.rs:176-304 | A failed call changes nothing if and only if it is not one that ends a session with an open period whose record its trades make refused. |
| ProfileRuns.HalfClosedCountsTwice | crates/analytics/src/profile.rs:239-304 | After such a half close, an accepted trade at a level that traded in the same period counts that level twice for it. |
| ProfileRuns.RefusedForever | crates/analytics/src/profile.rs:176-304 | Once the record of the current session is refused, every later call leaves it current and refused and returns no profile. |
| ProfileRuns.NothingFollowsRefusal | crates/analytics/src/profile.rs:176-304 | However a run goes on after that, it returns no further profile. |
| ProfileRuns.LowPriceIsFatal | crates/analytics/src/profile.rs:176-236 | An accepted trade in the lowest bucket has this effect. |
| ProfileRuns.CurrentSessionIsExact | crates/analytics/src/profile.rs:176-304 | In every run without a half close the accumulator equals the batch figures of exactly the trades accepted since the last return. |
| ProfileRuns.RunsAreSettled | crates/analytics/src/profile.rs:176-304 | In every run it does so unless its session can no longer be recorded. |
| ProfileRuns.ProfilesAreExact | crates/analytics/src/profile.rs:176-304 | In every run, failed calls included, each returned profile has the volumes, range, period counts, rotation and value area of exactly the trades accepted since the return before it, and these are all of its session. |
| ProfileRuns.TradesAreShared | crates/analytics/src/profile.rs:176-304 | In every run the trade lists of `ProfileRuns.ProfilesAreExact` and `ProfileRuns.RunsAreSettled` are the accepted trades, cut in order; with those two it says that each accepted trade is in exactly one profile or in the accumulator. |
| ProfileTotals.VolumesConserve | crates/analytics/src/profile.rs:176-304 | In every run, half closes included, what the returned profiles record and what the accumulator holds sum to the accepted volume, in all and at every level. |
| ProfileSessions.OnceExactly | crates/analytics/src/profile.rs:176-304 | In every run profiles are returned in the order of their sessions, and each session at most once if and only if no accepted trade starts a session that was returned before. |
| ProfileSessions.WithoutFinish | crates/analytics/src/profile.rs:176-273 | Without finish no session is ever started again, so each is returned at most once. |
| ProfileSessions.WholeSessions | crates/analytics/src/profile.rs:176-304 | In every run that starts no returned session again, each returned profile is that of all accepted trades of its session. |
| ProfileExamples.FinishedSessionIsResumed | crates/analytics/src/profile.rs:295-304 | A trade, a finish, a trade of the same session and a finish return that session twice. |
| ProfileExamples.LowPriceHalfCloses | crates/analytics/src/profile.rs:239-273 | A trade below the first full bucket and an advance to the end of its session are a half close. |
| ProfileExamples.LowPriceCountsTwice | crates/analytics/src/profile.rs:176-273 | A second such trade in the same period is then counted twice for it. |
| ProfileAreas.LevelsAreActive | crates/analytics/src/profile.rs:411-483 | Every level of a profile has positive activity, by volume and by time. |
| ProfileAreas.ReturnedAreaIsSound | crates/analytics/src/profile.rs:506-574 | In every run the point of control and value area of each returned profile are traded buckets, in order, and hold the configured share. |
| ProfileAreas.ReturnedAreaIsSmallest | crates/analytics/src/profile.rs:576-696 | In every run, when the activity of a returned profile falls away from its point of control on both sides, no smaller set of its levels holds the share. |
| ProfileAreas.LiveIsExact | crates/analytics/src/profile.rs:275-293 | In every run a live snapshot with the configured basis is the profile of the current trades, and in a run without a half close so is one with any basis. |
| SessionProfile.ProfileBuilder.constructor | crates/analytics/src/profile.rs:134-161 | A new builder is inactive. |
| SessionProfile.ProfileBuilder.ApplyAdd | crates/analytics/src/profile.rs:411-443 | The object follows the model. |
| SessionProfile.ProfileBuilder.PreflightClose | crates/analytics/src/profile.rs:445-459 | The check loop decides whether a close fits. |
| SessionProfile.ProfileBuilder.ApplyClose | crates/analytics/src/profile.rs:461-483 | The close loop ends in the closed state of the model. |
| SessionProfile.ProfileBuilder.TakeSnapshot | crates/analytics/src/profile.rs:506-574 | The record, or its refusal, is that of the model. |
| SessionProfile.ProfileBuilder.FinalizedClone | crates/analytics/src/profile.rs:499-504 | The current session is finished on a copy and left untouched. |
| SessionProfile.ProfileBuilder.ClearActive | crates/analytics/src/profile.rs:707-721 | Clearing leaves an inactive builder. |
| SessionProfile.ProfileBuilder.Ingest | crates/analytics/src/profile.rs:176-236 | State and result are those of the model. |
| SessionProfile.ProfileBuilder.AdvanceTo | crates/analytics/src/profile.rs:239-273 | State and result are those of the model, the close before the fallible record included. |
| SessionProfile.ProfileBuilder.Finish | crates/analytics/src/profile.rs:295-304 | State and result are those of the model, the close before the fallible record included. |
| SessionProfile.ProfileBuilder.LiveSnapshot | crates/analytics/src/profile.rs:275-293 | The record of a closed copy with any basis, or its refusal; the builder is untouched. |
| FlowModel.AddedConserves | crates/analytics/src/flow.rs:548-625 | Adding a trade keeps candle = sum of sources, source = sum of levels and total = buy + sell + unknown, in volumes and in counts. |
| FlowModel.PartsAtMostCandle | crates/analytics/src/flow.rs:474-546 | No side, level or source exceeds its candle. |
| FlowModel.CandleCheckDecides | crates/analytics/src/flow.rs:474-546 | In balanced books the preflight overflows only when the candle total does: source and level checks never fail on their own. |
| FlowModel.AddedHolds | crates/analytics/src/flow.rs:548-625 | The levels after an addition hold exactly the trades before it and the new one. |
| FlowRuns.FailuresChangeNothing | crates/analytics/src/flow.rs:276-375 | Every failed call of the three entry points leaves the builder unchanged. |
| FlowRuns.RunsConserve | crates/analytics/src/flow.rs:276-375 | Over every run the live candle and every returned one balance at all three levels and hold exactly the trades accepted for them. |
| FlowRuns.TotalsConserve | crates/analytics/src/flow.rs:276-375 | Over every run the returned totals plus the live total are the sum of all accepted quantities. |
| FlowRuns.RecordableExactly | crates/analytics/src/flow.rs:627-709 | In every run the current candle is refused exactly when its end exceeds the clock's range or a trade accepted for it lies below the first full bucket. |
| FlowRuns.RefusedForever | crates/analytics/src/flow.rs:276-375 | A candle that is refused stays current and refused, and no candle is returned any more. |
| FlowRuns.NothingFollowsRefusal | crates/analytics/src/flow.rs:276-375 | However a run goes on after that, it returns no further candle. |
| FlowExamples.LowTradeIsFatal | crates/analytics/src/flow.rs:276-375 | A first trade at a price below ten, with ticks of one and ten to a bucket, is such a run: it is accepted, and no candle is ever returned. |
| CandleFlow.FlowBuilder.constructor | crates/analytics/src/flow.rs:244-266 | A new builder is inactive. |
| CandleFlow.FlowBuilder.ApplyAdd | crates/analytics/src/flow.rs:548-625 | After a successful preflight the addition succeeds and follows the model. |
| CandleFlow.FlowBuilder.TakeSnapshot | crates/analytics/src/flow.rs:627-653 | The candle is that of the model. |
| CandleFlow.FlowBuilder.Ingest | crates/analytics/src/flow.rs:276-342 | State and result are those of the model. |
| CandleFlow.FlowBuilder.AdvanceTo | crates/analytics/src/flow.rs:344-360 | State and result are those of the model. |
| CandleFlow.FlowBuilder.Finish | crates/analytics/src/flow.rs:368-375 | State and result are those of the model. |
| BubbleThreshold.RankIsNearest | crates/analytics/src/bubbles.rs:1094-1106 | The percentile index is the nearest rank: the samples up to it are at least the share, those before it are not. |
| BubbleThreshold.CappedPercentile | crates/analytics/src/bubbles.rs:749-758 | The percentile of the capped history is that of the raw history at the smaller of the two percentages. |
| BubbleThreshold.HistoricalIsPercentile | crates/analytics/src/bubbles.rs:706-768 | The historical figure is that percentile of the samples and never above the cap, and the weights sum to one. |
| BubbleThreshold.BlendFits | crates/analytics/src/bubbles.rs:1108-1122 | The blend does not overflow while both figures leave room for the scale. |
| BubbleThreshold.AcceptedExactly | crates/analytics/src/bubbles.rs:770-794 | A strength passes exactly when it reaches the floor and its blend is below the next rounding step. |
| BubbleThreshold.AcceptedBelowCap | crates/analytics/src/bubbles.rs:770-794 | Up to the cap, exactly when it falls short of the historical figure by less than one rounding step of its weight. |
| BubbleThreshold.AcceptanceIsUpwardClosed | crates/analytics/src/bubbles.rs:770-794 | A stronger candidate passes whenever a weaker one does, although it raises its own threshold. |
| BubbleThreshold.StrongEnoughPasses | crates/analytics/src/bubbles.rs:770-794 | A strength at or above the historical figure and the floor passes, whatever the weights. |
| BubbleThreshold.NoAdaptation | crates/analytics/src/bubbles.rs:770-794 | Without spike adaptation these are the only ones that pass. |
| BubbleThreshold.FullAdaptation | crates/analytics/src/bubbles.rs:770-794 | With full adaptation every strength that reaches the floor passes. |
| BubbleAggregate.CandidatesAreBuckets | crates/analytics/src/bubbles.rs:1031-1045 | The candidates are the buckets that traded, each once and in order; they fail exactly when a price is off the grid. |
| BubbleAggregate.AggregateMeaning | crates/analytics/src/bubbles.rs:1047-1092 | An aggregate holds exactly the volumes of the selected levels at its key. |
| BubbleAggregate.AggregateVenues | crates/analytics/src/bubbles.rs:1047-1092 | Its sources are exactly the venues of those levels. |
| BubbleAggregate.AggregateBalances | crates/analytics/src/bubbles.rs:1047-1092 | Its total is the sum of its sides when that holds of every level. |
| BubbleAggregate.Gather | crates/analytics/src/bubbles.rs:1047-1092 | The gathering loop yields the aggregate, or fails as the model does. |
| BubbleStyle.SizeScales | crates/analytics/src/bubbles.rs:1124-1139 | A size lies in the range of its style, a stronger bubble is not smaller, and from the cap on all are the largest. |
| BubbleStyle.SizeExists | crates/analytics/src/bubbles.rs:1124-1139 | It never overflows while the cap leaves room for the range. |
| BubbleDetect.OnlyLatestMatter | crates/analytics/src/bubbles.rs:730-745 | Cutting the history to its latest candles changes the samples of no threshold that calibrates on no more of them. |
| BubbleDetect.FirstAcceptingTier | crates/analytics/src/bubbles.rs:535-566 | A candidate goes to the first active tier, strictest first, that accepts it, with that tier's figures and size, and to none exactly when none accepts. |
| BubbleDetect.FoundBound | crates/analytics/src/bubbles.rs:535-566 | The bubbles found, over all candidates and tiers, report no more volume than was traded at the candidates. |
| BubbleDetect.FoundExactly | crates/analytics/src/bubbles.rs:535-566 | There is one bubble for each accepted candidate, in order, and none else. |
| BubbleOutput.KeptAreBest | crates/analytics/src/bubbles.rs:568-579 | Each tier keeps as many bubbles as it may, and what it drops ranks behind everything it keeps. |
| BubbleOutput.EmittedSums | crates/analytics/src/bubbles.rs:581-606 | Whether neighbours are merged or merging is deferred, the output adds up to the bubbles kept and is in output order. |
| BubbleOutput.NeverMoreThanTraded | crates/analytics/src/bubbles.rs:525-607 | Detection never reports more volume of any side than the candle traded. |
| BubbleOutput.OutputAddsUp | crates/analytics/src/bubbles.rs:525-607 | When no tier is cut, the output adds up exactly to the accepted candidates in volumes, strength and number. |
| BubbleOutput.OutputIsSound | crates/analytics/src/bubbles.rs:525-607 | With one mode in all tiers every output bubble has sides that add up, the direction of its delta, and its total or absolute delta as strength. |
| BubbleDetector.LookUp | crates/analytics/src/bubbles.rs:549-555 | The cached threshold is always the one that would be computed. |
| BubbleDetector.ChooseTier | crates/analytics/src/bubbles.rs:536-565 | The inner loop over the tiers ends with the verdict of the model. |
| BubbleDetector.Scan | crates/analytics/src/bubbles.rs:535-566 | The outer loop over the candidates ends with the bubbles of the model, tier by tier. |
| BubbleDetector.Emit | crates/analytics/src/bubbles.rs:568-606 | Cutting, merging and sorting end with the output of the model. |
| BubbleDetector.HistoryIsLatest | crates/analytics/src/bubbles.rs:629-658 | After every run of offered candles the history is the latest accepted ones, final, in order and within its bound. |
| BubbleDetector.BoundIsHarmless | crates/analytics/src/bubbles.rs:629-745 | After every run a threshold has the samples that all accepted candles would give it, up to the bound. |
| BubbleDetector.Detector.constructor | crates/analytics/src/bubbles.rs:506-515 | A new detector has an empty history. |
| BubbleDetector.Detector.RecordFinalized | crates/analytics/src/bubbles.rs:629-658 | The history changes as in the model, and not at all on a refusal. |
| BubbleDetector.Detector.Detect | crates/analytics/src/bubbles.rs:525-607 | The result is that of the model for the current history, an unusable style cap and an overflowing size included. |
| BubbleOrder.SortSorts | crates/analytics/src/bubbles.rs:865-872 | Sorting orders the list and permutes it. |
| BubbleGroups.GroupsAreMaximalRuns | crates/analytics/src/bubbles.rs:873-912 | Two bubbles of the ordered list share a group exactly when everything between them joins, disabled tiers included. |
| BubbleGroups.SingleLinkage | crates/analytics/src/bubbles.rs:861-914 | While no bubble of a disabled tier stands between two near ones, two bubbles share a group exactly when a chain of near bubbles of their segment and direction connects them. |
| BubbleGroups.SingleLinkageExactly | crates/analytics/src/bubbles.rs:861-914 | Merging of an ordered list is single-linkage clustering if and only if no bubble of a disabled tier stands between two near ones. |
| BubbleGroups.AllEnabledIsUnbroken | crates/analytics/src/bubbles.rs:861-914 | With every tier enabled it always is. |
| BubbleGroups.DisabledBubbleSeparates | crates/analytics/src/bubbles.rs:885-890 | Three bubbles in neighbouring buckets, the middle one of a disabled tier, stay apart although the outer two are near. |
| BubbleClusters.ClusteredExactly | crates/analytics/src/bubbles.rs:861-914 | The groups of an ordered list are the classes of linked bubbles if and only if no bubble of a disabled tier stands between two near ones. |
| BubbleClusters.OutputIsClusters | crates/analytics/src/bubbles.rs:525-607 | Each output bubble of a candle is one group of the kept bubbles merged, and the groups are exactly the single-linkage clusters of the kept bubbles if and only if none of a disabled tier stands between two near ones. |
| BubbleMerge.OneBubblePerGroup | crates/analytics/src/bubbles.rs:873-912 | The output has one bubble for each group, in order, and it is that group merged. |
| BubbleMerge.MergeConserves | crates/analytics/src/bubbles.rs:861-1028 | Merging conserves every volume, the strength and the number of bubbles. |
| BubbleMerge.AnchorIsStrongest | crates/analytics/src/bubbles.rs:916-926 | The anchor is the strongest of its group, at the lowest price among equals, and the merged range covers every member. |
| BubbleMerge.MergedMeaning | crates/analytics/src/bubbles.rs:916-1028 | A merged bubble keeps the common segment and direction, its sides add up, and its anchor lies in its range. |
| BubbleMerge.MergedStrength | crates/analytics/src/bubbles.rs:916-1028 | With one mode its strength still is its total or its absolute delta. |
| BubbleMerge.MergingKeepsMeaning | crates/analytics/src/bubbles.rs:861-1028 | So for every bubble of the merged list. |
| BubbleMerge.MergeOne | crates/analytics/src/bubbles.rs:916-1028 | The summing loop merges a group, or fails exactly when a running sum, the count or the size overflows or the style's cap is not on the grid. |
| BubbleMerge.FindEnd | crates/analytics/src/bubbles.rs:882-905 | The inner loop finds the end of the group. |
| BubbleMerge.Merge | crates/analytics/src/bubbles.rs:861-914 | The outer loop yields the merged groups. |
| TopLevels.TopKSize | crates/analytics/src/levels.rs:340-368 | The best k are k in number, or all. |
| TopLevels.DroppedIsBeaten | crates/analytics/src/levels.rs:340-368 | A level that is dropped is beaten by k that are kept. |
| TopLevels.Streaming | crates/analytics/src/levels.rs:304-338 | The best k of the retained best k and new ones are the best k of everything. |
| TopLevels.UpdatedRivals | crates/analytics/src/levels.rs:304-338 | An update leaves, in its window and in each direction, the best of old and new. |
| TopLevels.UpdatedOthers | crates/analytics/src/levels.rs:304-338 | It leaves nothing of other windows of its kind, and other kinds alone. |
| TopLevelTrim.RankMatches | crates/analytics/src/levels.rs:340-358 | The index ranking is that of strength, bubble id and position. |
| TopLevelTrim.PlaceIsRank | crates/analytics/src/levels.rs:340-358 | A place in the ranking is the number of rivals that beat it. |
| TopLevelTrim.RemoveIndices | crates/analytics/src/levels.rs:359-366 | Removing indices from the last to the first removes exactly those levels. |
| TopLevelTrim.TrimTop | crates/analytics/src/levels.rs:340-368 | The trimming keeps exactly the best k, in place. |
| TopLevelRuns.CandidatesAreBubbles | crates/analytics/src/levels.rs:304-338 | The candidates of a window are one level for each directed bubble of its candles, in order, with its figures. |
| TopLevelRuns.WithTopsBest | crates/analytics/src/levels.rs:304-368 | A candle's update of both kinds keeps, from its new windows on, the best of all candidates. |
| TopLevelRuns.OthersStay | crates/analytics/src/levels.rs:304-368 | It changes no naked or reaction level. |
| StructuralLevels.ActiveIffNeverReached | crates/analytics/src/levels.rs:197-223 | A level is active exactly when no later candle reached it; otherwise it bears the end of the first that did. |
| StructuralLevels.NakedExactly | crates/analytics/src/levels.rs:225-249 | A naked level stands for a bubble that the next candle stayed away from, and for no other. |
| StructuralLevels.StrongestIsStrongest | crates/analytics/src/levels.rs:276-278 | A reaction level is named after the strongest bubble of the middle candle. |
| StructuralLevels.StandingStep | crates/analytics/src/levels.rs:135-302 | What stands after one more candle is what stood before, aged by it, and what it creates. |
| LevelCapacity.EvictsTouchedFirst | crates/analytics/src/levels.rs:370-379 | Eviction takes the oldest touched levels first, and active ones, oldest first, only when no touched one is left. |
| LevelCapacity.EvictedInOrder | crates/analytics/src/levels.rs:370-379 | What is left stands in the order in which it stood. |
| LevelCapacity.EvictsTopExactly | crates/analytics/src/levels.rs:370-379 | Eviction spares all top levels if and only if none is among the oldest active levels, as many as are too many. |
| LevelCapacity.EnforceCapacity | crates/analytics/src/levels.rs:370-379 | The eviction loop ends with the levels of the model. |
| LevelRuns.RunsTrack | crates/analytics/src/levels.rs:120-195 | Over every run the engine holds the last three accepted candles, the pending bubbles of the last and its start, and its top levels stand in the order of arrival and are never touched. |
| LevelRuns.CapacityIsKept | crates/analytics/src/levels.rs:120-195 | Over every run there are never more levels than configured. |
| LevelRuns.CandleEvictsTopExactly | crates/analytics/src/levels.rs:120-195 | In every run a candle evicts a top level exactly when one is among the oldest active levels that are too many. |
| LevelRuns.RetainedAreBest | crates/analytics/src/levels.rs:120-195 | After every run in which no top level had to go, the day and week levels of a direction are exactly the best, by strength, bubble id and arrival, of the levels of all directed bubbles of the accepted candles in the current window, and none of an earlier window is left. |
| LevelRuns.RetainedCount | crates/analytics/src/levels.rs:340-368 | They are as many as the candidates, but no more than configured. |
| LevelRuns.LevelsAreStanding | crates/analytics/src/levels.rs:120-195 | After every run in which nothing had to go, the naked and reaction levels are exactly those that the accepted candles create, in order, each touched by the first later candle that reaches it. |
| LevelRuns.ActivesAreStanding | crates/analytics/src/levels.rs:120-195 | After every run in which only touched levels had to go, the active naked and reaction levels are exactly those created and never reached, in order. |
| LevelRuns.MoreRoom | crates/analytics/src/levels.rs:370-379 | Never exceeding the maximum implies that no active level went, and that implies that no top level went. |
| LevelCrowding.CrowdedOut | crates/analytics/src/levels.rs:120-195 | A candle that brings no directed bubble and creates as many levels as there may be leaves no top level. |
| LevelCrowding.ReservedLevelIsCrowdedOut | crates/analytics/src/levels.rs:53-82 | With room for four levels, as the configuration demands for one top level of each kind and side, two candles of a day leave none although the first had a buy bubble. |
| LevelEngine.StructuralLevelEngine.constructor | crates/analytics/src/levels.rs:103-118 | A new engine is empty. |
| LevelEngine.StructuralLevelEngine.TouchExisting | crates/analytics/src/levels.rs:197-223 | The loop touches exactly the levels of the model. |
| LevelEngine.StructuralLevelEngine.ActivateNaked | crates/analytics/src/levels.rs:225-249 | The loop appends exactly the naked levels of the model and empties the pending bubbles. |
| LevelEngine.StructuralLevelEngine.PushFrame | crates/analytics/src/levels.rs:181-187 | The loop keeps the last three candles. |
| LevelEngine.StructuralLevelEngine.RetainWindow | crates/analytics/src/levels.rs:320-321 | The loop drops exactly the kind's levels of other windows. |
| LevelEngine.StructuralLevelEngine.AppendDirected | crates/analytics/src/levels.rs:322-335 | The loop appends one level for each directed bubble. |
| LevelEngine.StructuralLevelEngine.UpdateTop | crates/analytics/src/levels.rs:304-368 | Retaining, appending and trimming both directions end with the levels of the model. |
| LevelEngine.StructuralLevelEngine.IngestFinalized | crates/analytics/src/levels.rs:120-195 | State and result are those of the model, from touching to eviction; a refused candle changes nothing. |
| SinkProtocol.CoherentStep | crates/daemon/src/sinks.rs:151-187 | Every step of producers, worker and close keeps the queue within capacity and the in-flight count at the worker's item. |
| SinkProtocol.InOrderStep | crates/daemon/src/sinks.rs:340-388 | Every step keeps handed and queued items in the order of acceptance. |
| SinkProtocol.AccountedStep | crates/daemon/src/sinks.rs:340-416 | Every step keeps each accepted item in exactly one place. |
| SinkProtocol.RunsAreSound | crates/daemon/src/sinks.rs:151-187 | After any interleaving: queue within capacity, at most one item in flight, items handed over in the order of acceptance, and each accepted item handed, queued, evicted or discarded exactly once. |
| SinkProtocol.ReportIsCounted | crates/daemon/src/sinks.rs:400-416 | The in-flight count never underflows: a worker that reports holds a counted item. |
| SinkProtocol.QuietMeansDone | crates/daemon/src/sinks.rs:395-398 | A status of (0, 0) means that no accepted item is pending. |
| SinkProtocol.LossesHaveReasons | crates/daemon/src/sinks.rs:340-416 | Items are evicted only under DropOldest and discarded only after a sink error. |
| SinkProtocol.ClosingDrains | crates/daemon/src/sinks.rs:151-187 | A closed mailbox drains in order and the worker ends with nothing pending. |
| SinkProtocol.GoneIsFinal | crates/daemon/src/sinks.rs:340-422 | Once the worker is gone no call changes anything. |
| SinkMailbox.Mailbox.constructor | crates/daemon/src/sinks.rs:326-338 | A new mailbox is empty and open. |
| SinkMailbox.Mailbox.Push | crates/daemon/src/sinks.rs:340-366 | State and outcome are those of the model for each overflow policy. |
| SinkMailbox.Mailbox.TryPop | crates/daemon/src/sinks.rs:376-389 | A turn of the waiting loop hands over the oldest item and counts it, ends when closed and empty, or waits. |
| SinkMailbox.Mailbox.FinishItem | crates/daemon/src/sinks.rs:400-416 | The count goes down; after an error the queue is closed and its backlog counted as discarded. |
| SinkMailbox.Mailbox.Close | crates/daemon/src/sinks.rs:418-422 | The mailbox is closed and otherwise unchanged. |
| SinkMailbox.Mailbox.Status | crates/daemon/src/sinks.rs:395-398 | Of the next turns of the worker, exactly as many as the first figure hand over an item, and after them the queue is empty and the second figure has grown by the first. |
| SinkMailbox.TakesEmptyTheQueue | crates/daemon/src/sinks.rs:376-398 | Turns without other calls hand over the queued items one by one, each counted, and nothing else. |
| ValidBooks.CountUp | crates/engine/src/metrics.rs:19-28 | A new holder adds one to the count of its instrument and changes no other. |
| ValidBooks.CountDown | crates/engine/src/metrics.rs:51-58 | A holder less takes one off a positive count, dropping it at zero, and changes no other. |
| ValidBooks.HeldIffStillValid | crates/engine/src/metrics.rs:348-400 | After any events a session holds a book exactly when it resynchronized the book and neither invalidated it nor was cleared since. |
| ValidBooks.Observe | crates/engine/src/metrics.rs:348-400 | After any events the gauge is the number of instruments held by some session, and each count the number of sessions that hold it. |
| ValidBooks.Books.constructor | crates/engine/src/metrics.rs:12-16 | No books are held. |
| ValidBooks.Books.Resynchronized | crates/engine/src/metrics.rs:19-28 | Exactly one pair of session and book is added, and counts and gauge follow. |
| ValidBooks.Books.Invalidated | crates/engine/src/metrics.rs:30-41 | Exactly one pair is removed, no empty session is left, and counts and gauge follow. |
| ValidBooks.Books.ClearSession | crates/engine/src/metrics.rs:43-49 | Exactly the pairs of the session are removed, and counts and gauge follow. |
| ValidBooks.Books.DecrementReference | crates/engine/src/metrics.rs:51-58 | One count goes down and is dropped at zero; a missing one is left missing. |
| ValidBooks.Books.UniqueCount | crates/engine/src/metrics.rs:60-62 | The number of counts is the size of the union of all sessions' books. |

## Left out

- Asynchronous engine, supervisor, live sockets, HTTP, daemon configuration, capture and replay, wire formats: input and output around the modelled core.
- Bounded dispatch queues, reconnect backoff and action buffers: they would only add easy members beside the mailbox.
- Decimal parsing and the rounding modes of rescaling: only exact rescaling is used by the modelled code.
- Validation of configurations and of restored snapshots, and serialization: the models start from validated configurations and their own initial states.
- Session profile: the derived price range of a record.
- Candle flow: open, high, low and close prices beyond what the checks need, and the order of sources in the emitted record.
- Bubble labels, shapes and ids: ids are parameters, and the caps of a style are given in grid units or as missing.
- A candle's sources and levels are one list of levels with their source in the bubble model.
- Structural levels: prices come as ticks, strengths share one scale, ids and expiry times are left out, and a number of arrival stands for the position of a top level in the list; a window start that falls below the 64-bit range is not shown as an overflow.
- LevelRuns.RetainedAreBest: stated for runs that evicted no top level, because `LevelCrowding.CrowdedOut` shows it false otherwise; `LevelCapacity.EvictsTopExactly` says when a call does.
- LevelRuns.LevelsAreStanding: stated for runs that evicted nothing; `LevelRuns.ActivesAreStanding` covers runs that evicted touched levels only.
- BubbleThreshold.AcceptanceIsUpwardClosed: stated where the blend fits 128 bits, because detection reports an error elsewhere.
- Synchronizer sequence numbers and byte sums are unbounded; the source's `last + 1` and byte additions are machine integers.
- Mailbox blocking: a waiting worker is a step that changes nothing; health counters, deadlines and lock poisoning are not shown.
- Metrics other than the valid-book gauge: plain counters.
- SessionProfile.ProfileBuilder and CandleFlow.FlowBuilder keep their fields in one record, so the order of assignments within one helper is not shown.
- Direct changes to the synchronizer's public book from outside are not shown.
