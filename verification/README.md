# Curunír: a verified model of its log protocols and engines

Curunír keeps all of its state in one append-only, hash-chained event log; every current view is a replay of that
log. What can go wrong is therefore about order: a bundle that arrives twice, a crash between two appends, a writer
that acts on what it read before somebody else wrote. This project models the parts of the system where that matters,
in Dafny, and proves what they promise over every input, every run and every interruption.

`dafny verify dfyconfig.toml` checks the whole project. The original program is not run by anything here.

| modules | what they model |
|---|---|
| `JsonRecords`, `Replication`, `ReplicationRuns` | delta bundles between stores: cutting, verifying, importing, and any schedule of deliveries |
| `UnionFinding`, `ThemeDiscovery`, `ThemeRefresh`, `ThemeExample` | the union-find behind theme candidates, and the refresh of a theme |
| `ImpactSearch`, `ImpactPaths` | the bounded search for a chain of typed relations, and the path built from it |
| `DependencyClosure`, `InvalidationCascade`, `CascadeEngine`, `CascadeRuns`, `CascadeRetries` | what rests on an assumption, and the cascade that follows its invalidation |
| `Evidence`, `ForecastLog`, `ForecastRuns`, `ForecastVerdicts`, `AnalyticContexts`, `GapExample`, `RefreshExample`, `CreationExample` | the evidence a basis is computed from, the log of forecasts and indicators as a state machine, and what verdicts and firings rest on |
| `ForecastCreation`, `ForecastUpdate`, `ForecastRefresh`, `ForecastResolution` | the forecast engine's operations |
| `IndicatorArming`, `IndicatorEffects`, `IndicatorPass` | indicators: arming, firing, executing or completing an effect |
| `Calibration`, `CalibrationError` | scoring without hindsight, and the reliability table |
| `KeyLifecycle`, `KeyRegistries`, `SignIn`, `SignedActions` | key histories, optimistic appends, rotation, challenges and sessions, signing and replay |
| `Access`, `Viewing` | the join of markings, the seal, and who may view what |
| `Candidates`, `CandidateExample`, `Missions`, `Association` | acceptance of model proposals, the mission workflow, reversible association |
| `Options`, `FiniteSets`, `EventLog` | shared vocabulary |

## How runs are modelled

A log is a list of timed records. A state machine says which record may be appended to which log (`Legal` and its
relatives), and `Reachable` logs are those built of legal appends. The engines are methods on a class that holds such
a log; each append an engine makes must be legal, so a log an engine leaves is reachable. A crash stops an engine
after any append. It leaves a shorter log, which is reachable too, so every lemma about reachable logs covers every
interruption and every order in which the engines are called.

Key registry, sessions and signed actions, candidates and missions have other writers: a step that extends the log by
any legal records between a read and an append. So have the resolvers of one association. The forecast, indicator,
theme and cascade engines have one writer, which may be interrupted anywhere.

Where an engine and its contract use one and the same definition, a lemma says what the definition means in the plain
fields of the records, or a method repeats the engine's checks branch by branch and is proved to agree with it.

Hashing and signatures are idealised: a digest is a constructor applied to what was hashed, and a signature either
was made over a payload with a key or verifies nothing.

## What was found

Some promises hold only under a condition. For these the exact condition is proved, and how it breaks. The model
follows the code; comments that promise more than the code keeps are at
`curunir/curunir_analytic/forecasts.py:305`, `curunir/curunir_analytic/substrate.py:33-34` and `:313-315`,
`curunir/curunir_analytic/impact.py:194`, `curunir/curunir_identity/registry.py:204`,
`curunir/curunir_operational/access.py:121-124` and `curunir/curunir_operational/missions.py:71-72`.

* Once a firing has moved a forecast, nothing moves it again exactly when the mark of the firing is on the log or the
  forecast is settled (`AtMostOneMove`). The pass looks for the effect in the version history; a direct call of
  `update_probability` looks for the mark only (`forecasts.py:239-248`, `indicators.py:396-409`). `GapExample` runs
  into the gap; left to the passes, a firing moves a forecast once (`PassesMoveOnce`).
* A refresh of a forecast or a theme writes the version first and the transitions that explain it afterwards. What a
  crash in between leaves owed is not made up for: it is on record later only if a later refresh itself calls for it,
  and at the same evidence none does (`InterruptedRefreshIsNotCompleted`). That a horizon passed is then never
  recorded, whatever evidence arrives (`HorizonFindingIsLostForGood`, and the run `HorizonNoteStaysMissing`). That a
  theme went STALE is not recorded at the same evidence (`StaleNoteStaysMissing`), and is when its claim is restored
  and withdrawn again (`LaterWithdrawalIsNoted`). Behind a terminal version and behind every version an indicator
  check appends, the transition and the review items stay as the crash left them, at the same evidence.
* Creating a forecast again is idempotent exactly when every claim it cites is on record. An unknown claim id never
  enters the basis, so it counts as new each time. `EveryCallAppends` is a run of it.
* A compromise revocation that another settling step overtakes is dropped without an error, and the key's past
  signatures stay valid (`CompromiseCanBeLost`).
* A rotation resumed after the new key was itself settled still retires the predecessor, and leaves the actor without
  an active key exactly when the predecessor was its only one (`RotationCanStrand`).
* An action dated ahead of the server's clock, within the allowed skew, is accepted, and lapses when its key is
  retired before that date (`FutureDatedActionCanLapse`).
* A derived record is open to somebody who cannot view one of its inputs exactly when an input leaves its role out and
  the record is not sealed: a record without a role is viewed by nobody, the join reads it as asking for the highest
  role (`NoWriteDown`, `MissingRoleIsWrittenDown`).
* An acceptance is spent on one object exactly when no spending append came after another object had been given the
  proposal since its gate was read; the gate is not a condition of the append. The race is open for the kinds whose
  id covers more than is bound (`TwoWritersCanSpendTwice`), and cannot happen for the others (`FixedIdIsSpentOnce`).
  Resolving a candidate has no condition either (`TwoResolversCanBothSucceed`).
* The operational store does not version requirements, so a fold of a stale read can lower a priority and drop an
  affected id (`UnversionedFoldCanBeLost`); it cannot if what was read covers what stands (`EveryFoldKeepsIff`). Two
  first openings can both land (`TwoFirstOpeningsCanBothLand`).
* An association call interrupted after its resolution leaves the pair out of agreement exactly when the resolution
  would have changed whether SAME_AS stands; resolving again restores it. Of two resolvers at work at once, the one
  that records first and follows last must be of one mind with the other (`TwoResolversAgreeIff`).
* An assumption that names an objective not on record stops the cascade there. Objectives named after it are left as
  they were unless a path of the cascade leads to them (`StoppedShortLeaves`), and a retry changes nothing while the
  objective is missing (`RetryStopsTheSame`). Once it is recorded the retry completes as if it had been on record from
  the start (`RetryAfterRecordingCompletes`). `StopsBeforeTheSecond` is a state that stops.

## Model

| member | source | states |
|---|---|---|
| Replication.EqualHashesForceEqualPrefixes | curunir/curunir_operational/delta.py:361-372 | equal entry hashes at a position force the whole histories up to it to be equal, so comparing one hash compares two pasts |
| Replication.DeclaredIsMentioned | curunir/curunir_operational/delta.py:50-92 | the scan over all strings of a record finds every payload the record declares, so none is left behind |
| JsonRecords.WalkIsEveryPath | curunir/curunir_operational/delta.py:50-60 | the walk finds a string exactly when some path of keys and list positions leads to it, or to an object that has it as a key |
| Replication.MentionedAreSaid | curunir/curunir_operational/delta.py:78-92 | what the scan of some events meets is exactly what stands at some path of one of their records |
| Replication.DeclaredAreNamed | curunir/curunir_operational/delta.py:43-75 | a payload is declared exactly when a record of one of the three declaring types has it in one of its payload fields |
| Replication.RecordRefs | curunir/curunir_operational/delta.py:68-74 | one record's declared payloads, or the error when a set field does not hold a digest |
| Replication.WellFormedMeans | curunir/curunir_operational/delta.py:68-74 | a payload field may be left out or empty in any way, and otherwise holds a digest |
| Replication.DeclaredPayloadRefs | curunir/curunir_operational/delta.py:62-75 | exactly the payloads the events declare, and an error exactly when some set field holds no digest |
| Replication.ValidateBundleEvents | curunir/curunir_operational/delta.py:188-250 | the running check over sequence numbers, links, digests and times accepts exactly a chained, time-ordered range that agrees with the manifest's count and ends |
| Replication.VerifyDelta | curunir/curunir_operational/delta.py:253-303 | a bundle passes exactly when format, manifest digest, events digest, chain, payload contents and declared payloads are all as they should be |
| Replication.CutVerifies | curunir/curunir_operational/delta.py:128-185 | round trip: whatever a valid store cuts passes the receiver's verification |
| Replication.MissionDataStore.Append | curunir/curunir_operational/store.py:553-611 | one event is added at the end exactly when its version is the next, its idempotency key was not ingested before and its time is not earlier; otherwise the log is unchanged |
| Replication.MissionDataStore.CheckProgress | curunir/curunir_operational/store.py:440-471 | a versioned record is the next version of its id, and an ingestion that is no duplicate brings a key that none brought |
| Replication.VersionOfMeans | curunir/curunir_operational/store.py:440-466 | which records are versions of what, and which number they carry |
| Replication.VersionsAreNumbered | curunir/curunir_operational/store.py:453-466 | in a valid log the versions of an id are numbered 1, 2, 3 and so on |
| Replication.KeyIsIngestedOnce | curunir/curunir_operational/store.py:465-471 | in a valid log two ingestions that are not duplicates have different keys, neither of them empty |
| Replication.MissionDataStore.BuildDelta | curunir/curunir_operational/delta.py:128-185 | which of the four outcomes a cut has, each with its exact cause; a bundle that is built verifies, holds the range, and names exactly the payloads its events declare and the held ones that stand at some path of one of their records |
| Replication.MissionDataStore.Import | curunir/curunir_operational/delta.py:336-412 | the receipt, the new log and the new payloads in terms of the old ones; exactly the manifest's payloads that stand at some path of an event that was new here are installed; the log is unchanged unless the suffix was applied whole |
| Replication.Installed | curunir/curunir_operational/delta.py:399-412 | what an applied import installs, by paths into the records of the events it appends |
| ReplicationRuns.ImportIsExact | curunir/curunir_operational/delta.py:347-412 | APPLIED or DUPLICATE exactly when the target reaches the base and shares the whole common history with the source; each conflict exactly at its own cause; the log ends as the longer history or as it was |
| ReplicationRuns.SuffixChains | curunir/curunir_operational/delta.py:373-398 | a bundle that connects to the target chains on to it for the missing part, overlap or not, so only times and versions can still refuse it |
| ReplicationRuns.ReimportIsDuplicate | curunir/curunir_operational/delta.py:398-405 | importing a bundle again appends nothing and is reported as a duplicate, whoever cut it |
| ReplicationRuns.ImportKeepsTheStore | curunir/curunir_operational/store.py:700-730 | any bundle at all leaves a valid log that extends the old one, with every declared payload of every event held |
| ReplicationRuns.ReplicationIsSafe | curunir/curunir_operational/delta.py:336-412 | under every schedule of growth, cutting, reordering, duplication and overlap the target stays a prefix of the source, never shrinks, and holds what its events declare |
| ReplicationRuns.DispatchCatchesUp | curunir/curunir_operational/delta.py:128-185 | from any state of a replication, cutting a bundle no further on than the target stands and delivering it leaves the target with the whole log of the source |
| ReplicationRuns.MentionedPayloadTravels | curunir/curunir_operational/delta.py:78-92 | and with every held payload that its last event mentions anywhere in its record |
| ReplicationRuns.DeliveriesReachTheEnd | curunir/curunir_operational/delta.py:336-412 | whatever else is delivered before and after, a bundle that the target could take takes it at least to its end |
| ReplicationRuns.DeliveryTo | curunir/curunir_operational/delta.py:347-412 | a delivery moves a target that reaches its base to the bundle's end, and moves no other |
| ReplicationRuns.DeliveryOrderDoesNotMatter | curunir/curunir_operational/delta.py:336-412 | two replicas that have taken all they can from the same bundles hold the same log, whatever the order, repeats and overlaps |
| ReplicationRuns.TwoHopsEqualOne | curunir/curunir_operational/delta.py:336-412 | importing base to a and then a to b leaves the log that importing base to b leaves |
| UnionFinding.LabelsDecide | curunir/curunir_analytic/themes.py:423-449 | two nodes have the same root exactly when the links connect them |
| UnionFinding.MergeSeparates | curunir/curunir_analytic/themes.py:433-436 | hanging one root under the other turns the partition of the old links into that of the links with one more |
| UnionFinding.HalvingKeepsForest | curunir/curunir_analytic/themes.py:428-431 | path halving moves no root and keeps the parent structure free of cycles |
| UnionFinding.UnionFind.Find | curunir/curunir_analytic/themes.py:426-431 | returns the component's root, enters a new node as its own, terminates, and leaves the partition as it was |
| UnionFinding.UnionFind.Hang | curunir/curunir_analytic/themes.py:435-436 | one root becomes the other's child, and exactly the two components become one |
| UnionFinding.UnionFind.Link | curunir/curunir_analytic/themes.py:434-436 | the partition is that of the links with this one added, whether or not the roots differed |
| UnionFinding.UnionFind.Union | curunir/curunir_analytic/themes.py:433-436 | the same for two nodes that may be new |
| ThemeDiscovery.Unite | curunir/curunir_analytic/themes.py:438-445 | the links united are exactly the claims' subject-object links and the ACTIVE relations, and every claim's subject is entered |
| ThemeDiscovery.Group | curunir/curunir_analytic/themes.py:447-449 | the claims are filed by root, in order, without changing the partition |
| ThemeDiscovery.List | curunir/curunir_analytic/themes.py:453-462 | a candidate for each group that is large enough, once, in order of root |
| ThemeDiscovery.DiscoverThemeCandidates | curunir/curunir_analytic/themes.py:412-486 | each candidate is one whole connected component of CURRENT claims; its entities are exactly the subjects and objects of those claims and its events exactly the activities that touch one of them; components that are too small, and only those, are left out |
| ThemeDiscovery.SameCandidateIffConnected | curunir/curunir_analytic/themes.py:414-416 | two claims share a candidate exactly when their subjects are connected |
| ThemeRefresh.DeriveStatus | curunir/curunir_analytic/themes.py:23-34 | each status and exactly when: STALE without support that stands, else CONTESTED if contradicted, else ACTIVE with two independent origins, else EMERGING |
| ThemeRefresh.RefreshedIsSettled | curunir/curunir_analytic/themes.py:211-220 | a refreshed theme needs no refresh: recomputing its basis from its own claims gives it back |
| ThemeRefresh.NotesMean | curunir/curunir_analytic/themes.py:221-258 | each kind of transition, and exactly which change of families, contradictions, degraded support, evidence or status calls for it |
| ThemeRefresh.InterruptedRefreshIsNotCompleted | curunir/curunir_analytic/themes.py:215-259 | after a crash behind the version and any later refreshes at whatever evidence, a note is on record exactly if it was at the crash or a later refresh with its cause itself calls for it; at the same evidence none does |
| ThemeExample.StaleNoteStaysMissing | curunir/curunir_analytic/themes.py:231-242 | a concrete theme that went STALE and of which no refresh at the same evidence records it |
| ThemeExample.LaterWithdrawalIsNoted | curunir/curunir_analytic/themes.py:231-242 | the same theme once its claim is restored and withdrawn again: the refresh that notices the second time records it |
| ThemeRefresh.NotedIffCalledFor | curunir/curunir_analytic/themes.py:203-259 | over any refreshes at changing evidence, a note is on record exactly if it was or a refresh with its cause called for it |
| ThemeRefresh.ThemeEngine.RecordNotes | curunir/curunir_analytic/themes.py:221-258 | exactly the transitions that the change of basis and status calls for, each once per cause |
| ThemeRefresh.ThemeEngine.RefreshTheme | curunir/curunir_analytic/themes.py:203-259 | a closed theme and one whose claims, families, degraded support, evidence and status read as before are left alone; any other gets the next version over the recomputed basis and exactly the notes it calls for; a second refresh appends nothing |
| ImpactSearch.BuildAdjacency | curunir/curunir_analytic/impact.py:457-463 | a node's neighbours are exactly the ACTIVE relations of a propagation type that touch it |
| ImpactSearch.ReachesIsANodePath | curunir/curunir_analytic/impact.py:457-513 | a dependency is within reach exactly when a sequence of nodes leads to it, neighbours being the two ends of an ACTIVE relation of one of the seven propagating types |
| ImpactSearch.ShortTrailsAreMet | curunir/curunir_analytic/impact.py:466-512 | completeness of a level: once all nearer nodes are settled, every trail that short has been met at its distance or less |
| ImpactSearch.FrontIsNearest | curunir/curunir_analytic/impact.py:469-471 | when a dependency comes off the queue its trail is a shortest one, and nothing nearer is a dependency |
| ImpactSearch.EmptyQueueMeansUnreachable | curunir/curunir_analytic/impact.py:469-513 | an empty queue means no dependency lies within the bound |
| ImpactSearch.Expand | curunir/curunir_analytic/impact.py:506-512 | one node's scan keeps the search invariant and queues what was not seen |
| ImpactSearch.SearchFrom | curunir/curunir_analytic/impact.py:467-512 | finds a shortest trail, and finds none exactly when no dependency is within max_hops |
| ImpactPaths.WeakestAuthority | curunir/curunir_analytic/contracts.py:119-128 | a member of the list that is no stronger than any other, and an error exactly on the empty list |
| ImpactPaths.BuildPath | curunir/curunir_analytic/impact.py:270-373 | a path is built exactly when the chain ends at a known objective, is connected, has no self-loop and cites what exists; it claims no more than its weakest edge |
| ImpactPaths.CheckEdge | curunir/curunir_analytic/contracts.py:702-718 | an inference needs its reasons and claims neither observation nor derivation, an assumption link needs its assumptions, any other edge its basis; no edge is a loop |
| ImpactPaths.CheckCited | curunir/curunir_analytic/impact.py:317-337 | everything an edge cites is on record |
| ImpactPaths.InferenceShowsInTheAuthority | curunir/curunir_analytic/contracts.py:755-764 | a path with an inferred edge never claims to be observed or derived |
| ImpactPaths.BuildChain | curunir/curunir_analytic/impact.py:472-503 | the emitted edges, whose ends are read off the edge before, spell the trail that was found |
| ImpactPaths.FirstInReach | curunir/curunir_analytic/impact.py:465-513 | the first subject within the bound with a shortest trail, and none exactly when no subject is |
| ImpactPaths.SuggestPathEdges | curunir/curunir_analytic/impact.py:441-513 | a chain exactly when event and objective are known and a sequence of nodes leads from a subject of the event to an object the objective declares, in at most max_hops steps along ACTIVE relations of the propagating types |
| ImpactPaths.ShortestNeverIdles | curunir/curunir_analytic/contracts.py:699-715 | no step of a shortest trail stays where it is, although a relation may link an object to itself |
| ImpactPaths.StepIsBacked | curunir/curunir_analytic/impact.py:480-493 | every suggested step rests on a recorded relation between its two ends that is ACTIVE and of one of the seven propagating types |
| ImpactPaths.SuggestionIsAdmissible | curunir/curunir_analytic/contracts.py:755-764 | whatever is suggested passes the construction checks of a path, and its authority is DERIVED |
| DependencyClosure.Expand | curunir/curunir_analytic/substrate.py:292-294 | what rests on the frontier and was not found before, and nothing that a closed set could do without |
| DependencyClosure.AffectedBy | curunir/curunir_analytic/substrate.py:274-297 | terminates with the least set that holds the direct dependents and is closed under reverse dependence |
| DependencyClosure.ClosureIsReachability | curunir/curunir_analytic/substrate.py:280-297 | an object is in that set exactly when a chain of dependences leads to it |
| InvalidationCascade.BuildIndex | curunir/curunir_analytic/substrate.py:158-215 | the index lists under an object exactly what rests on it directly |
| InvalidationCascade.RestsIsOnRecord | curunir/curunir_analytic/impact.py:222-248 | every path and objective of the worklist is on record, except objectives that the assumption itself names |
| InvalidationCascade.MarkedUnion | curunir/curunir_analytic/impact.py:223-248 | dealing with two sets of objects in turn is dealing with their union, so order does not matter |
| InvalidationCascade.PartIsBetween | curunir/curunir_analytic/impact.py:200-248 | dealing with a part is a point on the way: each record as before or as after |
| InvalidationCascade.ResumeCompletes | curunir/curunir_analytic/impact.py:200-203 | starting again from any point on the way ends in the state of an uninterrupted call |
| CascadeEngine.ImpactEngine.DealWithPath | curunir/curunir_analytic/impact.py:224-242 | the path stale and its objective exposed with both transitions, and every state in between is on the way there |
| CascadeEngine.ImpactEngine.DealWithObjective | curunir/curunir_analytic/impact.py:243-248 | the same for an objective of the worklist |
| CascadeEngine.ImpactEngine.DealWithObjectives | curunir/curunir_analytic/impact.py:223-248 | the objectives in order, up to the first that is not on record |
| CascadeEngine.ImpactEngine.InvalidateAssumption | curunir/curunir_analytic/impact.py:189-249 | a completed call leaves exactly the closure marked; an unknown assumption changes nothing; it raises exactly when the assumption names a missing objective; every state on the way is between the old and the completed one and one append away from the state before; a call that changes nothing appends nothing |
| CascadeRuns.CitingPathsAreMarked | curunir/curunir_analytic/impact.py:192-195 | every path citing the assumption is STALE or INVALIDATED and its objective EXPOSED |
| CascadeRuns.NamedObjectivesAreExposed | curunir/curunir_analytic/impact.py:243-248 | so is every objective that cites the assumption or is named by it |
| CascadeRuns.ChangesExactlyWhatRests | curunir/curunir_analytic/impact.py:222-248 | a completed cascade adds one version to exactly the paths and objectives to which a chain of dependences leads from what cites the assumption or is named by it, unless they were marked already, and to no other assumption; the assumption's own version carries the contradicting claims |
| CascadeRuns.MarksExactlyWhatRests | curunir/curunir_analytic/impact.py:218-248 | the transitions added are exactly the assumption's, each resting path's and its objective's, and each resting objective's own |
| CascadeRuns.ResumedCallEndsTheSame | curunir/curunir_analytic/impact.py:200-203 | a call resumed from any state a crash can leave recomputes its own worklist and ends where the unbroken call ends |
| CascadeRuns.RepeatedCallChangesNothing | curunir/curunir_analytic/impact.py:200-203 | repeating a completed call changes no record and adds no transition |
| CascadeRuns.StoppedShortLeaves | curunir/curunir_analytic/impact.py:76-78 | when a named objective is missing, exactly which objectives the stopped call leaves exposed |
| CascadeRetries.RetryStopsTheSame | curunir/curunir_analytic/impact.py:200-248 | while that objective is not on record, a retry with the same cause stops there again and leaves the state as it is |
| CascadeRetries.RecordingRepairs | curunir/curunir_analytic/impact.py:27-46 | when objectives are recorded after the stop, completing the call leads where it would have led with them on record from the start |
| CascadeRetries.RetryAfterRecordingCompletes | curunir/curunir_analytic/impact.py:200-248 | once no named objective is missing, the retry ends in the completed state and every named objective is exposed |
| CascadeRetries.StopsBeforeTheSecond | curunir/curunir_analytic/impact.py:98-106 | a concrete assumption that names a missing objective and a recorded one: the call stops and leaves the recorded one as it was, in a retry as well |
| CascadeRetries.RecordingTheFirstRepairs | curunir/curunir_analytic/impact.py:27-46 | the same assumption once the missing objective is recorded: the retry exposes both |
| Evidence.ClaimEvidenceTime | curunir/curunir_analytic/forecasts.py:567-579 | the latest state time behind a claim's observations, compared as instants, or none when none is dated |
| Evidence.ObservedAtMeans | curunir/curunir_analytic/basis.py:22-36 | an observation is dated by the newest manifestation its newest record names: retrieval for a live fetch, capture or else source time for an archive |
| Evidence.ClaimByIdIsNewest | curunir/curunir_analytic/basis.py:48-49 | a claim is read as its newest record |
| Evidence.CurrentMeans | curunir/curunir_analytic/basis.py:80-81 | a claim is CURRENT exactly when it is on record and its newest state, if any, says so, and degraded exactly when its newest state says so |
| Evidence.StatedTimesMean | curunir/curunir_analytic/basis.py:76-79 | the stated times of a basis are those of the newest records of its claims |
| Evidence.ComputeBasis | curunir/curunir_analytic/basis.py:38-119 | the basis as a specification by sets: resolved claims, counts of distinct observations, manifestations and sources, families, degraded support, first and last state time, and stated validity |
| Evidence.BasisIsUnique | curunir/curunir_analytic/basis.py:38-119 | a basis is determined by the claims asked for and the evidence |
| Evidence.BasisIsAFixedPoint | curunir/curunir_analytic/basis.py:38-119 | recomputing a basis from its own claims at the same evidence gives the same basis |
| Evidence.NoChangeMeans | curunir/curunir_analytic/basis.py:134-148 | a material change is seen exactly when claims, families, degraded support or the extent of the evidence differ |
| Evidence.AbsenceCoverage | curunir/curunir_analytic/forecasts.py:410-467 | satisfied exactly when sources are named, no fewer than the minimum, and for each a record of a successful search of it stands, ended since and about the subject if one is named; the citations are such searches |
| Evidence.CoveredIsOnRecord | curunir/curunir_analytic/forecasts.py:426-441 | a source counts as covered exactly when such a record stands |
| ForecastLog.CrashLeavesReachable | curunir/curunir_analytic/substrate.py:51-58 | whatever a crash keeps of a run is itself a run |
| ForecastRuns.EveryHistoryIsALifecycle | curunir/curunir_analytic/forecasts.py:138-163 | whichever engine acts next and wherever it stops: versions contiguous, question, horizon and rule fixed, a terminal version last, a passed horizon final, UPDATE_REQUIRED cleared only by a human or an accepted candidate |
| ForecastRuns.PassedHasPassed | curunir/curunir_analytic/forecasts.py:335-337 | a forecast stands HORIZON_PASSED only once its horizon has passed |
| ForecastRuns.LifecycleOverDistance | curunir/curunir_analytic/forecasts.py:166-171 | the same between any two versions of one forecast |
| ForecastRuns.FiredStaysFired | curunir/curunir_analytic/indicators.py:245-255 | a fired indicator is never versioned again: its terms are those it fired with |
| ForecastRuns.EffectIsAVersion | curunir/curunir_analytic/indicators.py:396-409 | an effect counts as landed exactly when some version of the forecast, recorded at or after the firing, stands at the target within the tolerance |
| ForecastRuns.AMoveIsOnRecord | curunir/curunir_analytic/indicators.py:396-409 | once an indicator has moved a forecast the effect is found in every later log, whatever moved the number since |
| ForecastRuns.AMoveMoves | curunir/curunir_analytic/forecasts.py:224-263 | an indicator only ever moves a number that stood elsewhere to its own target |
| ForecastRuns.PassMovesOnlyFirst | curunir/curunir_analytic/indicators.py:434-445 | a pass never moves a forecast its indicator has already moved, so it never overwrites a later human number |
| ForecastRuns.PassesMoveOnce | curunir/curunir_analytic/indicators.py:412-476 | in every run without a direct call, crashes included, an indicator moves a forecast at most once |
| ForecastRuns.AtMostOneMove | curunir/curunir_analytic/forecasts.py:239-248 | once the effect of a firing has landed on a forecast, no continuation moves it again exactly when its mark is on the log or the forecast is settled |
| ForecastRuns.EveryGapAllowsASecondMove | curunir/curunir_analytic/forecasts.py:224-263 | from every state inside that gap a human update and a direct call move the forecast a second time |
| ForecastRuns.NoMoveAfterTheMark | curunir/curunir_analytic/forecasts.py:304-312 | after the mark no path lets the indicator move the number |
| ForecastRuns.NoMoveAfterSettlement | curunir/curunir_analytic/forecasts.py:166-171 | nothing is appended to a settled forecast, so nothing moves it |
| ForecastRuns.MarkMeansEffect | curunir/curunir_analytic/indicators.py:427-475 | a mark stands only where the indicator had fired and its number had landed or already stood |
| ForecastRuns.TargetIsProbability | curunir/curunir_analytic/contracts.py:1106-1131 | a pre-authorised number lies strictly between 0 and 1 in every reachable log |
| ForecastRuns.MachineVerdictsAreJustified | curunir/curunir_analytic/forecasts.py:470-564 | in every run a SERVICE FALSE came after the horizon, unmatched, with a CURRENT contrary claim dated at or after it or with full coverage; a SERVICE TRUE had a match on record by the horizon or dated by it; each cites the claim, the event or the searches that decided it |
| ForecastRuns.AbsenceFiresOnlyOnCoveredSilence | curunir/curunir_analytic/indicators.py:294-336 | an ABSENCE indicator fires only after its deadline, undefeated, with every declared source searched since the deadline, and cites those searches |
| ForecastRuns.BlockedIsPastDeadline | curunir/curunir_analytic/indicators.py:337-350 | only an ABSENCE indicator past its deadline is ever coverage-blocked |
| ForecastRuns.AcceptanceMovesOnce | curunir/curunir_analytic/forecasts.py:199-221 | over all forecasts and all runs of one writer, crashes included, two versions made by one human acceptance are the same version |
| ForecastRuns.CarriedWasSpent | curunir/curunir_analytic/forecasts.py:199-221 | a forecast that carries a proposal has a version that the proposal made, with the number, question and horizon a human had accepted |
| ForecastVerdicts.GroundsAreEarned | curunir/curunir_analytic/forecasts.py:470-607 | the grounds a machine verdict needs, exactly, in the fields of claims, states, activities and searches on record |
| ForecastVerdicts.MachineVerdictsAreEarned | curunir/curunir_analytic/forecasts.py:470-564 | in every run a SERVICE FALSE not resting on a contrary claim has, for every declared source, a successful search of it for the subject ended at the horizon or later; a TRUE has its claim or its event; each cites what it rests on |
| ForecastVerdicts.SightingRules | curunir/curunir_analytic/indicators.py:170-231 | which observations fire a PRESENCE and which defeat an ABSENCE, by the fields the watch sets, the recording and the source state |
| ForecastVerdicts.PresenceFiresOnLaterSightings | curunir/curunir_analytic/indicators.py:186-208 | in every run a PRESENCE fires on fitting observations recorded after the arming, of a source as it was after the arming |
| ForecastVerdicts.AbsenceFiresOnSearchedSilence | curunir/curunir_analytic/indicators.py:294-336 | in every run an ABSENCE fires after its deadline, with no fitting observation held by then and every declared source searched successfully since |
| GapExample.TheGapIsReached | curunir/curunir_analytic/indicators.py:434-475 | a concrete reachable log with an effect landed and its mark missing |
| GapExample.DirectCallMovesTwice | curunir/curunir_analytic/forecasts.py:224-263 | a concrete run in which one firing moves a forecast twice, over a human's number |
| AnalyticContexts.AnalyticContext.RecordTransition | curunir/curunir_analytic/substrate.py:29-48 | a transition is recorded once per cause, and the log is unchanged if it was there |
| AnalyticContexts.AnalyticContext.EnsureTransition | curunir/curunir_analytic/substrate.py:51-66 | after the call the subject has a transition of the type, and a crash between version and transition is filled once |
| AnalyticContexts.AnalyticContext.OpenReviewItem | curunir/curunir_analytic/forecasts.py:594-606 | an item ever recorded is not opened again |
| AnalyticContexts.AnalyticContext.CloseReviewItem | curunir/curunir_analytic/forecasts.py:610-630 | an open item is resolved, any other left alone |
| ForecastUpdate.MoveNumber | curunir/curunir_analytic/forecasts.py:267-313 | the moved version, its note and, for a firing, its mark, touching nothing of any other forecast |
| ForecastUpdate.UpdateProbability | curunir/curunir_analytic/forecasts.py:174-313 | done exactly for a human, an unspent accepted candidate, or a firing that names this forecast and this number and was not executed; refused calls append nothing |
| ForecastUpdate.CheckAuthority | curunir/curunir_analytic/forecasts.py:214-266 | the authority of each kind of caller, check by check |
| ForecastUpdate.CheckFiring | curunir/curunir_analytic/forecasts.py:224-248 | a firing authorises exactly its own number on a forecast it names, until it is marked |
| ForecastUpdate.SpentFiringIsRefused | curunir/curunir_analytic/forecasts.py:239-248 | once marked, the call is refused in every later log |
| ForecastCreation.OpenForecast | curunir/curunir_analytic/forecasts.py:104-135 | the first version and its CREATED transition |
| ForecastCreation.FoldEvidence | curunir/curunir_analytic/forecasts.py:76-102 | new evidence is folded into the basis with its note, and nothing else changes |
| ForecastCreation.FoldNoteMeans | curunir/curunir_analytic/forecasts.py:91-102 | a fold is noted under exactly the claims cited now and not rested on before |
| ForecastCreation.CreateForecast | curunir/curunir_analytic/forecasts.py:36-135 | a repeated call never moves a number, never touches a settled forecast, completes a missing CREATED, and appends nothing when its evidence is already in |
| ForecastCreation.BasisIsOnRecord | curunir/curunir_analytic/basis.py:48-53 | in every run a basis rests only on claims that exist |
| ForecastCreation.RepeatingIsIdleIffClaimsExist | curunir/curunir_analytic/forecasts.py:76-102 | a repeated creation is idle exactly when every claim it cites is on record |
| ForecastResolution.Settle | curunir/curunir_analytic/forecasts.py:633-664 | the terminal version, its transition and the closing of both review items, in that order |
| ForecastResolution.ResolveForecastHuman | curunir/curunir_analytic/forecasts.py:667-707 | allowed exactly for a human with a note, and evidence unless VOID, on a live forecast; the verdict keeps the number that stood |
| ForecastResolution.WithdrawForecast | curunir/curunir_analytic/forecasts.py:710-730 | allowed exactly for a human on a live forecast |
| ForecastResolution.Resolve | curunir/curunir_analytic/forecasts.py:643-664 | the machine's verdict with its transition, given only on grounds on the log that it cites |
| ForecastResolution.FalseByAbsenceOrWait | curunir/curunir_analytic/forecasts.py:582-607 | FALSE when covered, otherwise a coverage gap on record, and nothing on a second attempt |
| ForecastResolution.TryClaim | curunir/curunir_analytic/forecasts.py:492-546 | a claim rule ends settled by its grounds, handed to a human, or waiting with its gap |
| ForecastResolution.TryEvent | curunir/curunir_analytic/forecasts.py:548-564 | an event rule likewise |
| ForecastResolution.TryMachineResolution | curunir/curunir_analytic/forecasts.py:470-564 | the forecast ends TRUE exactly when its claim or event earns it at the clock reading, FALSE exactly when the horizon has passed and the evidence or the searches earn that, and else as it was with its gap on record; a second attempt at the same reading appends nothing |
| ForecastRefresh.AppendRefresh | curunir/curunir_analytic/forecasts.py:332-372 | the refreshed version, and exactly its findings |
| ForecastRefresh.NoteFindings | curunir/curunir_analytic/forecasts.py:351-371 | exactly the findings owed are added: a degradation or contradiction, and a newly passed horizon |
| ForecastRefresh.RefreshForecast | curunir/curunir_analytic/forecasts.py:316-374 | the forecast ends in line with evidence and clock, every finding on record and resolution attempted once the horizon passed; a second refresh at the same reading appends nothing |
| ForecastRefresh.StepIsInLine | curunir/curunir_analytic/forecasts.py:329-345 | the status and basis after a refresh, by the readings of the old and the recomputed basis and the horizon; the same version exactly when nothing reads differently |
| ForecastRefresh.RefreshKeepsTheNumber | curunir/curunir_analytic/forecasts.py:316-321 | a refresh moves no number; past the horizon the question is passed or settled by the service; before it, UPDATE_REQUIRED stays |
| ForecastRefresh.InterruptedRefreshIsNotCompleted | curunir/curunir_analytic/forecasts.py:342-374 | after a crash behind the version, before or past the horizon, and any later refreshes with anything in between, a finding still owed is on record exactly if it was at the crash or a later refresh itself calls for it; if nothing but refreshes happens none does |
| ForecastRefresh.FoundIffCalledFor | curunir/curunir_analytic/forecasts.py:316-374 | over any refreshes, with evidence and other engines in between, a finding is on record exactly if it was or a refresh called for it |
| ForecastRefresh.HorizonFindingIsLostForGood | curunir/curunir_analytic/forecasts.py:339-372 | once the version says HORIZON_PASSED, no refresh records the transition that says so, whatever evidence arrives and whatever the engines append |
| ForecastRefresh.InterruptedSettlementIsNotCompleted | curunir/curunir_analytic/forecasts.py:643-664 | after a crash behind a terminal version, as long as only refreshes happen, its transition stays missing and its review items stay open |
| RefreshExample.HorizonNoteStaysMissing | curunir/curunir_analytic/forecasts.py:365-372 | a concrete reachable log that stands HORIZON_PASSED and on which no refresh ever records that it passed, whatever evidence arrives |
| CreationExample.EveryCallAppends | curunir/curunir_analytic/forecasts.py:76-102 | a concrete reachable log on which each repetition of one creation call appends another version |
| IndicatorArming.ListOn | curunir/curunir_analytic/indicators.py:135-146 | a live forecast lists the indicator, a settled one is not rewritten |
| IndicatorArming.FoldIntoForecasts | curunir/curunir_analytic/indicators.py:130-146 | every live forecast the indicator names lists it; a completed fold appends nothing |
| IndicatorArming.ArmNew | curunir/curunir_analytic/indicators.py:92-125 | the armed version with the plan's terms and its transition |
| IndicatorArming.ArmIndicator | curunir/curunir_analytic/indicators.py:29-127 | re-arming with any different term, direction included, is refused; a repeated call keeps the indicator and completes what a crash left undone |
| IndicatorArming.CheckPlan | curunir/curunir_analytic/contracts.py:1106-1131 | a plan names forecasts, bounds what it watches, declares enough sources for silence, and authorises only a probability |
| IndicatorEffects.PassIsAllowed | curunir/curunir_analytic/indicators.py:434-445 | the update a pass asks for is never refused by the update's own checks |
| IndicatorEffects.AskForReview | curunir/curunir_analytic/indicators.py:446-468 | an OPEN forecast becomes UPDATE_REQUIRED, any other keeps its status, and a review item is on record |
| IndicatorEffects.Execute | curunir/curunir_analytic/indicators.py:434-475 | the marked firing leaves the number where the history has it landed and otherwise puts it at the target; with no version at the target since the firing, the forecast ends there |
| IndicatorEffects.ApplyTo | curunir/curunir_analytic/indicators.py:423-475 | the same, skipping a settled forecast or a marked firing without an append |
| IndicatorEffects.ApplyEffects | curunir/curunir_analytic/indicators.py:412-476 | every named forecast ends marked or settled: a settled or marked one is as it was, any other has its effect exactly once, and if no version since the firing showed the target it stands there afterwards; a completed firing appends nothing |
| IndicatorEffects.UnshownEndAtTarget | curunir/curunir_analytic/indicators.py:402-445 | the missing half of exactly once: an unmarked live forecast that nobody has put at the target since the firing ends there |
| IndicatorPass.PostArmingMatches | curunir/curunir_analytic/indicators.py:186-208 | matches both recorded and dated strictly after the arming, none exactly when there is none, at most five kept |
| IndicatorPass.DefeatMatches | curunir/curunir_analytic/indicators.py:211-231 | an absence is defeated exactly by a match that held at or before the deadline, arming included |
| IndicatorPass.Fire | curunir/curunir_analytic/indicators.py:372-393 | the fired version, its transition, its effects and the closed coverage question |
| IndicatorPass.Complete | curunir/curunir_analytic/indicators.py:245-253 | a firing found on the log is completed, and appends nothing if it was complete |
| IndicatorPass.Retire | curunir/curunir_analytic/indicators.py:258-281 | an expired or defeated indicator has its transition and its coverage question is closed |
| IndicatorPass.Block | curunir/curunir_analytic/indicators.py:337-367 | uncovered silence moves no forecast, and leaves a transition and a collection question |
| IndicatorPass.CheckPresence | curunir/curunir_analytic/indicators.py:282-293 | fires exactly when a fitting observation stands that was recorded after the arming, of a source as it was after the arming |
| IndicatorPass.CheckAbsence | curunir/curunir_analytic/indicators.py:294-368 | past the deadline: retired if defeated, else fired if covered, else blocked; a blocked one that is still uncovered appends nothing |
| IndicatorPass.Check | curunir/curunir_analytic/indicators.py:243-368 | one indicator is settled by its check, and expires when everything it watches is settled |
| IndicatorPass.OthersStaySettled | curunir/curunir_analytic/indicators.py:243-368 | checking one indicator leaves every other as settled as it was |
| IndicatorPass.CheckIndicators | curunir/curunir_analytic/indicators.py:234-369 | after a pass every indicator is settled at the clock reading it began with; a pass over settled indicators appends nothing; no forecast is settled or reopened by it |
| IndicatorPass.InterruptedCheckIsNotCompleted | curunir/curunir_analytic/indicators.py:258-368 | after a crash behind a blocked, expired or retired version the indicator counts as settled: its transition stays missing, its coverage question unopened or unclosed |
| IndicatorPass.InterruptedFiringIsNotAnnounced | curunir/curunir_analytic/indicators.py:245-253 | completing a firing executes its effects and never records its transition |
| Calibration.ScoreOfResolved | curunir/curunir_analytic/calibration.py:19-54 | on a list a run produced the score is the last number recorded by the horizon, or else the first |
| Calibration.VersionsAsOf | curunir/curunir_analytic/calibration.py:46-48 | the versions recorded by an instant are the versions of the log as it stood then |
| Calibration.ScoreIsTheNumberAtStake | curunir/curunir_analytic/calibration.py:19-54 | scoring never raises on a resolved forecast of any reachable log and gives the number on record at the horizon, or the opening one |
| Calibration.ScoreMeans | curunir/curunir_analytic/calibration.py:19-54 | on any list of versions: when there is nothing to score, nothing at stake or a leak, and else whose number is the score |
| Calibration.NoHindsight | curunir/curunir_analytic/calibration.py:45-53 | two runs that agree up to the horizon, or on the opening of a forecast authored later, score alike, however each was updated, refreshed and resolved afterwards |
| Calibration.AuthoredLate | curunir/curunir_analytic/calibration.py:51-53 | a forecast first recorded after its horizon is scored by its opening number |
| Calibration.PostHorizonUpdateCount | curunir/curunir_analytic/calibration.py:57-73 | the number of moves after the horizon and before the resolving version |
| Calibration.LateMovesAreIndices | curunir/curunir_analytic/calibration.py:57-73 | the count is the number of positions after the horizon and short of the resolution where the number moved by more than the tolerance |
| Calibration.ResolvingVersionIs | curunir/curunir_analytic/calibration.py:61-63 | the resolving version is the lowest-numbered TRUE or FALSE one |
| Calibration.UncountedDrift | curunir/curunir_analytic/calibration.py:67-72 | when none is counted, the number drifted after the horizon by at most the tolerance per version |
| CalibrationError.BucketHoldsItsRows | curunir/curunir_analytic/calibration.py:231-235 | a row's bucket is the interval its probability lies in; the clamp never acts below certainty |
| CalibrationError.CalibrationBuckets | curunir/curunir_analytic/calibration.py:227-249 | one pass tallies count, probability sum and true count of each bucket, empty ones included |
| CalibrationError.BucketsPartition | curunir/curunir_analytic/calibration.py:227-249 | every row is counted in exactly one bucket |
| CalibrationError.DistanceSquared | curunir/curunir_analytic/calibration.py:76-77 | the square of the total distance is at most the row count times the total Brier score |
| CalibrationError.ErrorIsBounded | curunir/curunir_analytic/calibration.py:252-274 | the expected calibration error lies in [0,1] and its square is at most the mean Brier score |
| CalibrationError.ExpectedCalibrationError | curunir/curunir_analytic/calibration.py:252-263 | the loop over non-empty buckets computes that error, and none exactly for no rows |
| KeyLifecycle.EveryKeyHasAHistory | curunir/curunir_identity/registry.py:79-187 | under any interleaving a key's actor, kind and public key are fixed, it is never active again, and after it is settled only one compromise can follow |
| KeyLifecycle.ActiveKeysAreBounded | curunir/curunir_identity/registry.py:117-120 | an actor never has more than eight active keys |
| KeyLifecycle.OneKindPerActor | curunir/curunir_identity/registry.py:113-116 | all keys an actor ever had share one kind |
| KeyLifecycle.VerificationStatusAt | curunir/curunir_identity/registry.py:240-257 | the scan gives the standing of the key at the instant |
| KeyLifecycle.ValidMeans | curunir/curunir_identity/registry.py:240-257 | VALID means enrolled by then, not settled by then, and never compromised at any time |
| KeyLifecycle.StandingIsFixed | curunir/curunir_identity/registry.py:240-257 | records after an instant leave the standing at it as it was, unless the key becomes compromised, for all times, or is enrolled only then |
| KeyLifecycle.OnlyCompromiseRewritesThePast | curunir/curunir_identity/registry.py:244-247 | an append changes the standing at an earlier instant exactly when it enrols the key or marks it compromised |
| KeyRegistries.CommitIsLegal | curunir/curunir_identity/registry.py:170-187 | an append prepared on an old log and committed on condition is always legal on the live one |
| KeyRegistries.OptimisticIsAtomicUnlessOvertaken | curunir/curunir_identity/registry.py:144-187 | reading first and appending on condition equals one atomic step exactly unless a compromise was overtaken by another settling step |
| KeyRegistries.CompromiseCanBeLost | curunir/curunir_identity/registry.py:170-187 | from any active key that race is open, and the past signatures stay valid |
| KeyRegistries.ActiveKeyForIs | curunir/curunir_identity/registry.py:62-77 | there is an active key to rotate exactly when the actor has any; it is the one enrolled last, by id among equals |
| KeyRegistries.RotationNeverStrands | curunir/curunir_identity/registry.py:200-234 | with the new key absent or active, the actor holds it active after every append, and the predecessor ends inactive |
| KeyRegistries.ResumedRotationStrandsIff | curunir/curunir_identity/registry.py:208-234 | with the new key settled meanwhile, the actor ends without a key exactly when the predecessor was its only one |
| KeyRegistries.RotationCanStrand | curunir/curunir_identity/registry.py:200-234 | from any log in which an actor has one active key a run strands it: the rotation stops behind its enrolment, the new key is revoked, the retry retires the predecessor |
| KeyRegistries.RotationResumes | curunir/curunir_identity/registry.py:209-214 | stopping after the enrolment and calling again at any later time reaches the statuses of an unbroken run |
| KeyRegistries.RotationIsIdempotent | curunir/curunir_identity/registry.py:200-234 | a further call appends nothing and returns the same record |
| KeyRegistries.KeyRegistry.Enroll | curunir/curunir_identity/registry.py:79-132 | the actor holds the key afterwards exactly unless refused, it is the one addition to its active keys, and they stay within the bound |
| KeyRegistries.EnrolmentMeans | curunir/curunir_identity/registry.py:99-131 | enrolment is refused exactly when afterwards the actor does not hold the key, active, of that kind and in the place of that key; asking again appends nothing |
| KeyRegistries.EnrolmentIsWrittenIff | curunir/curunir_identity/registry.py:79-132 | a key is enrolled exactly when it is not on record, all keys of the actor are of its kind, fewer than eight are active and the clock is not behind the log; the record it gets |
| KeyRegistries.EnrolmentAddsOne | curunir/curunir_identity/registry.py:79-132 | the key is the one addition to anybody's active keys, and no other key changes |
| KeyRegistries.KeyRegistry.Step | curunir/curunir_identity/registry.py:144-187 | the reply and the log after it when other writers act between the read and the append |
| KeyRegistries.KeyRegistry.Revoke | curunir/curunir_identity/registry.py:189-198 | a written revocation stands, and one for a compromise, or whose stated reason carries the tag, holds at every instant |
| KeyRegistries.KeyRegistry.RotateKeys | curunir/curunir_identity/registry.py:200-234 | refused exactly when the rotation is; undisturbed, exactly its log, with the predecessor no longer active |
| SignIn.Prune | curunir/curunir_identity/sessions.py:58-79 | drops the expired entries and then only the caller's own, oldest first, until there is room; it fails only when the caller owns none |
| SignIn.SessionManager.PrunePending | curunir/curunir_identity/sessions.py:58-79 | that loop on the challenge table |
| SignIn.SessionManager.PruneSessions | curunir/curunir_identity/sessions.py:101-122 | and on the session table |
| SignIn.EvictedChallenges | curunir/curunir_identity/sessions.py:58-79 | of the challenges every expired one goes, and of the others at most one: the caller's longest issued |
| SignIn.EvictedSessions | curunir/curunir_identity/sessions.py:101-122 | the same of the sessions |
| SignIn.SessionManager.IssueChallenge | curunir/curunir_identity/sessions.py:81-99 | a challenge is issued exactly when there is room, and capacity pressure evicts nobody else's |
| SignIn.VerifyingKey | curunir/curunir_identity/sessions.py:134-138 | finds an active key of the actor that verifies the signature exactly when there is one |
| SignIn.SessionManager.TakeChallenge | curunir/curunir_identity/sessions.py:128-132 | the nonce is gone from the table whatever the outcome |
| SignIn.SessionManager.OpenSession | curunir/curunir_identity/sessions.py:141-157 | without room the challenge is put back; otherwise the nonce is spent |
| SignIn.SessionManager.Authenticate | curunir/curunir_identity/sessions.py:124-157 | a session opens only for an unspent, unexpired nonce of this actor signed by one of its active keys, and a nonce opens at most one |
| SignIn.SessionManager.Resolve | curunir/curunir_identity/sessions.py:159-172 | a session is returned exactly when it is in the table, not past its expiry, and its key is on record and ACTIVE; otherwise it is dropped |
| SignedActions.VerifyAction | curunir/curunir_identity/actions.py:79-149 | accepted exactly when the session is unexpired and its key ACTIVE, the payload is the session's actor's and about this operation, the nonce is on no committed action, the timestamp is within 300 seconds of now and not before the key's enrolment, and the signature is over the payload; a refusal names the first check that fails; nothing is written to the log |
| SignedActions.AcceptanceMeans | curunir/curunir_identity/actions.py:93-125 | when the checks after the session accept, and what action they accept |
| SignedActions.RefusalMeans | curunir/curunir_identity/actions.py:93-125 | each refusal is for its own reason, and no reason tested before it applies |
| SignedActions.CommitAction | curunir/curunir_identity/actions.py:152-171 | appends exactly when the nonce is still unused, on whatever the log has become |
| SignedActions.NonceIsCommittedOnce | curunir/curunir_identity/actions.py:159-170 | under any interleaving of verifications and commits no two committed actions carry the same nonce |
| SignedActions.ReplayMeans | curunir/curunir_identity/replay.py:19-34 | the verdict of a replay of any action: mismatch, unknown key and bad signature each exactly at its cause, GENUINE exactly when the key was enrolled and stands |
| SignedActions.AcceptedReplays | curunir/curunir_identity/replay.py:19-34 | an accepted action replays as genuine in a later log exactly when its key was neither compromised nor settled by its timestamp |
| SignedActions.GenuineUnlessCompromised | curunir/curunir_identity/replay.py:19-34 | with a timestamp before every later step only a compromise turns the verdict |
| SignedActions.CommittedReplays | curunir/curunir_identity/replay.py:19-34 | over every run a committed action's verdict turns on its key's history alone |
| SignedActions.FutureDatedActionCanLapse | curunir/curunir_identity/actions.py:109-125 | an action dated ahead within the skew lapses by a plain retirement before its date |
| SignedActions.VerifyAll | curunir/curunir_identity/replay.py:37-51 | one verdict per committed action in order, and all genuine exactly when each is |
| SignedActions.LogIsGenuineIff | curunir/curunir_identity/replay.py:37-51 | a log the system wrote replays as all genuine exactly when every action's key stands at its signing |
| SignedActions.SessionStaysOnRecord | curunir/curunir_identity/actions.py:119-125 | what sign-in checked of a session's key stays true of every later log |
| Access.MostRestrictive | curunir/curunir_operational/access.py:139-184 | one pass computes the join of union, intersection and maximum, and refuses exactly when it would be locked to one authority while an input was not |
| Access.Seal | curunir/curunir_operational/access.py:101-114 | every compartment and caveat kept, the reserved compartment added |
| Access.InheritedMarking | curunir/curunir_operational/access.py:117-136 | an error exactly when an input has an unknown role or no authority; otherwise the join when there is one, the seal if not, absent references skipped and a missing role read as the highest |
| Access.UnreadableIff | curunir/curunir_operational/access.py:117-136 | the derivation is an error exactly when the base or a reference on record has an unknown role or no authority |
| Viewing.ViewsMeans | curunir/curunir_operational/access.py:82-94 | a record is viewed with a role it is open to, all of its compartments, and a label it is released to or, released to none, in its own organisation |
| Viewing.JoinViewers | curunir/curunir_operational/access.py:139-184 | for any records: a join is viewed exactly by those whom one ground opens every input to, read with its role, if the first has an authority |
| Viewing.SealIsViewedByNobody | curunir/curunir_operational/access.py:57-64 | no context can view a sealed marking |
| Viewing.InheritedViewers | curunir/curunir_operational/access.py:117-136 | for every input that is not an error: a derived record is visible exactly where one ground opens the base and every reference, read with their roles |
| Viewing.NoWriteDown | curunir/curunir_operational/access.py:82-136 | everyone who can view the derived record can view the base and each reference, exactly when none leaves its role out or the derived record is sealed |
| Viewing.SealedIff | curunir/curunir_operational/access.py:101-136 | the derived record is sealed exactly when the inputs cannot be joined or one of them is sealed |
| Viewing.ViewedByNobodyIff | curunir/curunir_operational/access.py:57-64 | a marking that can be constructed is closed to everyone exactly if it holds the reserved compartment |
| Viewing.MissingRoleIsWrittenDown | curunir/curunir_operational/access.py:40-44 | a concrete reference without a role, what is derived from it, and a context that views the second and not the first |
| Viewing.TreeViewers | curunir/curunir_operational/access.py:117-184 | however the joins are nested, the viewers are those of all the leaves together |
| Viewing.OrderAndGroupingDoNotMatter | curunir/curunir_operational/access.py:117-184 | the viewers depend on which markings were joined, not on order, grouping or repetition |
| Viewing.CeilingCoversInput | curunir/curunir_analytic/providers.py:143-146 | input admitted under a declared ceiling is viewable by everyone who can view the ceiling |
| Viewing.CeilingAdmitsIff | curunir/curunir_analytic/providers.py:143-146 | a ceiling that is not sealed admits exactly the input that adds nothing to it |
| Viewing.NoPolicyMeansPublic | curunir/curunir_analytic/providers.py:134-142 | without a ceiling exactly what every reader of public material may see is sent |
| Candidates.AcceptanceIsSpentOnce | curunir/curunir_analytic/substrate.py:309-374 | in every run, all records carrying a proposal are of one object exactly when no spending append came after another object had been given the proposal since that append's gate was read |
| Candidates.ConditionRulesOutTheRace | curunir/curunir_analytic/substrate.py:365-373 | were the gate's test for an unspent proposal a condition of each spending append, no run could spend it on two objects |
| Candidates.FixedIdIsSpentOnce | curunir/curunir_analytic/forecasts.py:27-28 | where the object's id is a digest of bound fields, one accepted content becomes one object in every run, raced or not |
| Candidates.RunIsReachable | curunir/curunir_analytic/substrate.py:309-374 | what holds of reachable logs holds of every run |
| Candidates.ReachableHasRun | curunir/curunir_analytic/substrate.py:309-374 | and every reachable log is that of a run, so nothing is lost by naming what each append had read |
| Candidates.UndisturbedGateIsNotOvertaken | curunir/curunir_analytic/substrate.py:309-374 | a writer that appends on the log its gate read leaves the acceptance spent on its object and on no other |
| Candidates.TwoWritersCanSpendTwice | curunir/curunir_analytic/themes.py:37-38 | for every kind whose id also covers what is not bound, whenever the gate opens a run spends the acceptance on two objects |
| Candidates.FirstMaterializationWasAccepted | curunir/curunir_analytic/substrate.py:309-364 | what first carries a proposal was accepted by a human before, for that kind and those fields |
| Candidates.BindingIsUnavoidable | curunir/curunir_analytic/substrate.py:344-364 | in every run, any two materialisations of one accepted content are of one kind and state the same value in every field that kind binds, whatever other field names there are |
| Candidates.CheckGate | curunir/curunir_analytic/substrate.py:309-374 | the gate, check by check: inference and proposal on record, accepted, for this kind, bound, unspent |
| Candidates.CheckBinding | curunir/curunir_analytic/substrate.py:344-364 | every bound field is declared and the same, and so is every other field that both state |
| Candidates.BoundIsBinding | curunir/curunir_analytic/substrate.py:396-413 | which fields each kind binds |
| Candidates.ResolvedIsAsProposed | curunir/curunir_analytic/substrate.py:448-480 | a resolved proposal was on record, the same but for its status, before it was resolved |
| Candidates.VersionsAreNumbered | curunir/curunir_operational/store.py:453-466 | the versions of an object are numbered 1, 2, 3 and so on, whoever writes them |
| CandidateExample.OnlyWhatWasAcceptedPasses | curunir/curunir_analytic/substrate.py:309-374 | a concrete candidate: no gate before the acceptance, and after it none for another kind, other fields or another inference |
| CandidateExample.AcceptedBecomesOneObject | curunir/curunir_analytic/store.py:71-86 | the same candidate made into an object and versioned again: the acceptance stays spent on it |
| Candidates.AnalyticStore.Write | curunir/curunir_analytic/store.py:71-82 | the indexes equal a recomputation from the whole log after every append |
| Candidates.AnalyticStore.Reopen | curunir/curunir_analytic/store.py:64-82 | replaying the log into empty indexes gives the same indexes |
| Candidates.AnalyticStore.MaterializationOf | curunir/curunir_analytic/store.py:84-86 | the index answers what the log says |
| Candidates.AnalyticStore.RecordCandidate | curunir/curunir_analytic/substrate.py:416-445 | recorded exactly when the kind can be proposed and every binding field is declared |
| Candidates.AnalyticStore.ResolveCandidate | curunir/curunir_analytic/substrate.py:448-480 | a proposal read as PROPOSED gets its new status, and is accepted only by a human |
| Candidates.TwoResolversCanBothSucceed | curunir/curunir_analytic/substrate.py:454-480 | from any log with a PROPOSED proposal two resolvers both succeed, and a rejection follows an acceptance |
| Candidates.AnalyticStore.Materialize | curunir/curunir_analytic/substrate.py:309-374 | made only through an open gate; undisturbed, exactly then, and the acceptance is spent on it |
| Missions.TrailIsAFlowPath | curunir/curunir_operational/missions.py:131-166 | under any interleaving of writers a subject's transitions form one linked path of the listed moves, an answer with evidence and by a human, a closing and a finished task by a human, giving up with a reason |
| Missions.DoneByItsAssignee | curunir/curunir_operational/missions.py:149-150 | whoever finished a task is its assignee |
| Missions.FlowIsMoves | curunir/curunir_operational/missions.py:22-33 | the flow tables, move by move |
| Missions.TerminalIsAbsorbing | curunir/curunir_operational/missions.py:22-33 | a trail that has reached a terminal status never grows |
| Missions.RequirementsOnlyGrow | curunir/curunir_operational/missions.py:70-90 | in a store that checks versions no writer lowers a priority or drops an affected id |
| Missions.UnversionedFoldCanBeLost | curunir/curunir_operational/missions.py:66-90 | in the base store, which does not, a fold of a stale read lowers a raised priority and drops an added id |
| Missions.TwoFirstOpeningsCanBothLand | curunir/curunir_operational/missions.py:66-94 | in the base store two writers that both find no requirement both open it, and the later opening overwrites the earlier |
| Missions.FoldOfTheLatestGrows | curunir/curunir_operational/missions.py:70-90 | in any store a fold of what is still the latest version loses nothing |
| Missions.EveryFoldKeepsIff | curunir/curunir_operational/missions.py:70-90 | folds of a read can be relied on to keep the latest version exactly when what was read covers it |
| Missions.MissionWorkflow.Move | curunir/curunir_operational/missions.py:131-166 | appended exactly when the move is proper and the subject has not moved since it was read |
| Missions.MissionWorkflow.CheckMove | curunir/curunir_operational/missions.py:136-150 | the checks of a move in their order |
| Missions.MissionWorkflow.OpenRequirement | curunir/curunir_operational/missions.py:54-94 | a first call stands as asked; a later one gives the next version with the higher priority and the union of the ids, or changes nothing exactly when it adds nothing; otherwise the store refused a stale version |
| Missions.UnionIsTheSameIff | curunir/curunir_operational/missions.py:76-80 | a fold leaves the ids as they are exactly when nothing is new and none was mentioned twice |
| Association.AgreementIsKept | curunir/curunir_operational/association.py:198-227 | an act that concerns one pair keeps every other pair in agreement |
| Association.InterruptedResolutionAgreesIff | curunir/curunir_operational/association.py:206-226 | a crash after the resolution leaves agreement exactly when the resolution would not have changed whether SAME_AS stands |
| Association.StandsAsLastFollowed | curunir/curunir_operational/association.py:209-226 | over any interleaving of resolvers of one pair, SAME_AS stands as the resolution last followed says |
| Association.InterleavedResolutionsAgreeIff | curunir/curunir_operational/association.py:198-227 | over any interleaving the pair ends in agreement exactly when the resolution last followed and the one last recorded both accept or both do not |
| Association.TwoResolversAgreeIff | curunir/curunir_operational/association.py:198-227 | two resolvers that follow in the order they recorded agree; if the first to record is the last to follow, exactly when they are of one mind |
| Association.AssociationEngine.Undo | curunir/curunir_operational/association.py:212-226 | an open relation is withdrawn with its next version, any other left alone |
| Association.AssociationEngine.Follow | curunir/curunir_operational/association.py:209-226 | the relations that follow a resolution bring the pair into agreement with it |
| Association.AssociationEngine.Resolve | curunir/curunir_operational/association.py:198-232 | SAME_AS is ACTIVE exactly when the pair's last resolution is ACCEPTED, whatever state an earlier crash left the pair in |
| Association.AssociationEngine.Evaluate | curunir/curunir_operational/association.py:142-176 | only an automatic association accepts itself; a withheld or weaker one proposes and leaves SAME_AS as it was |

## Left out

- Files, fsync, staging directories, SQL, HTTP, connectors, model backends and rendering: the log and the payloads are held in memory and an append is atomic.
- Ed25519, SHA-256 and byte encodings: digests and signatures are free constructors, and ids made by `digest_id` are opaque values; that the cascade's causes use the first 18 characters of a path id is not modelled.
- Randomness: that a nonce or session token is new is a precondition of the two methods that draw one.
- Floating point: probabilities and scores are reals, so rounding is not captured. The log score and the groupings of the scoreboard would add easy members.
- Free text, history notes, display labels, and markings on records outside `Access` and `Viewing`.
- The attribution of a search to a subject (query values and URL matching, `forecasts.py:377-407`) is an input: each execution carries what it is about.
- Dependences between themes, narratives, stakeholder assessments and response options enter the cascade as an arbitrary index; their engines are not modelled.
- Merging and splitting themes, narratives, influence, warnings, analogues and explanation rendering.
- `compute_features` and `decide`: the association engine takes the decision as a parameter.
- Reads of a signed action's verification see one state of the log; commits may come at any later one.
- ForecastUpdate.UpdateProbability: takes a recorded acceptance to stand; the gate over the candidate's kind and fields is modelled in Candidates.
- IndicatorArming.ArmIndicator: does not model the acceptance gate for a model-proposed indicator, which is the one of Candidates.
- IndicatorPass.CheckIndicators: visits the indicators in any order, where the engine sorts them by id; the contract holds for each order.
- KeyRegistries.RotationNeverStrands: is about a rotation no other writer disturbs; what a disturbed step does is stated by Step and by OptimisticIsAtomicUnlessOvertaken.
- Association.AssociationEngine.Resolve: is one call undisturbed by others; what several resolvers of one pair leave is stated by InterleavedResolutionsAgreeIff, for SAME_AS.
- Replication.MissionDataStore.Append: does not model the table of event types, the refusal of a record type that does not fit its event type, or the caller's append condition, which the identity and mission modules state where they use it.
- ThemeRefresh.ThemeEngine.RefreshTheme: is about one theme whose notes are compared by kind and cause.
- InvalidationCascade.BuildIndex: indexes paths and objectives record by record and takes the dependences of other kinds as given.
- ForecastRuns.AcceptanceMovesOnce: has one writer, for which reading that the proposal is unspent and appending are one step; two writers could both move one forecast with one acceptance.
- Candidates.FixedIdIsSpentOnce: is about proposals whose id names one content; the id is a digest of the first 2000 characters of it, so longer contents may share one.
- IndicatorPass.InterruptedCheckIsNotCompleted: is about later checks at the same evidence; evidence that arrives afterwards can still fire or retire a blocked indicator.
