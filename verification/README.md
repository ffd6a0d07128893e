# India Swing: replay, snapshot, allocation and supervision

A Dafny model of the seven parts of the repository where correctness is not visible in any
one body.

* **Exact-ID replay graph.** Create-once records are re-materialised recursively over a
  staged graph of ancestors, below a memo cache that lives only while a scope is open. The
  publisher rebuilds every artifact of a specification and checks its manifest by walking
  two terminal objects. `ReplayGraph`, `ReplayScope`, `GraphPublication`,
  `PublicationStore`, `GraphPublisher`; `MadeArtifacts`, `ConstructedGraph` and
  `ConstructionSuccess` say what is replayed and constructed in terms of artifacts, services
  and specifications alone. The file protocol underneath is `RecordStore`, the record codec
  `RecordCodec` with `IsoTime` and `JsonText`.
* **Object-graph walkers.** `CanonicalIdentity` and `IdentityWalk` model the canonical
  identity of values and of heaps with cycles; `PathScopedWalk` and `AuditWalk` the audit
  walk, its run-ID companion and the write that depends on both.
* **Input snapshot.** `InputScan`, `InventoryScan` and `InventoryLookup` model the scan;
  `SnapshotManifest`, `ManifestValidation`, `SnapshotPublication` and `SnapshotRestore` the
  bucket; `CloudControl`, `StagedTree`, `StagedEntries`, `HydratedInventory`, `Hydration`
  and `SnapshotRoundTrip` the hydration and the round trip.
* **Operational allocator.** `Allocation`, `AllocationRun`, `AllocationBatch`;
  `AllocationRules` restates what is bought on the fields of quotes, portfolio and policy.
* **State publication.** `StateManifest`, `StatePublication`, `StateRestore`, over
  `ObjectBucket`.  `StateFormat` and `SnapshotFormat`, built with `Serial`, exhibit formats
  that meet what the publication theorems ask of digests and codecs.
* **Worker supervision.** `WorkerStatus`, `OneShotRunner`, `DispatcherProtocol`,
  `Dispatcher`, `SlotPlans`, `Supervisor`.
* **Ranking and selection.** `PipelineSelection`.

Code that changes things in place is a class or a method with loops and is proved against
functions and predicates about values; the for-all results are lemmas about those.
Protocols with several processes, crashes or restarts are folds of one step function over
arbitrary action sequences.

## Conventions and assumptions

* Content IDs and digests are injective functions; object and artifact names are built from
  them as the source builds them. JSON text syntax is a parameter that reads back what it
  writes; key sets, repeated keys, canonical form and byte limits are modelled.
* The services behind `materialize` are deterministic functions of their arguments that
  retain their source objects, as `src/india_swing/tick_sizes/promoted_session.py` lines
  679-709 show for one of them.
* That a construction succeeds is stated for services that answer every well-formed request
  at the cutoff of the specification, keep its cutoff and dates, and never give two records
  one ID (`ConstructionSuccess.Willing`).
* Exceptions are `Raised` or `None`. A call into code outside the model, the file system,
  the clock and the bucket are functions the environment chooses, so every answer and every
  failure is covered.
* A bucket write creates when the name is absent, at a generation the bucket chooses, and
  otherwise returns the stored object only for equal bytes; it may also fail before or after
  taking effect.
* Allocation is stated for a parameter that divides and multiplies: conservation and the
  position limits for any, the caps up to the rounding of each purchase, monotonicity for
  any monotone rounding.
* Whether a state manifest encodes within its limit is asked of the manifest that a
  publication builds; in the source its fields are bounded, so there it always does.
* Canonical JSON text is a tree whose object members are sorted by name.

## What the code does not do

Four promises fail on some inputs; each has its exact condition, for all inputs or runs, and
a witness or what failing leaves behind.

* The record encoder has no byte limit but the reader has one of 4 MiB. `RecordCodec.DecodeIff`
  gives the exact condition for the round trip; `OversizedNeverDecodes` and `OversizedExists`
  give valid records outside it. `ReplayScope.GraphStores.Put` says exactly when a put
  returns, and `OversizedBlocksItsName` what an oversized one leaves: a name that can never
  be read nor put again.
* The identity of a mapping does depend on iteration order when two kept keys share an
  identity tree. `MappingOrderIndependentIff` is the exact condition, `MappingOrderCanLeak`
  a mapping that breaks it.
* At most one live worker holds per dispatcher lifetime. Over a whole run it holds exactly
  when each worker is started while none survives from an earlier dispatcher:
  `LaunchAloneIff`, `OneLiveIffLaunchesAlone`. `TwoLiveAcrossRestart` is a run in which a
  worker outlives its dispatcher.
* Write scopes are compared within one plan. No path lies under two running children exactly
  when every poll launches only slots clear of those running: `PollSharesIff`,
  `NoPathSharedIff`. `OverlapAcrossPlans` is a run of two plan revisions that breaks it.

## Model

| member | source | states |
|---|---|---|
| ReplayGraph.GetReturnsKey | src/india_swing/promoted_graph_store.py:498-526 | a store returns an artifact only under its own kind and ID, and that artifact re-encodes to the stored record |
| ReplayGraph.GetAllPointwise | src/india_swing/promoted_graph_store.py:538-553 | a group of sources resolves exactly when each member does, each to its own plain replay |
| ReplayGraph.RetainedSourcesResolve | src/india_swing/promoted_graph_store.py:605-648 | a replayed artifact retains exactly the sources its record pins, each of lower stage and each equal to what its own store returns |
| ReplayGraph.AncestorsResolve | src/india_swing/promoted_graph_publisher.py:1329-1437 | every object met anywhere inside a replayed artifact is what its own store returns for its ID |
| ReplayGraph.GetMonotone | src/india_swing/promoted_graph_store.py:418-452 | under create-once stores a read that succeeds keeps its value whatever is stored later |
| ReplayScope.GraphStores.Open | src/india_swing/_exact_replay.py:32-42 | only the outermost open starts an empty cache; a nested open changes nothing |
| ReplayScope.GraphStores.Close | src/india_swing/_exact_replay.py:32-42 | leaving the outermost scope leaves no cache; leaving a nested one keeps it |
| ReplayScope.GraphStores.Resolve | src/india_swing/_exact_replay.py:44-51 | a scoped resolve returns what the unmemoised recursion yields, extends the cache only with sound entries, and logs each key once |
| ReplayScope.GraphStores.Fetch | src/india_swing/promoted_graph_store.py:498-526 | a store read with memoised sources equals the plain recursive read, which `MadeArtifacts.GetIffMade` puts in terms of artifacts |
| ReplayScope.GraphStores.Put | src/india_swing/promoted_graph_store.py:480-496 | a put returns its value exactly when the value is what its owning service makes, at its own cutoff and dates, of fitting sources that are held, its record encodes and fits the reader, and nothing different has its name; it then reads back, and a record too long for the reader is stored all the same |
| MadeArtifacts.ReplayIffMade | src/india_swing/promoted_graph_store.py:605-1230 | a record replays to the artifact it was made from exactly when that artifact is what its owning service makes, at its own cutoff and dates and over its pinned partition, of sources of the right kinds that are all held |
| MadeArtifacts.GetIffMade | src/india_swing/promoted_graph_store.py:498-526 | a store returns an artifact under its own name exactly when its record is stored, can be read, and the artifact is made in that way |
| MadeArtifacts.GetOnlyMade | src/india_swing/promoted_graph_store.py:498-526 | whatever a store returns carries the key it was asked for and was made in that way |
| ReplayScope.OversizedBlocksItsName | src/india_swing/promoted_graph_store.py:418-496 | after a put of a record too long for the reader, no read of that name and no put under it ever succeeds |
| ReplayScope.CacheExtended | src/india_swing/_exact_replay.py:44-51 | one more resolved key keeps the cache sound and the log free of repeats |
| ReplayScope.FetchesAreCached | src/india_swing/_exact_replay.py:44-51 | inside a scope there were exactly as many successful fetches as cached keys, so each key was fetched successfully once |
| ReplayScope.SoundAfterGrowth | src/india_swing/promoted_graph_publisher.py:711-724 | values cached before later records are stored stay what plain replay gives |
| GraphPublication.PlainReplayIsFaithful | src/india_swing/promoted_graph_store.py:498-526 | plain replay of any stored world returns only objects whose retained sources re-read as themselves |
| GraphPublication.WalkAgreesWithReread | src/india_swing/promoted_graph_publisher.py:1329-1437 | walking the two replayed terminal objects accepts exactly the manifests that re-reading every listed ancestor accepts |
| GraphPublication.AcceptedManifestResolves | src/india_swing/promoted_graph_publisher.py:1329-1437 | in an accepted manifest every listed session artifact, the history, the adjudication and the intake resolve through their own stores to the objects met in the walk |
| GraphPublication.WalkMeetsStores | src/india_swing/promoted_graph_publisher.py:1329-1437 | the history and each session ancestor the walk met are what their stores return, one per listed session |
| GraphPublication.WalkedSessionRereads | src/india_swing/promoted_graph_publisher.py:1379-1411 | a session the walk accepts is accepted by re-reading its three ancestors |
| GraphPublication.RereadSessionWalks | src/india_swing/promoted_graph_publisher.py:1379-1411 | a session accepted by re-reading its ancestors matches the walked object |
| PublicationStore.WalkObjects | src/india_swing/promoted_graph_publisher.py:1329-1437 | the walk over the two objects computes exactly its declared acceptance |
| PublicationStore.WalkSessions | src/india_swing/promoted_graph_publisher.py:1379-1437 | the session loop accepts exactly the sessions that all match and share one adjudication, and returns that adjudication |
| PublicationStore.LocalPublicationStore.VerifyDownstream | src/india_swing/promoted_graph_publisher.py:1329-1437 | the check inside a scope equals the walk over plain replay, whatever the cache holds |
| PublicationStore.LocalPublicationStore.Get | src/india_swing/promoted_graph_publisher.py:1316-1327 | a publication is returned exactly when stored under its own ID, within the byte limit, valid, and accepted by re-reading every listed ancestor |
| PublicationStore.LocalPublicationStore.Put | src/india_swing/promoted_graph_publisher.py:1297-1314 | a manifest becomes durable exactly when re-reading every listed ancestor accepts it, its encoding keeps the byte limit and nothing different has its ID; it then reads back, and a refused one is not stored |
| GraphPublisher.Publisher.Construct | src/india_swing/promoted_graph_publisher.py:726-948 | the construction inside the memoising scope stores and returns exactly what the same construction without scopes and caches does; `ConstructedGraph.ConstructedIsRight` and `ConstructionSuccess.ConstructionSucceeds` say what that is and when it succeeds |
| GraphPublisher.Publisher.PublishSessions | src/india_swing/promoted_graph_publisher.py:812-876 | the session loop stores universe, frame and tick of each session in order and lists them, stopping at the first failure; `ConstructedGraph.ListedFrameIsRight` says over which partition |
| GraphPublisher.Publisher.Publish | src/india_swing/promoted_graph_publisher.py:711-724 | the published manifest is the one plainly constructed from the specification, kept exactly when it may be stored; the cold replay agrees; a failed publish leaves no manifest |
| ConstructedGraph.SelectionIff | src/india_swing/promoted_graph_publisher.py:834-841 | the selection finds a partition exactly when one place of the corpus, and no other, is of the session, and then that place |
| ConstructedGraph.ConstructedIsRight | src/india_swing/promoted_graph_publisher.py:726-948 | every object the construction stores is of its kind, over exactly its sources, at the cutoff of the specification and of its dates, and is held; the manifest names those objects |
| ConstructedGraph.ListedFrameIsRight | src/india_swing/promoted_graph_publisher.py:812-876 | the frame of each listed session is held and is over the one partition of its bound corpus that is of that session |
| ConstructionSuccess.ConstructionSucceeds | src/india_swing/promoted_graph_publisher.py:726-948 | a ready specification whose services answer is always constructed, whatever the stores hold under other names |
| ConstructionSuccess.SomethingIsConstructed | src/india_swing/promoted_graph_publisher.py:726-948 | there are such services and specifications |
| ConstructedGraph.ConstructedIsAccepted | src/india_swing/promoted_graph_publisher.py:726-948 | with resolvers and services that keep names and dates, a constructed manifest always passes the walk over what the construction stored |
| ConstructedGraph.PublishedIffConstructed | src/india_swing/promoted_graph_publisher.py:711-724 | once constructed, a manifest may be stored exactly when it keeps its byte limit and no other manifest has its ID |
| GraphPublisher.ConstructedKeepsSpec | src/india_swing/promoted_graph_publisher.py:922-948 | a constructed manifest retains its whole specification |
| RecordStore.StepKeepsInv | src/india_swing/promoted_graph_store.py:418-452 | any step of any process, also a failing one and a crash, keeps the protocol invariant and every visible record |
| RecordStore.RunKeepsInv | src/india_swing/promoted_graph_store.py:418-452 | the same over every run of interleaved puts and gets |
| RecordStore.VisibleIsComplete | src/india_swing/promoted_graph_store.py:418-452 | a record is complete from the moment its name exists: the whole bytes of one put of that ID |
| RecordStore.PutThenGet | src/india_swing/promoted_graph_store.py:480-526 | after a successful put the record holds exactly its bytes for ever, and every later get returns them |
| RecordStore.SuccessfulPutsAgree | src/india_swing/promoted_graph_store.py:418-452 | two successful puts of one ID had the same bytes |
| RecordStore.UndisturbedPut | src/india_swing/promoted_graph_store.py:418-452 | a put that nothing disturbs succeeds exactly when its name is free or holds the same bytes, and then the name holds them |
| RecordStore.UndisturbedGet | src/india_swing/promoted_graph_store.py:398-415 | a get that nothing disturbs returns exactly the bytes that are there |
| RecordStore.CriticalSectionExclusive | src/india_swing/promoted_graph_store.py:418-452 | at most one process is inside the locked section |
| RecordCodec.DecodeIff | src/india_swing/promoted_graph_store.py:311-380 | bytes decode to a record exactly when they are its own encoding, of the expected kind, within the byte limit |
| RecordCodec.DecodedIsInOrder | src/india_swing/promoted_graph_store.py:243-380 | whatever the bytes, a decoded record has the expected kind, groups of at most 100,000 different SHA-256 digests, and different dates |
| RecordCodec.TreeRoundTrip | src/india_swing/promoted_graph_store.py:269-380 | the tree of every valid record reads back as that record |
| RecordCodec.OversizedNeverDecodes | src/india_swing/promoted_graph_store.py:269-317 | the encoder has no byte limit: a record with more than 65,536 sources in one group encodes and never decodes |
| RecordCodec.OversizedExists | src/india_swing/promoted_graph_store.py:243-249 | such records are valid, since a group may hold up to 100,000 sources |
| RecordCodec.CutoffRoundTrip | src/india_swing/promoted_graph_store.py:209-226 | a text is accepted as a cutoff exactly when it is the canonical text of a valid UTC instant |
| IsoTime.DateRoundTrip | src/india_swing/promoted_graph_store.py:229-240 | a text is a date exactly when it is the canonical text of a valid calendar date |
| IsoTime.InstantRoundTrip | src/india_swing/promoted_graph_store.py:209-226 | the same for instants, with and without a fraction |
| CanonicalIdentity.IdentityFaithful | src/india_swing/identity.py:49-133 | two plain values have one identity tree exactly when they are the same tagged value |
| CanonicalIdentity.TagsDiffer | src/india_swing/identity.py:49-80 | values of different kinds, and different scalars, never share a tree |
| CanonicalIdentity.MappingOrderIndependentIff | src/india_swing/identity.py:88-95 | for every mapping, its identity is independent of iteration order exactly when no two kept entries share a key tree with different items |
| CanonicalIdentity.MappingOrderCanLeak | src/india_swing/identity.py:88-109 | two callables of one qualified name as keys: swapping them changes the identity |
| CanonicalIdentity.SwapLeaks | src/india_swing/identity.py:88-95 | any two kept entries tied by key tree with different items leak their order |
| CanonicalIdentity.SecretsLeaveNoTrace | src/india_swing/identity.py:34-37 | sensitive fields and keys contribute nothing to an identity |
| CanonicalIdentity.EntryTracelessIff | src/india_swing/identity.py:88-95 | an entry leaves no trace in the identity of its mapping exactly when its key is a string with a listed part in it |
| CanonicalIdentity.FieldTracelessIff | src/india_swing/identity.py:79-85 | a field leaves no trace in the identity of its object exactly when its name has a listed part in it |
| SensitiveNames.SensitiveIff | src/india_swing/identity.py:34-37 | a name is sensitive exactly when, folded, it has one of the listed parts anywhere in it |
| SensitiveNames.SpellingDoesNotMatter | src/india_swing/identity.py:34-37 | neither letter case nor the choice between hyphen and underscore hides a sensitive name |
| SensitiveNames.EmbeddedIsSensitive | src/india_swing/identity.py:34-37 | a listed part makes a name sensitive wherever it is put in |
| CanonicalIdentity.StrippedFaithful | src/india_swing/identity.py:49-133 | any two values share an identity exactly when, without what sits under sensitive names, they are the same tagged value, where no two keys of a mapping coincide |
| CanonicalIdentity.ContentIdFaithful | src/india_swing/identity.py:144-148 | a full-length content ID over an injective digest separates exactly the values that differ without their secrets |
| IdentityWalk.TreeOfUnfolding | src/india_swing/identity.py:49-133 | where the heap below an object is acyclic its identity is that of the value it unfolds to, whatever is shared |
| IdentityWalk.IdentityWalker.Walk | src/india_swing/identity.py:76-133 | on every finite heap, cycles included, the walk ends, restores its path set and returns the specified tree |
| StableSort.SortCanonical | src/india_swing/identity.py:94-105 | sorting two sequences gives one result exactly when they are permutations, where the order separates their elements |
| StableSort.SortStable | src/india_swing/identity.py:94 | elements the sort key ties keep their relative order |
| PathScopedWalk.VisitedIffReachable | src/india_swing/audit.py:72-160 | a walk that cuts off only at nodes on its current path looks at exactly the reachable nodes of any finite graph |
| AuditWalk.AuditAcceptsIff | src/india_swing/audit.py:72-125 | a payload passes exactly when every value reachable from it passes its own checks |
| AuditWalk.CleanIffSound | src/india_swing/audit.py:72-125 | a payload is clean exactly when some set of values holds it and all that is inside what it holds, and no value of the set has a marked text, a failing hook, a sensitive field or key, or the keys of a look-alike result |
| AuditWalk.RunIdsAreReachable | src/india_swing/audit.py:128-160 | the collected run IDs are exactly those of results reachable without passing through another result |
| AuditWalk.ResultsMatchIff | src/india_swing/audit.py:128-160 | the embedded results match exactly when some set holds the payload and all that is inside, results left closed, and every result in it has the run ID |
| AuditWalk.AuditWalker.Validate | src/india_swing/audit.py:72-125 | the recursive walk over the shared path set computes that acceptance and restores the set |
| AuditWalk.AuditWalker.RunIds | src/india_swing/audit.py:128-160 | the companion walk computes those run IDs and restores the set |
| AuditWalk.Judge | src/india_swing/audit.py:261-267 | both walks together decide exactly whether a payload is clean and its results match the run ID |
| AuditWalk.RunIdIsPlain | src/india_swing/audit.py:19-19 | an accepted run ID is a plain file name that neither climbs nor leaves its directory |
| AuditWalk.AuditWriter.Write | src/india_swing/audit.py:261-306 | the exact outcome of a write in the order of its steps: both walks, run ID, directory, rendering, temporary file, link, tidying up; what is reported written is newly there, a faultless write of a sound payload is written, and no record is ever replaced |
| InventoryScan.BuildInventory | src/india_swing/promoted_operational_input_snapshot.py:463-594 | the explicit-stack scan ends and returns the recursively defined inventory exactly when the inputs can be scanned |
| InventoryScan.ScanRoot | src/india_swing/promoted_operational_input_snapshot.py:513-560 | one root: everything below it is collected, within the file and byte ceilings, or the scan refuses |
| InventoryScan.ScanChildren | src/india_swing/promoted_operational_input_snapshot.py:523-560 | one directory: what is collected and what is pushed together are exactly what was to be found |
| InventoryScan.Collect | src/india_swing/promoted_operational_input_snapshot.py:538-560 | one file: counted, bounded, read and recorded, or refused |
| InventoryScan.ValidateEntries | src/india_swing/promoted_operational_input_snapshot.py:149-174 | the validation loop accepts exactly the strictly ordered, case-distinct entry lists with their one spec file |
| InventoryScan.SortedEntriesValid | src/india_swing/promoted_operational_input_snapshot.py:149-174 | a sorted scan is valid unless two paths of an input differ only in case |
| InputScan.InventoryStrictlyOrdered | src/india_swing/promoted_operational_input_snapshot.py:584-594 | an inventory lists each entry once, strictly ordered by input and relative path |
| InputScan.InventoryDeterminedByFiles | src/india_swing/promoted_operational_input_snapshot.py:584-594 | an inventory depends on which files there are and on no listing or traversal order |
| InventoryLookup.InventoryListsFiles | src/india_swing/promoted_operational_input_snapshot.py:513-594 | an inventory lists for each root exactly the regular files found by following a path from it, with their size and digest |
| InventoryLookup.InventoryListsSpec | src/india_swing/promoted_operational_input_snapshot.py:495-511 | the spec file is listed once, under the empty path, and nothing else of its input |
| InventoryLookup.ScannableIff | src/india_swing/promoted_operational_input_snapshot.py:463-594 | inputs can be scanned exactly when the spec file can be read, every object met below the eleven roots is a directory or a readable file at a plain path, and the listed files keep both ceilings and differ in more than case |
| Paths.JoinSplit | src/india_swing/promoted_operational_input_snapshot.py:376-389 | joining the segments of a relative path gives the path back |
| Paths.SplitJoin | src/india_swing/promoted_operational_input_snapshot.py:376-389 | splitting a joined path gives its segments back |
| ManifestValidation.ValidateManifest | src/india_swing/promoted_operational_input_gcs.py:181-223 | the constructor loops accept exactly the valid manifests: consistent sizes, strictly ascending hashes, own names, no hash missing or left over |
| ManifestValidation.CheckBlobs | src/india_swing/promoted_operational_input_gcs.py:204-223 | the blob loop accepts exactly ascending, properly named blobs of the expected sizes |
| SnapshotManifest.BlobWriteKeepsInv | src/india_swing/promoted_operational_input_gcs.py:540-552 | a blob write under its own hash keeps the bucket invariant, however the write fares |
| SnapshotManifest.ManifestWriteKeepsInv | src/india_swing/promoted_operational_input_gcs.py:570-583 | a manifest write over pinned blobs keeps the invariant that a stored manifest is whole and all its blobs are there |
| SnapshotManifest.BlobIsNoManifest | src/india_swing/promoted_operational_input_gcs.py:119-127 | no object name is both a blob name and a manifest name |
| SnapshotPublication.Publish | src/india_swing/promoted_operational_input_gcs.py:439-586 | scan, bind, write each distinct hash once, seal last: a manifest over blobs pinned in this bucket is built exactly when nothing disturbed the run up to it, and the publication completes exactly when that manifest fits and its own write is answered; the invariant survives every outcome |
| SnapshotPublication.PublishBlobs | src/india_swing/promoted_operational_input_gcs.py:518-552 | the loop writes no hash twice and ends with one pinned blob for every entry exactly when every first entry of a hash re-reads as scanned and its write is answered |
| SnapshotPublication.ManifestAccepted | src/india_swing/promoted_operational_input_gcs.py:555-575 | the manifest over what was published is accepted and everything it names is stored |
| SnapshotFormat.AcceptedIsEncodable | src/india_swing/promoted_operational_input_gcs.py:181-223 | for every accepted manifest there is a format that meets all that is asked of formats and encodes it |
| SnapshotRestore.Acquire | src/india_swing/promoted_operational_input_gcs.py:730-804 | acquiring succeeds exactly when the manifest and every blob are stored as pinned, and returns the blobs with their bytes in manifest order |
| SnapshotRestore.AcquirableIff | src/india_swing/promoted_operational_input_gcs.py:730-804 | a request acquires exactly when an accepted manifest is stored under its name with the pinned generation, digest and IDs, and each blob of it is stored at its generation, size and digest |
| SnapshotRestore.PublishedIsAcquirable | src/india_swing/promoted_operational_input_gcs.py:730-804 | a completed publication can be acquired ever after |
| CloudControl.DestinationsDistinct | src/india_swing/promoted_operational_cloud_control.py:77-140 | with pairwise prefix-disjoint paths no two entries share a destination and none lies in the state root |
| CloudControl.BaseNamesDistinct | src/india_swing/promoted_operational_input_gcs.py:944-964 | twelve non-overlapping destinations of one parent have distinct names, so that check never fails |
| StagedTree.WriteSucceedsIff | src/india_swing/promoted_operational_input_gcs.py:989-1011 | a staged write succeeds exactly when no file lies at, above or below its path |
| StagedTree.WriteAddsEntry | src/india_swing/promoted_operational_input_gcs.py:989-1011 | a staged write adds exactly its own inventory entry |
| StagedTree.HeldPathsApart | src/india_swing/promoted_operational_input_snapshot.py:513-560 | in any listed directory no file lies above or below another |
| StagedEntries.BlockedIffClash | src/india_swing/promoted_operational_input_gcs.py:989-1011 | writing an entry is blocked exactly by an earlier entry of the same input on its path or beneath it |
| StagedEntries.ScannedIsWritable | src/india_swing/promoted_operational_input_gcs.py:989-1011 | a scanned inventory can always be staged again |
| HydratedInventory.StagedInventory | src/india_swing/promoted_operational_input_gcs.py:1153-1160 | a complete staging scans to exactly the inventory it was staged from |
| Hydration.EveryStateSafe | src/india_swing/promoted_operational_input_gcs.py:1177-1195 | in every state of the renames each destination is absent or complete, they appear in order, nothing else is touched |
| Hydration.ParentDirectory.CreateStagedTree | src/india_swing/promoted_operational_input_gcs.py:989-1018 | staging succeeds exactly without faults and clashes, and then every entry is in place |
| Hydration.ParentDirectory.Publish | src/india_swing/promoted_operational_input_gcs.py:1177-1195 | the recorded states are the initial one plus the first k complete objects, for each k in turn; no destination is replaced |
| SnapshotRoundTrip.Hydrate | src/india_swing/promoted_operational_input_gcs.py:1021-1225 | hydration completes exactly when nothing stands in its way, and a completed result means the final tree has the acquired inventory |
| SnapshotRoundTrip.HydratableIff | src/india_swing/promoted_operational_input_gcs.py:1021-1225 | hydration completes exactly when manifest and control are bound alike, the destinations are free, lie beside each other and stage clear of the state root, no path lies under two entries, the acquired spec file belongs to the control, and no call fails |
| SnapshotRoundTrip.BindContents | src/india_swing/promoted_operational_input_gcs.py:1074-1092 | the acquired blobs give every entry its own bytes; neither of the two checks of this step can fail |
| SnapshotRoundTrip.PublishedIsHydratable | src/india_swing/promoted_operational_input_gcs.py:1021-1225 | an acquired publication hydrates into every fresh control with the same binding |
| SnapshotRoundTrip.RoundTrip | src/india_swing/promoted_operational_input_gcs.py:1021-1225 | the hydrated files are exactly the published ones: same bytes, same relative path, same input |
| SnapshotRoundTrip.SameInventorySameFiles | src/india_swing/promoted_operational_input_snapshot.py:597-620 | two scans with one inventory saw the same files |
| Allocation.FeasibleIsLargest | src/india_swing/promoted_operational_allocation.py:423-446 | a positive quantity is inside all seven limits exactly when it does not exceed the feasible quantity |
| Allocation.SplitCeilingIsCombined | src/india_swing/promoted_operational_allocation.py:350-365 | the two split risk ceilings equal the combined one for every monotone rounding |
| Allocation.ExactArithmeticIsExact | src/india_swing/promoted_operational_allocation.py:344-347 | floored exact quotients hold the largest whole number of shares; exact products keep sign and sums |
| Allocation.ExactIsMonotone | src/india_swing/promoted_operational_allocation.py:350-365 | exact arithmetic is a monotone rounding, so what holds for those holds for it |
| Allocation.InfeasibleHasReason | src/india_swing/promoted_operational_allocation.py:533-575 | with a research quantity of at least one, an infeasible quantity always carries a reason |
| Allocation.LaterNeverLoosens | src/india_swing/promoted_operational_allocation.py:423-575 | less cash, more exposure and risk and a superset of open keys give no larger quantity and no fewer vetoes |
| AllocationRun.CollectReasons | src/india_swing/promoted_operational_allocation.py:533-569 | the growing set of reasons is exactly the set of those that apply |
| AllocationRules.ReasonIff | src/india_swing/promoted_operational_allocation.py:533-575 | each veto reason applies exactly when its rule stands on the fields of quote, portfolio, policy and state, the daily loss and the drawdown among them |
| AllocationRules.BoughtIsCleared | src/india_swing/promoted_operational_allocation.py:533-611 | in any arithmetic what is bought is over no loss, drawdown, turnover or liquidity limit, of a listing not held, and pays the minimum multiple of its loss |
| AllocationRules.BoughtFits | src/india_swing/promoted_operational_allocation.py:401-460 | in exact arithmetic a bought quantity keeps the risk, notional, exposure and cash limits and the allowed part of the first best ask |
| AllocationRules.BoughtIff | src/india_swing/promoted_operational_allocation.py:491-611 | in exact arithmetic a candidate is bought exactly when the rules clear it and one share fits, in the largest quantity that fits |
| AllocationRun.OutcomeOkIffMade | src/india_swing/promoted_operational_allocation.py:643-744 | an outcome passes its checks exactly when it is the one evaluated from its own inputs |
| AllocationRun.OutcomeMoves | src/india_swing/promoted_operational_allocation.py:587-611 | in any arithmetic each outcome moves cash, exposure and risk by its own amounts, keeps cash non-negative, and opens exactly one new key when bought |
| AllocationRun.OutcomeIsSafe | src/india_swing/promoted_operational_allocation.py:587-611 | in exact arithmetic each purchase also respects every cap |
| AllocationRun.PurchaseWithin | src/india_swing/promoted_operational_allocation.py:587-611 | under rounding a purchase exceeds the exposure and risk caps by no more than the rounding of its products |
| AllocationRun.OutcomeIsMade | src/india_swing/promoted_operational_allocation.py:491-611 | on well-formed quotes no check of an outcome or of its new state fails |
| AllocationBatch.Assemble | src/india_swing/promoted_operational_allocation.py:1051-1156 | the assembler loop computes the recursive fold of candidates over chained states, with its errors |
| AllocationBatch.VerifyBatch | src/india_swing/promoted_operational_allocation.py:946-1030 | the batch verifier accepts a batch exactly when it is the one the assembler computes from the same quotes, context and policy |
| AllocationRules.BatchBuysOnlyCleared | src/india_swing/promoted_operational_allocation.py:1051-1156 | in any arithmetic a batch buys nothing that the rules do not clear in the state left by the candidates before |
| AllocationRules.BatchBuysIff | src/india_swing/promoted_operational_allocation.py:1051-1156 | in exact arithmetic a batch buys exactly the candidates that are cleared and of which one share fits in that state, in the largest such quantity |
| AllocationRules.BatchIsWhole | src/india_swing/promoted_operational_allocation.py:1051-1156 | a batch looks at exactly the quotes that passed the gate, in order, and keeps the others in order as vetoes |
| AllocationBatch.ChainedIffAllocated | src/india_swing/promoted_operational_allocation.py:999-1018 | a chain of verified outcomes over the passes is exactly the fold |
| AllocationBatch.RunIsSafe | src/india_swing/promoted_operational_allocation.py:587-611 | over any candidates and in any arithmetic: cash never negative, amounts conserved, keys sorted, unique and one per purchase, both position limits kept |
| AllocationBatch.RunKeepsCaps | src/india_swing/promoted_operational_allocation.py:587-611 | over any candidates exposure and risk stay within the larger of start and cap, up to the rounding of each purchase |
| AllocationBatch.RunTightens | src/india_swing/promoted_operational_allocation.py:587-611 | along a run the state only tightens |
| AllocationBatch.ComingLaterIsNoBetter | src/india_swing/promoted_operational_allocation.py:423-611 | no candidate gets a larger quantity or fewer vetoes after a run than before it, for any monotone rounding |
| AllocationBatch.LimitOneDecides | src/india_swing/promoted_operational_decision.py:417-430 | in any arithmetic a batch holds at most the new positions allowed per run, so with a limit of one the decision never meets two; its amounts are conserved, its caps kept up to rounding |
| StateManifest.ArtifactWriteKeepsInv | src/india_swing/promoted_operational_gcs_state.py:506-520 | an artifact write keeps the invariant, however it fares |
| StateManifest.ManifestWriteKeepsInv | src/india_swing/promoted_operational_gcs_state.py:522-541 | a manifest write over pinned artifacts keeps the invariant |
| StateManifest.AcceptedIff | src/india_swing/promoted_operational_gcs_state.py:208-257 | a manifest is accepted exactly with an advisory and a terminal and no trade, or with a registration too and a successful buy, each under its own name and within the size of its kind |
| StatePublication.StepKeepsInv | src/india_swing/promoted_operational_gcs_state.py:501-546 | every step of every publisher, with failures and crashes, keeps the invariant and loses nothing stored |
| StatePublication.RunKeepsInv | src/india_swing/promoted_operational_gcs_state.py:501-546 | at every point of every run a manifest in the bucket implies all its artifacts at the pinned generation, size and hash |
| StatePublication.ManifestAcceptedIff | src/india_swing/promoted_operational_gcs_state.py:208-257 | with all artifacts stored a manifest is accepted exactly on a proper registration lineage |
| StatePublication.RetrySucceeds | src/india_swing/promoted_operational_gcs_state.py:448-546 | after any run of any publishers, one that starts over and is answered ends published exactly when its bundle verifies with a proper lineage, its records fit, and the manifest over the bucket it finds can be encoded; that manifest reuses the generations of objects already there |
| StateFormat.SomethingIsPublishable | src/india_swing/promoted_operational_gcs_state.py:448-546 | for any generations there is a sound format under which a bundle is publishable into an empty bucket |
| StateRestore.PublishState | src/india_swing/promoted_operational_gcs_state.py:448-546 | the publication procedure is the protocol run of one begin and its own writes in order, ending published or, on any error, idle |
| StateRestore.PublishedIsRead | src/india_swing/promoted_operational_gcs_state.py:700-755 | restoring a completed publication at any later time reads exactly its terminal, advisory and registration |
| StateRestore.BundleReadIff | src/india_swing/promoted_operational_gcs_state.py:673-755 | a request reads a bundle exactly when its manifest is stored as pinned, each artifact is stored as the manifest records it, and terminal, advisory and registration agree in every field they share |
| StateRestore.LocalState.StoreBundle | src/india_swing/promoted_operational_gcs_state.py:757-806 | advisory, registration, terminal in that order: at every recorded step a stored terminal has its parents |
| StateRestore.LocalState.Restore | src/india_swing/promoted_operational_gcs_state.py:673-819 | a restore completes exactly when the publication reads back and every store returns the very record it was given; nothing is stored before everything was read |
| StateRestore.TerminalPutKeepsInv | src/india_swing/promoted_operational_persistence.py:777-830 | storing a terminal of a verified bundle whose parents are stored keeps the local invariant |
| OneShotRunner.RuntimeFiles.Run | agent-control/dispatcher/one_shot_runner.py:105-406 | whatever calls fail: the handle of a launched process records that it was waited for or its termination attempted, a returned outcome is the one the status file names, and a token is launched at most once, under its own new claim and over a snapshot of the expected hash just read back; an unhindered new attempt is launched |
| OneShotRunner.RuntimeFiles.Supervise | agent-control/dispatcher/one_shot_runner.py:259-406 | from the handle on, the result is exactly the declared one, and what is done to the handle is to wait, or to terminate it when its process ID is unusable, its status cannot be written or the wait does not return |
| OneShotRunner.RuntimeFiles.WriteStatus | agent-control/dispatcher/one_shot_runner.py:193-200 | a status is replaced only by a legal transition |
| OneShotRunner.RuntimeFiles.Prepare | agent-control/dispatcher/one_shot_runner.py:119-185 | an attempt gets as far as launching exactly with a new exclusive claim, a matching hash and a snapshot read back intact; the claim stays whatever fails after it |
| OneShotRunner.RuntimeFiles.Settle | agent-control/dispatcher/one_shot_runner.py:317-406 | the ordered calls after the wait, each of which may fail, end with the result and the status file of the settlement table |
| OneShotRunner.RuntimeFiles.SettleEnded | agent-control/dispatcher/one_shot_runner.py:355-406 | the transcript tail, then the exit code, with the fallback status when the transcript cannot be read |
| OneShotRunner.OutcomeIff | agent-control/dispatcher/one_shot_runner.py:317-406 | an attempt settles with each outcome, or with none, exactly when the answers warrant it |
| OneShotRunner.HandoffWins | agent-control/dispatcher/one_shot_runner.py:317-345 | with the snapshot intact and a matching handoff the settlement is the same for every other end of the wait, exit code and transcript; without a handoff it is never that one |
| OneShotRunner.SettledIsNamed | agent-control/dispatcher/one_shot_runner.py:317-406 | every settled outcome is the one its own valid status names |
| OneShotRunner.ReturnsIff | agent-control/dispatcher/one_shot_runner.py:259-406 | a started attempt returns an outcome exactly when it ran through and the answers warrant it, or as a launch error when a process without a usable ID was stopped and that was recorded; it raises otherwise |
| OneShotRunner.SettlementIs | agent-control/dispatcher/one_shot_runner.py:317-406 | what a waited-for attempt records: no reason exactly for a handoff, an exit code exactly for a non-zero exit, no handoff whenever it settles without an outcome |
| WorkerStatus.TransitionsMoveForward | agent-control/dispatcher/worker_status.py:244-266 | legal transitions are exactly repetitions and strict steps forward of one task |
| WorkerStatus.StatusOkIff | agent-control/dispatcher/worker_status.py:40-98 | a status is valid exactly with a reason at the end, an exit code for a success or a non-zero exit, and a process ID unless the launch failed |
| WorkerStatus.StatusRoundTrip | agent-control/dispatcher/worker_status.py:100-210 | a valid status parses back from its own text exactly when the text fits the reader limit |
| WorkerStatus.ParsedIsValid | agent-control/dispatcher/worker_status.py:40-98 | only valid statuses ever parse |
| DispatcherProtocol.StepKeepsInv | agent-control/dispatcher/dispatcher.py:211-234 | each atomic step of claim, launch, check, exit and restart keeps the invariant |
| DispatcherProtocol.RunKeepsInv | agent-control/dispatcher/dispatcher.py:375-556 | across any polls, crashes and restarts each task revision is launched at most once, and only under its claim; no lifetime ever has two live workers |
| DispatcherProtocol.AtMostOneOwnWorker | agent-control/dispatcher/dispatcher.py:441-470 | within one dispatcher lifetime at most one worker is live, also one that could not be killed |
| DispatcherProtocol.LaunchesOnlyGrow | agent-control/dispatcher/dispatcher.py:211-234 | what was launched stays recorded in order in every longer run |
| DispatcherProtocol.OnlyReadyIsLaunched | agent-control/dispatcher/dispatcher.py:478-556 | over any run whatever is launched was ready: never a stopped task or one handed off |
| DispatcherProtocol.ReadyIsLaunched | agent-control/dispatcher/dispatcher.py:375-438 | a ready task whose turn comes with nothing in its way is launched |
| DispatcherProtocol.OutIsNotLaunched | agent-control/dispatcher/dispatcher.py:211-234 | a task revision claimed before is never launched again, and one that failed not within that dispatcher lifetime |
| DispatcherProtocol.TimedOutIsStopped | agent-control/dispatcher/dispatcher.py:441-470 | the key of a worker whose time is up fails, and the worker is gone exactly when it could be killed |
| DispatcherProtocol.LaunchAloneIff | agent-control/dispatcher/dispatcher.py:375-438 | a launch leaves at most one live worker exactly when none survives from an earlier dispatcher lifetime |
| DispatcherProtocol.OneLiveIffLaunchesAlone | agent-control/dispatcher/dispatcher.py:314-322 | over a whole run at most one worker is live throughout exactly when each is started while none survives from an earlier dispatcher |
| DispatcherProtocol.TwoLiveAcrossRestart | agent-control/dispatcher/dispatcher.py:314-322 | the condition can fail: a worker that outlives its dispatcher and one of the next are live together |
| Dispatcher.DispatcherState.CheckWorker | agent-control/dispatcher/dispatcher.py:441-470 | the process check is the protocol step of the same name |
| Dispatcher.DispatcherState.SpawnWorker | agent-control/dispatcher/dispatcher.py:375-438 | claim, then launch, with every failure in between, is the protocol turn |
| Dispatcher.TurnsAreRuns | agent-control/dispatcher/dispatcher.py:478-556 | the turns of a poll are a run of the protocol |
| Dispatcher.DispatcherState.Poll | agent-control/dispatcher/dispatcher.py:478-556 | a poll is exactly the check followed by the turns in order until one raises, and keeps the protocol invariant |
| Paths.OverlapIffSharedPath | agent-control/dispatcher/parallel_dispatcher.py:448-450 | one prefix is a prefix of the other exactly when some path lies under both |
| SlotPlans.ScopeStaysInside | agent-control/dispatcher/parallel_dispatcher.py:431-445 | a normalised scope has at least one component, none empty, climbing or hiding a separator |
| SlotPlans.AcceptedPlansShareNoPath | agent-control/dispatcher/parallel_dispatcher.py:569-575 | the pairwise comparison accepts exactly the slot sets in which no path is covered by the scopes of two slots |
| SlotPlans.NormalizedIff | agent-control/dispatcher/parallel_dispatcher.py:431-445 | a raw scope is normalised to a path exactly when it denotes that path |
| SlotPlans.ScopesAre | agent-control/dispatcher/parallel_dispatcher.py:552-564 | the scopes of a task are exactly the normalised forms of its allowed writes other than the outbox |
| SlotPlans.AcceptedIffWritesApart | agent-control/dispatcher/parallel_dispatcher.py:492-576 | a raw plan is accepted exactly when its slots are well formed and different, each is in order by itself, and no path lies under writes allowed to two of them |
| SlotPlans.AcceptedAreOwn | agent-control/dispatcher/parallel_dispatcher.py:492-576 | the accepted slots are those of the plan, in its order and under their own names |
| SlotPlans.ValidateReadySlots | agent-control/dispatcher/parallel_dispatcher.py:492-576 | the ready set is validated as a whole: all slots or none |
| SlotPlans.CheckPairs | agent-control/dispatcher/parallel_dispatcher.py:569-575 | the four nested loops decide that comparison |
| Supervisor.RunKeepsInv | agent-control/dispatcher/parallel_dispatcher.py:583-711 | over every run at most three children are live and no key is launched twice |
| Supervisor.AtMostThreeLive | agent-control/dispatcher/parallel_dispatcher.py:583-711 | at most three live children, at most one per slot |
| Supervisor.NoSlotPassedOver | agent-control/dispatcher/parallel_dispatcher.py:676-709 | while there is room every slot of an accepted plan is attempted or already has its child |
| Supervisor.PollLaunchesOnly | agent-control/dispatcher/parallel_dispatcher.py:646-709 | whatever a poll attempts is a slot of a ready and accepted plan outside a dry run, never attempted before and without a running child; it is launched exactly when the launcher works, and then it runs |
| Supervisor.PollOverlooksNone | agent-control/dispatcher/parallel_dispatcher.py:646-709 | a poll attempts every slot of such a plan unless its child runs or three are out |
| Supervisor.PollKeeps | agent-control/dispatcher/parallel_dispatcher.py:633-662 | a poll ends no process, forgets no attempt and drops exactly the children that ended; without an accepted plan it does nothing more |
| Supervisor.PollSharesIff | agent-control/dispatcher/parallel_dispatcher.py:646-709 | after a poll no path lies under two running children exactly when none did before and every launched slot is clear of those running |
| Supervisor.NoPathSharedIff | agent-control/dispatcher/parallel_dispatcher.py:646-709 | over a whole run no path is ever under two running children exactly when every poll launches only slots clear of those running |
| Supervisor.OverlapAcrossPlans | agent-control/dispatcher/parallel_dispatcher.py:646-709 | the condition can fail: `src` under one plan revision and `src/api` under the next run side by side |
| Supervisor.Supervisor.Drive | agent-control/dispatcher/parallel_dispatcher.py:766-771 | the polling loop, with children ending in between, is exactly a run of polls and exits |
| Supervisor.Supervisor.PollOnce | agent-control/dispatcher/parallel_dispatcher.py:646-709 | a poll is the specified step: drop ended children, validate the whole plan, launch free slots in order |
| PipelineSelection.AcceptedIffPermutation | src/india_swing/pipeline.py:328-366 | a ranking is accepted exactly when the candidates are all different and it is a permutation of them |
| PipelineSelection.CheckRanking | src/india_swing/pipeline.py:328-366 | the checking loop decides that acceptance |
| PipelineSelection.FirstIsBest | src/india_swing/pipeline.py:541-543 | the first of the sorted approvals, and no other, has the most expected R, then the earliest rank, strictly |
| PipelineSelection.Run | src/india_swing/pipeline.py:328-561 | on the answers of the services alone: a run completes exactly when every stage passes; a failed one carries no trade, ranking or research; a completed one buys the approval in the researched prefix with most expected R, then least rank, and nothing exactly when no rank in it is approved |
| PipelineSelection.ApprovedRanks | src/india_swing/pipeline.py:386-539 | each approval is the risk engine answer for the candidate at its own rank, ranks strictly increasing |
| PipelineSelection.CandidatesAre | src/india_swing/pipeline.py:242-325 | the candidates are exactly those built from the eligible instruments, in their order |
| PipelineSelection.ResearchIs | src/india_swing/pipeline.py:386-539 | every rank of the prefix is researched and assessed, each approval the engine gives is there under its rank, and nothing else is |

## Left out

- RecordCodec.DecodeIff: text syntax is a parameter, so escapes and number formats of JSON are not modelled.
- WorkerStatus.StatusRoundTrip: says nothing of status files that are not in canonical layout, which the reader also accepts.
- AllocationRun.OutcomeIsSafe: in exact arithmetic; `PurchaseWithin` and `RunKeepsCaps` bound what rounded quotients and products add. Sums and differences of amounts are exact everywhere, where the source rounds them to fifty digits too.
- AllocationBatch.LimitOneDecides: the rendered decision, its rationale and its veto codes are not modelled.
- InventoryScan.BuildInventory: the tree does not change during the scan, so the re-verification of directories and of the control is not modelled.
- Hydration.ParentDirectory.Publish: the name of the private staging directory is not among the parent's names; what a failed run leaves in it is the field `staging`.
- SnapshotRoundTrip.Hydrate: no other process writes to the common parent; device and inode identity checks are not modelled.
- SnapshotRoundTrip.RoundTrip: empty subdirectories are not carried, as in the source.
- AuditWalk.AuditWriter.Write: rendering a payload to text is a parameter that may fail; which payloads fail to render is not modelled.
- StateRestore.LocalState.Restore: the three local stores are one map by identity; their own files and locks are not modelled.
- RecordStore.PutThenGet: stated on bytes; with `RecordCodec.DecodeIff` it is about records.
- OneShotRunner.RuntimeFiles.Run: the request's path and executable checks, the prompt and the argument vector are not modelled.
- Supervisor.Supervisor.PollOnce: notifications, log files and the Git inspection behind a slot's flags are not modelled.
- Dispatcher.DispatcherState.Poll: notifications and dry runs are not modelled.
- PipelineSelection.Run: eligibility, forecast and signal checks are one answer per instrument; identities and fingerprints of results are not modelled.
- ReplayScope.GraphStores.Put: runs in one thread; the multi-process file protocol is `RecordStore`.
- CanonicalIdentity.IdentityFaithful: values without dropped fields or keys (`StrippedFaithful` covers the others); enumerations, floats, bytes, paths, types and objects with identity material of their own are not modelled.
- Symbolic links, reparse points, inode and modification-time checks, file syncing and lock system calls.
- The command-line entry points, environment handling, messaging and broker clients.
- The financial services, the risk engine and the quote gate: functions with stated preconditions.
- The anchored operational session, the engine-run store and the launch codec, which repeat patterns modelled here.
