# Grid state, enrollment and feedback: a verified model

A Dafny model of the state-keeping protocols of the grid proxy, with their guarantees proved over
every run. `dafny verify dfyconfig.toml` checks the whole project.

| file | models |
|---|---|
| `Prelude.dfy` | machine integers, `Option`, `Result` |
| `OrSet.dfy`, `OrSetNetwork.dfy` | the OR-Set of `crates/crdt`, and every run of replicas that add, remove and exchange snapshots |
| `GCounter.dfy`, `TenantSpend.dfy` | the per-site counter, per-tenant spend, and every run of sites that spend and exchange snapshots |
| `Providers.dfy`, `Replacement.dfy` | last-writer-wins provider records, origin-authoritative replacement, and runs of it behind the stale-revision gate |
| `SpendIngest.dfy` | capped spend ingest from gossip |
| `GridState.dfy`, `Convergence.dfy`, `GridNetwork.dfy` | the snapshot as it is updated in place, and convergence of any order, grouping and repetition of merges of the snapshots of any run |
| `Store.dfy`, `StoreRuns.dfy`, `StoreTheorems.dfy`, `StoreAnswers.dfy` | the in-memory enrollment store, its renewal and seed decisions, all its runs, and exactly when each operation gives which answer |
| `Ca.dfy`, `SharedCa.dfy` | the signing CA: anchoring as read, swap and re-read steps of many replicas, one replica's reload in place under interference, and `ca_action` |
| `SiteInvite.dfy`, `InviteRevocation.dfy`, `InviteOutcomes.dfy`, `Lifetime.dfy` | the SiteInvite reconciler with a crash point between any two accesses, when a revoked token of an invite comes back, how an undisturbed reconcile ends, and the lifetime parser |
| `Bootstrap.dfy` | bootstrap's plan for the grid CA against the decisions made while writing |
| `Feedback.dfy`, `Pollers.dfy` | the feedback reporter, and pollers that share it |
| `SeedText.dfy` | the signed text of a reserved-name seed, and hex |

## How it is modelled

Objects the program updates in place are classes whose methods are proved equal to a function on
values (`Value() == Spec(old(Value()), ...)`). A protocol is a `Step` datatype, a total `Next` in
which a step that is not enabled changes nothing, and `Run` over a sequence of steps. Theorems
quantify over every sequence of steps, or over every state that satisfies an invariant all
reachable states satisfy.

Clocks, fresh identifiers, random tokens, the signer's answer, certificate digests, the identity
check and the outcome of each store access are parameters or free choices. Identifiers generated
by the program are assumed new, digests injective. Maps with a fixed iteration order are visited
in any order, which a ghost result lists. Strings are compared by `char`.

## What the proofs found

- Two enrollments can hold one key: a seed registers its key without looking at the keys already
  enrolled. `OneOwnerIffSeedKeyOwn` gives the exact condition, `SeedCanShareAKey` an instance.
- A provider key joins names with `/` unescaped, so names that contain `/` can collide, and then a
  replacement keeps or loses another site's record. `ReplacementExactIffNoCollision` gives the exact
  condition, `SlashedNamesCanCollide` an instance.
- `unhex` is documented to take hex only, but the radix parse it uses takes a leading `+`.
  `UnhexTakesHexIffNoPlus` gives the exact condition. The model follows the code.
- The bootstrap plan reads only the first block of the key Secret's certificate, the write wants
  every certificate in the hub's copy: with two certificates in the key Secret the refusal comes
  after the first write. `HubRefusesAfterLoadIff` gives the exact condition.
- A revoked invite token can come back. A reconcile that found it outstanding mints it again
  (`RevocationDuringMintUndoneIff`, reached in `MintStandsOverALiveRow`). And while the status reads
  Pending, as after a crash between the mint and its record, a revocation is undone by the next
  reconcile with no race at all (`PendingRevocationIsUndone`, reached in `RevocationAfterCrashIsUndone`).
  `RevocationLastsIff` gives the exact condition over every continuation for an unspent row, and
  `LiveReturnsIff` for one that can be redeemed.
- A site that restarts and records spend before it hears its own past again undercounts it
  (`UnrecoveredSpendIsLost`); totals stay lower bounds.
- Reusing a revision for a different record, or a site id without recovering its past, is outside
  the documented contracts; `ReusedRevisionDiverges` and `UnrecoveredWriterRepeatsItsFirstTag` show
  that the contracts are needed.

## Model

| member | source | states |
|---|---|---|
| `OrSets.OrSet.constructor` | crates/crdt/src/orset.rs:63-70 | a new set holds nothing and has counter zero |
| `OrSets.OrSet.Add` | crates/crdt/src/orset.rs:75-86 | one new tag is added under the item; at the largest counter the add is refused and nothing changes |
| `OrSets.OrSet.Remove` | crates/crdt/src/orset.rs:92-97 | every tag of the item becomes a tombstone and the item leaves |
| `OrSets.OrSet.Merge` | crates/crdt/src/orset.rs:130-149 | the in-place loops compute the union of tags and tombstones minus dead tags, and the counter catches up with own tags on both sides |
| `OrSets.OrSet.RemoveTombstonedTags` | crates/crdt/src/orset.rs:154-159 | exactly the tombstoned tags and the emptied items are dropped |
| `OrSetNetwork.NextTagFresh` | crates/crdt/src/orset.rs:23-26 | in every run the next tag of a writer, restarted ones that recovered their past included, is new in the whole history |
| `OrSetNetwork.MergeRefines` | crates/crdt/src/orset.rs:130-159 | merging a snapshot, however old or repeated, gives exactly the adds observed by either side minus the tags of removes observed by either side |
| `OrSetNetwork.RefinesHistory` | crates/crdt/src/orset.rs:75-159 | in every run a replica contains an item exactly when it observed an add of it that no observed remove covers |
| `OrSetNetwork.SameOperationsSameSet` | crates/crdt/src/orset.rs:130-159 | replicas that observed the same operations hold the same entries and tombstones |
| `OrSetNetwork.UncoveredAddWins` | crates/crdt/src/orset.rs:15-21 | an observed add no observed remove covers always wins |
| `OrSetNetwork.TagsNeverReused` | crates/crdt/src/orset.rs:75-86 | no two adds of a run share a tag, and each replica's counter is at least every own tag it holds, dead or alive |
| `OrSetNetwork.UnrecoveredWriterRepeatsItsFirstTag` | crates/crdt/src/orset.rs:23-26 | a writer that reuses a site id without its past repeats a tag |
| `GCounters.GCounter.Increment` | crates/crdt/src/gcounter.rs:50-53 | only the own slot moves, saturating |
| `GCounters.GCounter.ComputeTotal` | crates/crdt/src/gcounter.rs:57-59 | the saturating fold is the exact sum of the slots, capped, whatever the order |
| `GCounters.GCounter.Merge` | crates/crdt/src/gcounter.rs:70-75 | each slot becomes the larger of the two |
| `GCounters.GCounter.RemoveSlot` | crates/crdt/src/gcounter.rs:98-100 | only the named slot goes |
| `GCounters.MergeNeverLowersTotal` | crates/crdt/src/gcounter.rs:57-75 | merging never lowers the total |
| `SpendNetwork.OwnSlotIsExactOthersAreBehind` | crates/crdt/src/grid_state.rs:291-298 | in every run, restarts included, nobody's view of a site's spend is ahead of its exact spend, capped, and the own slot of a site that never restarted is exactly that |
| `SpendNetwork.OwnExactLasts` | crates/crdt/src/gcounter.rs:50-75 | exact own slots stay exact until the site restarts |
| `SpendNetwork.RecoveryRestoresExactness` | crates/crdt/src/gcounter.rs:70-75 | a restarted site that receives a snapshot with all it spent is exact again, and stays so |
| `SpendNetwork.UnrecoveredSpendIsLost` | crates/crdt/src/gcounter.rs:50-75 | a restarted site that records first forgets its earlier spend |
| `SpendNetwork.TotalIsALowerBound` | crates/crdt/src/gcounter.rs:50-75 | in every run, restarts included, a site's total of a tenant is at most what all sites spent |
| `Providers.SupersedesIsTransitive` | crates/crdt/src/grid_state.rs:208-210 | the last-writer-wins order is transitive; which record it prefers is `UpsertKeepsTheNewer` |
| `Providers.UpsertKeepsTheNewer` | crates/crdt/src/grid_state.rs:267-275 | an upsert leaves, under its key, the record of the higher revision, of the later writer where revisions tie and the held one where both do, and touches no other key |
| `Providers.MergeKeepsTheNewer` | crates/crdt/src/grid_state.rs:278-288 | a merge has the keys of both sides and leaves that record under each |
| `Providers.KeyIsInjective` | crates/crdt/src/grid_state.rs:434-436 | keys identify records when network and site names hold no slash |
| `Providers.ReplacementExactIffNoCollision` | crates/crdt/src/grid_state.rs:394-416 | a replacement leaves exactly the origin's authoritative records and every other record if and only if no kept record shares a key with one brought in |
| `Providers.SlashFreeNamesDoNotCollide` | crates/crdt/src/grid_state.rs:434-436 | names without a slash never collide |
| `Providers.SlashedNamesCanCollide` | crates/crdt/src/grid_state.rs:434-436 | names with a slash can |
| `Providers.ReplacementFieldByField` | crates/crdt/src/grid_state.rs:376-416 | with slash-free names, other records stay as they were, the delivered ones differ from what was sent only in writer and revision, and nothing else is left |
| `Replacement.ReplacedIsExact` | crates/crdt/src/grid_state.rs:376-416 | with slash-free names a replacement is exact |
| `Replacement.NetworkByNetworkIsTheUnion` | crates/crdt/src/grid_state.rs:394-416 | replacing one network after another, in any order, equals replacing their union |
| `Replacement.UnscopedIsEveryNetwork` | crates/crdt/src/grid_state.rs:376-391 | replacing everywhere equals replacing in every network that occurs |
| `Replacement.EachOriginEndsAtItsHighest` | crates/crdt/src/grid_state.rs:12-15 | behind the stale-revision gate, any interleaving of deliveries leaves each origin exactly the records of its highest delivered revision |
| `Replacement.ReplacementConverges` | crates/swim/src/state_broadcast.rs:2296-2304 | receivers of the same deliveries, in any two orders, end with the same records |
| `Replacement.StaleMeansNotNewer` | crates/swim/src/state_broadcast.rs:1341-1343 | with revisions within the cap the gate refuses exactly what is not newer |
| `Replacement.GateExactly` | crates/swim/src/state_broadcast.rs:1341-1343 | the gate refuses exactly a revision not above the held one, unless the held one is past the cap and the offered one is not |
| `SpendIngest.OnlyClaimantsGrow` | crates/crdt/src/grid_state.rs:325-343 | over any run of claims only slots of claimants change, and no slot is lowered |
| `SpendIngest.CapacitiesHold` | crates/crdt/src/grid_state.rs:325-343 | over any run neither capacity is pushed past its limit or its starting value |
| `SpendIngest.TrackedPairsAlwaysUpdate` | crates/crdt/src/grid_state.rs:325-343 | a pair already tracked takes every claim, even at capacity |
| `SpendIngest.FittingRunIsMaximum` | crates/crdt/src/grid_state.rs:325-343 | when all keys of a run fit, each slot ends at the largest of what was held and claimed |
| `SpendIngest.FittingRunsConverge` | crates/crdt/src/grid_state.rs:325-343 | then order and repetition do not matter |
| `GridState.GridStateSnapshot.AddCapability` | crates/crdt/src/grid_state.rs:262-264 | adds to the capability set and nothing else |
| `GridState.GridStateSnapshot.UpsertProvider` | crates/crdt/src/grid_state.rs:267-275 | only the record's own key changes, and there the newer of the two records stays, as `UpsertKeepsTheNewer` spells out |
| `GridState.GridStateSnapshot.Merge` | crates/crdt/src/grid_state.rs:278-288 | capabilities and spend are merged and every record of the other side is upserted once; where its records stand under their own keys that is the pointwise last writer, in any order, as `MergeKeepsTheNewer` spells out |
| `Providers.UpsertingAllIsMerging` | crates/crdt/src/grid_state.rs:278-288 | upserting all records of a map that stand under their own keys, in any order, is the pointwise last-writer merge |
| `GridState.GridStateSnapshot.MergeTenantSpend` | crates/crdt/src/grid_state.rs:291-298 | the loop takes the pointwise maximum of every tenant |
| `GridState.GridStateSnapshot.MergeTenantSpendFromOrigin` | crates/crdt/src/grid_state.rs:325-343 | the loop is the run of the broadcast's claims, each tenant exactly once |
| `GridState.GridStateSnapshot.RemoveOriginTenantSpend` | crates/crdt/src/grid_state.rs:352-357 | exactly the origin's slots go, and exactly the counters left without spend |
| `TenantSpend.RetiredExactly` | crates/crdt/src/grid_state.rs:352-357 | the origin's spend reads nothing, every other site's reads as it did, and a tenant stays exactly when another site spent for it |
| `GridState.GridStateSnapshot.IncrementTenantSpend` | crates/crdt/src/grid_state.rs:363-368 | records spend in the own slot of one tenant |
| `GridState.GridStateSnapshot.ReplaceOriginProviders` | crates/crdt/src/grid_state.rs:376-391 | every record of the origin is upserted once, restamped, over the records of other origins; where records stand under their own keys that is the replacement in all networks |
| `GridState.GridStateSnapshot.ReplaceOriginProvidersInNetworks` | crates/crdt/src/grid_state.rs:394-416 | the same within the named networks, and the networks of the accepted records are reported exactly |
| `GridNetwork.ListeningSitesConverge` | crates/crdt/src/grid_state.rs:8-15 | in every run, whatever all others do meanwhile, two sites whose own state and received snapshots are alike up to order, repetition, replica names and blank replicas end with the same capabilities, providers and tenant spend, if a revision names one record |
| `GridNetwork.SameMessagesSameView` | crates/crdt/src/grid_state.rs:278-288 | in particular, sites that show the same and receive the same snapshots, in any order and number, end showing the same |
| `GridNetwork.SnapshotsOfARunConverge` | crates/crdt/src/grid_state.rs:8-15 | any two combinations of alike states and snapshots of a run, whatever the order, grouping and repetition and on whichever replica, show the same view, if a revision names one record |
| `GridNetwork.ListeningSiteHoldsTheNewest` | crates/crdt/src/grid_state.rs:278-288 | over any run a listening site ends, at each key, no older than anything it had or received |
| `Convergence.CombinedKeepsTheNewest` | crates/crdt/src/grid_state.rs:278-288 | however snapshots are combined, each key ends at a record one of them holds and than which none holds a newer |
| `GridNetwork.ReceiveMerges` | crates/crdt/src/grid_state.rs:278-288 | receiving a snapshot in a run is merging it |
| `GridNetwork.RunKeepsInv` | crates/crdt/src/grid_state.rs:252-416 | in every run records stand under their own keys and snapshots are those of the network of capability sets |
| `Convergence.SelfMergeIffPruned` | crates/crdt/src/orset.rs:130-159 | merging a set with itself changes nothing if and only if no live tag is tombstoned and no bucket is empty |
| `Convergence.GoodIsPruned` | crates/crdt/src/orset.rs:130-159 | every set of a run is like that |
| `Convergence.ReusedRevisionDiverges` | crates/crdt/src/grid_state.rs:12-14 | with a reused revision two merge orders differ |
| `EnrollmentStore.MemoryStore.MintSiteToken` | crates/enrollment/src/store.rs:458-505 | the new state and answer of a mint, as `MintStoresTheRequest` and `MintAnswers` spell out |
| `EnrollmentStore.MemoryStore.AnyLiveToken` | crates/enrollment/src/store.rs:458-505 | the scan answers whether any live token pins the name |
| `EnrollmentStore.MemoryStore.RevokeSiteToken` | crates/enrollment/src/store.rs:511-519 | only an unredeemed token goes, with its index entry |
| `EnrollmentStore.MemoryStore.RedeemAndIssue` | crates/enrollment/src/store.rs:546-602 | the new state and answer of a redemption under the row's own pin, as `RedemptionAnswers` and `RedemptionRecords` spell out |
| `EnrollmentStore.MemoryStore.RenewAndIssue` | crates/enrollment/src/store.rs:605-642 | the new state and answer of a renewal, as `RotatesIff`, `ResignsIff`, `ForkFreezesIff` and `RenewalRefusals` spell out |
| `EnrollmentStore.MemoryStore.SeedReserved` | crates/enrollment/src/store.rs:645-667 | the new state and answer of a seed, as `SeedAnswers` and `SeedRecords` spell out |
| `EnrollmentStore.MemoryStore.DeleteEnrollment` | crates/enrollment/src/store.rs:705-715 | the record and expiry go and the name is remembered as deleted |
| `EnrollmentStore.MemoryStore.SwapRecordedCa` | crates/enrollment/src/store.rs:694-702 | the fingerprint changes exactly when the expected one is recorded |
| `StoreRuns.RunKeepsInv` | crates/enrollment/src/store.rs:366-393 | index, uniqueness, provenance and key invariants hold in every run |
| `StoreTheorems.TokenValidIsAFullScan` | crates/enrollment/src/store.rs:522-530 | a digest is valid exactly when some row of the whole table bears it, unspent and in time |
| `StoreAnswers.MintStoresTheRequest` | crates/enrollment/src/store.rs:458-505 | a mint that succeeds leaves a row that repeats every field of the request, new ones unspent, and changes nothing else; a retry changes nothing |
| `StoreAnswers.MintAnswers` | crates/enrollment/src/store.rs:458-505 | in every run, exactly when a mint succeeds and when it refuses a taken name, a deleted name or an outstanding token |
| `StoreAnswers.EveryRowWasAskedFor` | crates/enrollment/src/store.rs:458-505 | in every run each token row, apart from being spent, repeats a mint of that run |
| `StoreAnswers.DeletedNameWasAskedForWithOptIn` | crates/enrollment/src/store.rs:546-602 | so a bought record of a name ever deleted goes back to a mint that opted in |
| `StoreAnswers.RedemptionAnswers` | crates/enrollment/src/store.rs:546-602 | the answer of a redemption case by case, with the signer asked for the row's name under the row's key pin |
| `StoreAnswers.RedemptionRecords` | crates/enrollment/src/store.rs:546-602 | a redemption enrolls the signed key under the row's name from now on, spends that row and changes nothing else |
| `StoreAnswers.SignerIsAskedUnderThePin` | crates/enrollment/src/store.rs:546-602 | signers that agree at the row's pin give the same outcome |
| `StoreAnswers.SpendingEnrollsThePinnedKey` | crates/enrollment/src/store.rs:546-602 | a step that spends a row is a redemption that enrolls, under the row's name and a new id, the key the row is pinned to |
| `StoreAnswers.PinnedTokenBuysItsKey` | crates/enrollment/src/store.rs:546-602 | in every run whose signers heed their pins, a spent row pinned to a key bought an enrollment that held that key |
| `StoreAnswers.ForkFreezesIff` | crates/enrollment/src/store/renewal.rs:127-170 | a renewal freezes a record, and refuses with any change, exactly for a second holder of an unfrozen name: a key that is neither current nor a retry, on a leaf from within the record's life |
| `StoreAnswers.RotatesIff` | crates/enrollment/src/store/renewal.rs:127-170 | a renewal rotates exactly from the current key of an unfrozen name to a key never enrolled, and what it then records |
| `StoreAnswers.ResignsIff` | crates/enrollment/src/store/renewal.rs:127-170 | a renewal signs again exactly for the previous key asking for the current one, and then records only the expiry |
| `StoreAnswers.RenewalRefusals` | crates/enrollment/src/store/renewal.rs:127-170 | every other renewal is refused, and for which reason |
| `StoreAnswers.SeedAnswers` | crates/enrollment/src/store/renewal.rs:191-208 | which of its answers a seed gets: by the name, whether it is reserved, the generation and whether the key is held |
| `StoreAnswers.SeedRecords` | crates/enrollment/src/store.rs:645-667 | what a seed records for each answer: a reset keeps the id, drops the previous key and the expiry and starts a new epoch; an acknowledgment moves only the generation |
| `StoreAnswers.DeletedNameIsRemembered` | crates/enrollment/src/store.rs:705-715 | a deleted enrollment is gone at once and its name is remembered in every later state |
| `StoreAnswers.RecordedCaMovesOnlyOnItsSwap` | crates/enrollment/src/store.rs:694-702 | the recorded CA moves exactly on a swap that expects it, to what the swap brings, and a swap moves nothing else |
| `StoreTheorems.OneLiveTokenPerName` | crates/enrollment/src/store.rs:458-505 | at most one live token pins a name |
| `StoreTheorems.SpentRowsPersist` | crates/enrollment/src/store.rs:511-519 | a spent row is never changed or removed |
| `StoreTheorems.SpentDigestNeverValid` | crates/enrollment/src/store.rs:522-602 | a redeemed digest is never valid again |
| `StoreTheorems.DeletedNameNeedsOptIn` | crates/enrollment/src/store.rs:546-602 | in every run a bought record whose name was ever deleted was bought by a token that opted in |
| `StoreTheorems.RefusalsLeaveNoTrace` | crates/enrollment/src/store.rs:458-715 | a refused operation changes nothing, but for freezing a fork and forgetting a token of a deleted name |
| `StoreTheorems.EveryEnrollmentHasOneToken` | crates/enrollment/src/store.rs:546-602 | a record that is not reserved was bought by exactly one token row, which pins its name |
| `StoreTheorems.KeysStayEnrolled` | crates/enrollment/src/store.rs:386-387 | every key held, now or ever, stays enrolled, across deletions |
| `StoreTheorems.OneOwnerIffSeedKeyOwn` | crates/enrollment/src/store.rs:645-667 | a step keeps every key to one enrollment if and only if it is no seed that writes a key another enrollment had |
| `StoreTheorems.NoKeyInTwoEnrollments` | crates/enrollment/src/store.rs:546-667 | in every run whose seeds carry only new keys, no key was ever current in two enrollments, and no two names hold one key, current or previous |
| `StoreTheorems.LineageLasts` | crates/enrollment/src/store.rs:546-667 | in every run different names have different enrollments, and a previous key was current in the same enrollment before |
| `StoreTheorems.SeedCanShareAKey` | crates/enrollment/src/store.rs:645-667 | otherwise a seed can register a key another enrollment holds |
| `StoreTheorems.SeedSharesAKeyInThreeSteps` | crates/enrollment/src/store.rs:645-667 | a run of the empty store that does: mint, redeem, seed |
| `StoreTheorems.DroppedKeyNeverReturns` | crates/enrollment/src/store.rs:605-642 | a key a record no longer holds never comes back to it |
| `StoreTheorems.IncarnationGoesOn` | crates/enrollment/src/store.rs:605-642 | while a name is neither deleted nor seeded its record keeps identity and epoch, and a freeze holds |
| `StoreTheorems.LeafFromBeforeRecoveryIsInert` | crates/enrollment/src/store/renewal.rs:127-170 | a leaf from well before a recovery neither renews nor freezes the record, in any later state |
| `StoreTheorems.LostResponseCanBeRetried` | crates/enrollment/src/store/renewal.rs:127-170 | a rotation whose answer was lost is signed again for the same key and changes nothing else |
| `StoreTheorems.SeedGenerationOnlyGrows` | crates/enrollment/src/store/renewal.rs:191-208 | a reserved name's seed generation never moves back while the name is not deleted |
| `CaAnchor.RunKeepsInv` | crates/enrollment/src/ca.rs:107-243 | soundness of every start and reload in flight, over every interleaving, failure and loss of the record |
| `CaAnchor.ReplacedOnlyByConfirmation` | crates/enrollment/src/ca.rs:224-243 | a recorded key is replaced only by a call whose confirmation is exactly that key |
| `CaAnchor.UnconfirmedRecordIsPermanent` | crates/enrollment/src/ca.rs:224-243 | a record nobody confirms replacing is permanent |
| `CaAnchor.AnchorSawItsKey` | crates/enrollment/src/ca.rs:224-243 | a successful anchor has an instant within the call at which its key was recorded |
| `CaAnchor.AnchorAnswersExactly` | crates/enrollment/src/ca.rs:224-243 | in every run an anchor that finishes without a store failure succeeds exactly when the record at its last access is its key, names the record exactly when that is another, and says whether it matched, recorded or replaced |
| `CaAnchor.StoreFailedOnlyByTheStore` | crates/enrollment/src/ca.rs:224-243 | only a failing access makes an anchor report the store |
| `CaAnchor.ReplicasOfOneKeyAllServe` | crates/enrollment/src/ca.rs:224-243 | replicas of one key racing to record it, in every interleaving without failures: none stops, each idle one signs with that key, and four own steps end a call |
| `CaAnchor.SignerWasRecorded` | crates/enrollment/src/ca.rs:68-169 | every replica that signs holds a key that was recorded at an instant of its start or its last reload |
| `CaAnchor.HeldMovesOnlyWhenAnchored` | crates/enrollment/src/ca.rs:107-147 | the held CA changes only to one this reload anchored |
| `CaAnchor.SignersAgree` | crates/enrollment/src/ca.rs:68-169 | replicas whose last look at the record came no earlier than its last change, the one that changed it included, never sign with different keys |
| `CaAnchor.StartAlone` | crates/enrollment/src/main.rs:161-164 | alone with a reliable store, a start serves, with its own CA, exactly when its key ends up recorded, and stops exactly on another key it does not confirm replacing, which stays recorded |
| `CaAnchor.ReloadAlone` | crates/enrollment/src/ca.rs:107-169 | alone with a reliable store, a reload ends with the signer available exactly when the record is the held key, and moves to a new certificate exactly when the record is empty, its key or the confirmed one |
| `SharedCas.RecordStore.RecordedCa` | crates/enrollment/src/store.rs:322-327 | a read sees the record as it is at that access, or fails |
| `SharedCas.RecordStore.SwapRecordedCa` | crates/enrollment/src/store.rs:335-342 | a swap that answers true recorded the key; a failed one may or may not have |
| `SharedCas.Anchor` | crates/enrollment/src/ca.rs:224-243 | under any interference, success means the key was recorded during the call, a mismatch names another key that was, and own writes replace nothing or exactly what was confirmed |
| `SharedCas.SharedCa.CheckRecord` | crates/enrollment/src/ca.rs:151-169 | the flag is exactly the answer, and signing means the held key was recorded during the call |
| `SharedCas.SharedCa.Reload` | crates/enrollment/src/ca.rs:107-147 | the held CA moves exactly on a reported swap, to the offered CA; signing afterwards means the held key was recorded during the call |
| `SharedCas.Launch` | crates/enrollment/src/main.rs:161-170 | a process serves only after its key was recorded during its start |
| `CaActions.Decide` | crates/enrollment/src/ca.rs:276-300 | the loop over copies computes the decision |
| `CaActions.UnforcedDecision` | crates/enrollment/src/ca.rs:276-300 | forced it mints; unforced, it loads exactly when every copy is readable and holds the key, mints exactly with no key and no copy, and refuses for an unreadable copy or a missing key exactly when there is one |
| `SiteInvites.RunKeepsInv` | crates/enrollment/src/site_invite.rs:236-446 | Secret, status, token table and the reconcile in flight agree after any crash, deletion, redemption or revocation |
| `SiteInvites.MintedOnlyOnceInStatus` | crates/enrollment/src/site_invite.rs:351-401 | a token of the invite enters the store only when the status already names it |
| `SiteInvites.AtMostOneTokenMinted` | crates/enrollment/src/site_invite.rs:236-401 | at most one token id is ever minted |
| `SiteInvites.TerminalIsFinal` | crates/enrollment/src/site_invite.rs:236-248 | a terminal status never changes, and no token of the invite is redeemable from then on |
| `SiteInvites.CleanupLeavesNoToken` | crates/enrollment/src/site_invite.rs:645-669 | after a completed cleanup no digest redeems a token of the invite, ever |
| `SiteInvites.CleanupCompletes` | crates/enrollment/src/site_invite.rs:645-669 | undisturbed, a cleanup completes and leaves no Secret and no live token |
| `InviteOutcomes.NewInviteEndsReady` | crates/enrollment/src/site_invite.rs:236-401 | a new invite beside a store that has its name, digest and id free ends one undisturbed reconcile with Secret, row and a Ready status |
| `InviteOutcomes.SpentEndsRedeemed` | crates/enrollment/src/site_invite.rs:433-446 | in every reachable state, an undisturbed reconcile of a spent token ends Redeemed with the Secret gone and the store as it was |
| `InviteOutcomes.TimeUpEndsExpired` | crates/enrollment/src/site_invite.rs:415-430 | of an unspent token whose time is up it ends Expired with Secret and row gone |
| `InviteOutcomes.RevokedElsewhereEndsRevoked` | crates/enrollment/src/site_invite.rs:262-267 | of a Ready token missing from the store it ends Revoked with the Secret gone |
| `InviteOutcomes.LostSecretEndsRevoked` | crates/enrollment/src/site_invite.rs:250-261 | of an unspent token whose Secret was lost it ends Revoked with the row gone |
| `InviteOutcomes.LiveTokenEndsReady` | crates/enrollment/src/site_invite.rs:349-402 | of a live token with its Secret it changes nothing but the status, which reads Ready |
| `InviteOutcomes.FreeNameEndsReady` | crates/enrollment/src/site_invite.rs:349-402 | of a pending mint with name and digest free it ends Ready with the row the spec and the Secret describe |
| `InviteOutcomes.HeldNameStaysPending` | crates/enrollment/src/site_invite.rs:349-402 | of a pending mint refused for the name it changes nothing and the status goes on reading Pending |
| `InviteOutcomes.RowsCarryTheSpec` | crates/enrollment/src/site_invite.rs:377-391 | every row of the invite bears the digest and expiry of its Secret and the name, key pin and opt-in of its spec |
| `InviteRevocation.RevocationLastsIff` | crates/enrollment/src/site_invite.rs:236-401 | in every reachable state with the token missing from the store, some continuation brings it back unspent if and only if the invite is not gone, neither its name nor a spent row under its digest stands against the mint for good, and a reconcile in flight is bound to mint or a later one would |
| `InviteRevocation.LiveReturnsIff` | crates/enrollment/src/site_invite.rs:236-401 | some continuation brings it back redeemable if and only if, besides that, its time is not up |
| `InviteRevocation.PendingRevocationIsUndone` | crates/enrollment/src/site_invite.rs:325-401 | with the status Pending, the Secret there, time left and name and digest free, the next undisturbed reconcile restores the row |
| `InviteRevocation.RevocationAfterCrashIsUndone` | crates/enrollment/src/site_invite.rs:351-401 | a run that comes to it: mint, crash, revocation, reconcile |
| `InviteRevocation.RevocationDuringMintUndoneIff` | crates/enrollment/src/site_invite.rs:351-401 | a revocation just before the mint is undone by it if and only if nothing else holds the name |
| `InviteRevocation.MintStandsOverALiveRow` | crates/enrollment/src/site_invite.rs:351-401 | a run that comes to it: mint, crash, reconcile up to the mint |
| `InviteRevocation.RunKeepsAll` | crates/enrollment/src/site_invite.rs:236-446 | Secret, status, checkpoint and token row repeat one draw, and the store stays sound, after any run |
| `Bootstrap.HubRefusesAfterLoadIff` | crates/enrollment/src/bootstrap.rs:701-814 | after a plan to load, the hub decision refuses if and only if the hub's CA is authoritative and the key text has a block its copy does not answer for, or no certificate |
| `Bootstrap.PlanExactly` | crates/enrollment/src/bootstrap.rs:701-768 | the plan loads exactly when no new grid is forced, the key's certificate can be read, the bundle and an authoritative hub CA trust it and an authoritative identity is genuine; it mints exactly when forced or when nothing that counts is there |
| `Bootstrap.IdentityExactly` | crates/enrollment/src/bootstrap.rs:772-790 | an identity is kept exactly when an authority wrote it, it is genuine and its key is there, refused exactly when an authority wrote it and it is not genuine, and else issued |
| `Bootstrap.HubExactly` | crates/enrollment/src/bootstrap.rs:803-814 | the hub's CA is written exactly when no authority wrote it or a new grid is forced, and else kept exactly when every certificate of the key Secret is in it |
| `Bootstrap.RefusalPrecedesWrites` | crates/enrollment/src/bootstrap.rs:701-814 | with a single-certificate key Secret, after a plan to load or mint neither later decision refuses |
| `Bootstrap.SecondCertificateIsRefusedLate` | crates/enrollment/src/bootstrap.rs:800-812 | with a second certificate the refusal can come late |
| `Feedback.Reporter.constructor` | crates/client/src/feedback.rs:32-49 | nothing observed, nothing pending |
| `Feedback.Reporter.Observe` | crates/client/src/feedback.rs:52-71 | the new state and the report handed out, as `WhatIsSent` spells out |
| `Feedback.Reporter.Acknowledge` | crates/client/src/feedback.rs:74-85 | only the pending report is acknowledged, and what is still owed is issued again |
| `Feedback.Reporter.Allocate` | crates/client/src/feedback.rs:90-97 | the next number, the last one reserved for a rejection |
| `Feedback.RejectedExactlyWhenOwed` | crates/client/src/feedback.rs:52-97 | in every run a rejected report is pending if and only if skew is unacknowledged or arithmetic ran out |
| `Feedback.CleanMeansAllAcknowledged` | crates/client/src/feedback.rs:52-97 | a clean pending report means the acknowledged skew is the exact sum of all ingests |
| `Feedback.RejectedStaysPending` | crates/client/src/feedback.rs:74-85 | a rejected pending report stays until exactly it is acknowledged, whatever else is acknowledged |
| `Feedback.ExhaustedIssuesNoCleanReport` | crates/client/src/feedback.rs:52-97 | once arithmetic ran out every report is rejected |
| `Feedback.SkewAndNumbering` | crates/client/src/feedback.rs:52-97 | skew is the capped sum of all ingests, a number below the cap names one report, and every report at the cap is rejected |
| `Feedback.TwoAcknowledgmentsDrain` | crates/client/src/feedback.rs:74-85 | two acknowledgments of the pending report drain it if and only if arithmetic has not run out |
| `Feedback.WhatIsSent` | crates/client/src/feedback.rs:52-71 | in every run a failed fetch sends the pending rejection exactly if anything is owed and changes nothing, and an ingest sends the pending report, rejected exactly if anything is then owed |
| `Feedback.ReportsBearTheReporter` | crates/client/src/feedback.rs:52-97 | every report of a run bears the reporter's own replica and process |
| `Pollers.RunsKeepInv` | crates/client/src/poller.rs:355-400 | the ledger of fetched, written, folded and delivered evidence holds however pollers run |
| `Pollers.SkewIsConserved` | crates/client/src/poller.rs:355-426 | cumulative skew is the capped sum over the written scrapes that were folded, each once, and a written scrape is folded unless its poller stands between the two |
| `Pollers.HeldPollerWritesNothing` | crates/client/src/poller.rs:355-400 | a poller never committed writes and observes nothing |
| `Pollers.StoppedPollerWritesNothingLate` | crates/client/src/poller.rs:355-400 | after a stop a poller writes at most the scrape that had passed the gate |
| `Pollers.NothingOwedMeansDelivered` | crates/client/src/mtls.rs:231-288 | with nothing owed, the operator holds a rejection that carries all the skew ever folded |
| `Pollers.FoldHandsOut` | crates/client/src/mtls.rs:231-246 | in every run of pollers, what a poller goes on to send is the pending rejection or nothing after a failed fetch, and the pending report after an ingest |
| `Pollers.TwoPollsDrain` | crates/client/src/mtls.rs:231-288 | from any reachable state that owes, arithmetic not run out, two polls of a committed poller whose reports get through end with nothing owed, even if every fetch fails |
| `SeedText.AcceptedExactly` | crates/enrollment/src/seed.rs:69-109 | a body parses to a seed if and only if the seed is valid and the body is its exact text |
| `SeedText.RoundTripsIffValid` | crates/enrollment/src/seed.rs:36-109 | the text reads back exactly for the valid whole-second seeds |
| `SeedText.TextWrittenOut` | crates/enrollment/src/seed.rs:36-44 | the text is these five lines, in this order |
| `SeedText.TextIsInjective` | crates/enrollment/src/seed.rs:36-44 | distinct valid seeds have distinct texts |
| `SeedText.SubSecondIsLost` | crates/enrollment/src/seed.rs:36-44 | a time between two seconds reads back rounded down |
| `SeedText.HexRoundTrip` | crates/enrollment/src/seed.rs:219-235 | hex reads back for every byte sequence |
| `SeedText.HexIsLowerCase` | crates/enrollment/src/seed.rs:219-221 | hex is two lower-case digits a byte |
| `SeedText.PairValue` | crates/enrollment/src/seed.rs:224-235 | a pair of digits of either case reads as sixteen times the first and the second |
| `SeedText.UnhexAcceptsExactly` | crates/enrollment/src/seed.rs:224-235 | the accepted texts are exactly the pairs of a hex digit or plus sign and a hex digit |
| `SeedText.UnhexTakesHexIffNoPlus` | crates/enrollment/src/seed.rs:223-235 | it takes even-length hex and nothing else exactly where no such pair has a plus sign |
| `SeedText.PlusReadsAsZero` | crates/enrollment/src/seed.rs:224-235 | a plus sign reads like a zero |
| `Lifetime.SplitIsUnique` | crates/enrollment/src/site_invite.rs:757-795 | a text splits into numbers and units in at most one way, the one the parser finds |
| `Lifetime.Duration` | crates/enrollment/src/site_invite.rs:757-795 | the saturating loop ends and returns what the text stands for |
| `Lifetime.AcceptedExactly` | crates/enrollment/src/site_invite.rs:757-795 | the accepted texts are exactly those with a split whose exact sum is in bounds, and the result is that sum |
| `Lifetime.UnitsOfTheClock` | crates/enrollment/src/site_invite.rs:757-795 | the units are those of the clock, and the bounds five minutes and a week |
| `Lifetime.FiveMinutes` | crates/enrollment/src/site_invite.rs:830-839 | the shortest lifetime is accepted |
| `Lifetime.AWeek` | crates/enrollment/src/site_invite.rs:757-795 | the longest lifetime is accepted |

## Left out

- Certificate, CSR, DER and PEM parsing and signatures: a certificate is a key digest, a certificate digest and, for bootstrap, a list of decoded blocks.
- The Postgres backend of the store: only the in-memory one and, for the CA record, any store with an atomic swap.
- Kubernetes calls, HTTP, TLS and file watching: only the order of reads and writes is kept.
- Serialization of snapshots, metrics, tracing and the wording of errors and refusals.
- `remove_origin_providers`, `LwwRegister`, `items`, `len`, status condition tables, retry classification and health thresholds: one-branch facts.
- The SWIM gossip layer beyond its stale-revision gate.
- The failure flag of the poll loop, which only chooses log levels.
- The counters inside a snapshot are values in a map, so sharing of one counter between two maps is not captured; the program never shares them.
- `UpsertProvider` and `Merge` take provider payloads as opaque values, floats included, compared only for equality.
- SiteInvites.RunKeepsInv: assumes one controller, status reads that are not stale, an unchanged spec and a Secret nobody else creates under the invite's name, as the reconciler does.
- Storing the swapped CA and raising the flag are one step of the anchoring machine, and a stopped process starts again as a new replica.
- GridNetwork.ListeningSitesConverge: a deserialized snapshot that no run of the operations produces is not covered; `SelfMergeIffPruned` says which capability sets such a snapshot may hold.
- Pollers.StoppedPollerWritesNothingLate: a stop that lands between the gate check and the write cannot take the write back, so one write may follow it.
- Bootstrap.RefusalPrecedesWrites: loading the key itself may still fail after the plan.
