# Tiered KV-cache persistence: a verified model

A serving system keeps the key/value caches of chat sessions in three tiers, hot (memory), warm (local disk) and cold
(archive). A manager moves serialized blobs between them, an index records where each session lives, and a pluggable
policy chooses whom to evict. An experiment runner replays traces through the manager and prices every hit with a
model of the GPU and of the storage. This project models that core in Dafny and proves what it keeps, what it loses and
what it costs, over every run, every policy and every input.

`dafny verify dfyconfig.toml` checks everything.

## How the model is built

- **State and specification.** `Cascade.State` is the contents of the three tiers, the index in insertion order, the
  messages the policy has received, and the clock. `Cascade` and `Operations` say what each manager operation does to
  it. Eviction, space making and demotion are mutually recursive; they terminate on the tier's rank and the attempts
  left.
- **The manager itself.** `Manager.TieredCacheManager` is the class, working in place on `Storage.HotTier`, two
  `Storage.DirectoryTier`s, an `Index.CacheIndex` of mutable `CacheEntry` objects and a policy object. Every method's
  contract equates its result and its whole new state with the specification applied to the old state, so each theorem
  about `Operations.Run` is a theorem about the class.
- **Policies.** A policy is a deterministic function of the messages it has been sent, the clock and the candidates.
  LRU, the heuristic and predicted scores, Belady, the perfect classifier, perfect and estimated space-time and value
  density are written out; `Custom` is any other. What a predictor answers, and how the heuristic's recency decays,
  are parameters that do not see the cost model, as the source's do not; that the policies built on them ignore prices
  is then a result.
- **Moves.** Every cascade is proved to be a path of single moves: ask the policy, sink a session one tier, discard a
  warm session that finds cold full, erase a cold victim. Invariants are proved once per move and lifted to paths,
  operations and runs.
- **Money.** Times and prices are exact reals.

## Main results

1. *The index tells the truth* (`Coherence.RunIsSound`, `LoadReturnsLastSave`). After any run in which no operation
   raises, each indexed session's tier holds the bytes of its most recent save, and load returns those or a miss. This
   survives a promotion whose own cascade moves, or even deletes, the session being promoted; `Overtaken` runs both.
2. *Operations move sessions where they should.* A save ends in the hot tier exactly when the first fifty hot victims
   free enough room (`Attempts.SaveGoesHotIff`), a load moves its session to the hot tier from wherever it was
   (`Promotions.LoadReachesHot`), and a maintenance pass lowers the sessions the policy asks for, and no others, by
   one tier (`Maintenance.MaintainLowersDue`). Entries show the last use of their sessions
   (`Entries.EntryShowsLastUse`), and the policy has been told of exactly the indexed ones
   (`Messages.ToldWhoIsThere`).
3. *Nothing is lost while the cold tier is uncapped* (`Descent.IndexIsLive`, `Durability`), and with a cap an eviction
   only moves sessions colder, never loses a hot one, and takes exactly one session out of its tier, or none
   (`EvictDescends`).
4. *One copy per session* is not an invariant. `Placement` proves exactly when saving, promoting and deleting keep it
   and derives when both halves of the statistics agree; `Placement.ResaveLeavesCopy` and `Overtaken` give runs that
   break it. Bytes the index does not point at stay, through any run, until their session is saved again or moved in
   the index (`Orphans.OrphanStays`, `SupersededStays`), and a tier they fill is out of use for good
   (`Lost.LostForGood`).
5. *Cascades are bounded* (`Work.SaveWork`): one save selects at most 50 hot, 2,550 warm and 127,500 cold victims.
6. *LRU is least recently used* in every reachable state (`Lru.RunIsLru`), and a loaded session is its own promotion's
   victim only when nobody else is left in its tier.
7. *The perfect classifier is Belady* (`Policies.ClassifierIsBelady`), so their whole runs coincide, and *Belady is
   optimal* in a cache of equal slots that starts and resumes fill (`BeladyOptimality.BeladyIsOptimal`). The trace
   must not resume a session at the time of an earlier event, nor start one that is cached or was served before, which
   no trace generator does; `TiesBeatBelady` and `RestartsBeatBelady` show that neither condition can go.
8. *Scoring policies give up what they say they do*: the farthest, the least likely, the slowest, the least worth its
   bytes, the one behind in every respect (`Scores`), at any clock (`Scores.OraclesHaveNoEpoch`).
9. *A replay is a run of the manager* (`Caching.ReplayIsRun`), so all of the above holds of it. After every start and
   resume, hit or miss, its session is cached (`Caching.ProcessCaches`), and with an uncapped cold tier only resumes
   of unknown sessions miss (`Caching.MissesAreFirsts`).
10. *Finished runs can be re-priced* (`Pricing.RescoreByName`): the histogram of one run, priced with another cost
    model, is what a run under that model would have accumulated. For each policy that reads the cost model, decisions
    and logged hits are the same for every trace and predictor exactly when the two models have one shape
    (`Geometry.ShapeDecides`, `ShapeDecidesPredictions`).
11. *The wire format* round-trips, rejects every strict prefix, and notices every corruption confined to four
    consecutive payload bytes of a blob of any length (`WireProofs`). Its checksum is the CRC-32 of section 8 of RFC
    1952: the register is long division by that standard's generator (`Division.CrcIsRemainder`).
12. *The break-even search* finds what the linear scan finds (`CostModel.BreakevenTokens`), which for the shipped
    models is the published table (`Architectures.PublishedTable`).
13. *A save raises only for size* (`Raises.SaveRaisesIffTooBig`): from a tidy state with at most 50 sessions above the
    cold tier, and a warm tier no smaller than the hot one, exactly when the blob is larger than the warm tier. With
    any number of sessions, exactly when the hot tier stays full and the first fifty victims of the warm tier free too
    little (`Attempts.SaveRaisesIffTooLittleFreed`); with fifty-one above cold that happens
    (`Attempts.FiftyAreNotEnough`).
14. *End to end* (`EndToEnd.LoadYieldsTheCache`): serializer, compressor and manager together give a session its cache
    back, and splitting it into blocks and merging them in any order changes no byte
    (`WireBlocks.BlocksKeepTheCache`).

## Where the code and what is said about it differ

The model follows the code.

- `delete` says it deletes from all tiers; it deletes from the recorded tier only, and a superseded copy stays behind
  (`Placement.DeleteErasesIff`, and the deletion that ends the run of `ResaveLeavesCopy`). `load` says it searches the
  tiers; it looks in the recorded one.
- When a save raises, the index has already been changed. Whether it is still true, of the raised save or of the one
  before, depends on what the warm tier happens to hold (`Coherence.RaisedSaveIsCoherentIff`);
  `RaisedSaveLeavesEmptyEntry` is the case of an empty manager.
- A promotion whose cascade deletes the promoted session still answers the load and still writes its bytes to the hot
  tier, unindexed: the next load misses (`Overtaken.PromotionOfTheDeleted`), and the hot tier is never used again
  unless a blob comes that is small enough to fit beside them (`Lost.PromotionLosesHot`).
- `session_size_bytes` and the wire format read `"fp16"` and `"bfloat16"` differently, so blob length is the header
  plus the configured size exactly for the other dtypes and for empty caches (`WireProofs.BlobLength`);
  `HalfPrecisionDisagrees` is a cache of 68 bytes where 72 are counted.
- The figure's scan for the crossover stops one token short of the search's default range. The two answers differ
  exactly when prefill is no dearer than restore at 299,999 tokens and dearer at 300,000
  (`CostModel.SearchAndScanDifferIff`), as on the disk of `ScanMissesTheLast`.
- Belady is called optimal for uniform sizes and costs; the oracle looks strictly past the current time, so a resume
  at the time of an earlier event defeats it (`BeladyOptimality.TiesBeatBelady`).
- Re-pricing is said to be invalid for the policies that read the cost model. It is exact for value density, with or
  without admission control, and for estimated and perfect space-time whenever both models have as many parameters per
  unit of attention width, whatever the GPU, the KV heads and the storage (`Pricing.PolicyIgnoresPrices`). Otherwise
  they do log other hits (`Geometry.ShapeDecides`, `ShapeDecidesPredictions`), and a re-priced total can be wrong
  (`Geometry.RepricingNeedsShape`, `RepricingPredictionsNeedsShape`), as it is between any two of the shipped models
  (`Geometry.ShippedRepriceWrongly`).

## Model

| member | source | states |
|---|---|---|
| Coherence.RunIsSound | src/kv_cache_tier/core/tiered_manager.py:84-293 | After every run without a raise: the index lists each session once, its tier holds the last bytes saved at the recorded size, and every capped tier, superseded copies included, is within capacity |
| Coherence.LoadReturnsLastSave | src/kv_cache_tier/core/tiered_manager.py:153-187 | After every such run load answers exactly for the indexed sessions, with the bytes of the most recent save and no others |
| Coherence.StepKeeps | src/kv_cache_tier/core/tiered_manager.py:84-293 | Each of save, load, promote, demote, evict, delete, maintenance and a clock change keeps the index true |
| Coherence.PathKeeps | src/kv_cache_tier/core/tiered_manager.py:103-271 | Every cascade, of any length and under any policy, keeps the index true and the tiers within capacity |
| Coherence.PromoteKeeps | src/kv_cache_tier/core/tiered_manager.py:189-213 | A promotion keeps the index true even when making room moves or deletes the promoted session |
| Coherence.LoadKeeps | src/kv_cache_tier/core/tiered_manager.py:153-187 | So does a load, on a hit, on a miss and when the stored bytes are missing |
| Promotions.PromoteMoves | src/kv_cache_tier/core/tiered_manager.py:189-213 | From every tier to every other: a promotion succeeds exactly when room can be made; then the target holds the bytes, the source no longer does, and the session, if still indexed, is indexed in the target |
| Promotions.LoadPromotes | src/kv_cache_tier/core/tiered_manager.py:153-187 | A load of an indexed session answers its last bytes, and from warm as from cold, if room can be made in hot, moves them there |
| Promotions.MakeRoomIff | src/kv_cache_tier/core/tiered_manager.py:203-207 | From a tidy state whose hot sessions can be sunk, room is made exactly for what the tier could hold alone |
| Promotions.LoadReachesHot | src/kv_cache_tier/core/tiered_manager.py:182-187 | So whatever the hot tier could hold is stored there after it has been loaded, and its old tier is rid of it |
| Promotions.UncappedHotLoads | src/kv_cache_tier/core/tiered_manager.py:182-187 | With an uncapped hot tier, after every run, every load of an indexed session leaves it stored and indexed in hot |
| Promotions.LoadOfMissing | src/kv_cache_tier/core/tiered_manager.py:164-169 | A session whose bytes are missing is dropped from the index, the stores and the policy's history untouched |
| Coherence.SaveToKeeps | src/kv_cache_tier/core/tiered_manager.py:116-151 | Writing a session, new or known, into a tier that accepts it makes the written bytes the newest and disturbs no other session |
| Coherence.SaveRaisesIff | src/kv_cache_tier/core/tiered_manager.py:84-116 | A save raises exactly when hot and then warm are still full after their evictions |
| Coherence.RaisedSaveIsCoherentIff | src/kv_cache_tier/core/tiered_manager.py:125-150 | After a raise the index is true of the raised save exactly when the warm tier already held those very bytes for the session, and of the save before exactly when the warm tier held that one and it was as long |
| Coherence.RaisedSaveLeavesEmptyEntry | src/kv_cache_tier/core/tiered_manager.py:125-150 | In an empty manager, under any policy: saving a blob larger than hot and than warm raises and leaves an index entry with nothing stored behind it |
| Raises.SaveRaisesIffTooBig | src/kv_cache_tier/core/tiered_manager.py:93-101 | Before the call: with one copy per session, no empty blob or id, a policy that answers, at most 50 sessions above cold and a warm tier no smaller than the capped hot one, a save raises exactly when its blob is larger than the warm tier |
| Raises.SaveSucceeds | src/kv_cache_tier/core/tiered_manager.py:93-101 | Without the comparison of the two tiers: a blob the warm tier could hold is saved |
| Raises.SaveOfExtremes | src/kv_cache_tier/core/tiered_manager.py:93-101 | In any state, under any policy: a blob larger than hot and than warm raises, and none does when either is uncapped |
| Attempts.StaysFullIff | src/kv_cache_tier/core/tiered_manager.py:103-114 | The capped loop leaves a tier too full exactly when its stored bytes, less those of its first victims, one per attempt, still leave too little room; of the hot tier, when its sessions can be sunk |
| Attempts.SaveGoesHotIff | src/kv_cache_tier/core/tiered_manager.py:93-101 | From a tidy state whose hot sessions can be sunk, a save ends with its session stored and indexed in hot exactly when the first fifty hot victims free enough, and in warm otherwise |
| Attempts.SaveGoesHot | src/kv_cache_tier/core/tiered_manager.py:93-101 | With at most 50 hot sessions, whatever the hot tier could hold alone is saved there |
| Attempts.DemoteSinksIff | src/kv_cache_tier/core/tiered_manager.py:234-253 | A demotion sinks its session exactly when the stored bytes of the tier below, less those of its first fifty victims, leave room for it |
| Attempts.SaveRaisesIffTooLittleFreed | src/kv_cache_tier/core/tiered_manager.py:93-101 | From a tidy state with any number of sessions, a save raises exactly when hot stays full and the first fifty victims of warm free too little |
| Attempts.StaysFullOfAllIff | src/kv_cache_tier/core/tiered_manager.py:103-114 | With blobs of one length that is a matter of how many sessions the attempts do not reach |
| Attempts.FiftyAreNotEnough | src/kv_cache_tier/core/tiered_manager.py:103-114 | The bound of fifty matters: runs that fill the warm tier with more than fifty sessions, after which a save raises although the warm tier could hold its blob |
| Raises.WarmMakesRoom | src/kv_cache_tier/core/tiered_manager.py:103-114 | As many attempts as the warm tier has sessions make room there for any blob it could ever hold |
| Raises.WarmEvictionSucceeds | src/kv_cache_tier/core/tiered_manager.py:255-271 | An eviction from a warm tier that has a session never fails |
| Raises.BuiltInPoliciesAnswer | src/kv_cache_tier/eviction/base.py:42-47 | Every policy written out always names a victim |
| Descent.EvictDescends | src/kv_cache_tier/core/tiered_manager.py:103-271 | An eviction leaves hotter tiers alone, removes exactly one session from its tier when it succeeds and none when it fails, moves sessions only colder with bytes unchanged, and never loses a hot session |
| Descent.PathDescends | src/kv_cache_tier/core/tiered_manager.py:215-271 | Along any cascade a session that is still indexed has only descended; one that is not was a cold victim, or a warm session that found cold full |
| Descent.MoveDescends | src/kv_cache_tier/core/tiered_manager.py:238-271 | The same for one move |
| Descent.HotSurvivesEvict | src/kv_cache_tier/core/tiered_manager.py:239-253 | Evicting from hot never drops a hot session, the chosen one included |
| Evictions.DemoteLowers | src/kv_cache_tier/core/tiered_manager.py:215-253 | A demotion that finds its session's bytes leaves it one tier lower with them, or gone off the cold end, or stuck in hot, and takes it out of its tier exactly on success; one that finds none does nothing |
| Evictions.EvictionFrees | src/kv_cache_tier/core/tiered_manager.py:255-271 | From a tidy state the victim the policy names is the one that leaves: to the tier below with its bytes, or for good |
| Evictions.EmptyIdStays | src/kv_cache_tier/core/tiered_manager.py:263-264 | An empty id is no victim: nothing is evicted and the policy hears nothing |
| Evictions.EnsureSpaceEvicts | src/kv_cache_tier/core/tiered_manager.py:103-114 | The capped loop is so many evictions in a row: every one of them found the tier full, and it stops at the first room, the first failure or the last attempt |
| Evictions.MakeRoomEvicts | src/kv_cache_tier/core/tiered_manager.py:203-207 | Promotion's loop likewise, without a last attempt |
| Descent.LosslessKeepsIndex | src/kv_cache_tier/core/tiered_manager.py:239-253 | A cascade without discards and erasures keeps the set of indexed sessions |
| Descent.StepKeepsLive | src/kv_cache_tier/core/tiered_manager.py:84-293 | With an uncapped cold tier each operation changes the set of indexed sessions only by what it explicitly saves or removes |
| Descent.IndexIsLive | src/kv_cache_tier/core/tiered_manager.py:84-293 | With an uncapped cold tier the indexed sessions are exactly those saved and not explicitly removed since |
| Descent.Durability | src/kv_cache_tier/core/tiered_manager.py:189-293 | With an uncapped cold tier load returns the last saved value of every such session, through any run of cascades, promotions and maintenance, and nothing for the others |
| Messages.SaveTells | src/kv_cache_tier/core/tiered_manager.py:125-148 | A save announces its session exactly when its space making leaves it unindexed, with the entry as written; it reports no other use |
| Messages.LoadTells | src/kv_cache_tier/core/tiered_manager.py:153-187 | A hit reports one access, with the entry as it then stands, whatever its promotion does; a miss reports none |
| Messages.StepTells | src/kv_cache_tier/core/tiered_manager.py:84-293 | Each operation that finds the policy knowing the indexed sessions leaves it so, and only saves and loads report use |
| Messages.ToldWhoIsThere | src/kv_cache_tier/eviction/base.py:26-39 | After every run of non-empty blobs the sessions inserted and not since removed are, to the policy, exactly the indexed ones |
| Placement.SaveExactIff | src/kv_cache_tier/core/tiered_manager.py:93-150 | From one copy per session, a save keeps it so exactly when its session is unindexed, or indexed in the tier written, at the moment of the write |
| Placement.PromoteExactIff | src/kv_cache_tier/core/tiered_manager.py:189-213 | A promotion keeps one copy per session exactly when its own cascade left the promoted session where it was |
| Placement.RelocateExactIff | src/kv_cache_tier/core/tiered_manager.py:209-213 | Writing, deleting at the source and repointing keeps one copy exactly when the session is still indexed at the source or already at the target |
| Placement.DescentKeepsExact | src/kv_cache_tier/core/tiered_manager.py:215-293 | Demotion, eviction, deletion and maintenance keep one copy per session |
| Maintenance.ExpiredAreDue | src/kv_cache_tier/core/tiered_manager.py:287-290 | The list is exactly the indexed sessions whose policy asks for it, each once, in index order |
| Maintenance.OfferedInOrder | src/kv_cache_tier/core/tiered_manager.py:257 | The policy is offered a tier's sessions in index order, each once |
| Maintenance.NobodyDue | src/kv_cache_tier/core/tiered_manager.py:285-293 | A pass with nobody due changes nothing at all |
| Maintenance.NeverDue | src/kv_cache_tier/eviction/value_density.py:161-169 | Of the policies written out only value density with a positive threshold ever asks for a demotion; under the others a pass changes nothing |
| Maintenance.MaintainLowersDue | src/kv_cache_tier/core/tiered_manager.py:285-293 | A pass that finds room below lowers every session due that is above cold by one tier, bytes and all, and leaves everybody else as they were |
| Placement.ResaveLeavesCopy | src/kv_cache_tier/core/tiered_manager.py:93-150 | Save, demote, save again, under any policy and with room for each blob: the superseded bytes stay in the warm tier, unindexed, and deleting the session leaves them there |
| Overtaken.PromotionLeavesCopy | src/kv_cache_tier/core/tiered_manager.py:199-213 | Under every answering policy, for any two blobs that fit hot and warm one at a time but not together: save, save, load; making room sinks the promoted session to cold, and that copy stays behind, unindexed |
| Overtaken.PromotionOfTheDeleted | src/kv_cache_tier/core/tiered_manager.py:199-213 | The same with no room in cold: the promoted session is deleted while room is made, its bytes still go up, unindexed, and the next load misses |
| Overtaken.LoadOvertaken | src/kv_cache_tier/core/tiered_manager.py:189-213 | Whatever became of the promoted session while the warm tier was emptied, the bytes read before go up |
| Orphans.StepLeavesCopies | src/kv_cache_tier/core/tiered_manager.py:84-293 | An operation other than saving the session never indexes it anew, and changes none of its stored copies unless it moves the session in the index |
| Orphans.OrphanStays | src/kv_cache_tier/core/tiered_manager.py:199-293 | Through any run an unindexed session stays unindexed and its bytes stay in every tier, until it is saved again |
| Orphans.SupersededStays | src/kv_cache_tier/core/tiered_manager.py:84-293 | So do the superseded copies of an indexed session while it is not saved and stays where it is recorded |
| Lost.StepKeepsLost | src/kv_cache_tier/core/tiered_manager.py:84-293 | Once nobody is indexed in a tier and its orphans leave room for no stored or coming blob, no operation that returns normally changes a byte of it or indexes anybody there |
| Lost.LostForGood | src/kv_cache_tier/core/tiered_manager.py:84-293 | Nor does any run |
| Lost.PromotionLosesHot | src/kv_cache_tier/core/tiered_manager.py:199-213 | The promotion of a session deleted by its own cascade loses the hot tier in this way |
| Placement.DeleteErasesIff | src/kv_cache_tier/core/tiered_manager.py:273-283 | A deletion clears every tier exactly when no tier but the recorded one stored the session |
| Placement.IndexedWithinStored | src/kv_cache_tier/tiers/base.py:36-42 | After every run without a raise: indexed bytes of a tier <= stored bytes <= its capacity, if it has one |
| Placement.UsageAgrees | src/kv_cache_tier/core/tiered_manager.py:295-305 | With one copy per session the index and the tier report the same bytes and the same number of sessions |
| Work.SaveWork | src/kv_cache_tier/core/tiered_manager.py:93-114 | One save selects at most 50 hot, 2,550 warm and 127,500 cold victims |
| Work.EnsureBounded | src/kv_cache_tier/core/tiered_manager.py:103-114 | Making space selects at most one victim per attempt in its tier and 50 per victim in each colder tier |
| Work.DemoteBounded | src/kv_cache_tier/core/tiered_manager.py:239-253 | A demotion selects at most 50 victims one tier below and 50 per victim below that |
| Work.PromoteWork | src/kv_cache_tier/core/tiered_manager.py:203-207 | The uncapped loop of a promotion selects at most one victim per session indexed in its target, and one that fails, with 50 per victim in each colder tier |
| Operations.EvictShrinks | src/kv_cache_tier/core/tiered_manager.py:204-207 | Each successful eviction lowers the number of sessions indexed in its tier by one and a failed one leaves it, which is why promotion's loop ends |
| Operations.RoomIsAccepted | src/kv_cache_tier/core/tiered_manager.py:204-209 | A tier that is not full accepts the write, overwriting included, so no put inside a cascade or promotion raises |
| Operations.MakeRoomPath | src/kv_cache_tier/core/tiered_manager.py:203-207 | Promotion's room making is a path of single moves that touches no hotter tier, loses nothing when cold is uncapped, and on success leaves room |
| Operations.SaveSpotPath | src/kv_cache_tier/core/tiered_manager.py:93-101 | So is a save's |
| Operations.DemoteAllPath | src/kv_cache_tier/core/tiered_manager.py:292-293 | So is maintenance |
| Cascade.Victim | src/kv_cache_tier/core/tiered_manager.py:257-264 | A victim is one of the sessions indexed in the tier |
| Cascade.Candidates | src/kv_cache_tier/core/tiered_manager.py:257 | The policy is shown exactly the entries indexed in the tier |
| Cascade.EvictPath | src/kv_cache_tier/core/tiered_manager.py:255-271 | An eviction is a path of moves in its tier and colder ones; on success exactly one session has left the tier |
| Cascade.EnsurePath | src/kv_cache_tier/core/tiered_manager.py:103-114 | Making space is such a path, and loses nothing when cold is uncapped |
| Cascade.DemotePath | src/kv_cache_tier/core/tiered_manager.py:215-253 | A demotion is such a path; it removes its session from the source tier exactly when it reports success |
| Cascade.PathSparesHotter | src/kv_cache_tier/core/tiered_manager.py:103-271 | A cascade in a tier and below leaves the bytes and the entries of every hotter tier alone |
| Manager.TieredCacheManager.constructor | src/kv_cache_tier/core/tiered_manager.py:62-76 | A new manager is the empty state |
| Manager.TieredCacheManager.Save | src/kv_cache_tier/core/tiered_manager.py:84-101 | The in-place save leaves exactly the specified state and raises exactly when specified |
| Manager.TieredCacheManager.EnsureSpaceInTier | src/kv_cache_tier/core/tiered_manager.py:103-114 | The capped loop over in-place evictions leaves the state of the recursive specification with 50 attempts |
| Manager.TieredCacheManager.SaveToTier | src/kv_cache_tier/core/tiered_manager.py:116-151 | Index first, then write: on a raise the index is changed and the tier is not |
| Manager.TieredCacheManager.IndexEntry | src/kv_cache_tier/core/tiered_manager.py:126-148 | A known session's entry object is overwritten and the policy is not told; a new one is added and announced |
| Manager.TieredCacheManager.Load | src/kv_cache_tier/core/tiered_manager.py:153-187 | Result and whole new state of a load: miss, missing bytes, hit, and hit followed by promotion |
| Manager.TieredCacheManager.RecordAccess | src/kv_cache_tier/core/tiered_manager.py:173-176 | A hit stamps and counts the entry in place and tells the policy |
| Manager.TieredCacheManager.Promote | src/kv_cache_tier/core/tiered_manager.py:189-213 | Result and whole new state, also when the entry object leaves the index while room is made |
| Manager.TieredCacheManager.MakeRoom | src/kv_cache_tier/core/tiered_manager.py:203-207 | The uncapped loop terminates and leaves the specified state |
| Manager.TieredCacheManager.Demote | src/kv_cache_tier/core/tiered_manager.py:215-253 | Result and whole new state of a demotion |
| Manager.TieredCacheManager.Settle | src/kv_cache_tier/core/tiered_manager.py:240-253 | After room was sought: sunk, dropped off the cold end, or left in the hot tier |
| Manager.TieredCacheManager.EvictFromTier | src/kv_cache_tier/core/tiered_manager.py:255-271 | Result and whole new state of an eviction |
| Manager.TieredCacheManager.Delete | src/kv_cache_tier/core/tiered_manager.py:273-283 | Result and whole new state of a deletion |
| Manager.TieredCacheManager.ExpiredSessions | src/kv_cache_tier/core/tiered_manager.py:287-290 | The expired sessions in index order, all judged before any is demoted |
| Manager.TieredCacheManager.RunMaintenance | src/kv_cache_tier/core/tiered_manager.py:285-293 | Whole new state of a maintenance pass |
| Entries.LoadStamps | src/kv_cache_tier/core/tiered_manager.py:173-176 | A hit stamps its entry and counts one access; other entries change at most their tier |
| Entries.SaveRenews | src/kv_cache_tier/core/tiered_manager.py:119-148 | A save brings size, tokens, blocks and last access of its entry up to date; owner, creation and access count stay if the session was still indexed, and start afresh if not |
| Entries.EntryShowsLastUse | src/kv_cache_tier/core/tiered_manager.py:119-176 | After every run each entry shows the tokens of the last save, as many blocks as they need, and the time of the last save or load |
| Entries.EntryShowsOrigin | src/kv_cache_tier/core/tiered_manager.py:129-176 | With an uncapped cold tier each entry also shows who saved the session when it was last new, when, and how often it has been used since |
| Storage.HotTier.IsFull | src/kv_cache_tier/tiers/base.py:36-42 | The running total answers whether stored bytes plus the new ones exceed the capacity; a non-positive capacity never does |
| Storage.HotTier.Put | src/kv_cache_tier/tiers/hot_tier.py:24-36 | Accepted exactly when the tier with the old copy replaced fits; the running byte total stays the sum of the stored lengths |
| Storage.HotTier.Delete | src/kv_cache_tier/tiers/hot_tier.py:42-49 | Removes the key and its bytes from the running total, and reports whether it was there |
| Storage.HotTier.Clear | src/kv_cache_tier/tiers/hot_tier.py:68-73 | Empties the tier and its accounting |
| Storage.DirectoryTier.Usage | src/kv_cache_tier/tiers/warm_tier.py:75-93 | Walking the files in any order gives the sum of their lengths and their number |
| Storage.DirectoryTier.IsFull | src/kv_cache_tier/tiers/base.py:36-42 | The same question, answered by a walk |
| Storage.DirectoryTier.Put | src/kv_cache_tier/tiers/warm_tier.py:30-39 | Accepted exactly when not full, the old copy of the key still counted |
| Storage.DirectoryTier.Delete | src/kv_cache_tier/tiers/cold_tier.py:58-67 | Removes the key's file and reports whether there was one |
| Index.CacheIndex.Add | src/kv_cache_tier/core/cache_metadata.py:32-34 | A new session goes last; a known one keeps its place |
| Index.CacheIndex.Remove | src/kv_cache_tier/core/cache_metadata.py:40-45 | Takes the session out, the others keep their order |
| Index.CacheIndex.SetTier | src/kv_cache_tier/core/tiered_manager.py:252 | Writing an entry's tier changes the index only if the entry is still filed |
| Index.CacheIndex.FindByTier | src/kv_cache_tier/core/cache_metadata.py:61-63 | The entries of a tier in index order, neither more nor fewer |
| Index.CacheIndex.Stats | src/kv_cache_tier/core/cache_metadata.py:98-114 | Number and total size of a tier's entries, in whatever order they are walked |
| Index.EvictionPolicy.SelectVictim | src/kv_cache_tier/eviction/base.py:42-47 | A policy object's answer is determined by its message history, and joins it |
| Lru.LruEvictionPolicy.OnAccess | src/kv_cache_tier/eviction/lru.py:25-30 | Reordering the list in place keeps it the list its messages determine: an access goes last |
| Lru.LruEvictionPolicy.OnInsert | src/kv_cache_tier/eviction/lru.py:32-34 | An insert appends, and a known id keeps its place |
| Lru.LruEvictionPolicy.OnRemove | src/kv_cache_tier/eviction/lru.py:36-39 | A removal keeps the order of the rest |
| Lru.LruEvictionPolicy.SelectVictim | src/kv_cache_tier/eviction/lru.py:41-53 | The scan, fallback included, picks whom the message history determines |
| Lru.RunIsLru | src/kv_cache_tier/eviction/lru.py:25-53 | In every reachable state the access list is the index in strict order of last touch, each session once, and every victim ever chosen was then the least recently touched candidate; a re-save is no touch |
| Lru.SelectIsOldest | src/kv_cache_tier/eviction/lru.py:46-53 | The list knows every candidate, so the fallback is never reached and the least recently touched one is picked |
| Lru.TouchKeepsOrder | src/kv_cache_tier/eviction/lru.py:25-39 | Inserts, accesses and removals keep the list in order of last touch |
| Lru.LoadTouchesOnce | src/kv_cache_tier/core/tiered_manager.py:173-185 | A load's only touch is its own; all that follows is choices and removals |
| Lru.LastTouchedLosesToAnyone | src/kv_cache_tier/eviction/lru.py:46-53 | While a session is the last touched it can be chosen only without rivals |
| Lru.PromotedIsChosenOnlyAlone | src/kv_cache_tier/core/tiered_manager.py:182-185 | During the promotion of a load the loaded session is chosen only when it is the sole indexed session of the tier asked |
| Traces.NextResume | src/kv_cache_tier/eviction/oracle.py:64-74 | The least resume time of the session strictly after t, and none when there is none, for traces in any order |
| Traces.TraceOracle.constructor | src/kv_cache_tier/eviction/oracle.py:55-62 | The dictionary built in one pass holds each session's resume times, sorted, and no other session |
| Traces.TraceOracle.NextResumeAfter | src/kv_cache_tier/eviction/oracle.py:64-74 | The binary search to the right of t finds that least later resume |
| Policies.FirstListedIsFirst | src/kv_cache_tier/eviction/lru.py:46-50 | Of the listed candidates the one listed first is picked |
| Policies.NoneListed | src/kv_cache_tier/eviction/lru.py:52-53 | When no candidate is listed the first one offered is |
| Policies.LowestScore | src/kv_cache_tier/eviction/oracle.py:190-194 | A candidate with the least score |
| Policies.Farthest | src/kv_cache_tier/eviction/oracle.py:96-100 | A candidate than whose next resume none is later |
| Scores.LowestIsFirst | src/kv_cache_tier/eviction/oracle.py:190-194 | Of candidates with the least score the one offered first is chosen |
| Scores.FarthestIsFirst | src/kv_cache_tier/eviction/oracle.py:96-100 | Of candidates resumed last the one offered first is chosen |
| Policies.ClassifierIsAntitone | src/kv_cache_tier/eviction/oracle.py:131-141 | The classifier's score is a strictly decreasing function of the time to the next resume, whatever the window; never counts as latest |
| Policies.LowestClassifierIsFarthest | src/kv_cache_tier/eviction/oracle.py:143-147 | First minimum of that score is first maximum of the next resume, on every candidate list |
| Policies.ClassifierIsBelady | src/kv_cache_tier/eviction/oracle.py:96-147 | The two policies answer every question alike |
| Scores.ClassifierClassifies | src/kv_cache_tier/eviction/oracle.py:131-141 | The classifier scores at least one exactly for sessions resumed within its window, and the tie-break adds less than a millionth |
| Scores.OraclesHaveNoEpoch | src/kv_cache_tier/eviction/oracle.py:64-74 | Moving the trace and the clock by one amount changes no choice of any of the three oracles |
| Scores.SpaceTimeRanks | src/kv_cache_tier/eviction/oracle.py:178-188 | Perfect space-time ranks by recompute time against bytes times the wait until the next resume, the floors of one byte and one second included, at any clock |
| Scores.SpaceTimeEvictsFarthest | src/kv_cache_tier/eviction/oracle.py:178-194 | Among sessions of one length and one size that all return, none waits longer than the victim |
| Scores.SpaceTimeEvictsTheDead | src/kv_cache_tier/eviction/oracle.py:178-194 | While some candidate never returns the victim is one that does not, or one with no tokens |
| Policies.ProportionalIffSameShape | src/kv_cache_tier/utils/cost_model.py:55-59 | Two cost models' recompute times are proportional exactly when their models have as many parameters per unit of attention width |
| Policies.SpaceTimeIgnoresScale | src/kv_cache_tier/eviction/oracle.py:178-194 | Perfect space-time decides alike under proportional recompute times |
| Policies.ValueDensityIgnoresScale | src/kv_cache_tier/eviction/value_density.py:137-169 | So does value density, victims and expiry both, when its threshold is rescaled along |
| Policies.EstimatedSpaceTimeIgnoresScale | src/kv_cache_tier/eviction/space_time.py:134-184 | So does estimated space-time, its gaps being averages of the accesses it heard of |
| Policies.ExpectedGap | src/kv_cache_tier/eviction/space_time.py:134-143 | An expected gap is at least a second |
| Policies.FieldOf | src/kv_cache_tier/eviction/predictive.py:116-117 | The heuristic's normalisers bound every candidate's access and token counts |
| Scores.PredictedEvictsLeastLikely | src/kv_cache_tier/eviction/predictive.py:132-153 | The predicted policy gives up one of the least likely |
| Scores.WorthRises | src/kv_cache_tier/eviction/space_time.py:145-157 | Less likely, cheaper to recompute, larger and slower never scores higher, for value density and estimated space-time |
| Scores.LikelierIsWorthMore | src/kv_cache_tier/eviction/value_density.py:112-131 | Everything else equal, the strictly less likely scores strictly less |
| Scores.SmallerIsWorthMore | src/kv_cache_tier/eviction/value_density.py:112-131 | So does the strictly larger |
| Scores.SoonerIsWorthMore | src/kv_cache_tier/eviction/space_time.py:145-157 | And the one expected to wait strictly longer |
| Scores.EstimatedEvictsSlowest | src/kv_cache_tier/eviction/space_time.py:134-181 | Among sessions of one length, size and chance, none is expected to wait longer than the victim of estimated space-time |
| Scores.ExpectedGapIs | src/kv_cache_tier/eviction/space_time.py:134-143 | The expected wait is the rhythm, the idle time or one second, whichever is longest |
| Scores.RhythmIsAverage | src/kv_cache_tier/eviction/space_time.py:109-123 | The moving average lies between the least and the greatest gap, so a regular rhythm is its own average |
| Scores.AverageMoves | src/kv_cache_tier/eviction/space_time.py:115-122 | A new gap moves the average by alpha times the difference |
| Scores.FirstGapCounts | src/kv_cache_tier/eviction/space_time.py:105-128 | The first gap counts from the insert, and a removal forgets nothing |
| Scores.HeuristicFalls | src/kv_cache_tier/eviction/predictive.py:111-130 | Less used, shorter and longer idle scores lower |
| Scores.HeuristicEvictsTheLast | src/kv_cache_tier/eviction/predictive.py:111-153 | Nobody offered is behind the victim in every respect |
| Scores.SharesOfScore | src/kv_cache_tier/eviction/predictive.py:111-130 | Each weight is for its own share: use, recency, length |
| Scores.FieldIsAttained | src/kv_cache_tier/eviction/predictive.py:116-117 | The normalising counts are those of candidates |
| Parameters.HeuristicShares | src/kv_cache_tier/config.py:51-53 | As configured, use and recency count for two fifths each and length for one |
| Parameters.WithinTheHour | src/kv_cache_tier/eviction/oracle.py:114-139 | The perfect classifier's window is an hour, at the end of which its tie-break is halved |
| Parameters.TwoHoursAtFirst | src/kv_cache_tier/eviction/__init__.py:32-33 | A session never seen to return is expected in two hours, and each new gap counts for three tenths |
| Admission.GateTurnsOut | benchmarks/experiment_runner.py:187-195 | A raw session of 2,048 tokens is due under admission control exactly when its chance is under 0.4543 times 1,048,640 / 1,048,576, and never without |
| Admission.GateIsMonotone | src/kv_cache_tier/eviction/value_density.py:161-169 | With a raw session the gate turns out every shorter one that is no likelier to return |
| Agreement.RunTwins | benchmarks/rescore_results.py:12-21 | Managers whose policies answer alike go through the same states and the same failures in every run |
| Agreement.ClassifierRunsAreBeladyRuns | src/kv_cache_tier/eviction/oracle.py:96-147 | Under the perfect classifier and under Belady every run is the same |
| BeladyOptimality.BeladyIsOptimal | src/kv_cache_tier/eviction/oracle.py:13-17 | Told a whole trace of starts, resumes and ends, in a cache of k equal slots that starts and resumes fill, Belady misses no more resumes than any victim sequence, if no resume has the time of an earlier event and sessions are started before all else |
| BeladyOptimality.BeladyIsOptimalOnResumes | src/kv_cache_tier/eviction/oracle.py:57-59 | The same for a cache that only resumes fill, on every trace whose resumes have distinct times |
| BeladyOptimality.TiesBeatBelady | src/kv_cache_tier/eviction/oracle.py:64-74 | Two resumes at one time, and a victim sequence that misses fewer of them |
| BeladyOptimality.RestartsBeatBelady | src/kv_cache_tier/eviction/oracle.py:50-59 | A cached session started again, and a victim sequence that misses fewer resumes |
| BeladyOptimality.SameFuture | src/kv_cache_tier/eviction/oracle.py:57-59 | Ends and starts change none of the oracle's answers |
| BeladyOptimality.MissesSplit | src/kv_cache_tier/eviction/oracle.py:50-52 | Every start misses whatever the policy, so policies differ in their misses at resumes only |
| BeladyOptimality.BeladyScheduleExists | src/kv_cache_tier/eviction/oracle.py:96-100 | Belady has such a schedule on every trace |
| BeladyOptimality.NextResumeIsNextUse | src/kv_cache_tier/eviction/oracle.py:64-74 | When no resume has the time of an earlier event, the oracle's answer at an event, for a session not started again, is the time of its next request |
| BeladyOptimality.BeladyPicksFarthest | src/kv_cache_tier/eviction/oracle.py:96-100 | The policy's pick among the cached sessions, shown in any order, is requested farthest away |
| BeladyOptimality.SoonerIsNoWorse | src/kv_cache_tier/eviction/oracle.py:13-17 | Exchange: holding a session requested no later than another costs no miss |
| BeladyOptimality.SwapCostsOne | src/kv_cache_tier/eviction/oracle.py:13-17 | Holding any session in place of another costs at most one miss |
| BeladyOptimality.FarthestUseIsOptimal | src/kv_cache_tier/eviction/oracle.py:13-17 | Evicting farthest next use misses least, whatever breaks the ties |
| CostModel.BreakEvenUpwardClosed | src/kv_cache_tier/utils/cost_model.py:93-108 | Once prefill exceeds restore it does for every longer context, for every positive geometry, latency and bandwidth |
| CostModel.NetPerToken | src/kv_cache_tier/utils/cost_model.py:9-19 | Prefill minus restore, per token, only grows |
| CostModel.SavingsSuperlinear | src/kv_cache_tier/utils/cost_model.py:93-108 | A hit on k times the tokens saves at least k times as much, at every tier |
| CostModel.BreakevenTokens | src/kv_cache_tier/utils/cost_model.py:110-121 | The binary search returns the first length of the linear scan, or none exactly when the scan finds none |
| CostModel.SearchAndScanDifferIff | benchmarks/breakeven_analysis.py:84-89 | Over their default ranges the two differ exactly when prefill is no dearer than restore at 299,999 tokens and dearer at 300,000 |
| CostModel.ScanMissesTheLast | benchmarks/breakeven_analysis.py:84-89 | A positive cost model on which the search finds 300,000 and the scan nothing |
| Architectures.RestoreFollowsKvHeads | src/kv_cache_tier/utils/hardware.py:41-42 | Transfer time is in proportion to the KV heads, whatever the query heads |
| Architectures.PrefillFollowsQueryHeads | src/kv_cache_tier/utils/hardware.py:44-48 | Attention work is in proportion to the query heads, whatever the KV heads, and the rest is two operations per parameter and token |
| Architectures.PublishedGeometry | tests/test_cost_model.py:16-20 | Bytes per token of the three shipped models |
| Architectures.AttentionOvertakes | tests/test_cost_model.py:35-40 | Attention overtakes the weights past 2P / 4LHd tokens, on any GPU |
| Architectures.PublishedCrossovers | tests/test_cost_model.py:35-40 | That is after 12,207, 26,702 and 53,405 tokens for the shipped models |
| Architectures.BetweenLinearAndQuadratic | tests/test_cost_model.py:23-32 | Twice the context costs more than twice and less than four times the prefill; none or fewer tokens cost nothing |
| Architectures.PublishedTable | tests/test_cost_model.py:43-52 | The published break-even lengths, warm and cold, of the three shipped models |
| Architectures.HotterSavesMore | tests/test_cost_model.py:61-66 | At every length a hit saves no less the hotter its tier |
| ValueDensity.SelectLowest | src/kv_cache_tier/eviction/value_density.py:137-159 | Filling the score table and taking its first minimum is the specified choice |
| ValueDensity.FirstMinimum | src/kv_cache_tier/eviction/oracle.py:190-194 | The earliest of the least scores is found in one pass |
| ValueDensity.ValuePerByteGrows | src/kv_cache_tier/eviction/value_density.py:112-133 | Recompute time per serialized byte strictly increases in tokens, header included |
| ValueDensity.EvictsTheShortest | src/kv_cache_tier/eviction/value_density.py:153-159 | Among candidates equally likely to return the victim has the fewest tokens |
| Crc32.ShiftByteInjective | src/kv_cache_tier/serialization/raw_binary_serde.py:84 | The register step loses no information |
| Crc32.FeedAllInjective | src/kv_cache_tier/serialization/raw_binary_serde.py:84 | Registers that differ stay different after any further bytes |
| Crc32.FeedFour | src/kv_cache_tier/serialization/raw_binary_serde.py:84 | Four bytes fed one by one are four bytes loaded at once and shifted out |
| Crc32.FourBytesInjective | src/kv_cache_tier/serialization/raw_binary_serde.py:84 | From one register, different four-byte words lead to different registers |
| Crc32.BurstChangesCrc | src/kv_cache_tier/serialization/raw_binary_serde.py:99-107 | A change within four consecutive bytes changes the checksum of data of any length |
| Division.PolynomialIsGenerator | src/kv_cache_tier/serialization/raw_binary_serde.py:21 | The register's constant is the generator of RFC 1952, given by its exponents |
| Division.DivisionIdentity | src/kv_cache_tier/serialization/raw_binary_serde.py:21 | Every dividend is a multiple of the generator plus its remainder |
| Division.DivisionIsUnique | src/kv_cache_tier/serialization/raw_binary_serde.py:21 | And has no other remainder of that length |
| Division.RegisterDivides | src/kv_cache_tier/serialization/raw_binary_serde.py:21 | Feeding bytes to the register divides register and message together, for every register and message |
| Division.CrcIsRemainder | src/kv_cache_tier/serialization/raw_binary_serde.py:21 | The checksum is the complement of the remainder of the message, its first 32 bits complemented, with 32 zeros appended |
| Division.CheckValue | src/kv_cache_tier/serialization/raw_binary_serde.py:21 | The checksum of the nine digits is 0xCBF43926 |
| RawBinary.SerializeBytes | src/kv_cache_tier/serialization/raw_binary_serde.py:48-88 | The loops over layers give the specified blob, or the specified error |
| RawBinary.DeserializeBytes | src/kv_cache_tier/serialization/raw_binary_serde.py:90-150 | The offset walk gives the specified cache, or the specified error |
| RawBinary.ReadAllLayers | src/kv_cache_tier/serialization/raw_binary_serde.py:134-150 | The running offset stays inside the blob and reads exactly the layers |
| WireProofs.HeaderRoundTrip | src/kv_cache_tier/serialization/raw_binary_serde.py:26-30 | Every header field, the checksum and the payload read back from their offsets |
| WireProofs.SampleBlob | src/kv_cache_tier/serialization/raw_binary_serde.py:48-88 | A two-layer cache written out byte for byte: signature, fields, checksum, padding, keys before values |
| WireProofs.SerializesIff | src/kv_cache_tier/serialization/raw_binary_serde.py:48-88 | A cache is written exactly when it is not empty, has every configured layer and layer 0, and fits the fields |
| WireProofs.AcceptedIff | src/kv_cache_tier/serialization/raw_binary_serde.py:90-132 | A blob is read exactly when it is signed, of version 1 or of version 2 with a right checksum, and as long as its header says; and which error is reported when it is not |
| WireProofs.RoundTrip | src/kv_cache_tier/serialization/raw_binary_serde.py:48-150 | A dense cache that its configuration describes comes back tensor for tensor, with the same layers, heads, head dimension and wire dtype |
| WireProofs.LegacyRoundTrip | src/kv_cache_tier/serialization/raw_binary_serde.py:108-110 | Version 1 blobs are still read |
| WireProofs.BlobLength | src/kv_cache_tier/config.py:22-26 | Blob length is 64 plus the configured session size exactly when the dtype is neither "fp16" nor "bfloat16", or there are no elements |
| WireProofs.HalfPrecisionDisagrees | src/kv_cache_tier/config.py:22-26 | An "fp16" cache of 68 bytes that the configuration counts as 72 |
| WireProofs.SerializedIsNotEmpty | src/kv_cache_tier/core/tiered_manager.py:164-169 | A serialized blob is never empty, so load cannot mistake it for missing data |
| WireProofs.PrefixRejected | src/kv_cache_tier/serialization/raw_binary_serde.py:90-132 | No strict prefix of a serialized cache is accepted |
| WireProofs.FullSizePrefixRejected | src/kv_cache_tier/serialization/raw_binary_serde.py:90-132 | That rests on the length check alone: it holds of any readable full-size blob, in either version, whatever its checksum |
| WireProofs.BurstDetected | src/kv_cache_tier/serialization/raw_binary_serde.py:99-107 | Damage within four consecutive payload bytes of any intact version-2 blob is a checksum error |
| WireProofs.CorruptionDetected | src/kv_cache_tier/serialization/raw_binary_serde.py:37-42 | Every serialized cache is intact, so such damage is never read back as a cache |
| EndToEnd.EncodeRoundTrip | src/kv_cache_tier/serialization/compression.py:92-98 | Serializing, compressing, decompressing and deserializing gives the cache back |
| EndToEnd.LoadYieldsTheCache | src/kv_cache_tier/core/tiered_manager.py:84-187 | If the last save of a session was a cache, loading after any run yields that cache or a miss, and yields it while cold is uncapped and the session not removed |
| BlockTable.CacheBlockTable.AddBlock | src/kv_cache_tier/core/cache_block.py:26-27 | Appends a block |
| BlockTable.CacheBlockTable.TotalSizeBytes | src/kv_cache_tier/core/cache_block.py:33-41 | The nested loops give the sum over all blocks and layers, in any layer order |
| BlockTable.CacheBlockTable.FromKvDict | src/kv_cache_tier/core/cache_block.py:71-104 | The loop gives the specified blocks, and fails exactly when layer 0 is missing from a non-empty cache |
| BlockTable.CacheBlockTable.ToKv | src/kv_cache_tier/core/cache_block.py:43-69 | Collecting and concatenating gives the specified cache, or fails where it has none |
| BlockTable.CacheBlockTable.MergeLayer | src/kv_cache_tier/core/cache_block.py:57-67 | One layer's pieces in block order, or failure when a block lacks the layer |
| BlockTable.SplitConserves | src/kv_cache_tier/core/cache_block.py:81-102 | Blocks are numbered in order, hold all tokens, all but the last are full and none is empty |
| BlockTable.SplitCount | src/kv_cache_tier/core/tiered_manager.py:119-121 | A cache splits into as many blocks as an index entry records for its tokens |
| BlockTable.SplitConservesBytes | src/kv_cache_tier/core/cache_block.py:90-94 | Blocks hold all bytes |
| BlockTable.SplitIsValid | src/kv_cache_tier/core/cache_block.py:106-125 | Blocks split from a cache that matches the configuration pass validation |
| Validation.SplitIsValidIff | src/kv_cache_tier/core/cache_block.py:106-125 | The blocks of a non-empty cache pass exactly when the cache has the configured number of layers, dtype and key shape |
| Validation.KeysCanBeMerged | src/kv_cache_tier/core/cache_block.py:106-125 | In a passing table the keys of a layer that every block has can be put together, and are as many tokens as the blocks count |
| Validation.ValidButNotMergeable | src/kv_cache_tier/core/cache_block.py:106-125 | Value shapes are not looked at: a passing table that cannot be merged |
| BlockTable.SortUndoesShuffle | src/kv_cache_tier/core/cache_block.py:48-49 | Sorting by logical index undoes any permutation |
| BlockTable.BlockRoundTrip | src/kv_cache_tier/core/cache_block.py:43-104 | Merging any permutation of a cache's blocks gives the cache back, for every length and block size of at least one |
| WireBlocks.PlanesRoundTrip | src/kv_cache_tier/core/cache_block.py:90-94 | Cutting a tensor's bytes in memory order along its token axis loses nothing and counts the same bytes |
| WireBlocks.PlanesAreTokens | src/kv_cache_tier/core/cache_block.py:90-94 | Each byte of a token and head is found at its place in memory order |
| WireBlocks.BlocksKeepTheCache | src/kv_cache_tier/core/cache_block.py:43-104 | A cache as the wire gives it, split and merged in any order, is that cache byte for byte |
| Replay.AdvanceTo | benchmarks/experiment_runner.py:310-315 | The clock is set before the overdue maintenance pass runs, through the manager class, as specified |
| Replay.ResumeSession | benchmarks/experiment_runner.py:326-357 | The tier and tokens credited are those noted before the load, through the manager class, as specified |
| Replay.ProcessEvent | benchmarks/experiment_runner.py:310-364 | One turn of the event loop, through the manager class, is the specified step of the replay |
| Replay.RunExperiment | benchmarks/experiment_runner.py:291-369 | The event loop returns the specified tally, or is abandoned exactly when the clock would run backwards or a save raises |
| Caching.ReplayIsRun | benchmarks/experiment_runner.py:310-364 | A replay is the run of a script of manager operations: it is abandoned exactly when the clock would run backwards or that run raises, and otherwise leaves the same state |
| Caching.PassIsRecent | benchmarks/experiment_runner.py:307-315 | After every event the last maintenance pass is less than 300 seconds old |
| Caching.PassesAreApart | benchmarks/experiment_runner.py:307-315 | Passes are at least 300 seconds apart |
| Caching.ProcessCaches | benchmarks/experiment_runner.py:317-364 | After every start and every resume, hit or miss, the event's session is indexed with its tokens and its tier holds the blob they make |
| Caching.ReplayCachesLatest | benchmarks/experiment_runner.py:317-364 | All through a replay every indexed session holds the blob of its latest start or resume |
| Caching.MissesAreFirsts | benchmarks/experiment_runner.py:325-364 | With an uncapped cold tier, under any policy, exactly the resumes of sessions neither started nor resumed before miss |
| Caching.ReplayAddsUp | benchmarks/experiment_runner.py:336-355 | The hits of each tier are its cells of the histogram |
| Pricing.SimBlobSize | benchmarks/experiment_runner.py:198-206 | The simulated cache of n tokens always serializes, to 64 + 512 min(n, 8192) bytes, and deserializes to itself |
| Pricing.HitIffIndexed | benchmarks/experiment_runner.py:331-336 | A load hits exactly when the session is indexed |
| Pricing.ReplayBalances | benchmarks/experiment_runner.py:291-369 | All through a replay: the token ledger is the index's, hits plus misses are the resumes, hits per tier and per histogram cell add up to the hits, and GPU-seconds are the histogram priced |
| Pricing.ResumeCredit | benchmarks/experiment_runner.py:325-357 | A resume is credited exactly when its session is indexed, with the entry's own token count and tier |
| Pricing.ReplayUnpriced | benchmarks/rescore_results.py:12-16 | Cost models leave no trace in the hits, misses, states and failures of policies that answer alike |
| Pricing.RescoreIsExact | benchmarks/experiment_runner.py:348-355 | One run's histogram, priced with the other cost model, is what that model's own run accumulates |
| Pricing.PolicyIgnoresPrices | benchmarks/rescore_results.py:43-44 | All five cost-model-free policies decide alike under any two cost models, all four cost-model-bound ones under any two of one shape |
| Pricing.ThresholdScales | benchmarks/experiment_runner.py:191-195 | The admission threshold scales with the recompute times |
| Pricing.RescoreByName | benchmarks/rescore_results.py:12-21 | Re-pricing is exact policy by policy, under those same conditions |
| Geometry.ShapeDecides | benchmarks/rescore_results.py:12-21 | Perfect space-time decides alike on every trace, and logs the same hits in every pair of finished experiments, exactly under models of one shape |
| Geometry.ShapeDecidesPredictions | benchmarks/rescore_results.py:12-21 | So do value density, with and without admission control, and estimated space-time, over all traces and all predictors of chances |
| Contests.ContestTally | benchmarks/experiment_runner.py:310-364 | Under any policy, a five-event experiment in which two sessions compete for the hot tier credits the first session resumed in warm if it was the one picked and in hot otherwise, and the other too |
| Geometry.SplitHits | benchmarks/rescore_results.py:18-21 | When two models make the policy pick different sessions, the experiment logs the first hit in different tiers |
| Geometry.RepricingNeedsShape | benchmarks/rescore_results.py:47-51 | When only hot hits of n and 2n tokens pay, for some n, re-pricing perfect space-time runs is exact everywhere exactly under one shape |
| Geometry.RepricingPredictionsNeedsShape | benchmarks/rescore_results.py:47-51 | The same of the policies that ask a predictor, over all predictors of chances |
| Geometry.ShippedPayHotOnly | src/kv_cache_tier/utils/hardware.py:74-89 | TinyLlama, Llama-2-7B and Llama-2-70B, priced on the A100 with the default storage, pay for hot hits only at some size |
| Geometry.ShippedRepriceWrongly | benchmarks/rescore_results.py:47-51 | Between any two of the three, some experiment's re-priced total is not the other's own, for perfect space-time and for each policy that asks a predictor |
| Pricing.Rescore | benchmarks/rescore_results.py:47-51 | The loop over the histogram, in any order, prices it |

## Left out

- Floating point: times, prices and scores are exact reals; rounding, and ties or order changes it could cause, are not modelled.
- Coherence.RunIsSound: runs in which a save raises end there, because the index is changed before the failing write; what a raise leaves is `RaisedSaveIsCoherentIff`.
- Descent.Durability: blobs are assumed non-empty, as serialized ones are; a stored empty blob reads as missing to load, demote and promote, and the specification keeps that branch.
- Lru.RunIsLru: the same assumption; the branch of load that drops an entry without telling the policy needs an empty blob.
- BeladyOptimality.BeladyIsOptimal: stated for the policy in a plain cache of equal slots, since a manager save frees room even when it overwrites and sessions differ in size.
- Index.EvictionPolicy.SelectVictim: the source leaves a policy's answer open; here it is a function of the messages sent, the clock and the candidates. A policy that draws at random is covered run by run, each answered question joining the history that later answers depend on; one that answers the same unanswered question differently is not.
- WireProofs.RoundTrip: the block size is not on the wire and comes back as the default; tensors whose element width is not that of the wire dtype are not covered.
- Geometry.RepricingNeedsShape: that different shapes make some re-priced total wrong is proved for target models that at some size pay for hot hits only, as the three shipped ones do.
- Geometry.RepricingPredictionsNeedsShape: the same.
- Lost.LostForGood: of runs without a raise; a save that raises files its session under warm with nothing behind it.
- Attempts.SaveGoesHotIff: of states with one copy per session; superseded copies take room that no eviction frees, up to whole tiers (`Lost.LostForGood`).
- Promotions.LoadReachesHot: the same; `Promotions.LoadPromotes` needs no such state, but the outcome of making room.
- Maintenance.MaintainLowersDue: of passes that find room below; what a cascade does to others when it does not is `Descent.PathDescends`.
- Admission.GateIsMonotone: of uncompressed simulated blobs.
- Policies are one datatype, not an open class hierarchy; an answer that is not one of the candidates counts as no answer.
- Predictors and feature extraction: the chance of a resume is an uninterpreted function of the messages, the clock and the candidate; so is the exponential decay of the heuristic's recency.
- TTL eviction, the session manager and the interceptor: thin layers over the operations modelled here.
- Files, directories, object storage, JSON persistence of the index: a directory is a map from keys to bytes, and I/O errors do not happen.
- Locks and threads: the manager documents a single caller.
- LZ4, Zstandard and safetensors: a compressor is any pair of functions, the second undoing the first.
- A blob that fails to deserialize during load raises after the access was recorded; the manager model stores blobs without reading them.
- Unknown tier names, and block size zero: both raise at once in the source; tiers are an enumeration and block sizes are at least one.
- model_config_hash and metadata of an entry, find_by_user, find_oldest and update of the index: nothing modelled depends on them.
- Tier capacities are fixed when a manager is built; the two-tier experiment's cold capacity of one byte is passed in.
- The size_bytes override of the cost model, dollars, per-day scaling, percentiles, latencies and aggregation over seeds.
- np.concatenate on differing shapes or dtypes counts as failure; NumPy would promote some differing dtypes.
- Metrics, logging, dashboards, workload generation, trace parsing and figures.
