# tierstore, verified

A Dafny model of the tierstore storage-tier router and of what hangs on it: the
tiers that must meet its contract, the gates and permits around it, and the
promises the store and the cache make on top.

## What is modelled

**The contract.** Every tier reports what an insert displaced. The one contract all
proofs rest on is `Bindings.Accepted`: what is left, laid over the displaced list
(latest binding on top), is the old contents with the new entries written in order.
An insert that meets it has lost nothing silently. `Tiers.Backend` is a tier as a
record of its calls, any of which may fail; `Honest` is the contract of all calls.

**The router.** A stack is read as a first-match overlay (`Views.View`): the topmost
copy of a key wins. `Stack` says what each router operation does to a stack, call by
call and counter by counter; `Router` is the class whose methods run the loops of
the source and are proved equal to it; `Views`, `Reads`, `Batches`, `Contract`,
`Runs`, `ReadPaths`, `Faults`, `Provenance` prove what those functions mean;
`WriteAnswers`, `ReadAnswers` and `RemovalAnswers` prove, from what each tier replies to
its own call, what every operation answers and does to every tier it touches, whatever
fails (`Blame` says which tiers an error names), and `Promotions` that promotion happens. The stack has any
depth, tiers evict whatever they like, and errors strike anywhere unless a theorem
says otherwise. `Nested` closes the circle: a router meets the contract it assumes
of its tiers. `ReadFlow` is the state machine that steers a single read.

**The tiers.** `Recency` is a bounded cache as a plain list in eviction order.
`Memory` (the stamped-ticket queue) and `MmapDisk` (file per key, stamps from a
counter that wraps) both stand for that list; `SlotMmap` updates one byte array in
place and stands for the table of `SlotTable`, whose slots are the records of
`Records`. `EvictionOrder` and `SlotOrder` prove who goes first from the time each key
came in or was last used, without the list or queue the tier keeps. `HexNames` is the file naming of the mmap tier.

**The waiting.** `SingleFlight`, `Limited` and `Coalescing` are step systems: any
number of calls, interleaved at every lock, await and reference-count change, and
cancelled where the source can be cancelled.

**The presets.** `Store` is the authoritative preset and its loss semantics;
`Counterexamples` shows, on concrete stacks, where its promise does not hold and where
copies stop agreeing.

## How to read it

Modules follow the source's components; one file each. Loops, classes and arrays
stand where the source has them, each method proved against a function on values,
and the lemmas are about those functions. Lemma headers switch automatic induction
off, so every induction is written out. `dafny verify dfyconfig.toml` checks all of
it.

## Where the code and its documentation differ

- The comment on the gate clean-up in `single_flight.rs` concedes that a racing call
  can end up on a detached gate. In this code it cannot (`SingleFlight.NeverDetached`):
  a reference count of two leaves nobody who could still look the gate up. What can
  happen is that an entry outlives its calls (`SingleFlight.EntryCanOutliveCalls`),
  which costs memory only (`SingleFlight.LeftoverIsFree`).
- `TieredStore::put` promises that it succeeds only if everything was retained. A
  demotion inside it that a lower tier refuses is dropped and only counted, and the
  put still succeeds (`Counterexamples.SilentDrop`, two puts on empty tiers). The
  promise holds whenever no error was counted during the call (`Store.LossIsLoud`). With
  errors counted it holds, on a stack whose copies agree, exactly when every key that a
  refused demotion carried still has a copy in some tier (`Store.KeptExactly`).
- A comment in the slot tier's insert says that an entry that cannot be stored must
  not cost an existing one its slot. It does when no slot is free, the key is new and a
  length is too large for its header field though the entry fits the slot, and only then
  (`SlotTable.FailureCostsEntry`). With a slot free the same insert leaks that slot
  instead (`SlotTable.LateErrorLosesSlot`).

## Model

| member | source | states |
|---|---|---|
| Bindings.AcceptedAt | crates/tierstore-core/src/tier.rs:174-189 | the insert contract key by key: the surviving copy, else the displaced one, is the newly written value, else the old one |
| Bindings.AcceptedChain | crates/tierstore-core/src/tier.rs:200-226 | two inserts in a row meet the contract of the joined batch with the displaced lists joined |
| Defaults.Core.TierHonest | crates/tierstore-core/src/tier.rs:69-252 | a tier honest on single calls stays honest, and fails no more often, under the default batched calls that loop and abort at the first error |
| Defaults.Core.BatchesOfOne | crates/tierstore-core/src/tier.rs:85-226 | a default batch of one is the single call |
| Defaults.Core.BatchesInTurn | crates/tierstore-core/src/tier.rs:200-226 | a default batch in two parts is the first part and then, unless it failed, the second, with the displaced lists joined; so the loop stops where the first entry fails |
| Defaults.Core.ReadsInTurn | crates/tierstore-core/src/tier.rs:69-120 | the same of the default batched read |
| Defaults.Core.DeletesInTurn | crates/tierstore-core/src/tier.rs:228-252 | the same of the default batched delete |
| ReadFlow.ReadFlow.constructor | crates/tierstore-core/src/read.rs:99-111 | a read starts at tier 0, or is a confirmed miss when there are no tiers |
| ReadFlow.ReadFlow.OnGet | crates/tierstore-core/src/read.rs:130-147 | called only while probing (the panic is unreachable), moves to the state the answer calls for and nearer the end |
| ReadFlow.ReadFlow.OnPromote | crates/tierstore-core/src/read.rs:157-175 | called only while promoting under a promoting policy (both panics are unreachable), moves one tier on or ends |
| ReadFlow.FlowTrace | crates/tierstore-core/src/read.rs:94-197 | for every pattern of answers the whole instruction list is: probe each tier once in order up to the first hit (or fail-fast error), promote into exactly the tiers the policy names, end with the right verdict |
| ReadFlow.PromotionTrace | crates/tierstore-core/src/read.rs:157-196 | promotion visits exactly tier 0, or tiers 0 up to the hit, top first, each once |
| Views.ViewAt | crates/tierstore/src/router.rs:485-539 | the overlay map gives a key the value of the topmost tier that holds it |
| Views.CascadeAt | crates/tierstore/src/router.rs:283-307 | the demotion cascade keeps the view: final tiers over what fell off the bottom equal the displaced list, newest first, over the old tiers, for every key no refused demotion carried |
| Views.CascadeErrors | crates/tierstore/src/router.rs:295-302 | every binding a demotion drops is matched by exactly one error-counter increment |
| Views.WriteThroughAt | crates/tierstore/src/router.rs:611-649 | a write-through with demotion, errors tolerated: every key not rejected or dropped reads, through the new stack over the evicted list, as its new binding, else its old value |
| Views.WriteAroundAt | crates/tierstore/src/router.rs:651-688 | a successful write-around leaves no stale upper copy: every key reads as its new binding, else its old value |
| Router.Router.Demote | crates/tierstore/src/router.rs:283-307 | the loop over targets leaves tiers up to `from` untouched and is the recursive cascade on the rest; what falls off is returned |
| Router.Router.PourInto | crates/tierstore/src/router.rs:293-302 | one tier takes the entries one by one: successes counted and their displacements collected in order, refused entries counted and dropped |
| Router.Router.WriteThroughAll | crates/tierstore/src/router.rs:612-649 | the bottom-up loop is the recursive write-through: all slots, counters, the evicted list, and the tier where it aborted |
| Router.Router.WriteAroundAll | crates/tierstore/src/router.rs:652-688 | bottom write, then invalidation of every writable tier above, all failures reported |
| Router.Router.Put | crates/tierstore/src/router.rs:609-690 | a put is the stack's write of one entry under the policy |
| Router.Router.PutMany | crates/tierstore/src/router.rs:725-798 | a batched put is the stack's write of the batch |
| Router.Router.Get | crates/tierstore/src/router.rs:485-539 | the flow-driven loop is the recursive read: outcome, failures, counters and promotions |
| Router.Router.Exists | crates/tierstore/src/router.rs:541-584 | the existence loop is the recursive check and never promotes |
| Router.Router.PromoteBatch | crates/tierstore/src/router.rs:316-358 | grouping hits by tier and filling upward is the recursive promotion, tier by tier |
| Router.Router.ReadMany | crates/tierstore/src/router.rs:370-422 | the batched sweep is the recursive one: per-key statuses, failures, counters, promotion |
| Router.Router.ReadOne | crates/tierstore/src/router.rs:431-439 | a single read by the batched path, its fallback unreachable |
| Router.Router.GetMany | crates/tierstore/src/router.rs:590-601 | one unresolved key makes the whole batch inconclusive, otherwise the values |
| Router.Router.Delete | crates/tierstore/src/router.rs:692-720 | every writable tier is attempted whatever fails before it |
| Router.Router.RemoveMany | crates/tierstore/src/router.rs:446-467 | every writable tier is attempted for all keys, flags joined per key, failures listed |
| Router.Router.DeleteMany | crates/tierstore/src/router.rs:804-811 | the flags if complete, a partial failure otherwise |
| Reads.ProbeFinds | crates/tierstore/src/router.rs:491-506 | under fall-through a read hits the topmost answering tier that holds the key, and is inconclusive exactly when none did and some tier failed |
| Reads.GetAt | crates/tierstore/src/router.rs:485-539 | a read that meets no error answers the view's value; with what promotion pushed off the bottom laid under, every key still reads the same |
| Reads.ExistsAt | crates/tierstore/src/router.rs:541-584 | an existence check that meets no error answers whether the view holds the key and changes no key |
| Batches.HonestStatuses | crates/tierstore/src/router.rs:370-422 | every key of a batch, duplicates included and in order, is a hit at the topmost answering tier holding it, a miss only if all tiers answered, inconclusive otherwise |
| Batches.ReadManyAt | crates/tierstore/src/router.rs:370-422 | a batched read that meets no error answers the view and keeps it |
| Batches.TrueAnswers | crates/tierstore/src/router.rs:413-421 | a report without failures is the view, key by key |
| ReadAnswers.GetAnswers | crates/tierstore/src/router.rs:485-539 | for every fault pattern the topmost reply that ends the search decides a read; without one it is a miss if every tier replied, otherwise inconclusive, naming exactly the tiers that failed; only the tiers down to the deciding one are asked, one count each |
| ReadAnswers.ExistsAnswers | crates/tierstore/src/router.rs:541-584 | under fall-through a check is true exactly when an answering tier holds the key, false exactly when all answered and none holds it, otherwise inconclusive with exactly the failing tiers |
| ReadAnswers.ReadManyAnswers | crates/tierstore/src/router.rs:370-422 | a batched read asks each tier in one call for the keys no answering tier above holds, reports unless fail-fast meets a failing tier (which it names), and lists exactly the tiers that failed |
| ReadAnswers.GetManyAnswers | crates/tierstore/src/router.rs:590-601 | for every fault pattern: the first failing tier under fail-fast, else inconclusive exactly when some key has no serving copy past a failure, else every key's serving copy |
| Promotions.GetWritesTop | crates/tierstore/src/router.rs:509-531 | a hit below the top under a promoting policy puts the binding into a writable top tier, on the state its own read left, and counts it |
| Promotions.GetWritesNamed | crates/tierstore/src/router.rs:509-531 | every writable tier the policy names takes the binding by its own put, after the fills above it, and is not touched again |
| Promotions.GetPromotes | crates/tierstore/src/router.rs:509-531 | after a read that counts no error every such tier holds the value read, unless it handed it straight back |
| Promotions.ReadManyWritesTop | crates/tierstore/src/router.rs:316-358 | after a batched read a writable top tier is as its own batched read and then one batched put per lower tier that served something leave it, with exactly what that tier served |
| Promotions.HitsListed | crates/tierstore/src/router.rs:322-334 | what a tier served is exactly its hits, in request order |
| Promotions.BatchPromotes | crates/tierstore/src/router.rs:336-358 | after an error-free batch promotion every writable tier the policy names holds what the tier served, unless it handed it straight back |
| ReadPaths.ReadPathsAgree | crates/tierstore/src/router.rs:424-539 | the flow-driven read and the batched read of one key give the same outcome and leave the same tiers and counters, for every policy, fault pattern and stack of tiers whose one-key batch is the single call |
| Contract.DeleteAt | crates/tierstore/src/router.rs:692-720 | after a delete without failures the key reads as its first read-only copy (gone if all tiers are writable), other keys as before; the flag is truthful |
| Contract.RemoveAt | crates/tierstore/src/router.rs:446-467 | the same for a batch of keys |
| Contract.RemoveFlags | crates/tierstore/src/router.rs:446-467 | each flag says whether the key was present at that point of the batch |
| Contract.WriteAt | crates/tierstore/src/router.rs:609-798 | a write during which no error was counted succeeds and reads as the batch in order over the old view, evicted entries included, read-only suffix allowed |
| Contract.NothingLostQuietly | crates/tierstore/src/router.rs:609-798 | on an all-writable stack such a write meets the insert contract: new view over the evicted list is the old view with the batch applied |
| Contract.WriteRoomy | crates/tierstore/src/router.rs:609-798 | over a bottom tier that never displaces, a write evicts nothing |
| WriteAnswers.ThroughAnswers | crates/tierstore/src/router.rs:611-649 | for every fault pattern a write-through is read-only exactly when no tier is writable; under best effort it otherwise always succeeds; under fail-fast it fails exactly when a tier's own call fails, naming the lowest such tier |
| WriteAnswers.BestEffortReachesTop | crates/tierstore/src/router.rs:620-648 | under best effort the topmost writable tier ends as its own call leaves it, counters included, whatever the tiers below did |
| WriteAnswers.WithoutDemotion | crates/tierstore/src/router.rs:623-648 | with demotion off the write is every writable tier's own call and nothing else, and hands back all they displaced, bottom-up |
| WriteAnswers.OneTierMeetsContract | crates/tierstore/src/router.rs:609-649 | over one writable tier an error-free write meets the insert contract with demotion on or off |
| WriteAnswers.AroundAnswers | crates/tierstore/src/router.rs:651-688 | for every fault pattern a write-around answers the bottom tier's refusal, else a partial error naming exactly the writable tiers above whose removal failed, else what the bottom tier displaced |
| WriteAnswers.AroundWrites | crates/tierstore/src/router.rs:655-680 | it writes the bottom writable tier and, if that succeeds, has every writable tier above remove the keys; otherwise nothing else changes |
| WriteAnswers.PourInTurn | crates/tierstore/src/router.rs:293-302 | demoted entries reach a tier one put each, in order: pouring two lists is pouring the first and then the second |
| RemovalAnswers.DeleteAnswers | crates/tierstore/src/router.rs:692-720 | for every fault pattern a delete asks every writable tier, succeeds exactly when no error was counted, says then whether some tier had the key, and otherwise names exactly the writable tiers that failed |
| RemovalAnswers.RemoveManyTells | crates/tierstore/src/router.rs:446-467 | the batched report flags exactly the keys some answering tier had and lists exactly the writable tiers that failed |
| RemovalAnswers.DeleteManyAnswers | crates/tierstore/src/router.rs:804-811 | for every fault pattern: those flags exactly when no error was counted, otherwise a partial error naming exactly the failing tiers |
| Runs.StepRefines | crates/tierstore/src/router.rs:283-811 | every operation answers, and changes the view, as one flat map would |
| Runs.FlatMap | crates/tierstore/src/router.rs:283-811 | so does every finite run of puts, batched puts, gets, batched reads, existence checks, deletes and batched removals, under every promote and write mode and any eviction above the bottom |
| Faults.AbortsCleanly | crates/tierstore/src/router.rs:620-648 | a fail-fast write that fails at tier i leaves every tier above exactly as it was, every writable tier below accepted it, and drops match error counts one for one |
| Faults.StepCopies | crates/tierstore/src/router.rs:283-798 | one operation whose own writes succeed keeps all copies of a key equal to the value last put, whatever promotions, demotions and deletes fail; a batch written through with demotion must have no tier hand back a binding it superseded |
| Faults.NeverStale | crates/tierstore/src/router.rs:283-798 | so over whole runs, over evicting tiers too, every hit, however many failing tiers it passed, is the value last put |
| Faults.WriteThroughCopies | crates/tierstore/src/router.rs:609-760 | a single put, and a batch that supersedes nothing it demotes, moves every copy to the new value, and drops only last values |
| Faults.BatchAgreesBelow | crates/tierstore/src/router.rs:725-759 | after an error-free batch the tiers below the top show a batch key's new value exactly when the top tier did not hand back a superseded binding of it |
| Provenance.CoreIsGenuine | crates/tierstore-core/src/tier.rs:185-252 | a tier whose single calls hand back only bindings held or given does so in the default batched calls, whatever fails on the way |
| Nested.RouterIsATier | crates/tierstore/src/router.rs:470-812 | a router over honest, reliable tiers is itself an honest, reliable tier, and never displaces over a bottom that never does |
| Recency.InsertAccepted | crates/tierstore/src/memory.rs:80-115 | a bounded insert ends within both bounds, meets the insert contract, and displaces exactly keys no longer held |
| Recency.ExcessShortest | crates/tierstore/src/memory.rs:161-184 | eviction takes the shortest prefix in eviction order that restores both bounds |
| Recency.HeldSplit | crates/tierstore/src/memory.rs:161-184 | displaced and kept entries split the contents: no binding in both, none in neither |
| EvictionOrder.OldestEvicted | crates/tierstore/src/memory.rs:80-184 | over any run of puts, uses and removals, a key a put evicts is older than every key it leaves: by arrival under FIFO, by last put or use under LRU |
| EvictionOrder.BoundsMet | crates/tierstore/src/memory.rs:161-189 | after an insert the number and the summed weight of the entries are within their limits, and had one fewer gone one limit would be exceeded |
| EvictionOrder.WeightAdds | crates/tierstore/src/memory.rs:80-115 | the weight held is the sum of the entries' weights |
| Memory.LiveSize | crates/tierstore/src/memory.rs:56-66 | exactly one live ticket per entry |
| Memory.PopTicket | crates/tierstore/src/memory.rs:168-182 | a stale ticket changes nothing when popped, a live one is the oldest item |
| Memory.SweptLive | crates/tierstore/src/memory.rs:207-213 | a sweep keeps the live items in order, one ticket each |
| Memory.Inner.Insert | crates/tierstore/src/memory.rs:80-115 | FIFO replaces in place, LRU moves to the end, new keys go last, then the shortest over-bound prefix is displaced; stale tickets never outgrow their bound and cost is amortised |
| Memory.Inner.InsertBatch | crates/tierstore/src/memory.rs:117-128 | a batch is its inserts one by one, displaced lists joined |
| Memory.Inner.Touch | crates/tierstore/src/memory.rs:130-138 | a touch moves the entry to the end of the eviction order |
| Memory.Inner.Fetch | crates/tierstore/src/memory.rs:140-148 | a fetch answers the contents; under LRU it counts as a use |
| Memory.Inner.EvictOver | crates/tierstore/src/memory.rs:165-184 | the eviction loop displaces exactly the shortest prefix, skipping stale tickets |
| Memory.Inner.Compact | crates/tierstore/src/memory.rs:205-213 | the queue ends no longer than twice the entries (at least 16), the order unchanged |
| Memory.Inner.Remove | crates/tierstore/src/memory.rs:191-199 | removal takes out one entry and leaves its ticket stale |
| MemoryTier.MemoryIsATier | crates/tierstore/src/memory.rs:80-203 | the memory tier meets the whole tier contract under every bound and order, and never displaces when unbounded |
| MemoryTier.BatchIsLoop | crates/tierstore/src/memory.rs:117-128 | the batch under one lock is the loop of single inserts |
| MemoryTier.MemoryPutGenuine | crates/tierstore/src/memory.rs:80-115 | a single put hands back only bindings that were held or just written, and no old one of its own key |
| MemoryTier.MemoryIsGenuine | crates/tierstore/src/memory.rs:80-203 | the same of every memory tier, under any bound and order, for single and batched puts and deletes |
| MemoryTier.LruInclusion | crates/tierstore/src/memory.rs:80-203 | two LRU tiers of capacities n <= m fed the same calls: the smaller's contents stay within the larger's, with equal values, and the larger hits whenever the smaller does |
| MemoryTier.Drive | crates/tierstore/src/memory.rs:113-213 | over any run of n calls whose running total never overflows the tickets visited total at most 2n, and with an entry bound N the queue stays within max(16, 2N+2) |
| Store.LossIsLoud | crates/tierstore/src/store.rs:190-212 | with no tier error counted, success means the view is the old one with the batch applied, and an eviction error carries every lost binding |
| Store.PutAnswers | crates/tierstore/src/store.rs:190-212 | for every fault pattern a store put fails with tier i's error exactly when tier i is the lowest writable tier whose own call fails, and read-only exactly when no tier is writable; otherwise it succeeds or carries a nonempty evicted list |
| Store.KeptButDropped | crates/tierstore/src/store.rs:190-212 | a success with errors counted still holds for every key no refused demotion carried |
| Store.KeptExactly | crates/tierstore/src/store.rs:190-212 | on a stack whose copies agree, a successful put kept everything exactly when every key a refused demotion carried still has a copy |
| Store.ReadsAreAuthoritative | crates/tierstore/src/store.rs:138-162 | a store read that returns is the view's value, a miss is confirmed, and nothing moves |
| Counterexamples.SilentDrop | crates/tierstore/src/store.rs:182-197 | from two empty honest tiers, two successful store puts after which the first key is gone |
| Counterexamples.BatchLeavesOldBelow | crates/tierstore/src/router.rs:725-759 | a batched put without any error after which the tier below holds the old value of a key whose new value is above |
| Wakers.Register | crates/tierstore/src/single_flight.rs:53-57 | a waker is queued unless one that wakes the same task is |
| SingleFlight.GateState.TryAcquire | crates/tierstore/src/single_flight.rs:50-62 | takes a free gate, registers the waker otherwise |
| SingleFlight.GateState.Release | crates/tierstore/src/single_flight.rs:64-69 | frees the gate and returns every registered waker |
| SingleFlight.StepKeeps | crates/tierstore/src/single_flight.rs:91-153 | every lookup, poll, claim, cancellation, release, wake, clean-up and reference drop keeps the invariant |
| SingleFlight.MutualExclusion | crates/tierstore/src/single_flight.rs:88-153 | at most one live guard per key in every reachable state |
| SingleFlight.NeverDetached | crates/tierstore/src/single_flight.rs:142-152 | every call that waits, holds or releases uses the gate now in the map |
| SingleFlight.CleanupExact | crates/tierstore/src/single_flight.rs:146-152 | the reference count of two holds exactly when no other call refers to the gate |
| SingleFlight.CleanupRemoves | crates/tierstore/src/single_flight.rs:142-152 | the clean-up takes the key out of the map unless another call refers to its gate, and touches no other key |
| SingleFlight.KeysDoNotContend | crates/tierstore/src/single_flight.rs:32-37 | calls for distinct keys never share a gate |
| SingleFlight.NoLostWakeup | crates/tierstore/src/single_flight.rs:50-141 | a call that last saw Pending is woken, on a releaser's list, or registered behind a live owner |
| SingleFlight.NoDeadlock | crates/tierstore/src/single_flight.rs:64-141 | with no owner and nobody waking, every waiter of the key has been woken and the gate is free |
| SingleFlight.LeftoverIsFree | crates/tierstore/src/single_flight.rs:142-152 | an entry no call refers to is a free gate without wakers |
| SingleFlight.EntryCanOutliveCalls | crates/tierstore/src/single_flight.rs:142-152 | a run after which an entry remains though no call does |
| Limited.SemState.TryAcquire | crates/tierstore/src/limited.rs:75-85 | takes a permit if one is left, registers the waker otherwise |
| Limited.SemState.Release | crates/tierstore/src/limited.rs:87-92 | returns a permit and every registered waker |
| Limited.StepKeeps | crates/tierstore/src/limited.rs:74-140 | every step, cancellation included, keeps the invariant |
| Limited.BoundedAdmission | crates/tierstore/src/limited.rs:74-140 | permits out plus permits left is the limit, in every reachable state |
| Limited.NoLostWakeup | crates/tierstore/src/limited.rs:74-140 | a call that last saw Pending is woken, about to be, or registered while every permit is out |
| Limited.NoDeadlock | crates/tierstore/src/limited.rs:131-140 | with nobody admitted and nobody waking, every waiter has been woken and all permits are back |
| Coalescing.OneLoader | crates/tierstore/src/cache.rs:206-216 | at most one caller per key is loading or about to fill |
| Coalescing.StepKeeps | crates/tierstore/src/cache.rs:192-217 | every step of probe, gate, second probe, load, fill, release and cancellation keeps the invariant |
| Coalescing.LoadsCoalesce | crates/tierstore/src/cache.rs:177-217 | one fill per key at most, successful loads at most one plus those cancelled before their fill, and no loading once a value is stored |
| Coalescing.OneAnswer | crates/tierstore/src/cache.rs:192-217 | all callers of a key that return a value return the same one, the stored one |
| Coalescing.EveryoneAnswered | crates/tierstore/src/cache.rs:192-217 | over whole runs a caller that ended has no value exactly when it was cancelled, gave up its wait, or its loader failed; otherwise it has the stored value of its key |
| Coalescing.LoadedIsAnswer | crates/tierstore/src/cache.rs:210-216 | a caller whose loader yielded a value carries it to its end, unless cancelled |
| Coalescing.ProbeAnswers | crates/tierstore/src/cache.rs:197-209 | once a key is stored, a caller whose first or second probe comes after ends with the stored value and never loads |
| Records.Le16 | crates/rollover-demo/src/slot_mmap.rs:153-153 | the two length bytes decode to the length |
| Records.Le32 | crates/rollover-demo/src/slot_mmap.rs:154-154 | the four length bytes decode to the length |
| Records.Layout | crates/rollover-demo/src/slot_mmap.rs:146-160 | the record byte by byte: used mark, both lengths lowest byte first, key, value |
| Records.ValueRange | crates/rollover-demo/src/slot_mmap.rs:119-135 | a used record's value lies inside its slot |
| Records.ReadsBack | crates/rollover-demo/src/slot_mmap.rs:137-160 | what is written into a slot is what is read, whatever lies behind it |
| Records.WriteIsLocal | crates/rollover-demo/src/slot_mmap.rs:146-160 | a write in one slot never disturbs another |
| SlotTable.FetchIsLookup | crates/rollover-demo/src/slot_mmap.rs:173-178 | fetching through the index and the bytes is looking up the map |
| SlotTable.OldestTaken | crates/rollover-demo/src/slot_mmap.rs:194-206 | with no slot free the oldest key goes, and exactly its entry is handed back |
| SlotOrder.InsertOrder | crates/rollover-demo/src/slot_mmap.rs:180-211 | a new key is queued last, the others keep their order, the key handed back was first, and a replacement leaves the queue alone |
| SlotOrder.RemoveOrder | crates/rollover-demo/src/slot_mmap.rs:213-225 | a removal takes exactly one key out of the queue |
| SlotOrder.FirstInFirstOut | crates/rollover-demo/src/slot_mmap.rs:180-225 | over any run of inserts and removals, failed ones included, a key that an insert puts out came in before every other key held |
| SlotOrder.ReopenedByAge | crates/rollover-demo/src/slot_mmap.rs:79-91 | a reopened file queues its keys in slot order |
| SlotTable.InsertKeeps | crates/rollover-demo/src/slot_mmap.rs:180-211 | an insert keeps index, free list, order and bytes in agreement, meets the insert contract, succeeds exactly when the entry fits and there is a slot, and changes nothing when it fails |
| SlotTable.LateErrorLosesSlot | crates/rollover-demo/src/slot_mmap.rs:146-211 | the agreement breaks exactly for a new key with a length its header field cannot hold in a slot that would fit it |
| SlotTable.FailureCostsEntry | crates/rollover-demo/src/slot_mmap.rs:180-211 | a failed insert changes the contents exactly in that case with no slot free |
| SlotTable.RemoveKeeps | crates/rollover-demo/src/slot_mmap.rs:213-222 | removal frees exactly the key's slot and keeps the agreement |
| SlotTable.ScanAgrees | crates/rollover-demo/src/slot_mmap.rs:78-88 | opening any file of the right length gives an agreeing table exactly when no two slots hold the same key |
| SlotTable.ReopenRestores | crates/rollover-demo/src/slot_mmap.rs:78-88 | rescanning the bytes rebuilds exactly the index, the contents, the free slots and the queued keys |
| SlotMmap.SlotMmap.constructor | crates/rollover-demo/src/slot_mmap.rs:58-98 | the scan loop over the mapped array is the specified scan |
| SlotMmap.SlotMmap.WriteSlot | crates/rollover-demo/src/slot_mmap.rs:146-160 | the in-place copies write exactly the record over the front of the slot, or nothing on a length error |
| SlotMmap.SlotMmap.Insert | crates/rollover-demo/src/slot_mmap.rs:180-211 | the in-place insert is the specified one, meets the insert contract, and loses validity exactly on the late length error |
| SlotMmap.SlotMmap.Remove | crates/rollover-demo/src/slot_mmap.rs:213-222 | the in-place removal takes exactly the key out of the contents |
| SlotMmap.SlotMmap.Fetch | crates/rollover-demo/src/slot_mmap.rs:173-178 | answers the contents |
| SlotMmap.SlotMmap.Exists | crates/rollover-demo/src/slot_mmap.rs:240-242 | answers whether the contents hold the key |
| HexNames.RoundTrip | crates/tierstore-mmap/src/tier.rs:316-333 | decoding a key's file name gives the key's bytes back |
| HexNames.NameAt | crates/tierstore-mmap/src/tier.rs:316-323 | each byte is two characters, high half first, each the lower-case digit counted up from '0' or 'a' |
| HexNames.PairRead | crates/tierstore-mmap/src/tier.rs:325-333 | two characters read as a byte exactly when they are its digits in either case, or a plus sign and its digit |
| HexNames.TemporaryRejected | crates/tierstore-mmap/src/tier.rs:416-420 | no temporary file name decodes |
| HexNames.Canonical | crates/tierstore-mmap/src/tier.rs:316-333 | a name of lower-case digits decodes exactly when its length is even, and encodes back to itself |
| DiskBooks.Rebuilt | crates/tierstore-mmap/src/tier.rs:126-141 | renumbering keeps the same items live in the same order, with stamps rising from 1 without gaps |
| DiskBooks.LiveKeysOnce | crates/tierstore-mmap/src/tier.rs:60-66 | a rising queue holds one live ticket per key |
| DiskBooks.FileIsHeld | crates/tierstore-mmap/src/tier.rs:346-383 | a key is held exactly when its file exists, with the file's contents, and a retained mapping shows the same |
| DiskBooks.ReopenRestores | crates/tierstore-mmap/src/tier.rs:287-314 | a tier opened on the same directory has the same keys, sizes, total and contents, and the directory meets what opening asks |
| MmapDisk.MmapDisk.constructor | crates/tierstore-mmap/src/tier.rs:179-314 | the scan accounts exactly the entry files, oldest first |
| MmapDisk.MmapDisk.RebuildTickets | crates/tierstore-mmap/src/tier.rs:126-141 | the queue stands for the same list afterwards, the counter at the number of keys |
| MmapDisk.MmapDisk.FreshStamp | crates/tierstore-mmap/src/tier.rs:77-86 | wrapping or not, the new stamp is above every stamp in the queue and the list is unchanged |
| MmapDisk.MmapDisk.InsertTicket | crates/tierstore-mmap/src/tier.rs:88-99 | the key goes to the end of the list, and the queue stays within max(16, 2 x keys) |
| MmapDisk.MmapDisk.PopOldest | crates/tierstore-mmap/src/tier.rs:109-116 | the key popped is the list's first, the rest of the list is kept |
| MmapDisk.MmapDisk.CompactTickets | crates/tierstore-mmap/src/tier.rs:118-124 | sweeping keeps the list |
| MmapDisk.MmapDisk.Put | crates/tierstore-mmap/src/tier.rs:415-469 | a put places the entry, ends within budget, displaces exactly the shortest over-budget prefix with its files' contents, counts it, and meets the insert contract; it fails exactly for the empty key and then changes nothing |
| MmapDisk.MmapDisk.Get | crates/tierstore-mmap/src/tier.rs:346-375 | a get answers the file's contents, retains the mapping, and under LRU counts as a use; the empty key is an error |
| MmapDisk.MmapDisk.Exists | crates/tierstore-mmap/src/tier.rs:377-382 | answers whether the key is held, and true of the empty key, whose path is the directory |
| MmapDisk.MmapDisk.Delete | crates/tierstore-mmap/src/tier.rs:471-482 | takes the key out of accounts and directory, and reports whether it was there; the empty key is an error |
| MmapDisk.MmapDisk.Clear | crates/tierstore-mmap/src/tier.rs:238-253 | empties directory and accounts |
| StampWidth.Lockstep | crates/tierstore-mmap/src/tier.rs:76-142 | two tiers whose counters wrap at different points, however often, give the same answers and evictions over runs of any length, as long as each tier has more stamps than keys in play |

## Left out

- Concurrent tier calls inside one router operation: each tier call is one atomic step and a router operation runs alone; the waiting protocols are where interleaving is modelled.
- Nondeterministic tiers: a tier's answer is a function of its state and the call, and the state is arbitrary.
- Error payloads, tier names, display text, latency, builders and `Arc` forwarding.
- Overflow of counters and unbounded stamps (`u64`) in the router and the memory tier; totals that would saturate are excluded by a precondition on inserts.
- `fetch_batch`, `remove_batch` and paged listing of the memory tier, paged listing and ranged reads of the mmap tier, `get_ref` and flushing of the slot tier: they would add only easy members.
- The moka, offload, disk, verifying and codec tiers: foreign calls or thin wrappers.
- I/O errors, modification times and memory mapping itself: the directory is a map from file name to contents, the mapped slot file an array, and the scan order of a directory is a parameter.
- Concurrent calls on the mmap tier, whose `get` maps a file outside the lock: its operations run one after another.
- `get_or_load` with single-flight disabled, probes that fail, and stacks that drop a fill: coalescing is claimed only where the stack keeps what is filled.
- Views.CascadeAt: entries that fell on tiers that refused them are excluded key by key, because the code drops them.
- Views.View: read-only tiers above writable ones are excluded from the view theorems, because demotion passes over them and their copies would shadow what was demoted.
- Contract.NothingLostQuietly: says nothing of reads, whose promotions forget what they push off the bottom; Runs.FlatMap therefore asks for a bottom tier that never displaces.
- Faults.NeverStale: leaves out batches that supersede a binding some tier hands back for demotion, because such a batch can leave an old copy below a new one (Counterexamples.BatchLeavesOldBelow); only the view stays right then.
- Store.LossIsLoud: asks that no error was counted; what holds otherwise is Store.KeptExactly, which asks that copies agree before the put and that an error leaves other keys alone.
- Nested.RouterIsATier: over tiers that can displace off the bottom it needs promotion off, because reads would lose entries otherwise.
- MmapDisk.MmapDisk.Put: asks for fewer keys than stamps and a total that does not overflow. For the empty key the stray temporary file, which lies outside the directory, is not modelled.
- MmapDisk.MmapDisk.Get: mapping the directory itself, which the empty key asks for, is taken to fail; a file system that reports length zero for a directory would answer an empty value.
- SlotMmap.SlotMmap.Insert: takes the text encoding of keys as a predicate on byte strings.
