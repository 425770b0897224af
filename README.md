# CacheSim: a verified model of one cache of a Dragon snooping multiprocessor

This project models `cache.cc` of CacheSim. That file is the per-processor cache of a
multiprocessor simulator. Each cache is set-associative, with `sets × assoc` lines.
- **Lines.** Each line carries flags, a tag and an LRU stamp.
- **Counters.** The cache counts reads, writes, misses, writebacks, memory transactions
  and cache-to-cache transfers.
- **Coherence.** The cache keeps its copies coherent with the Dragon update protocol,
  through two snoop broadcasts.
  - `busRd` runs on a miss.
  - `busUpd` runs on a write to a shared block.
- **Snoop responders.** Every cache of the peer list answers each broadcast, in list
  order. The list includes the broadcasting cache itself.

The model keeps the source's imperative shape.
- `CacheSim.Cache` is a class.
  - Its constant geometry is `size`, `assoc`, `lineSize` and `sets`.
  - The grid is an `array2<Line>` updated in place.
  - The counters are mutable fields.
- Every state-changing function of `cache.cc` is a method with a `modifies` frame. The lookups `FindLine` and `GetLRU` change nothing and have no frame. Every loop carries invariants.
  - Loops over ways: `FindLine`, `GetLRU`.
  - Loops over the peer list: `BusRd`, `BusUpd`.
- Every method is proved against value-level specification functions. A cache's grid is
  seen as a value through `Grid()`, and the grids of a whole peer list through `Grids(peers)`.

Modules:
- `Wrappers`: `Option`.
- `Addressing`: the tag/index split of an address.
  - `calcTag` is `(addr / lineSize) / sets`.
  - `calcIndex` is `(addr / lineSize) % sets`.
- `Coherence`: the six line states and the two responder tables, as pure functions.
- `Storage`: a grid as a value.
  - `FirstMatch` is `findLine` on one set.
  - `Held` is the state a grid holds for a block.
  - `Relabel` is a snoop's `setFlags`.
  - It also holds the grid invariant `GridOk` (unique valid tags per set, no stamp ahead of the clock).
- `Lru`: `IsVictim`, the victim `getLRU` must pick.
- `Protocol`: the protocol seen from one block, as a vector of the states the caches of the list hold.
  - `Broadcast` is one snoop broadcast.
  - `Step` is one `Access`.
  - `Coherent` is the single-owner invariant.
- `CacheSim`: the `Cache` class, the broadcast loop step `Visit`, and the grid-level
  specification of an access.
  - `MissGrids`, `HitGrids` and `AccessGrids` give the grids of the list after an access.
  - `Serves` packages what an access guarantees.

The main results:
- `Cache.Access` ends in the grids `MissGrids`/`HitGrids` say.
  - It moves the accessed block by `Protocol.Step`.
  - It keeps every other cache's grid invariant.
  - It keeps the whole list coherent when the caches split addresses alike.
  - It updates each of the eight counters exactly as `cache.cc` does.
- The protocol lemmas pin down the step.
  - `StepLocal`: the state the accessing cache ends in, for every read/write, hit/miss case.
  - `StepCoherent`: the step preserves coherence.
  - `AccessElsewhere`: no other block changes, except that the accessing cache may lose the block its victim way held (`EvictedUnique`: a single block).
  - `InitCoherent`: caches as constructed are coherent, so with `AccessCoherent` every state reached by accesses is.

## Model

| member | source | states |
|---|---|---|
| Addressing.Block | cache.cc:169-170 | the memory block of an address: the block's first byte `b * lineSize` is at or below the address, and the next block's first byte is above it |
| Addressing.Tag | cache.cc:169 | calcTag: the tag is the block number divided by the number of sets, `tag * sets <= block < tag * sets + sets` |
| Addressing.Index | cache.cc:170 | calcIndex: the set index is below the number of sets, and tag and index together give the block number back, `block == tag * sets + index` |
| Addressing.Decompose | cache.cc:169-170 | tag, index and offset within the line together give the address back: `addr == (tag * sets + index) * lineSize + addr % lineSize` |
| Addressing.SameLine | cache.cc:169-170 | two addresses have equal tag and index exactly when they lie in the same memory block |
| Coherence.BusRdReply | cache.cc:144-162 | busRd(addr) answers true exactly for a held copy (E, M, SC, SM); an answering copy ends shared (SC or SM); dirtiness is kept; a miss or the Valid placeholder is left as it is |
| Coherence.BusUpdReply | cache.cc:130-142 | busUpd(addr) answers true exactly for SC or SM, which become SC; every other state, including E, M and the placeholder, is untouched |
| Coherence.Respond | cache.cc:130-162 | a responder never creates or drops a copy, never creates or removes the placeholder, and keeps a held copy held |
| Storage.FindFrom | cache.cc:172-179 | the scan of findLine from way j on: a returned way is at or after j, valid and carries the tag, no way between j and it does, and None comes back exactly when no way from j on matches |
| Storage.FirstMatch | cache.cc:165-186 | findLine within one set: the returned way is valid and carries the tag, no lower way does, and None comes back exactly when no way matches |
| Storage.Held | cache.cc:145-148 | the state a grid holds for a block is Invalid exactly when findLine misses |
| Storage.FlagsKeepLookup | cache.cc:136-137 | setFlags from one valid state to another changes no lookup of the set |
| Storage.StampKeepsLookup | cache.cc:189-191 | setSeq (updateLRU) changes no lookup of the set |
| Storage.Relabel | cache.cc:150-155 | a responder's setFlags on a grid keeps the number of sets; what it changes is stated by RelabelKeeps |
| Storage.RelabelKeeps | cache.cc:130-162 | a snoop touches only the line findLine returns for the block: that line gets the new flags and keeps its tag and stamp, and every other line and every other set is unchanged |
| Storage.RelabelHeld | cache.cc:150-155 | a responder's setFlags changes the state held for its own block to the new flags, if the block is there, and nothing else the grid holds |
| Storage.RelabelOk | cache.cc:150-155 | a responder's setFlags keeps the grid invariant: unique valid tags per set, no stamp ahead of the clock |
| Storage.RelabelTwice | cache.cc:70-72 | two snoops on the same line (busRd, then busUpd) act as the second alone |
| Storage.RelabelSame | cache.cc:156-159 | a responder that keeps the flags (SC on busRd, misses, the placeholder) leaves the grid unchanged |
| Storage.Install | cache.cc:235-237 | setTag and setFlags(VALID) on the victim: the set then finds the new tag at the victim, keeps unique tags, and finds every other tag as before unless its line was evicted |
| Storage.InstallOk | cache.cc:235-237 | installing a block the set lacks keeps the grid invariant and findLine then returns the victim |
| Storage.InstallHeld | cache.cc:226-242 | after fillLine the grid holds the placeholder for the new block, Invalid for the evicted block, and every other block as before |
| Storage.RestampOk | cache.cc:189-191 | stamping a line with the clock keeps the grid invariant |
| Storage.RestampHeld | cache.cc:189-191 | updateLRU changes no block's state in the grid |
| Storage.LaterOk | cache.cc:55 | advancing the clock keeps every stamp at or behind it |
| Lru.IsVictim | cache.cc:194-215 | the way getLRU returns: a way of the set, and an invalid one exactly when the set has an invalid way |
| Lru.VictimUnique | cache.cc:194-215 | the victim is determined by the set and the clock |
| Lru.PrefixMinimum | cache.cc:205-210 | the second scan's `<=` always has a last minimal way among the first n ways |
| Lru.VictimExists | cache.cc:201-212 | with at least one way and no stamp ahead of the clock a victim exists, so the source's assert never fails |
| Protocol.Run | cache.cc:113-115 | n iterations of the broadcast loop leave one state per responder run; each state and the flag are stated by RunSpec |
| Protocol.Broadcast | cache.cc:110-128 | a broadcast leaves one state per cache of the list; each state and the answer are stated by BroadcastSpec |
| Protocol.SeededFlag | cache.cc:121-127 | the loop's flag as written, with the uninitialised variable as `seed`: true exactly when the seed is true or one of the first n responders answers true |
| Protocol.RunSpec | cache.cc:113-115 | after n iterations of the broadcast loop each of the first n responders ran exactly once, on its own copy, in list order, and the flag is the OR of their answers |
| Protocol.BroadcastSpec | cache.cc:110-128 | a whole broadcast runs every responder exactly once and answers true exactly when one of them answers true (false on an empty list) |
| Protocol.SeededFalse | cache.cc:121-127 | the loop's flag seeded with false is exactly the broadcast's answer |
| Protocol.SeededTrue | cache.cc:121-127 | the loop's flag seeded with true is true whatever the peers answer |
| Protocol.Step | cache.cc:54-108 | one access on the block's vector of states keeps one state per cache; its cases are stated by StepLocal, StepOthers and StepCoherent |
| Protocol.MissSnoop | cache.cc:66-70 | on a miss the busRd answer is true exactly when another cache holds the block; the caller's own placeholder answers false |
| Protocol.UnseededMiss | cache.cc:121-124 | on a miss on a block no other cache holds, the busRd answer is false when seeded with false but true when the uninitialised flag holds true |
| Protocol.StepLocal | cache.cc:66-107 | after the access the accessing cache holds: a read miss ends SC if another cache held the block, else E; a write miss ends SM or M by the same test; a read hit changes no state; a write hit on E or M ends M; a write hit on SC or SM ends SM; after any write the line is dirty |
| Protocol.StepOthers | cache.cc:110-162 | every other cache holds a copy after the access exactly when it held one before |
| Protocol.MissCoherent | cache.cc:66-90 | a miss keeps the block coherent |
| Protocol.WriteHitCoherent | cache.cc:95-106 | a write hit keeps the block coherent |
| Protocol.StepCoherent | cache.cc:54-108 | every access keeps the block coherent: no placeholder survives, at most one owner, an M or E copy is the only copy |
| Protocol.ShrinkCoherent | cache.cc:229-237 | dropping copies (an eviction) keeps a block coherent |
| CacheSim.Cache.CalcTag | cache.cc:169 | the cache's tag with its own geometry: `addr / lineSize == tag * sets + index`, so tag and index name the block |
| CacheSim.Cache.CalcIndex | cache.cc:170 | the set index is below the number of sets |
| CacheSim.Cache.constructor | cache.cc:15-49 | the geometry is stored, sets is (s / b) / a, every line is invalid, every counter is zero, and the grid invariant holds |
| CacheSim.Cache.SetLine | cache.cc:236-237 | writing one slot changes exactly that slot of the grid |
| CacheSim.Cache.FindLine | cache.cc:165-186 | returns FirstMatch of the set of the address for its tag, changing nothing |
| CacheSim.Cache.UpdateLRU | cache.cc:189-191 | the line's stamp becomes the clock and nothing else changes; the grid invariant holds |
| CacheSim.Cache.GetLRU | cache.cc:194-215 | returns the first invalid way if any, else the last way of minimal stamp (IsVictim) |
| CacheSim.Cache.FindLineToReplace | cache.cc:218-223 | returns the victim and stamps it with the clock; nothing else changes |
| CacheSim.Cache.WriteBack | cache.cc:231-233 | one more writeback; grid and clock untouched |
| CacheSim.Cache.FillLine | cache.cc:226-242 | the victim is chosen by IsVictim, stamped, given the tag and the placeholder; writeBacks grows by one exactly when the victim was M or SM; no other line changes; findLine now returns the victim; the grid invariant holds |
| CacheSim.Cache.SetFlags | cache.cc:136-137 | the line found for the address gets the flags; the grid invariant is kept |
| CacheSim.Cache.SnoopBusRd | cache.cc:144-162 | the grid is relabelled as BusRdReply says for the block and the answer is BusRdReply's; the invariant is kept |
| CacheSim.Cache.SnoopBusUpd | cache.cc:130-142 | the grid is relabelled as BusUpdReply says for the block and the answer is BusUpdReply's; the invariant is kept |
| CacheSim.Cache.Answer | cache.cc:114 | the responder the loop calls on a peer: its grid answers the snoop kind and the answer is Respond's |
| CacheSim.Cache.BusRd | cache.cc:120-128 | every cache of the list answers busRd in order, and the result is the broadcast's answer seeded with false |
| CacheSim.Cache.BusUpd | cache.cc:110-118 | every cache of the list answers busUpd in order, and the result is the broadcast's answer seeded with false |
| CacheSim.Cache.Access | cache.cc:54-108 | the clock ticks once; a 'w' counts a write and anything else a read; a miss counts as a write or read miss; a miss counts a cache-to-cache transfer when another cache held the block, else a memory transaction; a miss fills the IsVictim way and counts a writeback exactly when it was dirty; a hit uses findLine's way; the grids become MissGrids/HitGrids; the access Serves the protocol step |
| CacheSim.Cache.Miss | cache.cc:66-90 | the miss branch: fillLine on the IsVictim way, the broadcasts, the traffic counter by the busRd answer, the grids become MissGrids, other counters unchanged |
| CacheSim.Cache.Count | cache.cc:55-62 | the clock ticks once, the access is counted as a write on 'w' else a read, and a miss as a write or read miss; the misses never pass the accesses |
| CacheSim.Cache.Tally | cache.cc:74-87 | a miss answered by another cache counts a cache-to-cache transfer, otherwise a memory transaction |
| CacheSim.Cache.Hit | cache.cc:91-107 | the hit branch: updateLRU, then on a write E becomes M silently, M stays, and SC/SM broadcast busUpd; the grids become HitGrids |
| CacheSim.Visit | cache.cc:113-115 | one loop iteration: cache i answers and its answer is OR-ed in; only cache i's grid changes |
| CacheSim.SnoopsHeld | cache.cc:110-128 | after a broadcast each cache holds the block as its responder says and every other block as before |
| CacheSim.SnoopsOk | cache.cc:130-162 | answering a snoop keeps each grid invariant |
| CacheSim.Answered | cache.cc:130-162 | one responder's effect on its grid: the line found for the block gets the flags Respond gives its held state; keeps the number of sets; its effect is stated by AnsweredHeld, AnsweredOnce and AnsweredPlaceholder |
| CacheSim.Partial | cache.cc:113-115 | the grids after the first n iterations of the broadcast loop: the first n caches have answered and the rest are untouched; PartialStep adds one iteration |
| CacheSim.Snoops | cache.cc:110-128 | the grids after a whole broadcast: every cache of the list has answered, each on its own grid |
| CacheSim.AnsweredHeld | cache.cc:130-162 | a snoop on a cache changes the state it holds for the snooped block only |
| CacheSim.AnsweredPlaceholder | cache.cc:158-159 | a snoop finds the placeholder of the access in progress and leaves the grid as it is |
| CacheSim.Fill | cache.cc:226-242 | fillLine on the list's grids keeps one grid per cache, with that cache's number of sets; its effect is stated by FillHeld and FillElsewhere |
| CacheSim.Stamp | cache.cc:189-191 | updateLRU on the list's grids keeps one grid per cache, with that cache's number of sets; its effect is stated by StampHeld |
| CacheSim.Settle | cache.cc:73-86 | the access's own setFlags on the list's grids keeps one grid per cache, with that cache's number of sets; its effect is stated by SettleHeld |
| CacheSim.MissFlags | cache.cc:73-86 | the flags a miss gives its own line: a held state, dirty exactly on a write, and sole (M or E) exactly when no other cache answered busRd |
| CacheSim.Fetched | cache.cc:69-72 | the broadcasts of a miss on the list's grids keep one grid per cache, with that cache's number of sets; their effect is stated by FetchIn and SnoopsHeld |
| CacheSim.Upgraded | cache.cc:99-104 | the busUpd of a write hit on a shared line, and the new flags, keep one grid per cache, with that cache's number of sets; the effect is stated by UpgradeIn |
| CacheSim.MissGrids | cache.cc:66-90 | the grids after a miss keep one grid per cache, with that cache's number of sets; what they hold is stated by MissHeld, MissElsewhere and MissServes |
| CacheSim.HitGrids | cache.cc:91-107 | the grids after a hit keep one grid per cache, with that cache's number of sets; what they hold is stated by HitHeld, HitElsewhere and HitServes |
| CacheSim.AccessGrids | cache.cc:54-108 | the grids after an access keep one grid per cache, with that cache's number of sets; what they hold is stated by AccessHeld, AccessElsewhere, AccessOk and AccessCoherent |
| CacheSim.FillHeld | cache.cc:226-242 | after fillLine the accessing cache holds the placeholder for the block, and the other caches are unchanged |
| CacheSim.StampHeld | cache.cc:189-191 | updateLRU changes no cache's state for any block |
| CacheSim.SettleHeld | cache.cc:73-86 | the access's own setFlags gives its copy the new flags and changes no other cache |
| CacheSim.MissHeld | cache.cc:66-90 | on a miss the block's vector across the list moves exactly by Protocol.Step |
| CacheSim.HitHeld | cache.cc:91-107 | on a hit the block's vector across the list moves exactly by Protocol.Step |
| CacheSim.AccessHeld | cache.cc:54-108 | every access moves the block's vector exactly by Protocol.Step |
| CacheSim.EvictedUnique | cache.cc:235-237 | fillLine overwrites one line, so the blocks it can evict are one block: two addresses both held in the victim way before the fill lie in the same block |
| CacheSim.FillElsewhere | cache.cc:226-242 | fillLine touches no other cache, and in the accessing cache every other block is held as before unless it is the block the victim way held, which becomes Invalid |
| CacheSim.MissElsewhere | cache.cc:66-90 | a miss changes no other block of any other cache; in the accessing cache only the block the victim way held may change, to Invalid |
| CacheSim.HitElsewhere | cache.cc:91-107 | a hit changes no other block in any cache |
| CacheSim.AccessElsewhere | cache.cc:54-108 | an access changes no other block in the other caches; in the accessing cache only the block the victim way held may change, to Invalid |
| CacheSim.AccessRelabel | cache.cc:110-162 | every other cache's grid changes only in the flags of the accessed block's line |
| CacheSim.AccessOk | cache.cc:54-108 | every other cache keeps its grid invariant through an access |
| CacheSim.InitCoherent | cache.cc:40-48 | grids with every line invalid, as the constructor leaves them, hold no block anywhere and are coherent for every block |
| CacheSim.AccessCoherent | cache.cc:54-108 | caches that split addresses alike stay coherent, for every block, through an access |
| CacheSim.AccessFacts | cache.cc:54-108 | the grids after an access move the block by Protocol.Step, keep the other grids invariant and keep coherence |
| CacheSim.MissServes | cache.cc:66-90 | the grids a miss leaves behind serve the access |
| CacheSim.HitServes | cache.cc:91-107 | the grids a hit leaves behind serve the access |
| CacheSim.ServesLocal | cache.cc:66-107 | an access that served ends with the accessing cache dirty after a write, unchanged after a read hit, in MissFlags by the sharing test after a miss, SM after a write to a shared line |
| CacheSim.SettleIn | cache.cc:73-86 | setFlags on the accessing cache's line, seen from the whole list: only that cache's grid changes |
| CacheSim.FillIn | cache.cc:67 | fillLine seen from the whole list: only the accessing cache's grid and writeBacks change |
| CacheSim.StampIn | cache.cc:93 | updateLRU on a hit, seen from the whole list |
| CacheSim.UpgradeIn | cache.cc:99-104 | a write hit on a shared line: busUpd across the list, then SM if anyone answered, else M |
| CacheSim.FetchIn | cache.cc:69-72 | busRd across the list and, on a write another cache answered, busUpd; the accessing cache's placeholder is untouched |
| CacheSim.MissIn | cache.cc:66-90 | the grid side of a miss: the grids become MissGrids, the access serves the protocol step, and the returned flag says whether another cache held the block |

## Left out

- `printStats` (cache.cc:244-258) is not modelled: it is `printf` output plus a floating-point miss rate whose division by `reads + writes` is unguarded.
- The `log2` calls and the `tagMask` loop of the constructor (cache.cc:27-38) are not modelled. Tag and index use `/` and `%`, which agree with the shifts and masks for power-of-two geometry.
- The constructor accepts geometry that is not a power of two. For such geometry the model's `/` and `%` split need not match the source's shifts by a truncated `log2`.
- The constructor requires `a > 0`, `b > 0` and at least one set. The source checks nothing there and reports no geometry error, and the model has no error path either.
- `cache.h` is not part of this model. `calcTag`, `calcIndex`, `writeBack` and the `cacheLine` accessors are modelled as their uses in `cache.cc` imply.
  - A line is valid exactly when its flags are not `Invalid`. A separate validity bit, if `cache.h` keeps one, is not modelled.
- The trace driver, which builds the `vector<Cache*>` and calls `Access`, is not modelled. The peer list is a `seq<Cache>` that holds the calling cache at position `me` and whose caches have distinct grids.
- Counters: 64-bit `ulong` wrap-around is not modelled; counters are unbounded naturals.
- CacheSim.Cache.Access: the counters are updated in a different order inside one call (miss counters before the broadcasts). The order is unobservable, since nothing reads the counters during the call.
- CacheSim.Cache.Access: the `ghost me` parameter and the `ghost v` result only name the caller's position in the list and the way used. They carry no behaviour of the source.
- Concurrency and bus timing are not modelled, and neither does the source: every access runs to completion, with its broadcasts, before the next.
- Pointer identity of `cacheLine *` returns is not modelled. `findLine`, `getLRU`, `findLineToReplace` and `fillLine` return a way index (`Option<nat>` for `findLine`).

## Findings

| source | as written | input that shows it | evidently intended | confidence | as-written member | corrected member |
|---|---|---|---|---|---|---|
| cache.cc:121-127 | `bool snoop;` is never initialised before `snoop = cachesArray[i]->busRd(addr) \|\| snoop`, so the broadcast's answer is OR-ed into whatever the stack slot holds (the same holds for busUpd at cache.cc:111-117) | a read miss on a block no other cache holds, with the uninitialised flag holding true: the line ends SharedClean instead of Exclusive and a cache-to-cache transfer is counted instead of a memory transaction | seed the flag with false, so the answer is true exactly when some peer answers true | not executed | Protocol.UnseededMiss | CacheSim.Cache.BusRd |

For busUpd the uninitialised seed does no harm.
- On a write hit to a shared line, the caller's own SC/SM copy answers true.
- On a write miss, the answer is discarded.

So only the busRd of a miss can observe the seed. `Protocol.SeededFlag` models the loop as written, with the seed as a parameter.
- `SeededFalse` proves that with false it is the broadcast's answer.
- `SeededTrue` proves that with true it is always true.

`Cache.BusRd` and `Cache.BusUpd` seed with false, and `Protocol.BroadcastSpec` proves their answer is the OR of the responders' answers.
