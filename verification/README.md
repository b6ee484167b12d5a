# Verified models of the cache engines

This project models the two cache engines of the repository, the cuckoo cache
and the segment cache, together with the item formats they store, and proves
what the engines rely on: where displacement may leave a key, what a run of
operations may answer, which updates a counter may lose, who may wait for whom,
and when the memory of a segment may be reused.

`dafny verify dfyconfig.toml` checks everything.

## How it is organised

Formats and arithmetic:

* `Wrappers`, `Bytes`, `TinyItem`: options, byte encodings and the slot layout of the
  cuckoo cache.
* `ItemLayout`: the items of the segment cache and a segment they are laid out in.
* `NumericText`: canonical decimal numbers.
* `CasToken`: how a version is mixed into a compare-and-set token.
* `SlotWord`: packed locations and hash table slots.

The cuckoo cache:

* `CuckooTable`, `CuckooOps`: the table as a sequence of optional records, and
  every operation on it as a function. The hash functions are parameters.
* `Displacement`, `Placement`, `DisplacementCost`: the recursive search that
  keeps no visited set, as a theory of paths.
* `CuckooEffects`, `CuckooLaws`, `CuckooRuns`: what operations do to the live
  items; how long an item lasts, what the arithmetic computes and which slot is
  touched, in plain terms; and the refinement of a plain map over all runs.
* `SlotArray`, `CuckooCache`: the flat byte array and the class that works on it
  in place, every method proved against the operation of the same name.

The segment cache, as state machines and one class with an adversarial
environment. Every load, store and compare-and-swap is one step, under
sequential consistency, for any number of threads:

* `SeqLock`: the version word of a numeric item, its value and its checksum.
* `NumericProtocol`: increments, token-gated compare-and-set, relocation, plain
  sets and deletes of one key. Taking an item's version lock is one step here;
  `SeqLock` opens it up. `NumericAnswers` proves how the attempts end: nothing is
  refused or dropped without a reason in the run.
* `SegmentHandoff`: one segment's life between readers, drainers and reservers.
* `PinProtocol`: writer pins, remover pins, chain locks, drains, fills and running
  evictions over all segments and keys. `PinOwnership` proves who holds what,
  `PinProgress` that every step of an attempt uses up some of a budget,
  `PinDeadlock` what follows for whole runs, `PinRestarts` why an insert restarts,
  and `PinSafety` what the pins keep out.
* `EntryRaces`: inserts of any number of threads and keys racing with deletes and
  relocations over the whole hash table.
* `ReadPath`: lookup, get and delete of one key while everything else moves
  before every access, one exchange of a slot at a time.

## What turned out not to hold

Six promises do not hold of the code as it is. For each there are inputs that
break it and the exact condition under which it is kept.

* Displacement can put a record in a slot that is not one of its candidates.
  It never does so if and only if the depth limit is at most four, over all
  placed tables (`Placement.PlacementSafeExactly`) and over all runs of a fresh
  cache (`CuckooRuns.RunsKeepPlacementExactly`); the default limit is two.
* A lookup can return a value that was overwritten and then deleted. Every run of
  every fresh cache refines a map that may forget keys if and only if the depth
  limit is at most four (`CuckooRuns.RunsRefineExactly`).
* A `get` or `delete` right after an `insert` of the same key can miss it: the
  operations stop at an expired copy that comes first in candidate order. At
  every depth limit they miss a live copy in a candidate slot, in particular the
  item just stored, if and only if an expired copy shadows it
  (`CuckooEffects.LiveKeyMissedExactly`, `CuckooEffects.StoredKeyFoundExactly`,
  `CuckooRuns.StoredKeyMissed`).
* A stored item is not read back when a length does not survive its one-byte
  field or the value is the empty byte string, and it is dropped when its
  expiration comes out as zero (`TinyItem.DefineReadsBack`,
  `CuckooOps.ExpireZeroExactly`). The empty byte string and every byte string of
  a multiple of 256 bytes come back as numbers (`TinyItem.EmptyReadsAsNumber`,
  `TinyItem.LongReadsAsNumber`); a time to live of half a second in the first
  second of the cache gives expiration zero (`CuckooOps.HalfASecondIsDropped`).
* A `delete` can answer false for a key that is live throughout, and a `get` can
  miss it. The call finds the entry and an insert or a relocation replaces it in
  place. Then either the segment of the old location grants the remover pin and
  the unlink finds nothing (`ReadPath.OvertakenWhileLive`), or that segment passes
  its deadline before it is asked (`ReadPath.ExpiredWhileLive`). Nothing else goes
  wrong, but for a `get` that gives up after sixteen charged retries: if the entry
  was not replaced in place during the call, a negative answer
  means that at an instant of the call the key had no entry or had it in an
  expired segment (`ReadPath.Segcache.Delete`, `ReadPath.Segcache.GetPinned`,
  `ReadPath.OvertakenByOthers`, `ReadPath.ExpiredOrReplaced`). The comment in
  `crates/segcache/src/segcache.rs:1553-1556` calls an acknowledged false for a
  live key a lost delete; the model follows the code.
* A pinned segment can be freed. A reader that drops the last pin of a segment
  still in service and stalls before it looks at the state can resume after
  another reader has pinned the segment and a drain has condemned it, and then
  wins the release. A step takes the memory from under a pin if and only if it
  is the release of a claimant whose token the condemned word matches while a
  pin is held, and such a claimant last looked at the reader count before the
  condemn; a run never frees a pinned segment if and only if it has no such step
  (`SegmentHandoff.PinsSurviveExactly`, `SegmentHandoff.PinnedIsNotFreed`,
  `SegmentHandoff.FreedUnderAPin`). The
  comments in `crates/segcache/src/segments/guard.rs:7-10` state the pin as
  unconditional; the model follows the code. Freeing exactly once and never
  leaking hold without any condition.

## Model

| member | source | states |
|---|---|---|
| TinyItem.DefineReadsBack | crates/keyvalue/src/tiny.rs:129-175 | for every slot, key and value that fit: key, value and expiration are read back if and only if both lengths survive truncation to one byte and the value is not the empty byte string |
| TinyItem.EmptyReadsAsNumber | crates/keyvalue/src/tiny.rs:129-175 | for every slot and key with eight bytes to spare, the empty byte value is read back as a number |
| TinyItem.LongReadsAsNumber | crates/keyvalue/src/tiny.rs:129-175 | every byte value whose length is a multiple of 256 is read back as a number |
| TinyItem.DefinedDecodes | crates/keyvalue/src/tiny.rs:146-175 | a storable item decodes to its own record, and to an empty slot exactly under expiration zero |
| TinyItem.WithNumberDecodes | crates/keyvalue/src/tiny.rs:177-209 | overwriting the number in place keeps key, expiration and every other byte and reads back the new number |
| Displacement.SearchFinds | crates/cuckoo/src/cuckoo.rs:247-294 | every path the search returns starts at the asked slot, is within the depth limit, and is a chain of hops over live occupants to a free slot that passed no earlier free alternative |
| Displacement.ChainIsFound | crates/cuckoo/src/cuckoo.rs:247-294 | whenever a chain of hops within the remaining depth exists the search succeeds, although it keeps no visited set |
| Displacement.SearchIsComplete | crates/cuckoo/src/cuckoo.rs:235-294 | a displacement frees a slot if and only if a chain of hops within the limit leads from it to a free slot |
| Displacement.FreshFromNoEarlyStop | crates/cuckoo/src/cuckoo.rs:262-291 | the last slot of a successful path occurs nowhere earlier on it, because every earlier first loop found nothing |
| Displacement.UnwindPermutes | crates/cuckoo/src/cuckoo.rs:281-291 | at every depth, a successful displacement permutes the slots byte for byte, removing only what the last slot held |
| Displacement.UnwindFrame | crates/cuckoo/src/cuckoo.rs:247-294 | a successful displacement empties the asked slot and leaves every slot off its path alone |
| Placement.RevisitCancels | crates/cuckoo/src/cuckoo.rs:281-291 | a path that comes back to a slot after two hops has the effect of the path without the detour |
| Placement.DisplacementKeepsPlacement | crates/cuckoo/src/cuckoo.rs:235-294 | with a depth limit of at most four every record stays in a candidate slot of its key |
| Placement.MisplacedFromFive | crates/cuckoo/src/cuckoo.rs:281-291 | for every depth limit from five up there are hash functions and a correctly placed table that one displacement misplaces |
| Placement.PlacementSafeExactly | crates/cuckoo/src/cuckoo.rs:235-294 | displacement keeps placement in all tables and under all hash functions if and only if the limit is at most four |
| DisplacementCost.CallBound | crates/cuckoo/src/cuckoo.rs:247-294 | from a table with every record in a candidate slot, a displacement at depth d makes at most the sum of 3^i for i up to the limit minus d calls |
| DisplacementCost.MoveBound | crates/cuckoo/src/cuckoo.rs:247-294 | on success a displacement at depth d makes at most the limit minus d moves |
| CuckooOps.ExpireZeroExactly | crates/cuckoo/src/cuckoo.rs:174-181 | an inserted item becomes an empty slot if and only if its time to live is not zero, its seconds clamp to zero and the clock reads zero |
| CuckooOps.HalfASecondIsDropped | crates/cuckoo/src/cuckoo.rs:174-181 | half a second to live at clock zero gives expiration zero |
| CuckooOps.LeastExpiry | crates/cuckoo/src/cuckoo.rs:300-311 | the victim has the smallest expiration of the candidates and is the first with it |
| CuckooOps.TryPathsFinds | crates/cuckoo/src/cuckoo.rs:235-242 | some candidate is displaced if and only if one of them can be; the path taken belongs to the first such candidate |
| CuckooEffects.InsertAccounts | crates/cuckoo/src/cuckoo.rs:320-356 | at every depth limit an insert changes the live items by exactly its own item gained and at most one item lost |
| CuckooEffects.VictimIsLastResort | crates/cuckoo/src/cuckoo.rs:346-356 | another key's item is lost only from a candidate slot, when every candidate is live and no displacement frees one; under the expiration policy it has the least expiration of the candidates, under the random policy it is the candidate drawn |
| CuckooEffects.OneLiveIsOneOfEach | crates/cuckoo/src/cuckoo.rs:321-329 | no key sits live in two slots if and only if the multiset of live items has one item per key, once |
| CuckooEffects.InsertKeepsPlacement | crates/cuckoo/src/cuckoo.rs:320-356 | an insert keeps every record in a candidate slot of its key, up to depth four |
| CuckooEffects.InsertKeepsOneLive | crates/cuckoo/src/cuckoo.rs:320-356 | after an insert every key has at most one live copy, and the inserted key's copy is the item just stored |
| CuckooEffects.LiveKeyMissedExactly | crates/cuckoo/src/cuckoo.rs:375-405 | in every table, a get and a delete of a key with a live copy in a candidate slot miss it if and only if an expired copy of the key comes first in candidate order |
| CuckooEffects.StoredKeyFoundExactly | crates/cuckoo/src/cuckoo.rs:423-468 | at every depth limit, a get or delete right after an insert of an item with a non-zero expiration misses the key if and only if an expired copy of it comes first |
| CuckooEffects.LiveKeyFoundExactly | crates/cuckoo/src/cuckoo.rs:375-405 | with every record placed and no key live twice, what get returns then is that live copy |
| CuckooLaws.StoredItemLasts | crates/cuckoo/src/cuckoo.rs:174-181 | with no operation in between and no other copy of the key in a candidate slot, an item stored at one time is returned, deleted and counted on at any later time if and only if its duration is zero, or the item was not dropped and its whole seconds, clamped to the maximum, have not passed or reach past the 32-bit clock |
| CuckooLaws.ApplyComputes | crates/keyvalue/src/tiny.rs:178-209 | addition gives the sum, less 2^64 if it does not fit; subtraction gives the difference, or zero |
| CuckooLaws.UpdateActs | crates/cuckoo/src/cuckoo.rs:514-553 | an update finds nothing if and only if no candidate slot holds the key live; else it acts on the first live copy, refuses what is not a number, and stores and answers the sum or the difference with nothing else changed |
| CuckooLaws.InsertTakes | crates/cuckoo/src/cuckoo.rs:320-356 | an insert overwrites the first live copy of its key, else the first empty candidate, else the first expired one, and then changes no other slot |
| CuckooLaws.GetKeepsItems | crates/cuckoo/src/cuckoo.rs:375-405 | a get never loses a live item: it returns a live copy and changes nothing, finds no copy in any candidate slot, or clears one expired copy of its key |
| CuckooLaws.DeleteTakesOne | crates/cuckoo/src/cuckoo.rs:483-506 | a delete empties one candidate slot holding its key, answers true if and only if that copy was live, and changes nothing only when no candidate holds the key |
| CuckooRuns.StepRefines | crates/cuckoo/src/cuckoo.rs:375-553 | each operation answers only what the reference map allows, with the arithmetic in plain numbers, and keeps placement, one live copy per key and agreement with the map |
| CuckooRuns.RunRefines | crates/cuckoo/src/cuckoo.rs:375-553 | from any agreeing state every later answer of a run is one the reference map allows |
| CuckooRuns.EveryRunRefines | crates/cuckoo/src/cuckoo.rs:375-553 | over every run of a fresh cache with depth at most four and a clock that does not go back, a hit is the last stored, unexpired, undeleted value |
| CuckooRuns.RunsRefineExactly | crates/cuckoo/src/cuckoo.rs:375-553 | every run of every fresh cache with a clock that does not go back refines the reference map if and only if the depth limit is at most four |
| CuckooRuns.Resurrected | crates/cuckoo/src/cuckoo.rs:375-553 | from the full table that the stores leave, storing the misplaced key again, deleting it and storing another key makes a get return the value that was overwritten and deleted |
| CuckooRuns.StoresMisplace | crates/cuckoo/src/cuckoo.rs:423-468 | for every depth limit from five up there are hash functions under which storing as many keys as there are slots, into a fresh cache, leaves a record outside the candidate slots of its key |
| CuckooRuns.RunsKeepPlacementExactly | crates/cuckoo/src/cuckoo.rs:375-553 | every run of every fresh cache keeps each record in a candidate slot of its key if and only if the depth limit is at most four |
| CuckooRuns.StoredKeyMissed | crates/cuckoo/src/cuckoo.rs:381-391 | a run of three calls in which a get right after an insert of the same key misses |
| SlotArray.OneSlotWritten | crates/cuckoo/src/cuckoo.rs:106-156 | a write confined to the bytes of one slot changes the decoded content of that slot and of no other |
| SlotArray.ZeroedIsEmpty | crates/cuckoo/src/cuckoo.rs:508-511 | an array of zero bytes decodes to empty slots only |
| CuckooCache.CuckooCache.constructor | crates/cuckoo/src/cuckoo.rs:69-100 | a new cache holds empty slots only |
| CuckooCache.CuckooCache.ClearSlot | crates/cuckoo/src/cuckoo.rs:135-138 | empties one decoded slot and changes no other |
| CuckooCache.CuckooCache.MoveSlot | crates/cuckoo/src/cuckoo.rs:141-147 | moves one decoded record and changes no third slot; from a slot to itself it clears it |
| CuckooCache.CuckooCache.WriteSlot | crates/cuckoo/src/cuckoo.rs:150-156 | the slot then decodes to the written record, or to nothing under expiration zero, and no other slot changes |
| CuckooCache.CuckooCache.CandidatePositions | crates/cuckoo/src/cuckoo.rs:163-171 | one position below the number of slots for each of the four hash functions, possibly repeated |
| CuckooCache.CuckooCache.DisplaceFrom | crates/cuckoo/src/cuckoo.rs:247-294 | the in-place recursion succeeds exactly when the search finds a path and then leaves the table unwound along it, changes nothing when it fails, and makes the counted calls and moves |
| CuckooCache.CuckooCache.TryDisplace | crates/cuckoo/src/cuckoo.rs:235-242 | frees the first candidate that can be freed or changes nothing |
| CuckooCache.CuckooCache.SelectVictim | crates/cuckoo/src/cuckoo.rs:297-313 | the loop picks the draw modulo four, or the first candidate with the least expiration |
| CuckooCache.CuckooCache.FindSlotForInsert | crates/cuckoo/src/cuckoo.rs:320-356 | the five passes leave the table and choose the slot the specification says |
| CuckooCache.CuckooCache.Insert | crates/cuckoo/src/cuckoo.rs:423-468 | refuses exactly the oversized items with both sizes and no change, otherwise performs the specified insert |
| CuckooCache.CuckooCache.Get | crates/cuckoo/src/cuckoo.rs:375-405 | the specified lookup, which clears an expired copy it stops at |
| CuckooCache.CuckooCache.Delete | crates/cuckoo/src/cuckoo.rs:483-506 | the specified delete, which answers false for an expired copy it clears |
| CuckooCache.CuckooCache.Clear | crates/cuckoo/src/cuckoo.rs:509-511 | every slot decodes to empty |
| CuckooCache.CuckooCache.UpdateNumber | crates/cuckoo/src/cuckoo.rs:514-553 | wrapping addition and saturating subtraction in place, with the two errors and no other slot changed |
| NumericText.DecimalDigits | crates/keyvalue/src/numeric.rs:3-7 | the canonical rendering of a number has only digits, no leading zero, and evaluates to the number |
| NumericText.DigitsDecimal | crates/keyvalue/src/numeric.rs:3-7 | digits without a leading zero are the canonical rendering of what they evaluate to |
| NumericText.ParseSimpleNumeric | crates/keyvalue/src/numeric.rs:13-32 | returns a number if and only if the bytes are its canonical rendering, so overflow is refused exactly at 2^64 |
| CasToken.SpreadIsInvertible | crates/segcache/src/cas.rs:199-222 | multiplying by the spread loses nothing modulo 2^64, at full width |
| CasToken.MixRoundTrip | crates/segcache/src/cas.rs:82-84 | the version can be recovered from the token and the raw identity |
| CasToken.MixInjective | crates/segcache/src/cas.rs:82-84 | for one identity two tokens are equal if and only if the versions are |
| SlotWord.LocationReadsBack | crates/segcache/src/hashtable/mod.rs:63-91 | for issuable ids and 8-aligned offsets in range a location gives back id, offset and generation modulo 64, and is neither empty nor the ghost |
| SlotWord.GhostNeedsTheReservedId | crates/segcache/src/hashtable/location.rs:78-113 | over all ids the field can hold, a location is the ghost if and only if it has the reserved id, the last incarnation tag and the last offset |
| SlotWord.SlotDeterminesItem | crates/segcache/src/hashtable/bucket.rs:43-71 | two slot words are equal if and only if tag, frequency, id, offset and generation modulo 64 are; none is empty or a ghost |
| SlotWord.WithFreqChangesOnlyFreq | crates/segcache/src/hashtable/bucket.rs:85-91 | for every word, setting the frequency changes that field only, and setting it to what it is changes nothing |
| SlotWord.CountingIsBounded | crates/segcache/src/hashtable/bucket.rs:105-128 | counting an access adds one and keeps the entry; it happens if and only if the frequency is below 127 and is at most 16 or divides the draw |
| SlotWord.GhostKeepsTagAndFreq | crates/segcache/src/hashtable/bucket.rs:73-82 | turning any entry into a ghost keeps its tag and frequency |
| ItemLayout.DefineReadsBack | crates/keyvalue/src/item/raw.rs:200-257 | an item written with its reserved size is read back whole if and only if its lengths fit their fields; its re-read size is the reserved one, and a number's two words are 8-aligned inside it with version zero |
| ItemLayout.SizeIsTight | crates/keyvalue/src/item/mod.rs:25-45 | the reserved size is a multiple of eight, more than the bytes written and at most eight more |
| ItemLayout.PadAligns | crates/keyvalue/src/item/mod.rs:20-23 | the pad brings the value to an 8-byte boundary and is less than a word |
| ItemLayout.ReadIgnoresRest | crates/keyvalue/src/item/raw.rs:501-533 | reading an item depends on its own bytes only |
| ItemLayout.WalkAppend | crates/keyvalue/src/item/mod.rs:25-45 | walking items laid end to end, with sizes re-read from the bytes, finds the earlier items and then the appended one |
| ItemLayout.DeletedChangesOnlyTheMark | crates/keyvalue/src/item/raw.rs:188-198 | setting or clearing the deleted mark keeps the size and everything read from the item |
| ItemLayout.Segment.Append | crates/segcache/src/segments/header.rs:810-834 | refuses exactly when the item does not fit, otherwise the walk finds the old items and the new one |
| ItemLayout.Segment.Define | crates/keyvalue/src/item/raw.rs:200-257 | after the in-place writes the range starts with the item's encoding and nothing before it changed |
| ItemLayout.Segment.Scan | crates/segcache/src/segments/segment.rs:374-398 | the scanning loop visits exactly the items of the segment in order |
| SeqLock.UpdatesAreSerial | crates/keyvalue/src/item/raw.rs:338-370 | in every run the version is twice the completed updates plus one while locked, the unlocked value is the fold of all updates and has its own checksum, and every update of that fold is acknowledged by exactly one call, already returned or about to, with the value right after it: none is lost, none is told twice |
| SeqLock.ReadsAreWhole | crates/keyvalue/src/item/raw.rs:116-142 | in every run a value returned, and the checksum compared with it, belong to one completed update current during the read; a stamped copy is even and pairs its version with its own value |
| SeqLock.UpdateAlone | crates/keyvalue/src/item/raw.rs:309-370 | in every reachable state with the item unlocked, an undisturbed update completes: value and checksum are the new ones, the version is two further, and the call is told the new value |
| SeqLock.ReadAlone | crates/keyvalue/src/item/raw.rs:116-142 | in every reachable state with the item unlocked, an undisturbed read returns its value and checksum |
| SeqLock.CopyAlone | crates/keyvalue/src/item/raw.rs:576-588 | a lock holder that copies instead of updating stamps the copy with the even version and leaves the item as it was, unlocked |
| NumericProtocol.NoIncrementLost | crates/segcache/src/segcache.rs:1835-1949 | in every run the published value is the fold of all operations in their order of effect, and each increment of that order is acknowledged with the value right after it or still running, never both: none is lost or applied twice |
| NumericProtocol.CasReplacesWhatItSaw | crates/segcache/src/segcache.rs:1081-1328 | in every run a successful compare-and-set with a token of the same item came right after the mint: even version, nothing in between, and the value replaced is the one the token was minted from |
| NumericProtocol.SameVersion | crates/segcache/src/segcache.rs:1252-1266 | under the lock a token of the same item is accepted only for the version it was minted at, so one minted mid-update never is |
| NumericProtocol.PublishedVersionIsNotStuck | crates/segcache/src/segments/segment.rs:408-465 | in every run the odd version of the published item has a holder with a step of its own that releases the lock within four of them; no copy is published odd |
| NumericProtocol.StepKeepsInv | crates/segcache/src/segcache.rs:1168-1304 | every step of increment, compare-and-set, relocation, set and delete keeps the protocol's invariant |
| NumericAnswers.RefusedForAReason | crates/segcache/src/segcache.rs:1081-1328 | in every run, a compare-and-set that a thread goes on with and that ends has made its own value take effect, or an operation had taken effect since the mint, the item of the token was no longer published, or another thread held its lock at an instant of the attempt, or the token was minted at an odd version |
| NumericAnswers.CasAlone | crates/segcache/src/segcache.rs:1168-1304 | with none of these reasons, an undisturbed compare-and-set publishes its value |
| NumericAnswers.IncrementIsAnswered | crates/segcache/src/segcache.rs:1835-1949 | in every run, an increment that ends has taken effect in one of its own steps and is acknowledged, or at an instant of the attempt there was no number to increment |
| NumericAnswers.IncrementAlone | crates/segcache/src/segcache.rs:1835-1949 | an undisturbed increment of an unlocked number takes effect in place, raises the version by two and is acknowledged with the new value |
| NumericAnswers.RelocationIsAnswered | crates/segcache/src/segments/segment.rs:408-465 | in every run, a relocation that ends has put a copy with the same value in place of the item without any operation taking effect, or at an instant the item was no longer published |
| NumericAnswers.RelocationAlone | crates/segcache/src/segments/segment.rs:408-465 | an undisturbed relocation of an unlocked item publishes a copy with its value and version |
| SegmentHandoff.FreedExactlyOnce | crates/segcache/src/segments/guard.rs:52-93 | in every run the segment is with one owner, in one queue or in service, exactly one of them; every ended incarnation is returned once; the generation counts the ended incarnations |
| SegmentHandoff.NeverLeaked | crates/segcache/src/segments/guard.rs:56-66 | in every run a condemned segment without readers has a thread about to free it, and at rest the segment is queued, in service, or condemned and held by a pin |
| SegmentHandoff.LastDropFrees | crates/segcache/src/segments/guard.rs:66-92 | five steps of the last reader of a condemned segment put it in the queue with the next generation |
| SegmentHandoff.StaleTokenAliases | crates/segcache/src/segments/header.rs:542-588 | in every run a claimant that frees a later incarnation with an old token has slept for a multiple of 256 incarnations |
| SegmentHandoff.PinsSurviveExactly | crates/segcache/src/segments/header.rs:520-540 | from any reachable state with valid pins, a step leaves them valid unless it is the release of a claimant whose token matches the condemned word while a pin is held, and then, always, some pin has lost its incarnation; such a claimant looked at the reader count before the condemn |
| SegmentHandoff.PinnedIsNotFreed | crates/segcache/src/segments/guard.rs:7-10 | over a whole run, each pin holds its own incarnation with its bytes in place if and only if no step of the run is such a release; and every claimant about to take one is stale |
| SegmentHandoff.FreedUnderAPin | crates/segcache/src/segments/guard.rs:64-66 | a run in which a stalled last-reader drop frees a segment another reader has pinned |
| SegmentHandoff.StepKeepsInv | crates/segcache/src/tests.rs:75-143 | every transition of the segment keeps conservation, the counters and the release guarantee |
| SegmentHandoff.PinGrantedExactly | crates/segcache/src/segments/header.rs:603-645 | a counted reader is granted its pin if and only if the segment is live, sealed or being relinked; else it backs out |
| SegmentHandoff.PinAlone | crates/segcache/src/segments/header.rs:603-645 | an undisturbed reader pins a segment in any of those three states |
| SegmentHandoff.DrainAlone | crates/segcache/src/segments/segments.rs:1292-1315 | an undisturbed drain of a segment nobody has pinned puts it in the queue with the next generation, without condemning it |
| SegmentHandoff.ReserveAlone | crates/segcache/src/segments/segments.rs:999-1026 | a free segment in the queue can be brought into service at once, after being filled, or back to the queue unused, in the same generation |
| PinDeadlock.NeverDeadlocked | crates/segcache/src/segcache.rs:671-758 | in every reachable state with an attempt under way some thread in the middle of one is not waiting and has a step, and whichever step it takes uses up some of its budget |
| PinProgress.StepPays | crates/segcache/src/segcache.rs:719-757 | whichever step a thread takes in the middle of an insert, compare-and-set, delete, counter update, eviction or merge, its budget falls (retries left, chain work left, and changes of its entry since it looked), retries included; each change it makes to the table falls under a second count that never rises |
| PinDeadlock.AttemptsEnd | crates/segcache/src/segcache.rs:724-757 | in every run a thread takes no more steps of one attempt than its budget, plus eight for each change other threads make meanwhile to the entry it looked up |
| PinDeadlock.PinsAreReleased | crates/segcache/src/segcache.rs:1112-1166 | what a drain waits for ends: while a thread keeps a writer or remover pin on a segment it takes no more steps than its budget, plus eight for each change others make to the entry it looked up |
| PinDeadlock.PinHoldersBarelyWait | crates/segcache/src/segcache.rs:887-905 | in every reachable state a thread with a pin can take a step, unless it waits for an item lock or stripe whose holder can; it waits for no drain, fill, eviction or chain lock |
| PinDeadlock.LostMeansOvertaken | crates/segcache/src/hashtable/table.rs:1140-1184 | in every run an exchange that failed was overtaken: after the thread last looked at the entry, another thread changed it |
| PinDeadlock.EverythingSettles | crates/segcache/src/segcache.rs:887-905 | neither deadlock nor livelock over all threads together: once no new attempt starts, a run has at most as many steps as the total of its state, and it cannot stop before every attempt has ended |
| PinRestarts.RestartsAreCaused | crates/segcache/src/segcache.rs:849-934 | when the wait of an insert ends and it restarts, the location it waited on was named by an entry after the attempt began, and since then that entry has changed, or a drain or fill of that incarnation was going on and has ended |
| PinRestarts.FirmKept | crates/segcache/src/segcache.rs:849-934 | every step keeps entries naming segments that are in service or still being drained, and publishers in segments whose drain still waits for writers |
| PinSafety.PinsKeepSegments | crates/segcache/src/segments/segments.rs:1189-1228 | in every run, while a thread keeps a reservation nobody is past waiting for the writers of that segment, and while a thread keeps a remover pin that was granted nobody sweeps the segment or copies out of it; in both cases it is in service or being drained, not recycled or condemned |
| PinSafety.GetsThrough | crates/segcache/src/hashtable/table.rs:1140-1184 | an insert that gets through leaves the entry of its key naming its own segment, a delete that gets through leaves none, each in one change; an exchange or a pinned delete fails only if the entry has changed since it was looked up; a lookup finds only an entry whose segment readers may pin, in its own incarnation |
| PinSafety.IncarnationsCounted | crates/segcache/src/segments/header.rs:500-540 | every step raises the generation of a segment by one exactly when it ends an incarnation, ends at most one, and counts it as freed |
| PinDeadlock.DrainsAreExclusive | crates/segcache/src/segments/segments.rs:1189-1228 | in every reachable state a segment is being drained or filled if and only if exactly one thread does it, and its two counters count the pins held |
| PinDeadlock.OnlyTheRollbackMoves | crates/segcache/src/segcache.rs:724-757 | a reachable state in which a drain waits for an insert's writer pin, the entry the insert replaces is in that segment, and the only step of all threads is the insert's rollback |
| PinProgress.StepKeepsInv | crates/segcache/src/segcache.rs:906-947 | every step keeps pins counted, locks held by their holders, drained segments owned, running evictions counted and entries inside the heap |
| ReadPath.Segcache.SearchBucket | crates/segcache/src/hashtable/table.rs:515-584 | a found entry was in its slot during the scan, matches the key and is pinned; absence is answered only if every slot was seen without the key; a candidate that cannot be verified never counts as absence |
| ReadPath.Segcache.Verify | crates/segcache/src/hashtable/mod.rs:169-217 | a match holds a pin in the location's own incarnation; a different key is definite; otherwise nothing is pinned |
| ReadPath.Segcache.LookupKey | crates/segcache/src/hashtable/table.rs:75-90 | over all candidate buckets a match wins, and absence means that at one instant of the scan the key had no entry in any of them |
| ReadPath.Segcache.ExamineSlot | crates/segcache/src/hashtable/table.rs:531-549 | a found entry was read in the slot and then pinned; the key is called absent from the slot only if the slot was seen without it |
| ReadPath.Segcache.Revalidate | crates/segcache/src/segcache.rs:335-378 | a revalidation answers only when a fresh lookup agrees with the pin, and following the key to a new place is charged |
| ReadPath.Segcache.GetPinned | crates/segcache/src/segcache.rs:310-417 | a hit matches the key, is pinned in its incarnation, was still published at an instant after it was pinned in this call, and at an instant after the pin could be granted its segment had not expired; a miss before the sixteen charged retries are spent means that at an instant of the call the key had no entry or had it in an expired segment, or that its entry was replaced in place during the call; anything but a hit means that no entry of the key was published, pinnable and unexpired throughout the call, and each charged retry has a span of its own in which the key had no entry at an instant, a location of it had lost its incarnation, or it was found elsewhere; no other pin is kept |
| ReadPath.AbsentAtAnInstant | crates/segcache/src/hashtable/table.rs:1076-1082 | a key seen absent slot by slot, each slot at its own time, had no entry at one instant, because every step exchanges one slot in place and no entry hops |
| ReadPath.ExchangeIsSteady | crates/segcache/src/hashtable/table.rs:1274-1280 | an exchange in place, and a creation while the key has no entry, never gives a key two entries and never moves an entry between slots |
| ReadPath.Segcache.Unlink | crates/segcache/src/hashtable/table.rs:1329-1339 | empties one slot that publishes the location, or every candidate slot was seen without it |
| ReadPath.Segcache.UnlinkUnpinned | crates/segcache/src/segcache.rs:1661-1702 | without a remover pin the unlink is reported confirmed only if the key had no entry at an instant after it |
| ReadPath.Segcache.Delete | crates/segcache/src/segcache.rs:1535-1732 | on every exit true is returned if and only if this call unlinked an entry; each one unlinked was the key's, was published, after that found unexpired in its own incarnation, and then emptied during the call, so an entry expired throughout is never unlinked; anything but true means that no entry of the key was published, pinnable and unexpired throughout; false means that the key had no entry at an instant, or that the entry found was then seen in an expired segment, or on the exit where the remover pin was granted that the unlink then found nothing; in each case the key was absent or in an expired segment at an instant, or replaced in place; true without a remover pin means the same of the time after the unlink |
| ReadPath.OvertakenByOthers | crates/segcache/src/segcache.rs:1704-1708 | on that exit the key had no entry at an instant since it was found, or its entry was replaced in place by one at another location |
| ReadPath.OvertakenWhileLive | crates/segcache/src/segcache.rs:1704-1708 | steps of the environment that lead to that exit although the key has an entry in every state and nothing expires |
| ReadPath.ExpiredOrReplaced | crates/segcache/src/segcache.rs:1582-1588 | when the segment of the entry found is then seen expired, the key had no entry at an instant since, or had it in an expired segment at an instant, or its entry was replaced in place |
| ReadPath.ExpiredWhileLive | crates/segcache/src/segcache.rs:1582-1588 | steps of the environment that lead to that exit although in every state the key has an entry in a segment that has not expired |
| EntryRaces.EntriesAreUnique | crates/segcache/src/hashtable/table.rs:1246-1327 | in every run of racing inserts, deletes, evictions and relocations of any number of threads, no key ever has two entries, every step exchanges at most one slot, for an entry of the key it held or of a key that had none, and the candidate buckets of a key hold its entry; so the environment of a lookup only ever takes the steps `ReadPath` allows it |
| EntryRaces.StepKeepsInv | crates/segcache/src/hashtable/table.rs:728-787 | every load, verification, exchange, lock and claim keeps entries unique and in their candidate buckets, and what the holder of a stripe lock has scanned stays without its key |
| EntryRaces.InsertIsAnswered | crates/segcache/src/hashtable/table.rs:1246-1327 | in every run, an insert that ends has put its own entry into a candidate slot in one of its steps, or a candidate could not be pinned, or every candidate slot was seen to hold a live entry |
| EntryRaces.ExchangeCanSucceed | crates/segcache/src/hashtable/table.rs:1274-1280 | with the slot as it was read, the exchange that publishes the entry can succeed |
| EntryRaces.InsertGoesOn | crates/segcache/src/hashtable/table.rs:1246-1327 | in every reachable state a thread in the middle of an insert has a step that brings it on, unless another holds the stripe it waits for |

## Left out

- Metrics, logging, builders, prefetching, SIMD and spin timing: no effect on results; a backoff is a finite counter.
- Weak memory: every access is one step of a sequentially consistent run.
- Clock: the cuckoo operations read it once per operation, and runs assume it does not go back.
- CuckooCache.CuckooCache.WriteSlot: requires the lengths and the value to be storable, as `Insert` does.
- ItemLayout.Segment.Append: one writer at a time; the concurrent exchange on the write offset and its 32-bit overflow check are not modelled.
- ItemLayout.Segment.Scan: visits every item laid out; the early stop at a zero key length and the skipping of items no longer in the hash table are not modelled.
- CuckooCache.CuckooCache.Insert: requires the lengths to be storable in one byte and a byte value not to be empty, because past that the header announces lengths that can leave the slot; `TinyItem.DefineReadsBack` says exactly when the item is read back.
- Random victim choice and hash functions: parameters, so every choice is covered.
- The `Item` returned by `get` as a view that aliases the cache's bytes: a copy of the record is returned.
- Byte order of header fields: little-endian where the code is native-endian.
- Candidate buckets shared by two hash choices: `ReadPath` scans each distinct bucket once.
- The order in which `EntryRaces` tries free slots (matching ghosts, empty slots, any ghost, the least full bucket): any free slot of a candidate bucket may be claimed.
- The 6-bit incarnation tag in `ReadPath` and `NumericProtocol`: a location there carries its whole incarnation, so the aliasing after 64 lifecycles that the code accepts is a premise. `SlotWord` models the six bits.
- The 8-bit condemn tag and the 16-bit generation are modelled as they are in `SegmentHandoff`.
- NumericProtocol.NoIncrementLost: assumes that no version word of an item has been incremented 2^64 times.
- SeqLock.ReadsAreWhole: assumes that fewer than 2^63 updates complete during one read.
- ReadPath.Segcache.GetPinned: assumes that a pinned segment keeps its generation, which `SegmentHandoff.PinnedIsNotFreed` proves for exactly the runs without the stale claimant; a drain is not bounded, so the retries that are not charged are cut off by a parameter.
- ReadPath.Segcache.Delete: the retries are cut off by a parameter, and the deleted mark and the removal of the item from its segment's counters under the remover pin are not modelled.
- PinDeadlock.AttemptsEnd: an attempt ends with its rollback and the wait after it; the restart of an insert, and the retry of a delete whose entry has moved, are new attempts. The work an attempt does on chains is finite but otherwise arbitrary.
- PinRestarts.RestartsAreCaused: how many drains, fills and changes of entries there are is up to the other threads. That a lookup reports unverifiable only a location it has read is a premise on runs, since a lookup is one step; so is that entries name segments in service at the start.
- PinProgress.StepPays: the spin of a chain expander that finds its tail changed (`crates/segcache/src/ttl_buckets/ttl_bucket.rs:375-450`) is one step, since under the chain lock only its holder changes the tail; so are an exchange made under an item lock or stripe together with the unlock, and the sweep of a drained segment's entries.
- A reservation that needs a new segment: the chain work before it is an attempt of its own.
- `try_into_numeric`: its conversion is a plain set in `NumericProtocol`.
- Frequency counters in lookups and the ghost entries they feed: they change no location.
- Which live items a merge or an S3-FIFO promotion keeps, eviction ratios, segment ranking, TTL bucket search, the ghost queue: policy with floating point, or small beside the rest.
- The eviction policy mutex: a leaf lock that is never held while waiting, like the item and stripe locks `PinProtocol` models.
- The chain links and the pool label of a segment: `SegmentHandoff` keeps the state, tag, counters and generation of the metadata word.
- The split of freed segments between the free queue and the spare queue: one count for both in `SegmentHandoff`.
- Integrity builds of the item layout (magic and checksum fields): `SeqLock` models the checksum, `ItemLayout` the six-byte header.
- The segment data file and memory mapping: input and output.
