# BurstIoT, from packets to labels: a Dafny verification

BurstIoT cuts the traffic of home devices into short bursts, keeps each burst as a histogram of signed packet lengths,
and names the device behind a group of bursts by a nearest-neighbour vote. This project models that pipeline and proves
what it promises, for every input and every run.

| module | what it models |
|---|---|
| `Collections` | sequence, multiset and map facts used everywhere: filters, grouping by key, walk orders, sums over maps |
| `Packets` | time stamps and `FloorDuration` |
| `BurstValues` | what a burst holds, the 8-bit counter, the merging constructor, equality, hash and the canonical order |
| `Bursts` | the `Burst` objects and the methods that change them in place |
| `Distances` | `Burst::Distance`: nested scans with a check array, and the closed formula they compute |
| `Hellinger` | what that formula measures, signature by signature |
| `Segmentation`, `SlotBursts` | the cut rules as functions, and what they bound and conserve |
| `Generator` | `DeviceBurstGenerator` with its four containers |
| `Slotting` | `Converter`: packets into device and slot, slots into blocks |
| `Merging` | the hash merge and the greedy similarity merge of one device's training bursts |
| `NearestIndex` | the bucket table and the windowed search |
| `CacheProtocol` | the shared prediction cache, first one call at a time, then as a state machine over any number of threads |
| `Voting` | vote weights and the choice of a label |
| `BlockLevels` | the static map of training blocks behind that choice, across classifiers |
| `Scoring` | score sheets, totals and the result string |
| `Tasks` | `splitVector`, the wait groups, and the indices the prediction tasks record |
| `Schedules` | the interleavings in which the prediction tasks reach the score |
| `Combinations` | the mixed-radix `Combiner` |

Code that changes things step by step is written as classes and methods with loops; each method is tied to a function of
its inputs or its old state, and the lemmas say what those functions mean. Real numbers stand for floats. The square
root is a parameter of which only `sqrt(x) >= 0` and `sqrt(x) * sqrt(x) == x` are assumed; the logarithm and the hash
primitives are arbitrary functions. Unordered containers are walked in an arbitrary order. `Merging.Ref` stands
for a `shared_ptr`: two of them may hold equal bursts.

Parameters range over what the program is meant to run with: interval and duration at least one second, at most 100
signatures per burst (the check array of `Distance` has 101 slots), slots of at most four hours, captured packets with
positive seconds and nanoseconds below 10^9, and a dataset with at least one packet (an empty one makes `SplitSlots`
dereference the end of an empty set).

## What the proofs found

- The first-packet stamp of a burst is set before the cut test, so a burst created by a cut is stamped by the next packet
  processed after its first one: its own second packet, or, if it has only one, the first packet of the next burst; the
  last burst of a call keeps stamp zero if it has only one packet. Such a burst can span up to one interval more than the
  duration limit, and no more (`Segmentation.StrictTimeBounds`); the bound is reached (`Segmentation.LateStampWitness`),
  and a one-packet burst does carry a foreign stamp (`Segmentation.OnePacketWitness`).
- `uniPktNum` wraps after 255 distinct signatures. Totals stay exact; from 256 distinct signatures on, and only then,
  some signature would get a second entry on its next occurrence (`BurstValues.RepeatsAreSafeIff`, with the 256
  signatures of `BurstValues.WrappedCounterWitness`).
- `MergeStrictHash` never compares bursts: it merges exactly the equal ones if and only if no two unequal training
  bursts of a device share a hash (`Merging.HashMergeExact`). Some always do: counts enter the hash modulo 30 only, so
  bursts with the same signatures, packet count and counts modulo 30 collide whatever the primitive hashes are, and no
  others do (`BurstValues.CollideAlwaysIff`). Two bursts of 32 packets, 1 and 31 of two signatures in one and 31 and 1 in the
  other, become one entry, and the second never reaches the table (`Merging.CollisionWitness`).
- The greedy merge looks at one kept burst with the signatures of the next one, although there may be several. A big
  burst can therefore be kept beside a near one with its signatures, exactly when some other kept one with these
  signatures is 0.7 or more away (`Merging.KeptBesideSameSigs`); the order of the map decides (`Merging.TwoOutcomes`).
- The blocks that break ties in `GenPrediction` outlive their classifier. A later classifier's picks are independent of
  them exactly when its own nearest block is nearer, or what the older blocks pick makes no difference
  (`BlockLevels.EarlierDoesNotMatterIff`); one old block can turn a pick (`BlockLevels.StaleBlockDecides`).
- An exact copy of the test burst in the training table is found if and only if the row range is positive and does not
  push the signature count past 255, and the column range is positive or the packet count is clamped
  (`NearestIndex.ExactRecall`; with a row range of 255 nothing is scanned in `NearestIndex.WrappedWindowWitness`).
- Keeping the cache across two classifiers is safe when the buckets scanned for every cached burst are unchanged
  (`CacheProtocol.UnchangedBucketsAreSafe`). When they are not, a cached burst can be returned that the new table does
  not even hold (`CacheProtocol.StaleWitness`).
- Key locks are not fair: calls answered from the cache can go on for ever while another thread waits for the same lock
  (`CacheProtocol.CachedCallRepeats`). Once no new call starts, every call ends (`CacheProtocol.CallsRunOut`).
- A file's store counter receives its ten `done` calls if and only if `n % 9 <= n / 9`, which holds from 72 packets on.
  From one to eight packets the chunk size is zero and `splitVector` never ends (`Tasks.CutEndsIff`); from nine on it
  ends, but where the condition fails the `size_t` difference wraps (`Tasks.DoneCallsExact`, `Tasks.SeventeenPackets`).
- The indices recorded under one type label fill the result string, each slot written once, if and only if no two of its
  devices keep a group at the same task number and every task number before one at which a group is kept is full
  (`Schedules.InterleavedSlotsOnce`, for every interleaving of the tasks). One device without filtered groups always does (`Scoring.UnfilteredSlots`); a filtered
  group followed by a task that keeps one overflows (`Tasks.FilteredGroupOverflows`), and two devices of one type collide
  at index zero (`Tasks.TwoDevicesCollide`).
- A `Combiner` without arrays never finishes (`Combinations.Combiner.GetNext`).

## Model

| member | source | states |
|---|---|---|
| Packets.FloorDuration | src/Utils.cpp:57-69 | the result is the whole number of seconds between the stamps, rounded down also when the end lies before the start |
| BurstValues.AddAllCounts | src/Burst.cpp:214-237 | after any sequence of recorded signatures the packet count, the total and every signature's count are exact, wrapped 8-bit counter or not, and that counter is the number of entries modulo 256 |
| BurstValues.AddAllDistinct | src/Burst.cpp:214-237 | with at most 255 distinct signatures the entries are pairwise distinct, cover exactly the signatures seen, and the counter is their number |
| BurstValues.RepeatsAreSafeIff | include/Burst.h:57-63 | the bound 255 is exact: recording any known signature again is safe if and only if at most 255 distinct ones have been seen |
| BurstValues.WrappedCounterWitness | include/Burst.h:57-63 | after 256 distinct signatures the counter is zero again and the first one recorded once more gets a second entry |
| BurstValues.MergedConserves | src/Burst.cpp:14-33 | the merging constructor keeps packets and per-signature counts of all merged bursts and the first one's label, and the merged burst satisfies the burst invariant |
| BurstValues.CanonicalEquality | include/Burst.h:113-141 | for sorted bursts the compared fields agree exactly when the signature histograms agree |
| BurstValues.SortIsUnique | src/DeviceBurstGenerator.cpp:120-126 | with one entry per signature every sorting routine, stable or not, yields the same entries |
| BurstValues.CanonIsSound | src/DeviceBurstGenerator.cpp:120-126 | sorting the entries keeps the burst invariant and the histogram, and leaves them sorted |
| BurstValues.AlikeBurstsCollide | include/Burst.h:157-171 | counts enter the hash modulo 30 only: equal counters, equal signature lists and counts congruent modulo 30 give equal hashes, whatever the primitive hashes are |
| BurstValues.CollideAlwaysIff | include/Burst.h:157-171 | two keys collide under every choice of the primitive hashes if and only if counter, packet count and signature list agree and all counts agree modulo 30 |
| Bursts.Burst.Fresh | src/Burst.cpp:8-12 | a new burst is empty, unstamped and named after its device |
| Bursts.Burst.Merged | src/Burst.cpp:14-33 | the object built from a list of bursts holds the value whose conservation is proved above |
| Bursts.Burst.PiggyBack | src/Burst.cpp:224-237 | bumps the first entry with the signature among the first uniPktNum, or changes nothing and says so |
| Bursts.Burst.AddSig | src/Burst.cpp:214-222 | one recorded signature: bumped entry or new entry with count one and the counter advanced in 8 bits |
| Bursts.Burst.Validate | src/Burst.cpp:288-318 | Valid exactly when the burst has a name, as many entries as uniPktNum, counts that add up to pktNum, and at most maxUniSig signatures; each other verdict has its cause |
| Bursts.Burst.Equals | include/Burst.h:113-141 | true exactly when both counters agree and the first uniPktNum entries do |
| Bursts.Burst.HashCode | include/Burst.h:157-171 | the hash depends on the compared fields only, so equal bursts have equal hashes |
| Distances.FindMatch | src/Burst.cpp:60-69 | the inner scan finds the signature if the second burst has it, returns its count and marks exactly its entry |
| Distances.ScanFirst | src/Burst.cpp:53-80 | the first scan adds up the squared differences over the first burst's signatures and marks exactly the shared entries |
| Distances.ScanRemainder | src/Burst.cpp:82-89 | the second scan counts the packets whose signature the first burst lacks |
| Distances.ScansMakeGap | src/Burst.cpp:53-91 | both scans together give two minus twice the sum of sqrt(p) * sqrt(q) over shared signatures |
| Distances.Distance | src/Burst.cpp:40-104 | for all non-empty bursts whose counters have not wrapped, without overrunning the 101 slots of the check array, the scans return the closed form: 1 when the packet counts are more than 120 apart, otherwise a non-negative number whose square times the smaller count is the gap times the larger one |
| Distances.DistanceSquared | src/Burst.cpp:93-103 | the same of the closed form, with the literals of the code |
| Distances.DistanceSymmetric | src/Burst.cpp:40-104 | the distance does not depend on which burst asks |
| Distances.DistanceBounds | src/Burst.cpp:40-104 | every distance is non-negative and below 100, its square is at most 242, and within 120 packets its square is the gap scaled by max/min |
| Distances.DistanceZero | src/Burst.cpp:40-104 | zero exactly when packet counts differ by at most 120 and every signature has the same share in both bursts |
| Distances.DistanceRespectsKey | include/Burst.h:113-141 | bursts equal under operator== are at the same distance from every burst |
| Hellinger.DistanceMeaning | src/Burst.cpp:40-104 | more than 120 packets apart the distance is 1; otherwise its square times the smaller packet count is the larger one times the sum, over the signatures of both bursts in any order, of (sqrt(p) - sqrt(q)) squared, p and q being the shares |
| Hellinger.DisjointBursts | src/Burst.cpp:40-104 | ten packets of one signature against forty of another: the distance squares to 8 |
| Segmentation.LongShortPartition | src/DeviceBurstGenerator.cpp:3-33 | chunks in emission order concatenate to the input; no gap of the interval inside one; long chunks last longer than the duration; a chunk that is not last is long exactly when the gap after it is below the interval; the last is short |
| Segmentation.ChunkDurations | src/DeviceBurstGenerator.cpp:3-33 | no chunk lasts more than duration plus interval, and long ones more than the duration |
| Segmentation.ChunksByKind | src/DeviceBurstGenerator.cpp:3-33 | the short vector is the packets of the chunks not marked long, the long vector those of the chunks marked long, both in order |
| Segmentation.RegroupingKeepsPackets | src/DeviceBurstGenerator.cpp:42-51 | regrouping by 5-tuple hash loses and duplicates no packet, whatever order the map is walked in |
| Segmentation.FlowsByHash | src/DeviceBurstGenerator.cpp:42-51 | there is a flow for a hash exactly when some packet has it in its hash field, and it is the packets with this field, in order |
| Segmentation.StrictTimeBounds | src/DeviceBurstGenerator.cpp:71-110 | the bursts' packets concatenate to the input; gaps stay below the interval, the first burst below the duration, later ones below duration plus interval, signatures within the cap; no burst ends unless one of the three rules forces it; and every stamp is exact: the first packet's for the first burst, otherwise the next processed packet's, or zero if there is none |
| Segmentation.LateStampWitness | src/DeviceBurstGenerator.cpp:79-105 | with both limits one second, four packets give a later burst that spans duration + interval - 1 seconds |
| Segmentation.OnePacketWitness | src/DeviceBurstGenerator.cpp:79-105 | three packets ten seconds apart give a burst stamped by the next burst's packet and a last burst with stamp zero |
| SlotBursts.SlotConserves | src/DeviceBurstGenerator.cpp:3-127 | per slot, the bursts' counts of every signature add up to its occurrences among the packets, and packet counts to their number, through both cuts, the regrouping and both sorts |
| SlotBursts.SlotBurstsGood | src/Burst.cpp:288-318 | every burst generated from a non-empty list for a device has its name, between one signature and the cap, at least one packet, matching counters, distinct and sorted entries |
| SlotBursts.BurstsStayInSlot | src/DeviceBurstGenerator.cpp:71-110 | every burst is the sorted histogram of packets of its slot only |
| SlotBursts.BurstsStayInFlow | src/DeviceBurstGenerator.cpp:35-69 | the packets of one burst all come from one short chunk, or all from long chunks and with the same 5-tuple hash |
| SlotBursts.SlotBurstsInOrder | src/DeviceBurstGenerator.cpp:112-118 | the bursts of a slot ascend in first-packet time, in nanoseconds |
| SlotBursts.EntriesInOrder | src/DeviceBurstGenerator.cpp:120-126 | the entries of every burst ascend in their signatures |
| Generator.SortByStamp | src/DeviceBurstGenerator.cpp:114-118 | the bursts are rearranged into ascending first-packet stamps |
| Generator.DeviceBurstGenerator.constructor | src/DeviceBurstGenerator.cpp:3-127 | the generator's bursts are new objects whose contents are a possible outcome for the packets, so everything proved of outcomes holds of them |
| Generator.DeviceBurstGenerator.LongShortSplit | src/DeviceBurstGenerator.cpp:3-33 | the two vectors receive exactly the short and the long chunks of the partition, and whatever is in the long one lasts more than the duration |
| Generator.DeviceBurstGenerator.SeparateBy5Tuple | src/DeviceBurstGenerator.cpp:42-51 | the flow map has an entry for h exactly when some long packet has 5-tuple hash h, and the entry is exactly the long packets with that hash, in order |
| Generator.DeviceBurstGenerator.MakeNormalBurstVec | src/DeviceBurstGenerator.cpp:53-60 | appends the bursts of every short chunk, in order |
| Generator.DeviceBurstGenerator.MakeLongBurstVec | src/DeviceBurstGenerator.cpp:62-69 | appends the bursts of every flow, each flow once |
| Generator.DeviceBurstGenerator.StrictToBursts | src/DeviceBurstGenerator.cpp:71-110 | new objects, pairwise tracked, holding the histograms and stamps of the segments bounded above |
| Generator.DeviceBurstGenerator.NeedsCut | src/DeviceBurstGenerator.cpp:86-101 | the test with differences kept from earlier iterations decides exactly the three cut rules |
| Generator.DeviceBurstGenerator.SortInOrder | src/DeviceBurstGenerator.cpp:112-127 | rearranges the bursts by stamp and sorts every burst's entries, changing nothing else |
| Slotting.Converter.AddPacket | src/Reorganizer.cpp:251-260 | the packet joins, or starts, the list of its device and slot; all other lists are unchanged |
| Slotting.Converter.PktDatasetCvtoBursts | src/Reorganizer.cpp:234-249 | for a non-empty dataset, exactly the devices that occur in a packet get blocks, one per non-empty slot in strictly increasing slot order, each generated from exactly that slot's packets |
| Slotting.Converter.SplitSlots | src/Reorganizer.cpp:262-292 | between the least and the greatest slot of any device, every cell of every device is turned into one block, in order, and the slot map is emptied |
| Slotting.Converter.SplitSlot | src/Reorganizer.cpp:294-312 | an empty slot changes nothing, a non-empty one appends one block generated from it and is removed |
| Slotting.BlocksExist | src/Reorganizer.cpp:234-312 | a device has blocks exactly when it occurs; they stand, in increasing order, for exactly the k for which it has a packet with k * timeslot <= seconds < (k + 1) * timeslot |
| Slotting.BlockCountsPackets | src/Reorganizer.cpp:234-312 | each such block counts every signature as often as the device's packets with seconds in that slot carry it, and has as many packets as there are such packets |
| Slotting.BlockSlotsUnique | src/Reorganizer.cpp:280-312 | how many blocks a device has, and the slot of each, is determined by the packets alone |
| Slotting.SlotKeyMeaning | src/Reorganizer.cpp:239-243 | a packet is in slot k exactly when its seconds are at least k times the slot length and below k + 1 times |
| Slotting.DeviceConserves | src/Reorganizer.cpp:234-312 | over all blocks of a device, every signature is counted exactly as often as the device's packets carry it |
| Slotting.DatasetConserves | src/Reorganizer.cpp:234-312 | the packet counts of all bursts of all blocks add up to the size of the dataset |
| Slotting.BlockBurstsGood | src/Reorganizer.cpp:314-318 | every burst of every block carries its device's name and passes Validate |
| Slotting.BlockBurstsInOneSlot | src/Reorganizer.cpp:294-312 | every burst of a block is the sorted histogram of packets of that device with seconds in the slot the block stands for |
| Merging.GeneratedBurstIsTrainable | src/KBurstClassifier.cpp:61-73 | a generated burst has defined distances and a bucket in the table |
| Merging.MergeStrictHash | src/KBurstClassifier.cpp:111-136 | one entry for the first burst of every hash value, counting all bursts with it; the counts add up to the number of bursts |
| Merging.HashMergeExact | src/KBurstClassifier.cpp:111-136 | the merge counts exactly equal bursts together if and only if no two unequal bursts share a hash |
| Merging.CollisionWitness | src/KBurstClassifier.cpp:121-131 | under every primitive hash, two unequal bursts of 32 packets, with counts 1 and 31 exchanged, become one entry with count two |
| Merging.FindItenticalKeysInMap | src/KBurstClassifier.cpp:187-214 | finds a kept burst with the same signature list if and only if there is one |
| Merging.FindUltraSimilarBurst | src/KBurstClassifier.cpp:217-228 | finds a kept burst closer than 0.2 if and only if there is one |
| Merging.Ranked | src/KBurstClassifier.cpp:141-147 | all entries, each once, by descending count |
| Merging.MergeIdenticalKeys | src/KBurstClassifier.cpp:138-184 | entries are taken by descending count until the cap, and every one follows the rule of the code, given exactly the bursts kept before it: small ones are kept, big ones join one within 0.2 if there is one, else one with the same signatures within 0.7, else are kept; the kept bursts are the entries credited to themselves, in the order taken, each with the sum credited to it; kept counts plus counts never reached equal the counts given, and at most 1001 bursts are kept |
| Merging.RunInFull | src/KBurstClassifier.cpp:138-184 | of every run: the entries given, each once, by descending count; all are taken unless 1001 bursts are kept; with at most 10 signatures and 6 packets an entry is kept; otherwise it joins a burst kept before it within 0.2 if there is one, or one with the same signatures within 0.7, or is kept, beside one with the same signatures only if such a one is 0.7 or more away; a kept burst has the sum of the counts that joined it |
| Merging.CreditMeaning | src/KBurstClassifier.cpp:149-183 | an entry goes to itself or to one taken before it that was kept; one that is not big always to itself; and if not to itself, then within 0.2, or within 0.7 with the same signatures |
| Merging.KeptBigStandsApart | src/KBurstClassifier.cpp:157-182 | a big kept burst has no burst kept earlier within 0.2, and has one with its signatures only if one with its signatures is 0.7 or more away |
| Merging.KeptBesideSameSigs | src/KBurstClassifier.cpp:186-214 | a big burst with no similar one may be kept beside one with its signatures if and only if some kept one with its signatures is 0.7 or more away |
| Merging.TwoOutcomes | src/KBurstClassifier.cpp:186-214 | beside a near and a far kept burst with its signatures, a burst may join the near one or be kept, for the search returns either |
| Merging.SmallTakenFirst | src/KBurstClassifier.cpp:149-183 | a small burst counted five times and a big one counted three times at distance zero always end as the small one counted eight times |
| Merging.TakenHasHome | src/KBurstClassifier.cpp:149-183 | every entry taken before the cap has a kept burst that is itself or within 0.7 |
| Merging.EveryBurstHasHome | src/KBurstClassifier.cpp:149-183 | when at most 1000 bursts are kept, that is so for every burst given |
| NearestIndex.CandidatesAreInWindow | src/KBurstClassifier.cpp:357-367 | the nested loops meet every training burst inside the window exactly once and no other |
| NearestIndex.WindowMeaning | src/KBurstClassifier.cpp:357-367 | a stored burst is looked at exactly when the difference of signature counts is below uniRange, its own count is at most the 8-bit sum of the test burst's and uniRange, and its packet count is in pktRange, counts from maxPacketIndex on being one column |
| NearestIndex.BestIsLeast | src/KBurstClassifier.cpp:369-380 | the running minimum is the least distance met, its list holds all bursts that attain it, and only an empty list leaves the start value 100 |
| NearestIndex.ScanIsBruteForce | src/KBurstClassifier.cpp:357-386 | the windowed scan returns the minimum and the multiset of minimisers of a pass over all training bursts that tests the window predicate |
| NearestIndex.ScanIgnoresTrainingOrder | src/KBurstClassifier.cpp:61-73 | neither depends on the order in which training tasks filled the buckets |
| NearestIndex.ScanFindsNearest | src/KBurstClassifier.cpp:357-386 | a burst is returned exactly when it was trained, its signature and packet counts are in the stated ranges of the test burst's, and it is at the returned distance, which no trained burst in range undercuts; the result is empty, with distance 100, only if none is in range |
| NearestIndex.ExactRecall | src/KBurstClassifier.cpp:357-361 | a trained burst equal to the test burst is returned, at distance zero, if and only if the stated range condition holds |
| NearestIndex.WrappedWindowWitness | src/KBurstClassifier.cpp:357-358 | one signature and a row range of 255 wrap the upper bound to zero, and a trained copy of the test burst is missed |
| NearestIndex.ScanRespectsKey | include/Burst.h:113-171 | bursts equal under operator== get the same uncached prediction |
| NearestIndex.Classifier.Store | src/KBurstClassifier.cpp:70-72 | the burst is appended to the bucket of its signature count and its clamped packet count, which exists; all other buckets are unchanged |
| NearestIndex.Classifier.StoreAll | src/KBurstClassifier.cpp:61-73 | every merged burst of the device is stored once, in an arbitrary order |
| NearestIndex.Classifier.TrainOneDevice | src/KBurstClassifier.cpp:54-73 | what the hash merge, and if enabled the greedy merge, keep of a device is stored, each burst once |
| NearestIndex.TrainedBurstIsNear | src/KBurstClassifier.cpp:54-73 | below the cap, every training burst whose hash no unequal one shares has a stored one within 0.7, and a test equal to it gets a distance below 0.7 whenever that one lies in its window |
| NearestIndex.Classifier.Scan | src/KBurstClassifier.cpp:357-386 | the loops over rows, columns and buckets compute the result ScanFindsNearest and WindowMeaning characterise, within the table's bounds |
| CacheProtocol.PredictionCache.Clear | include/BurstCache.h:14-18 | no entry is left |
| CacheProtocol.PredictionCache.Query | include/BurstCache.h:20-24 | returns the entry of the key, creating a zero distance with no burst when it is missing, and touches no other entry |
| CacheProtocol.PredictionCache.PredictBurst | src/KBurstClassifier.cpp:346-387 | with or without a cached result the answer is the uncached scan's, and the cache stays correct |
| CacheProtocol.StepKeeps | src/KBurstClassifier.cpp:346-387 | every atomic step of every thread keeps the invariant tying locks, entries filled in place, thread positions and answers together |
| CacheProtocol.RetrainKeeps | src/IoTBurst.cpp:92-94 | clearing the cache between two classifiers keeps the invariant for any new table |
| CacheProtocol.AnswersAreUncached | include/BurstCache.h:14-30 | in every run, every answer equals the uncached scan of the table in force, and an incomplete entry exists only while its key lock is held by a thread that is scanning |
| CacheProtocol.AnswersAreNearest | src/KBurstClassifier.cpp:346-387 | in every run, every answer lists exactly the trained bursts in the window of its test burst at the answered distance, which none of them undercuts |
| CacheProtocol.NoDeadlock | include/BurstCache.h:26-30 | while a call is under way some thread inside a call can take a step |
| CacheProtocol.CallsEnd | src/KBurstClassifier.cpp:346-387 | every step inside a call shortens that call and leaves all other calls as they are |
| CacheProtocol.CallsRunOut | src/KBurstClassifier.cpp:346-387 | a run in which no new call starts makes at most as many steps as all calls together have left, and when it cannot go on every thread is idle |
| CacheProtocol.CachedCallRepeats | include/BurstCache.h:26-30 | a call answered from the cache leaves threads, locks and entries as they were, so it can be repeated for ever past a waiting thread |
| CacheProtocol.UnchangedBucketsAreSafe | src/IoTBurst.cpp:92-94 | without Clear the invariant survives a new table whose buckets hold the same candidates for every cached burst |
| CacheProtocol.StaleAnswer | src/IoTBurst.cpp:92-94 | without Clear a stale entry is returned as the answer under the new table |
| CacheProtocol.StaleWitness | src/IoTBurst.cpp:92-94 | a table with one burst, followed without Clear by an empty table, answers with a burst the new table does not hold |
| Voting.BurstGroupPolicy.AddBurstPrediction | src/BurstGroupPolicycpp.cpp:10-48 | a label gains a share exactly when the distance is at most 0.5 and some nearest burst carries it; all shares are equal, and a share times the number of labels times (sqrt(d) + 1) is log(uni + 1); every other score is unchanged |
| Voting.PlusAllAt | src/BurstGroupPolicycpp.cpp:36-40 | exactly the predicted names gain the share, once each; all other scores are unchanged |
| Voting.VoteMass | src/BurstGroupPolicycpp.cpp:36-40 | the bucket's sum grows by log(uni + 1) / (1 + sqrt(d)), however many names tie |
| Voting.PredictBurstGroup | src/KBurstClassifier.cpp:334-344 | after a whole group every label's score is the sum of its shares over the uncached predictions of the bursts, and the bucket's sum is the sum of their weights |
| Voting.BurstGroupPolicy.Rank | src/BurstGroupPolicycpp.cpp:68-76 | the multimap holds exactly the labels of the bucket other than "unreliable", once each with their scores, by ascending score |
| Voting.BurstGroupPolicy.GenPrediction | src/BurstGroupPolicycpp.cpp:66-138 | a single contender (within the margin of all others) wins; among several the label returned is a contender owning a training block whose packet gap to the merged group no contender's block undercuts and no block of a higher-scored contender equals, or the old value when no contender has a usable block |
| Voting.PickBlock | src/BurstGroupPolicycpp.cpp:118-129 | the device is taken exactly when one of its blocks is closer than everything before |
| Voting.LabelsInReach | src/BurstGroupPolicycpp.cpp:94-110 | the contenders are the labels other than "unreliable" that no such label outscores by more than the margin, and one that is ahead of all others by more is the only one |
| Voting.UsableMeaning | src/BurstGroupPolicycpp.cpp:100-129 | a block can win exactly when its packet gap is below the largest 32-bit integer |
| BlockLevels.BlockLevel.TrainOneDevice | src/KBurstClassifier.cpp:46-52 | the packet counts of the device's merged groups are appended to what every earlier training left, and no other device changes |
| BlockLevels.PickLabel | src/BurstGroupPolicycpp.cpp:118-129 | GenPrediction picks from the blocks of every training there has been, by whatever classifier |
| BlockLevels.StaleBlocks | include/BurstGroupPolicy.h:35-36 | with blocks of an earlier and a later classifier, the side with the smaller gap decides alone; on equal gaps the picks are those of either side that no contender at that gap outscores |
| BlockLevels.EarlierDoesNotMatterIff | include/BurstGroupPolicy.h:35-36 | the picks are those of the later classifier alone if and only if its nearest block is nearer, or it is farther but both sides pick the same, or the gaps are equal and every pick of the earlier side is a pick of the later one or outscored by one |
| BlockLevels.NothingStale | include/BurstGroupPolicy.h:35-36 | earlier blocks of labels that do not contend change nothing |
| BlockLevels.StaleBlockDecides | include/BurstGroupPolicy.h:35-36 | with two contenders and a group of ten packets, a block left by a first classifier turns the second one's pick |
| Scoring.Score.AddPrediction | src/Score.cpp:73-102 | every sheet stays what the predictions so far make it, and the totals stay balanced |
| Scoring.SheetCounts | src/Score.cpp:73-102 | a sheet's four counters are the numbers of predictions of its type that were unreliable, right and wrong, and of predictions of other types as its type |
| Scoring.SheetLists | src/Score.cpp:85-117 | its three index vectors hold exactly the indices of these misses, hits and errors |
| Scoring.Score.GetSummaryIndex | src/Score.cpp:188-219 | the totals are the numbers of hits, errors and misses; TP + FN + miss is the number of predictions, FN equals FP, and TP/(TP+FP) is TP/(TP+FN) |
| Scoring.SheetRecordsAll | src/Score.cpp:85-117 | every prediction of a type is recorded under exactly one of its three index vectors |
| Scoring.ToResultIndex | src/Score.cpp:36-65 | given indices that fit, each slot carries the mark of the vector that names it, and is blank only if none does |
| Scoring.SlotsWrittenOnce | src/KBurstClassifier.cpp:304-332 | for a type with one device whose recorded indices arrive in any order, all indices fit if and only if no task that keeps a group follows one that filtered a group out, and then they are 0 to n - 1, each once |
| Scoring.UnfilteredSlots | src/KBurstClassifier.cpp:304-332 | with one device and no filtered group the indices are 0 to n - 1, each once |
| Scoring.DevicesSlotsOnce | src/Score.cpp:73-118 | for a type with any number of devices, every slot is written exactly once if and only if no two devices keep a group at the same task number and, all devices together, every task number before one at which a group is kept is full |
| Schedules.InterleavingKeepsIndices | src/KBurstClassifier.cpp:304-332 | however the tasks of all devices interleave, the log holds exactly the indices of each type that the tasks record |
| Schedules.TestSetRecords | src/KBurstClassifier.cpp:282-295 | the tasks of all devices of a type, each starting at its task number times the epoch size, together record the indices the conditions speak of |
| Schedules.InterleavedSlotsOnce | src/KBurstClassifier.cpp:263-332 | for every interleaving of the tasks of any test set: every slot of a type is written exactly once if and only if no two of its devices keep a group at the same task number and, all together, every task number before one at which a group is kept is full |
| Schedules.OneDeviceSlots | src/KBurstClassifier.cpp:263-332 | for every interleaving, when one device alone has a type: all its indices fit if and only if groups are filtered out only after the last task that keeps one, and then each slot is written once |
| Tasks.SplitRounds | include/Utils.h:14-23 | after any number of rounds, for any chunk size, the position is the one the loop reaches and the chunks so far complete the pieces of the rest |
| Tasks.CutEndsIff | include/Utils.h:14-23 | the loop reaches the end of the vector if and only if the chunk size is positive or the vector is empty, and then within one round per element |
| Tasks.SplitVector | include/Utils.h:14-23 | ends exactly when the loop does, and then returns the pieces characterised by the next two rows |
| Tasks.ChunksPartition | include/Utils.h:14-23 | the pieces concatenate to the vector and number its size over the chunk size, rounded up |
| Tasks.ChunkSizes | include/Utils.h:14-23 | no piece is empty or too long, and all but the last are full |
| Tasks.EpochSlots | src/KBurstClassifier.cpp:271 | a task has as many slots as fit into 14400 seconds |
| Tasks.Predict | src/KBurstClassifier.cpp:267-302 | the wait group's count equals the number of tasks started, for every test set |
| Tasks.PredictGroups | src/KBurstClassifier.cpp:304-332 | as many indices are recorded as groups have at least MIN_BLOCK_PKTNUM packets, and they count up from the task's base |
| Tasks.PredictDevice | src/KBurstClassifier.cpp:282-295 | the tasks of a device record, task by task, the indices the next row speaks of |
| Tasks.RecordedOnceEach | src/KBurstClassifier.cpp:282-295 | a device's n recorded indices are 0 to n - 1 in order if and only if they all stay below n, which is so if and only if groups are filtered out only after the last task that keeps one |
| Tasks.KeptBounded | src/KBurstClassifier.cpp:282-295 | no task records more indices than its share, whatever the filter drops |
| Tasks.NothingFiltered | src/KBurstClassifier.cpp:282-295 | when no group is filtered out every task but the last is full, so the condition of the previous rows holds |
| Tasks.FilteredGroupOverflows | src/KBurstClassifier.cpp:319-328 | a group filtered from the first of two tasks leaves eight indices, one of which is 8 |
| Tasks.DevicesOnceEach | src/KBurstClassifier.cpp:282-295 | the indices of several devices are 0 to n - 1, each once, if and only if no two keep a group at the same task number and, all together, every task number before one at which a group is kept is full |
| Tasks.TwoDevicesCollide | src/Score.cpp:73-118 | two devices of one type that score one group each both record index 0 |
| Tasks.CountDone | src/Reorganizer.cpp:92-104 | for every file: the cut ends unless there are one to eight packets, and it ends with exactly ten done calls if and only if n % 9 <= n / 9 |
| Tasks.DoneCallsExact | src/Reorganizer.cpp:92-104 | for every file the cut ends and the counter gets ten done calls if and only if n % 9 <= n / 9; the cut ends unless there are one to eight packets; from 72 packets on the condition holds, with nine or ten tasks |
| Tasks.SeventeenPackets | src/Reorganizer.cpp:92-104 | 17 packets make 17 tasks, and the counter gets 2^64 + 10 done calls |
| Combinations.DigitsOfRank | include/Combiner.h:9-28 | the digits of a tuple's rank are the tuple |
| Combinations.RankOfDigits | include/Combiner.h:9-28 | every number below the product is the rank of its digits |
| Combinations.RankIsLexicographic | include/Combiner.h:9-28 | smaller rank means lexicographically smaller |
| Combinations.Combiner.constructor | include/Combiner.h:6-7 | starts at rank zero, not finished |
| Combinations.Combiner.GetNext | include/Combiner.h:9-28 | returns the elements at the current positions and moves to the next rank, or finishes after the last; without arrays it never finishes |
| Combinations.Drain | src/IoTBurst.cpp:27-35 | the draining loop ends after exactly the product of the sizes, having produced the tuples in rank order |
| Combinations.EveryTupleOnce | include/Combiner.h:9-28 | call k returns the elements at the mixed-radix digits of k; every tuple of positions comes up exactly once; the order is lexicographic |

## Left out

- GenPrediction: the fallback when no reliable label was voted for, which ranks suffix-stripped device names, is not part of the theorem.
- AddPrediction: the unlocked append to the list of wrongly predicted groups (src/Score.cpp:81) is not modelled, and each call is one atomic step.
- TrainOneDevice: the merges and the table insert; the per-device statistics, the average block size and the call of Validate, which generated bursts pass, are left out.
- AddAllCounts: packet counts are unbounded integers; the wrap of a 32-bit count is not modelled.
- DistanceBounds: floats are reals, so nothing is said about rounding.
- SplitVector: the narrowing of a position to int is not modelled; a loop that does not end is the outcome RunsForever.
- SortByStamp: std::sort is modelled as an insertion sort; which of two bursts with equal stamps comes first is left open in what a slot may produce.
- PktDatasetCvtoBursts: a finished burst is held by value from here on, since nothing changes it any more; null entries of the slot map are modelled as absent ones; the second overload, which works on the stored packet dataset, does the same.
- BlockLevel: device names stand for the numeric device ids, and the trainings of one classifier are recorded one after the other; the map is locked for every append, and different devices append to different entries.
- GroupMass: each prediction of a group is one call of the sequential cache model; interleaving is covered by the state machine, in which every answer is the uncached one.
- Packet capture, parsing, address lookup and the body of the raw conversion: calls into PcapPlusPlus.
- Serialization, file paths, CSV and string output, timers, logging and configuration printing: input and output.
- TrainTestSplit, BlockAvgPktNum, removeSuffix and SplitString: easy members; type labels are opaque names here.
- Burst::Distance by reference and Burst::Similar: nothing enabled calls them.
- Precision, recall and F1 of single sheets and the average packet number: plain quotients and a stored value.
