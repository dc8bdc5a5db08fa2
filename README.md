# Distributed voting system — verified model of the admission core

This project is a Dafny model of the vote-admission logic in the ProjectOne
distributed voting system. It leaves out the Swing windows, the HTTP
transport, Redis, MongoDB and the thread pools that surround that logic.
What remains:

- **The single-node server** (`VoteServer`). It holds:
  - the per-user vote map and the per-candidate counts;
  - the per-user lock map and the three request counters;
  - the hand-written `extract*` field readers and the JSON writers for
    results and statistics.

  The handler is one atomic step, `VoteStep`, and the class
  `SimpleVoteServer` is proved against it. Each per-user `ReentrantLock` is
  a held or free flag (`userLocks`), so the 429 path can be reached.
- **The client and the monitor** (`JsonResults`, `VoteClient`, `ServerGui`).
  They cover:
  - the `String.format` vote body;
  - round-robin node selection;
  - the split-based `parseJsonResults`, which both windows carry as
    identical copies;
  - the defaults used when the parsed maps are shown;
  - the monitor's `int` total;
  - its 20-symbol progress bar.

  `JavaText` models the Java string operations they use: `indexOf`,
  `split` (which drops trailing empty strings), `replace`, `trim`,
  `Integer.parseInt` and `Integer.toString`. `Base` has Java's `int`
  range, truncating `/` and `%`, `getOrDefault` and the sum of a map's
  values.
- **The Redis lock table** (`LockService`). It is a map from key to value
  and expiry in milliseconds. Every operation takes the current time, and
  a key is present until its expiry. The class `DistributedLockService` is
  proved against the pure steps `TryLockStep`, `ReleaseStep` and
  `ForceReleaseStep`.
- **The ledger pipeline** (`VoteRecord`, `VoteProcessing`). `Vote` is the
  mutable bean, with its setters and its two constructors. The votes
  collection is a map from id to document. `Save` enforces the unique
  index on `userId`. `processVote` is:
  1. take the lock;
  2. refuse a user who has any record;
  3. save PROCESSING, then CONFIRMED;
  4. release the lock on every way out, in the `finally`.

  The release has a time of its own. It frees the lock only while the
  lock's 10 s have not run out, and a later release leaves the 300 s
  session key behind.

  It is the pure `ProcessVoteStep`, and `VoteProcessingService` is proved
  against it. The tally methods count only CONFIRMED records.
- **Replication bookkeeping** (`Replication`). It covers:
  - the majority rule `successCount >= replicaCount / 2 + 1`;
  - the status table and its counters;
  - the consistency check over replica reads.

  The asynchronous replica answers are a `seq<bool>`. The replica reads are
  a `seq<Option<string>>`.
- **The scheduling queue** (`Scheduling`). It is the priority queue ordered
  by timestamp, with submit, take, the per-request counters, start,
  shutdown and the statistics.

Clocks, UUIDs, the server-node name, the replica outcomes, the replication
timeout and a store failure are all parameters of the operations that use
them.

## Model

| member | source | states |
|---|---|---|
| Base.JavaDiv | ProjectOne/src/main/java/p/projectone/service/ReplicationService.java:81 | Java `int` division truncates toward zero: it equals Euclidean division for a non-negative dividend, and is its negation for a negative one |
| Base.JavaRem | ProjectOne/src/main/java/p/projectone/SimpleVoteClient.java:52 | Java `%` keeps the sign of the dividend: the usual remainder for a non-negative dividend, a value in (-b, 0] for a negative one |
| Base.Wrap32 | ProjectOne/src/main/java/p/projectone/SimpleVoteClient.java:43 | the two's-complement wrap of an `int` computation is always in `int` range and leaves in-range values alone |
| Base.GetOrDefault | ProjectOne/src/main/java/p/projectone/SimpleVoteClient.java:243 | `getOrDefault` gives the stored value for a present key and the default for an absent one |
| Base.MapSumRemove | ProjectOne/src/main/java/p/projectone/ServerGUI.java:295-296 | the sum of a map's values does not depend on the order its keys are visited in |
| Base.MapSumSplit | ProjectOne/src/main/java/p/projectone/ServerGUI.java:295-296 | the sum of a map's values is the sum over any set of its keys plus the sum over the remaining keys |
| Base.MapSumUpdate | ProjectOne/src/main/java/p/projectone/SimpleVoteServer.java:125 | overwriting one entry changes the sum by the new value minus the old value (0 when absent) |
| JavaText.IndexOf | ProjectOne/src/main/java/p/projectone/SimpleVoteServer.java:240 | `indexOf` gives the first position where the pattern occurs, or -1 exactly when it occurs nowhere |
| JavaText.IndexOfFrom | ProjectOne/src/main/java/p/projectone/SimpleVoteServer.java:241 | `indexOf(p, from)` gives the first occurrence at or after `from`, or -1 when there is none |
| JavaText.Split | ProjectOne/src/main/java/p/projectone/SimpleVoteClient.java:299 | `split` pieces never contain the separator, a string without it is one piece, and trailing empty pieces are dropped |
| JavaText.SplitJoin | ProjectOne/src/main/java/p/projectone/SimpleVoteClient.java:299-301 | splitting pieces joined by a separator they do not contain, the last not empty, gives back the pieces |
| JavaText.RemoveChar | ProjectOne/src/main/java/p/projectone/SimpleVoteClient.java:303 | `replace("\"", "")` leaves no quote, and leaves a quote-free string unchanged |
| JavaText.RemoveCharConcat | ProjectOne/src/main/java/p/projectone/SimpleVoteClient.java:303 | removing a character distributes over concatenation |
| JavaText.Trim | ProjectOne/src/main/java/p/projectone/SimpleVoteClient.java:303 | `trim` leaves no blank at either end and changes nothing that has none |
| JavaText.ParseInt | ProjectOne/src/main/java/p/projectone/SimpleVoteClient.java:304 | `Integer.parseInt` gives the value of unsigned, `+`-signed and `-`-signed decimal text exactly when that value is a Java `int`; any other text, the empty string included, gives none |
| JavaText.IntToString | ProjectOne/src/main/java/p/projectone/SimpleVoteServer.java:170 | the decimal form of an `int` is non-empty, made of digits and a sign, and all digits exactly for non-negative values |
| JavaText.ParseIntToString | ProjectOne/src/main/java/p/projectone/SimpleVoteClient.java:304 | `parseInt` reads back every `int` that `toString` writes |
| JsonResults.ParseJson | ProjectOne/src/main/java/p/projectone/SimpleVoteClient.java:294-312 | input shorter than two characters, where `substring` throws, gives the empty map |
| JsonResults.ParseJsonResults | ProjectOne/src/main/java/p/projectone/SimpleVoteClient.java:294-312 | the parsing loop returns what `ParseJson` defines: each pair splitting into two parts is put, and a value that fails to parse ends the loop; the copy in `ServerGUI.java` (lines 355-373) is the same loop |
| JsonResults.ParseEntry | ProjectOne/src/main/java/p/projectone/SimpleVoteClient.java:301-305 | a `"key":value` member with a plain key and an `int` value parses to putting exactly that key and value |
| JsonResults.ParseJsonObject | ProjectOne/src/main/java/p/projectone/SimpleVoteClient.java:294-311 | round trip: the flat object the server writes parses back to its entries put in order |
| JsonResults.CollectStopsAtBad | ProjectOne/src/main/java/p/projectone/SimpleVoteClient.java:300-310 | once a pair fails, the result is what the pairs before it produced, whatever follows |
| JsonResults.ParseStopsAtBadValue | ProjectOne/src/main/java/p/projectone/ServerGUI.java:361-372 | a value that does not parse keeps the entries parsed before it and reads nothing after it |
| JsonResults.PutAllLast | ProjectOne/src/main/java/p/projectone/SimpleVoteClient.java:305 | a later duplicate key overwrites an earlier one: a key's value is that of its last entry |
| JsonResults.PutAllUnchanged | ProjectOne/src/main/java/p/projectone/SimpleVoteClient.java:305 | keys that no entry mentions keep their value |
| JsonResults.PutAllKeys | ProjectOne/src/main/java/p/projectone/SimpleVoteClient.java:305 | the result's keys are exactly the old keys together with every entry's key |
| VoteServer.ExtractUserId | ProjectOne/src/main/java/p/projectone/SimpleVoteServer.java:238-247 | the result is `v` exactly when `v` is the non-empty, quote-free text between the first `"userId":"` and the next quote; null otherwise, including a missing marker or an empty value |
| VoteServer.ExtractCandidateId | ProjectOne/src/main/java/p/projectone/SimpleVoteServer.java:252-261 | the same for `"candidateId":"`, in both directions |
| VoteServer.ExtractCandidateName | ProjectOne/src/main/java/p/projectone/SimpleVoteServer.java:266-275 | the same for `"candidateName":"`, in both directions |
| VoteServer.ExtractMeaning | ProjectOne/src/main/java/p/projectone/SimpleVoteServer.java:239-246 | with the offset equal to the marker's length and the guard one less, the contains/indexOf/substring shape returns exactly the value that follows the first marker |
| VoteServer.ExtractNoMarker | ProjectOne/src/main/java/p/projectone/SimpleVoteServer.java:240-242 | without the marker, `indexOf` gives -1, the start lands on the guard and the result is null |
| VoteServer.SimpleVoteServer.constructor | ProjectOne/src/main/java/p/projectone/SimpleVoteServer.java:40-42 | the initialisation loop leaves each of "1", "2" and "3" at 0 votes, with empty maps and zero counters |
| VoteServer.InitialConsistent | ProjectOne/src/main/java/p/projectone/SimpleVoteServer.java:40-42 | the initial state satisfies the tally invariant: each count is its number of voters, and the counts add up to the successful votes |
| VoteServer.SimpleVoteServer.Process | ProjectOne/src/main/java/p/projectone/SimpleVoteServer.java:80-151 | the handler's new state and response are those of one atomic `VoteStep` |
| VoteServer.SimpleVoteServer.HandleVote | ProjectOne/src/main/java/p/projectone/SimpleVoteServer.java:90-102 | the body is read by the extractors and the handler then takes the `VoteStep` for those fields |
| VoteServer.SimpleVoteServer.LockHeldElsewhere | ProjectOne/src/main/java/p/projectone/SimpleVoteServer.java:108 | another request's critical section marks the user's lock held and changes nothing else |
| VoteServer.VoteStepCounters | ProjectOne/src/main/java/p/projectone/SimpleVoteServer.java:81-86 | every request counts once in `totalRequests`; a non-POST answers 405 and changes nothing else; every POST counts as exactly one success or one failure |
| VoteServer.InvalidBodyRejected | ProjectOne/src/main/java/p/projectone/SimpleVoteServer.java:98-102 | a missing user id or candidate id gives 400 and one more failure, and records nothing |
| VoteServer.HeldLockRejected | ProjectOne/src/main/java/p/projectone/SimpleVoteServer.java:135-139 | while the user's lock is held the answer is 429 and one more failure; maps and locks are untouched |
| VoteServer.RepeatVoteRejected | ProjectOne/src/main/java/p/projectone/SimpleVoteServer.java:113-118 | a user who already voted gets 400 "User already voted"; the vote maps are unchanged, one more failure, and the `finally` leaves the lock free |
| VoteServer.NewVoteRecorded | ProjectOne/src/main/java/p/projectone/SimpleVoteServer.java:124-144 | a first vote for a known candidate records the user's choice, raises that candidate's count by one and no other, counts a success and answers 200 |
| VoteServer.UnknownCandidateFails | ProjectOne/src/main/java/p/projectone/SimpleVoteServer.java:124-150 | for an id without a count, the vote is written before the unboxing throws: 500, one more failure, counts unchanged, and every later vote by that user is refused as already voted |
| VoteServer.VoteStepConsistent | ProjectOne/src/main/java/p/projectone/SimpleVoteServer.java:124-128 | every request, of any kind, preserves the tally invariant |
| VoteServer.RecordConsistent | ProjectOne/src/main/java/p/projectone/SimpleVoteServer.java:124-128 | a recorded first vote preserves the tally invariant |
| VoteServer.UnknownConsistent | ProjectOne/src/main/java/p/projectone/SimpleVoteServer.java:124-125 | a first vote for an uncounted id preserves the tally invariant, since that voter counts for no candidate |
| VoteServer.VoteStepAllKnown | ProjectOne/src/main/java/p/projectone/SimpleVoteServer.java:124 | while only candidate ids are submitted, every recorded vote is for a candidate |
| VoteServer.CountsAgree | ProjectOne/src/main/java/p/projectone/SimpleVoteServer.java:124-128 | under the invariant, with only candidate ids recorded: sum of the counts == successful votes == number of voters |
| VoteServer.ResultsEntries | ProjectOne/src/main/java/p/projectone/SimpleVoteServer.java:167-171 | the results object lists the three candidate ids in order, each with its count or 0 |
| VoteServer.SimpleVoteServer.HandleResults | ProjectOne/src/main/java/p/projectone/SimpleVoteServer.java:159-176 | a non-GET answers 405; a GET answers 200 with the JSON object of the results entries, built member by member |
| VoteServer.SimpleVoteServer.HandleStats | ProjectOne/src/main/java/p/projectone/SimpleVoteServer.java:184-200 | a non-GET answers 405; a GET answers 200 with the object of the three counters, the voter count and the lock count |
| VoteClient.BodyLayout | ProjectOne/src/main/java/p/projectone/SimpleVoteClient.java:158-159 | the body is exactly `{"userId":"u","candidateId":"c","candidateName":"n"}`, each part at its computed position |
| VoteClient.UserIdRoundTrip | ProjectOne/src/main/java/p/projectone/SimpleVoteClient.java:158-159 | the server's `extractUserId` reads back any non-empty, quote-free user id from the client's body |
| VoteClient.CandidateIdRoundTrip | ProjectOne/src/main/java/p/projectone/SimpleVoteClient.java:158-159 | `extractCandidateId` reads back the candidate id from the body, for any non-empty, quote-free user id and candidate id |
| VoteClient.CandidateNameRoundTrip | ProjectOne/src/main/java/p/projectone/SimpleVoteClient.java:158-159 | `extractCandidateName` reads back the candidate name |
| VoteClient.AsWrittenAgreesBeforeWrap | ProjectOne/src/main/java/p/projectone/SimpleVoteClient.java:52 | up to 2^31 - 1 calls, the `int` counter with Java `%` picks the intended node |
| VoteClient.AsWrittenGoesNegative | ProjectOne/src/main/java/p/projectone/SimpleVoteClient.java:52-53 | the call after the counter wraps computes index -1, outside `SERVER_NODES` |
| VoteClient.NodeIndex | ProjectOne/src/main/java/p/projectone/SimpleVoteClient.java:52 | the intended round-robin index is always a valid index into the two nodes |
| VoteClient.NodesCycle | ProjectOne/src/main/java/p/projectone/SimpleVoteClient.java:51-53 | consecutive calls go to different nodes, and each node comes back after one full round |
| VoteClient.EveryNodePicked | ProjectOne/src/main/java/p/projectone/SimpleVoteClient.java:51-53 | from any point, every node is picked within one round |
| VoteClient.SimpleVoteClient.constructor | ProjectOne/src/main/java/p/projectone/SimpleVoteClient.java:43 | the node counter starts at 0 |
| VoteClient.SimpleVoteClient.GetServerUrl | ProjectOne/src/main/java/p/projectone/SimpleVoteClient.java:47-55 | `getAndIncrement`: returns the node at the old counter modulo the node count, and advances the counter by one |
| VoteClient.ShownCounts | ProjectOne/src/main/java/p/projectone/SimpleVoteClient.java:240-245 | each candidate is shown with its parsed count, or 0 when the parsed map lacks its id, as the monitor does too (`ServerGUI.java` line 302) |
| VoteClient.ShownStats | ProjectOne/src/main/java/p/projectone/SimpleVoteClient.java:282-286 | each of the five statistics is shown with its parsed value, or 0 when missing, as the monitor does too (`ServerGUI.java` lines 245-249) |
| VoteClient.ResultsRoundTrip | ProjectOne/src/main/java/p/projectone/SimpleVoteServer.java:166-172 | the server's results JSON parses back to exactly `{"1"↦c1, "2"↦c2, "3"↦c3}` |
| VoteClient.StatsRoundTrip | ProjectOne/src/main/java/p/projectone/SimpleVoteServer.java:190-196 | the server's statistics JSON parses back to exactly its five fields |
| VoteClient.ShownCountsMatchServer | ProjectOne/src/main/java/p/projectone/SimpleVoteClient.java:236-245 | the count the client looks up for a candidate is the count the server holds, or 0 when it holds none |
| VoteClient.ShownStatsMatchServer | ProjectOne/src/main/java/p/projectone/SimpleVoteClient.java:279-286 | the client shows the server's five statistics unchanged |
| ServerGui.AddInt32 | ProjectOne/src/main/java/p/projectone/ServerGUI.java:296 | `int` `+=` stays in range and differs from the exact sum by at most one turn of 2^32 |
| ServerGui.AddInt32Wraps | ProjectOne/src/main/java/p/projectone/ServerGUI.java:296 | `int` addition is the two's-complement wrap of the exact sum |
| ServerGui.ParsedCountsInt32 | ProjectOne/src/main/java/p/projectone/ServerGUI.java:355-373 | every value the parser returns is a Java `int` |
| ServerGui.TotalVotes | ProjectOne/src/main/java/p/projectone/ServerGUI.java:294-297 | the loop's total is the `int` wrap of the sum of all parsed values, candidate ids or not |
| ServerGui.TotalOfServerResults | ProjectOne/src/main/java/p/projectone/ServerGUI.java:289-297 | for the server's results JSON, the values summed are the three candidate counts |
| ServerGui.TotalCountsOtherKeys | ProjectOne/src/main/java/p/projectone/ServerGUI.java:295-296 | for any parsed map, the sum the total wraps is the candidate ids' part plus the part of every other key |
| ServerGui.FilledCount | ProjectOne/src/main/java/p/projectone/ServerGUI.java:312-313 | the number of filled symbols is at most 20, and equals `bars` when `bars` is in 0..20 |
| ServerGui.ProgressBar | ProjectOne/src/main/java/p/projectone/ServerGUI.java:312-318 | the loop draws filled symbols followed by empty ones, as `Bar` defines |
| ServerGui.BarShape | ProjectOne/src/main/java/p/projectone/ServerGUI.java:311-318 | for `bars >= 0` the bar is exactly 20 symbols; position i is filled iff i < bars, and empty iff i >= bars |
| VoteRecord.StatusesComplete | ProjectOne/src/main/java/p/projectone/model/Vote.java:38-43 | the status enum has exactly the four distinct values PENDING, PROCESSING, CONFIRMED and REJECTED |
| VoteRecord.Vote.Empty | ProjectOne/src/main/java/p/projectone/model/Vote.java:46-50 | the no-argument constructor sets the given id and time, status PENDING, and leaves every other field null |
| VoteRecord.Vote.constructor | ProjectOne/src/main/java/p/projectone/model/Vote.java:52-57 | the three-argument constructor also stores the user, the candidate id and name; status PENDING |
| VoteRecord.Vote.Doc | ProjectOne/src/main/java/p/projectone/model/Vote.java:19-36 | the stored document carries the bean's id, user and status |
| VoteRecord.Vote.SetStatus | ProjectOne/src/main/java/p/projectone/model/Vote.java:120-122 | changes the status and no other field |
| VoteRecord.Vote.SetSessionId | ProjectOne/src/main/java/p/projectone/model/Vote.java:112-114 | changes the session id and no other field |
| VoteRecord.Vote.SetServerNode | ProjectOne/src/main/java/p/projectone/model/Vote.java:104-106 | changes the server node and no other field |
| VoteRecord.Save | ProjectOne/src/main/java/p/projectone/model/Vote.java:22-23 | with the unique `userId` index, a save fails exactly when another document holds the user; otherwise it upserts by id |
| VoteRecord.SaveKeepsUnique | ProjectOne/src/main/java/p/projectone/model/Vote.java:22-23 | a successful save keeps the store at one document per user |
| VoteRecord.ResaveSucceeds | ProjectOne/src/main/java/p/projectone/service/VoteProcessingService.java:80-81 | re-saving the same vote, with a changed status, under its own id never trips the index and replaces the document |
| LockService.KeysDistinct | ProjectOne/src/main/java/p/projectone/service/DistributedLockService.java:29-30 | different users have different lock keys and session keys, and no lock key is a session key |
| LockService.Get | ProjectOne/src/main/java/p/projectone/service/DistributedLockService.java:88 | `get` returns the value exactly when the key exists and has not expired |
| LockService.TryLockStep | ProjectOne/src/main/java/p/projectone/service/DistributedLockService.java:51-58 | `tryLock` grants exactly when no live lock key exists for the user |
| LockService.TryLockGrants | ProjectOne/src/main/java/p/projectone/service/DistributedLockService.java:51-58 | a grant stores the session under the lock key for 10 s and under the session key for 300 s, and the user is then locked |
| LockService.TryLockRefuses | ProjectOne/src/main/java/p/projectone/service/DistributedLockService.java:51-62 | on a live lock, `tryLock` returns false and the store, holder and expiry included, is unchanged |
| LockService.LockExpires | ProjectOne/src/main/java/p/projectone/service/DistributedLockService.java:31-52 | within 10 s of a grant every other session is refused; from 10 s on, without a release, any session is granted |
| LockService.ReleaseStep | ProjectOne/src/main/java/p/projectone/service/DistributedLockService.java:88-98 | `releaseLock` succeeds exactly when the live lock holds this session |
| LockService.ReleaseByOwner | ProjectOne/src/main/java/p/projectone/service/DistributedLockService.java:88-98 | the owner's release deletes both keys and leaves the user unlocked; any other release returns false and deletes nothing |
| LockService.LateReleaseFails | ProjectOne/src/main/java/p/projectone/service/DistributedLockService.java:82-103 | a release 10 s or more after the grant sees no holder, fails and deletes nothing, so the session key outlives the lock |
| LockService.LockThenRelease | ProjectOne/src/main/java/p/projectone/service/DistributedLockService.java:42-103 | a grant followed, within 10 s, by a release in the same session succeeds and leaves no lock |
| LockService.ForceReleaseStep | ProjectOne/src/main/java/p/projectone/service/DistributedLockService.java:134-142 | `forceReleaseLock` always returns true |
| LockService.ForceReleaseFrees | ProjectOne/src/main/java/p/projectone/service/DistributedLockService.java:139-140 | after a forced release, whoever held the lock, the user is unlocked and has no session key |
| LockService.OtherUsersKeys | ProjectOne/src/main/java/p/projectone/service/DistributedLockService.java:43-44 | another user's two keys are never this user's keys |
| LockService.OnlyOwnKeysChange | ProjectOne/src/main/java/p/projectone/service/DistributedLockService.java:43-44 | `tryLock`, `releaseLock` and `forceReleaseLock` on one user leave every other key present or absent, with its value, as before |
| LockService.DistributedLockService.TryLock | ProjectOne/src/main/java/p/projectone/service/DistributedLockService.java:42-73 | the method's result and new store are those of `TryLockStep` |
| LockService.DistributedLockService.ReleaseLock | ProjectOne/src/main/java/p/projectone/service/DistributedLockService.java:82-103 | the method's result and new store are those of `ReleaseStep` |
| LockService.DistributedLockService.IsLocked | ProjectOne/src/main/java/p/projectone/service/DistributedLockService.java:111-114 | true exactly when the user's lock key is present, that is, stored and not yet expired |
| LockService.DistributedLockService.ForceReleaseLock | ProjectOne/src/main/java/p/projectone/service/DistributedLockService.java:134-147 | the method's result and new store are those of `ForceReleaseStep` |
| VoteProcessing.CountersStep | ProjectOne/src/main/java/p/projectone/service/VoteProcessingService.java:50-94 | each call counts once in `totalVotes` and once in exactly the success or failure counter, by its result, so the balance is kept |
| VoteProcessing.LockRefused | ProjectOne/src/main/java/p/projectone/service/VoteProcessingService.java:56-60 | when the lock is not granted the call fails, stores nothing and leaves the lock table alone |
| VoteProcessing.RepeatVoterRefused | ProjectOne/src/main/java/p/projectone/service/VoteProcessingService.java:64-68 | a user with any record, of any status, is refused and nothing is stored |
| VoteProcessing.SuccessRecord | ProjectOne/src/main/java/p/projectone/service/VoteProcessingService.java:56-86 | a call succeeds iff the lock is free, the user has no record and the store does not fail; success stores the CONFIRMED record with the given fields, failure stores nothing |
| VoteProcessing.OneNewRecord | ProjectOne/src/main/java/p/projectone/service/VoteProcessingService.java:71-81 | with a fresh id, a success adds exactly one record and a failure none |
| VoteProcessing.LockAlwaysReleased | ProjectOne/src/main/java/p/projectone/service/VoteProcessingService.java:88-91 | once the lock was taken, a `finally` that runs within the lock's 10 s deletes both keys on every way out, and the user ends unlocked; a refused lock leaves the table untouched |
| VoteProcessing.LateReleaseKeepsSession | ProjectOne/src/main/java/p/projectone/service/VoteProcessingService.java:88-91 | a `finally` that runs 10 s or more after the grant finds the lock expired: the release fails, both keys stay as the grant wrote them, and the session key stays live until its 300 s are up |
| VoteProcessing.StepKeepsUnique | ProjectOne/src/main/java/p/projectone/service/VoteProcessingService.java:64-81 | a call keeps the store at no more than one record per user |
| VoteProcessing.RunKeepsUnique | ProjectOne/src/main/java/p/projectone/service/VoteProcessingService.java:49-98 | any sequence of calls keeps one record per user and the counters balanced |
| VoteProcessing.FromEmptyUnique | ProjectOne/src/main/java/p/projectone/service/VoteProcessingService.java:64-77 | from an empty store, any sequence of calls leaves no more than one record per user |
| VoteProcessing.TallyStep | ProjectOne/src/main/java/p/projectone/service/VoteProcessingService.java:159-162 | one turn of the tally loop keeps its invariant: the counts so far and the uncounted CONFIRMED records add up to the totals, per candidate and overall |
| VoteProcessing.VoteProcessingService.constructor | ProjectOne/src/main/java/p/projectone/service/VoteProcessingService.java:34-36 | counters start at zero with an empty store, balanced and unique |
| VoteProcessing.VoteProcessingService.ProcessVote | ProjectOne/src/main/java/p/projectone/service/VoteProcessingService.java:49-98 | the result and the new locks, votes and counters are those of `ProcessVoteStep`, with the lock taken at `now` and released at `releaseNow`; balance and uniqueness are kept |
| VoteProcessing.VoteProcessingService.Record | ProjectOne/src/main/java/p/projectone/service/VoteProcessingService.java:62-91 | inside the lock: succeeds iff the user has no record and the store does not fail; success stores the CONFIRMED record and counts it, failure stores nothing and counts a failure |
| VoteProcessing.VoteProcessingService.GetVoteStats | ProjectOne/src/main/java/p/projectone/service/VoteProcessingService.java:126-132 | returns the three counters, and total equals successful plus failed |
| VoteProcessing.VoteProcessingService.GetCandidateVoteCount | ProjectOne/src/main/java/p/projectone/service/VoteProcessingService.java:140-144 | the number of CONFIRMED records with the candidate id |
| VoteProcessing.VoteProcessingService.GetAllCandidateVoteCounts | ProjectOne/src/main/java/p/projectone/service/VoteProcessingService.java:151-165 | grouped CONFIRMED counts: each id's value, 0 when absent, is that id's CONFIRMED count, so it agrees with `getCandidateVoteCount`; present values are positive; the values sum to all CONFIRMED records |
| Replication.QuorumSizes | ProjectOne/src/main/java/p/projectone/service/ReplicationService.java:81 | three replicas need two successes, four need three, five need three; zero replicas never succeed |
| Replication.QuorumIsMajority | ProjectOne/src/main/java/p/projectone/service/ReplicationService.java:81 | for a non-negative replica count the rule means strictly more than half |
| Replication.QuorumsOverlap | ProjectOne/src/main/java/p/projectone/service/ReplicationService.java:81 | two successful replications of the same replica set share a replica |
| Replication.Successes | ProjectOne/src/main/java/p/projectone/service/ReplicationService.java:74-79 | the success count is at most the number of replicas, equals it iff all succeeded, and is 0 iff none did |
| Replication.CountSuccesses | ProjectOne/src/main/java/p/projectone/service/ReplicationService.java:74-79 | the counting loop yields the number of true results |
| Replication.TotalReplications | ProjectOne/src/main/java/p/projectone/service/ReplicationService.java:292 | the total is successful plus failed |
| Replication.TotalCountsEachCall | ProjectOne/src/main/java/p/projectone/service/ReplicationService.java:83-101 | each replication call, whatever its outcome, raises the total by exactly one |
| Replication.Present | ProjectOne/src/main/java/p/projectone/service/ReplicationService.java:150-156 | the kept reads are exactly the non-null ones, no more of them than reads |
| Replication.Matching | ProjectOne/src/main/java/p/projectone/service/ReplicationService.java:159-168 | the agreeing count is at most the reads, equals them iff all agree, and is 0 iff none does |
| Replication.ConsistentMeansAllAgree | ProjectOne/src/main/java/p/projectone/service/ReplicationService.java:150-172 | consistent iff every non-null read equals the main copy; agreeing ≤ total ≤ replicas |
| Replication.CollectPresent | ProjectOne/src/main/java/p/projectone/service/ReplicationService.java:150-156 | the first loop keeps exactly the non-null reads, in order |
| Replication.CompareWithMain | ProjectOne/src/main/java/p/projectone/service/ReplicationService.java:159-168 | the second loop counts the agreeing reads, and the flag stays true iff all agree |
| Replication.BuiltInReads | ProjectOne/src/main/java/p/projectone/service/ReplicationService.java:197-206 | the built-in replica reader returns one non-null string per replica index |
| Replication.ReplicaNeverMain | ProjectOne/src/main/java/p/projectone/service/ReplicationService.java:189-203 | a built-in replica string never equals the built-in main string |
| Replication.BuiltInInconsistent | ProjectOne/src/main/java/p/projectone/service/ReplicationService.java:142-203 | with the built-in readers and R > 0 replicas, the check reports inconsistent, with 0 agreeing out of R |
| Replication.ReplicationService.constructor | ProjectOne/src/main/java/p/projectone/service/ReplicationService.java:28-37 | an empty status table and zero counters for the configured replica count |
| Replication.ReplicationService.ReplicateVoteData | ProjectOne/src/main/java/p/projectone/service/ReplicationService.java:47-103 | success iff no timeout and the successes meet the majority rule; the vote's entry has `totalReplicas = replicaCount` and ends COMPLETED or FAILED; exactly the matching counter goes up |
| Replication.ReplicationService.CheckConsistency | ProjectOne/src/main/java/p/projectone/service/ReplicationService.java:142-184 | the report is `Consistency` of the main copy and the reads |
| Replication.ReplicationService.GetReplicationStats | ProjectOne/src/main/java/p/projectone/service/ReplicationService.java:211-217 | the two counters and the number of tracked votes |
| Scheduling.MinIndex | ProjectOne/src/main/java/p/projectone/service/VoteSchedulingService.java:54-55 | the chosen request has a timestamp no later than that of any queued request |
| Scheduling.RemoveAt | ProjectOne/src/main/java/p/projectone/service/VoteSchedulingService.java:115 | taking a request out leaves the other requests as a multiset, one fewer |
| Scheduling.DrainPermutes | ProjectOne/src/main/java/p/projectone/service/VoteSchedulingService.java:115 | taking until empty yields every queued request exactly once |
| Scheduling.DrainSorted | ProjectOne/src/main/java/p/projectone/service/VoteSchedulingService.java:54-55 | taking until empty yields the requests in ascending timestamp order |
| Scheduling.VoteSchedulingService.constructor | ProjectOne/src/main/java/p/projectone/service/VoteSchedulingService.java:42-59 | an empty queue and zero counters, and the scheduler is running |
| Scheduling.VoteSchedulingService.SubmitVoteRequest | ProjectOne/src/main/java/p/projectone/service/VoteSchedulingService.java:71-89 | appends exactly one request carrying the given fields, counts it, and returns its id; the unbounded queue never refuses |
| Scheduling.VoteSchedulingService.Take | ProjectOne/src/main/java/p/projectone/service/VoteSchedulingService.java:115 | removes and returns a queued request of minimal timestamp, keeping the others |
| Scheduling.VoteSchedulingService.StartScheduler | ProjectOne/src/main/java/p/projectone/service/VoteSchedulingService.java:94-105 | afterwards the scheduler runs; it does nothing else, and nothing at all when already running |
| Scheduling.VoteSchedulingService.ProcessVoteRequest | ProjectOne/src/main/java/p/projectone/service/VoteSchedulingService.java:136-166 | the request's fields go unchanged to `processVote`, and exactly one counter goes up: processed on true, failed on false |
| Scheduling.VoteSchedulingService.Shutdown | ProjectOne/src/main/java/p/projectone/service/VoteSchedulingService.java:187-194 | afterwards the scheduler is not running and the queue and counters are unchanged |
| Scheduling.VoteSchedulingService.GetStats | ProjectOne/src/main/java/p/projectone/service/VoteSchedulingService.java:173-182 | the three counters, the current queue length and the running flag |

## Left out

- Swing windows, listeners, timers and text formatting are not modelled (`VoteClientGUI.java` and the GUI parts of `ServerGUI.java` and `SimpleVoteClient.java`). They are display only. The home-page handler and the `main` server start-up are left out as well.
- HTTP transport is not modelled: `HttpServer`, `HttpURLConnection`, `sendResponse` and the client's failover loop. It is I/O. Response codes are return values, and the HTTP method and body are parameters.
- Redis and MongoDB internals and transactions are not modelled. The stores are in-memory maps. `@Transactional` rollback is not modelled.
- The 100 ms `localLock`, which is only contention between threads, is not modelled.
- Thread pools, `CompletableFuture`, `@Async` and the scheduler thread loop are not modelled, because each call is one atomic step.
- `Thread.sleep`, `Math.random`, UUIDs and the clock become parameters. So do the server-node name and `syncTimeout`, which is the `timedOut` flag.
- Floating point is not modelled: success rates, consistency rates, the percentages and the `double` arithmetic that produces `bars`. The bar is modelled for a given integer `bars`.
- `getLockRemainingTime` is not modelled, because it depends on Redis TTL return conventions that are not visible here.
- `VoteStressTest.java` is a load driver, and `DistributedVotingSystemApplication.java` is bootstrap. `Candidate.java` is a bean no modelled logic uses.
- `getServerUrl`'s random mode is not modelled. It is dead code, because the mode constant is `"roundrobin"`.
- `replicateToReplica`'s Mongo write and its delay become the `results` booleans.
- The exception paths not listed below are not modelled: I/O errors, interrupts, and `checkConsistency`'s `catch`. The built-in readers cannot throw.
- The `userId`/`candidateId` arguments are never null here. Null only arises from the extractors, and that case is modelled.
- The scheduler's `totalProcessingTime` is left out, because it is clock differences.
- The candidate name is only logged by the server and the pipeline. It is carried, but no property depends on it.
- Trivial getters and setters without logic are left out.
- VoteServer.SimpleVoteServer: the `AtomicInteger` counters are unbounded `nat`s, so 32-bit wrap-around after 2^31 requests is not modelled.
- VoteProcessing.VoteProcessingService: the counters are unbounded, so 32-bit wrap-around is not modelled. `storeFault` models a store error thrown at the first save. An error between the two saves, which without a transaction would leave a PROCESSING record, is not modelled.
- Replication.ReplicationService: the `AtomicInteger` counters `successfulReplications` and `failedReplications`, and the `int` sum `getTotalReplications` returns, are unbounded integers, so 32-bit wrap-around is not modelled.
- Scheduling.VoteSchedulingService: the `AtomicInteger` counters `totalRequests`, `processedRequests` and `failedRequests` are unbounded integers, so 32-bit wrap-around is not modelled.
- JavaText.ParseInt: only the ASCII digits `0`-`9` are read. Java's `Integer.parseInt` also accepts other Unicode decimal digits, for which the model gives none and so stops the JSON loop where Java goes on. The server only ever writes ASCII digits.
- VoteProcessing.VoteProcessingService.GetAllCandidateVoteCounts: the counts are returned as unbounded integers (`Long` in the source).
- Scheduling.VoteSchedulingService.ProcessVoteRequest: `processVote` catches its own exceptions, so the `catch` counting an exception as failed is not reached in the model.
- Scheduling.VoteSchedulingService.Take: Java's heap returns an unspecified one among requests with equal timestamps. The model returns the first queued, which is one of the allowed answers. The model also requires a non-empty queue, where `take` would block.
- Scheduling.VoteSchedulingService.SubmitVoteRequest: the `catch` branch is not modelled, because `offer` on the unbounded queue never throws.
- Replication.ReplicationService.CheckConsistency: the reads are a parameter, one per replica index. The built-in readers are `BuiltInReads`.
- ServerGui.BarShape: it is stated for `bars >= 0`, the only values the non-negative percentage can produce.

## Findings

| source | as written | input that shows it | evidently intended | confidence | as-written member | corrected member |
|---|---|---|---|---|---|---|
| ProjectOne/src/main/java/p/projectone/SimpleVoteClient.java:52 | `nodeIndex.getAndIncrement() % SERVER_NODES.length` on an `int` counter that wraps to negative after 2^31 calls, and Java `%` keeps the sign | the call numbered 2^31 + 1, counting from 0, computes `-2147483647 % 2 == -1`, so `SERVER_NODES[-1]` throws | round robin over the nodes forever: the index is always `calls mod 2` | not executed | VoteClient.AsWrittenGoesNegative | VoteClient.SimpleVoteClient.GetServerUrl |
