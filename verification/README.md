# Verified model of a key-value store and its cluster

A Dafny model of an in-memory key-value store that speaks the Redis serialization
protocol: its data structures, keyspace, log and recovery, replication and failover,
key migration, routing and file formats. Every module stands for one component and
holds its operations in the form the source gives them (classes whose methods update
fields where the source does, functions where it computes), with the properties the
design promises as contracts and lemmas. Everything is stated for all inputs, all
interleavings and all failure points that the model has.

`dafny verify dfyconfig.toml` checks the whole project.

| file | component |
|---|---|
| `Ordering`, `SkipList`, `SortedSet` | the skip list with rank spans, and sorted sets on top of it |
| `KeySet`, `Eviction` | the sampleable key set and the eviction policies |
| `Values`, `Keyspace` | typed entries, accounting, limits, expiry, eviction, point-in-time copies in slices |
| `Effects`, `Equivalence` | commands and the effects they log; replay; keyspaces that differ in expired keys |
| `EventLog`, `EngineLog` | the store's events and their log; the records that commands log in it |
| `CrashRecovery`, `AofReplay`, `LogFiles` | log files, rewrites, manifest and crashes; the text of the log and torn tails; the two together |
| `GroupCommit` | one commit for every connection served in an iteration of the event loop |
| `Replication`, `ReplicationRuns` | backlog, handshake, streaming, acknowledgements, promotion, choice of a new primary; runs that show where its conditions fail |
| `Migration`, `Router`, `HashRing` | moving keys while clients use them, retries and redirections, consistent hashing |
| `Resp`, `Replies`, `SnapshotCodec` | request and reply parsers, the binary snapshot format |
| `Histogram` | the log-linear latency histogram |
| `Wrappers`, `Sequences` | optional values and results; sequences as sets and in order |

How the outside world appears: time is a parameter that does not go back within a run;
random draws, hashes and tower heights are arbitrary; the network and the disk are
events and outcomes chosen by the environment; a process may stop at any step.

## Model

| member | source | states |
|---|---|---|
| `Ordering.SortedUnique` | src/kvstore/engine/datatypes/skiplist.py:34-36 | a strictly sorted sequence is determined by its elements, so a listing in the order of (score, member) is the only one |
| `SkipLists.SkipList.Search` | src/kvstore/engine/datatypes/skiplist.py:58-71 | the descent finds, at every level, the last node before the element whose tower reaches that level, with its exact rank, for any tower heights |
| `SkipLists.GrownLinked` | src/kvstore/engine/datatypes/skiplist.py:80-97 | splicing a tower in behind the search path leaves every forward pointer on the next node tall enough and every span equal to the rank distance |
| `SkipLists.SkipList.Insert` | src/kvstore/engine/datatypes/skiplist.py:58-97 | insert keeps all links, spans, back links, tail, level and length right and makes the contents the sorted insertion of the element |
| `SkipLists.ShrunkLinked` | src/kvstore/engine/datatypes/skiplist.py:114-129 | unlinking a node leaves every pointer and span right for the nodes that remain |
| `SkipLists.SkipList.Delete` | src/kvstore/engine/datatypes/skiplist.py:99-129 | delete removes exactly the element if present, says whether it was, and keeps the whole structure right, the level dropping to the tallest tower left |
| `SkipLists.SkipList.Rank` | src/kvstore/engine/datatypes/skiplist.py:131-145 | the rank found through spans is the sorted position plus one for a present pair, given unique members; what a non-zero answer means otherwise |
| `SkipLists.SkipList.ByRank` | src/kvstore/engine/datatypes/skiplist.py:147-159 | the node at a rank, the header for 0, none beyond the length |
| `SkipLists.SkipList.RangeMayOverlap` | src/kvstore/engine/datatypes/skiplist.py:190-196 | a negative answer is given only if nothing is in range |
| `SkipLists.SkipList.FirstInRange` | src/kvstore/engine/datatypes/skiplist.py:161-174 | the first node whose score is in the range, none exactly if there is none |
| `SkipLists.SkipList.LastInRange` | src/kvstore/engine/datatypes/skiplist.py:176-188 | the last node whose score is in the range, none exactly if there is none |
| `SortedSets.SortedSet.Add` | src/kvstore/engine/datatypes/zset.py:32-44 | the dict gets the score, the skip list is again the one sorted listing of the dict, and the answer says whether the member is new |
| `SortedSets.SortedSet.Incr` | src/kvstore/engine/datatypes/zset.py:46-51 | the sum of scores with infinities, or the NaN error which changes nothing |
| `SortedSets.SortedSet.Remove` | src/kvstore/engine/datatypes/zset.py:53-59 | the member leaves dict and list together |
| `SortedSets.OnlyListing` | src/kvstore/engine/datatypes/zset.py:32-59 | a listing that agrees with the dict is the only one that does |
| `SortedSets.SortedSet.RankOf` | src/kvstore/engine/datatypes/zset.py:61-67 | the rank from either end is the index of the pair in the sorted listing read in that direction |
| `SortedSets.SortedSet.RangeByRank` | src/kvstore/engine/datatypes/zset.py:69-83 | the slice of the listing in either direction, negative indexes counted from the end and clamped |
| `SortedSets.SortedSet.RangeByScore` | src/kvstore/engine/datatypes/zset.py:85-113 | the elements whose score is in the range, in either direction, with offset and limit applied to them |
| `SortedSets.SortedSet.CountInRange` | src/kvstore/engine/datatypes/zset.py:115-126 | the difference of two ranks equals the number of elements in range |
| `SortedSets.SortedSet.Pop` | src/kvstore/engine/datatypes/zset.py:128-136 | as many as asked for and present, from one end, in order; dict and list lose exactly those |
| `KeySets.AddKeeps` | src/kvstore/engine/keyset.py:24-27 | adding keeps array and index map inverse to each other and adds the key |
| `KeySets.DiscardKeeps` | src/kvstore/engine/keyset.py:29-36 | swap-removal keeps array and index map inverse to each other and removes only the key |
| `KeySets.ItemsAreKeys` | src/kvstore/engine/keyset.py:20-27 | the array lists every key once, so drawing an index draws a key |
| `KeySets.Sample` | src/kvstore/engine/keyset.py:38-39 | min(k, size) distinct keys of the set; all of them if k is large enough |
| `KeySets.SampleableKeySet.Add` | src/kvstore/engine/keyset.py:24-27 | the update in place is the one the lemmas are about |
| `KeySets.SampleableKeySet.Discard` | src/kvstore/engine/keyset.py:29-36 | the update in place is the one the lemmas are about |
| `Eviction.InsertTracks` | src/kvstore/engine/eviction/lfu.py:51-53 | the insert hook of every policy keeps the tracked keys equal to the keyspace |
| `Eviction.AccessTracks` | src/kvstore/engine/eviction/lru.py:28-30 | the access hook of every policy keeps the tracked keys equal to the keyspace |
| `Eviction.RemoveTracks` | src/kvstore/engine/eviction/lfu.py:61-63 | the remove hook of every policy keeps the tracked keys equal to the keyspace |
| `Eviction.LruOrder` | src/kvstore/engine/eviction/lru.py:24-33 | after any history of hooks the order is by last use, least recent first |
| `Eviction.RandomVictim` | src/kvstore/engine/eviction/simple.py:30-37 | an unprotected key whenever there is one, despite drawing at random only eight times |
| `Eviction.LfuVictim` | src/kvstore/engine/eviction/lfu.py:80-87 | the lowest decayed counter among the unprotected keys of a sample of the stated size, or among all keys if the sample has none |
| `Eviction.Victim` | src/kvstore/engine/eviction/lru.py:35-39 | never a protected key, none exactly if all are protected; under LRU the unprotected key used longest ago |
| `Keyspace.TotalSizePut` | src/kvstore/engine/store.py:160-167 | writing one entry moves the sum of entry sizes by the difference of the sizes |
| `Keyspace.InsertBalances` | src/kvstore/engine/store.py:366-371 | inserting over an entry that a lookup only hid balances the volatile set exactly if that had no deadline, and the memory count exactly if its size was 0 |
| `Keyspace.Store.Barrier` | src/kvstore/engine/store.py:314-321 | the key is copied as it is before it changes, at most once, and nothing else changes |
| `Keyspace.Store.Remove` | src/kvstore/engine/store.py:373-379 | one entry leaves every table, after the barrier |
| `Keyspace.Store.Lookup` | src/kvstore/engine/store.py:349-358 | the live entry; a dead one is deleted and reported exactly if this node may |
| `Keyspace.Store.Get` | src/kvstore/engine/store.py:99-107 | a lookup that counts as a use |
| `Keyspace.Store.Set` | src/kvstore/engine/store.py:154-168 | any value replaced, the deadline kept only if asked and live, all tables kept in step |
| `Keyspace.Store.Delete` | src/kvstore/engine/store.py:170-174 | true exactly for a live key, which goes |
| `Keyspace.Store.SetExpiry` | src/kvstore/engine/store.py:176-182 | a live key gets the deadline, a dead one goes |
| `Keyspace.Store.Persist` | src/kvstore/engine/store.py:184-190 | a live key with a deadline loses it |
| `Keyspace.Store.Refresh` | src/kvstore/engine/store.py:192-202 | the size is accounted again; an emptied collection goes |
| `Keyspace.Store.Clear` | src/kvstore/engine/store.py:204-212 | nothing left; a running copy is finished and handed over first |
| `Keyspace.Store.NextVictim` | src/kvstore/engine/store.py:223-227 | an unprotected key, under LRU the least recently used by the history of the store itself |
| `Keyspace.Store.EvictIfNeeded` | src/kvstore/engine/store.py:219-231 | ends under the limits or with protected keys only, removes no protected key, and not one key more than needed |
| `Keyspace.Store.ExpireCycle` | src/kvstore/engine/store.py:233-254 | removes expired keys only, reports each once in order, at most 16 rounds; with a sample that covers the keys with a deadline none expired is left; a replica removes nothing |
| `Keyspace.Store.PurgeExpired` | src/kvstore/engine/store.py:256-264 | every expired key goes, unreported |
| `Keyspace.Store.Snapshot` | src/kvstore/engine/store.py:266-274 | the one-go copy holds each live key once with its content |
| `Keyspace.Store.BeginSnapshot` | src/kvstore/engine/store.py:284-301 | a copy of the keyspace as it is now is begun unless one is running |
| `Keyspace.Store.Step` | src/kvstore/engine/store.py:446-460 | up to that many keys more; the call that reaches the end hands the records over, once |
| `Keyspace.Store.AbandonSnapshot` | src/kvstore/engine/store.py:303-312 | the running copy is dropped and never handed over |
| `Keyspace.FinishedIsExact` | src/kvstore/engine/store.py:441-460 | when every key has been visited the records are exactly the live keys of the keyspace the copy was begun on |
| `Keyspace.ExactUnique` | src/kvstore/engine/store.py:266-301 | a copy taken in slices holds the same records as one taken in one go |
| `Keyspace.Store.WriteTarget` | src/kvstore/engine/store.py:130-145 | the collection of the asked kind, made if missing, or the type error |
| `Keyspace.Store.LoadRecord` | src/kvstore/engine/store.py:323-347 | a key as the snapshot holds it |
| `Keyspace.Store.Execute` | src/kvstore/engine/engine.py:197-237 | a command that may add data is refused, before it runs, exactly if nothing is evicted for room and its missing keys would be too many or the keyspace is too big already; otherwise its handler, as far as it gets, leaves what its operations make of the keys, less emptied collections; unless it failed, keys are then evicted, never its own, until the limits hold or only its own are left |
| `Keyspace.Store.ApplyReplicated` | src/kvstore/engine/engine.py:312-335 | a streamed command runs without looking at deadlines and without eviction, and the mode is restored |
| `Keyspace.Store.Run` | src/kvstore/engine/engine.py:197-354 | over every interleaving of commands (refused, failing or not), streamed commands, active expiry, role changes and copies begun, sliced and abandoned: each event has its stated effect on the keys; memory count, volatile set and policy agree with the entries; every copy handed over is exactly the keyspace of one that was begun, in order |
| `EventLog.OpMatches` | src/kvstore/engine/engine.py:292-309 | every operation on the keyspace can be logged: there are records that change the keys as it does, and do the same to a copy that lacks keys which had expired |
| `EventLog.EventMatches` | src/kvstore/engine/engine.py:197-354 | whatever a handler logs that tells what it did: an event of the store changes the keys as the records it logs do, a command with what it evicts and what it finds expired, a refused one, a streamed one, active expiry; taking a copy logs nothing |
| `EventLog.RunMatches` | src/kvstore/engine/engine.py:197-354 | with handlers that log what they do: from any point of any run of the store to any later one, replaying what was logged between gives the keys there |
| `EventLog.CopyRestores` | src/kvstore/engine/store.py:284-301 | a copy begun in a run and taken in slices, with the records logged since it was begun, rebuilds the keys at the end, but for some that had expired when it was begun: on a primary; and on any node, after every record of the run, exactly if no record revives a key that the copy lacks |
| `EventLog.RecordLags` | src/kvstore/engine/engine.py:312-335 | a keyspace without some keys that had expired goes on lacking only such keys over a record exactly if the record does not read one of them and give it a deadline to come, or none, or make it anew; for every kind of record |
| `EventLog.LogLags` | src/kvstore/engine/engine.py:312-335 | that holds after every record of a log exactly if no record of the log revives a key left out |
| `EventLog.Run` | src/kvstore/engine/engine.py:197-354 | the store run and its log together, whatever the handlers log that tells what they do: replaying the log gives the contents, and every copy handed over in the run restores them |
| `EngineLog.LogTells` | src/kvstore/engine/engine.py:292-309 | whatever a handler of one key does, a record of that key that leaves the same tells it, after the DEL of the key if it was found expired |
| `EngineLog.RecordTells` | src/kvstore/engine/engine.py:292-304 | each record of one key that commands log (SET, INCRBY, APPEND, PEXPIREAT, PERSIST, RESTORE, SADD, SREM, ZADD, ZREM) tells what its command does to the store: replay and store agree, emptied collections and expired keys included |
| `EngineLog.DelsTell` | src/kvstore/engine/commands/keyspace.py:31-37 | deleting keys one by one is told by any DELs that name exactly those of them that are there, found expired or not |
| `EngineLog.MSetTells` | src/kvstore/engine/commands/strings.py:99-106 | one MSET record tells the writes of all its pairs |
| `EngineLog.FlushTells` | src/kvstore/engine/commands/keyspace.py:69-75 | one FLUSHALL record tells the emptying of the store |
| `EngineLog.TellsThen` | src/kvstore/engine/commands/strings.py:62-70 | what two parts of a handler log, one after the other, tells what they do together, as for a SET with a deadline |
| `Effects.ApplyWithout` | src/kvstore/engine/engine.py:292-309 | replaying a record on a keyspace that lacks some keys it does not read leaves out the same keys, less those it writes |
| `Effects.Engine.Propagate` | src/kvstore/engine/engine.py:292-304 | logging an effect keeps base plus log equal to the keyspace up to keys that had expired when the base was taken |
| `Effects.Engine.SetText` | src/kvstore/engine/commands/strings.py:33-71 | SET with NX, XX, GET, KEEPTTL and a time to live: reply, new value and deadline, and the effect that replays to the same |
| `Effects.Engine.GetDel` | src/kvstore/engine/commands/strings.py:79-86 | reply, removal and logged effect |
| `Effects.Engine.SetAll` | src/kvstore/engine/commands/strings.py:99-106 | every pair in order, one effect |
| `Effects.Engine.IncrByInt` | src/kvstore/engine/commands/strings.py:109-119 | the 64-bit checked sum or the error, and the effect that replays to the same |
| `Effects.Engine.IncrByFloat` | src/kvstore/engine/commands/strings.py:142-157 | the resulting text is what is logged |
| `Effects.Engine.AppendText` | src/kvstore/engine/commands/strings.py:160-166 | the new length, and the effect that replays to the same |
| `Effects.Engine.DeleteAll` | src/kvstore/engine/commands/keyspace.py:31-37 | the keys that were there, each once in order, are logged in one record after those found expired |
| `Effects.Engine.Delete` | src/kvstore/engine/commands/keyspace.py:31-37 | the reply counts every live key once, however often it is named |
| `Effects.Engine.ExpireAt` | src/kvstore/engine/commands/keyspace.py:103-115 | a deadline in the past deletes at once, but not while the log is replayed; on a replica it agrees with its record exactly if the deadline has not passed |
| `Effects.Engine.PersistKey` | src/kvstore/engine/commands/keyspace.py:118-124 | the deadline goes, the reply says whether there was one |
| `Effects.Engine.RestoreKey` | src/kvstore/engine/commands/keyspace.py:155-176 | replace, absolute deadline, a deadline in the past; what replays on a replica agrees exactly unless the deadline has passed |
| `Effects.Engine.Flush` | src/kvstore/engine/commands/keyspace.py:69-75 | everything goes and the log agrees |
| `Effects.Engine.AddToSet` | src/kvstore/engine/commands/sets.py:22-30 | the reply is the number of new members, and only those are logged |
| `Effects.Engine.RemoveFromSet` | src/kvstore/engine/commands/sets.py:33-43 | the reply is the number removed; an emptied set goes |
| `Effects.ScoreAllKeeps` | src/kvstore/engine/commands/zsets.py:60-88 | for every combination of NX, XX, GT, LT and INCR the options are respected and effects and counts are those of the change |
| `Effects.Engine.AddToSortedSet` | src/kvstore/engine/commands/zsets.py:37-92 | all or nothing on a NaN, XX on a missing key, and logged effects that replay to the same scores |
| `Effects.Engine.IncrScore` | src/kvstore/engine/commands/zsets.py:95-101 | the resulting score is what is logged |
| `Effects.Engine.RemoveFromSortedSet` | src/kvstore/engine/commands/zsets.py:104-114 | the reply is the number removed; an emptied sorted set goes |
| `Effects.Engine.ApplyRecord` | src/kvstore/engine/engine.py:237-243 | a record run by the handlers gives what replay gives, exactly unless a streamed deadline has already passed |
| `Effects.Engine.Stream` | src/kvstore/engine/engine.py:312-335 | a replica holds the replay of the stream after every record exactly if no record arrives with a deadline already past |
| `Effects.Engine.Load` | src/kvstore/engine/persistence/manager.py:123-151 | loading succeeds exactly if the replay does, and gives it |
| `Effects.Engine.Rewrite` | src/kvstore/engine/engine.py:360-390 | the log starts again from a copy of the live keys; what memory has and the copy lacks is exactly what had expired |
| `Effects.Engine.Purge` | src/kvstore/engine/store.py:256-263 | the purge after loading leaves log and memory in agreement exactly if it purges nothing |
| `Effects.Restart` | src/kvstore/engine/engine.py:141-165 | a restart rebuilds what was in memory but for keys that had expired by the time of the base |
| `Effects.ServeAll` | src/kvstore/engine/engine.py:197-309 | after every run of requests the keyspace is what the requests make of it one after the other, and base plus log rebuilds it |
| `Equivalence.SameApply` | src/kvstore/engine/engine.py:141-165 | keyspaces that differ in expired keys only stay so under every record that reads none of those |
| `Equivalence.TogetherExactly` | src/kvstore/engine/store.py:256-263 | memory and files stay together after a record exactly if it reads no key that only the files have |
| `Equivalence.PurgeExactly` | src/kvstore/engine/engine.py:141-165 | after a purge, what is logged replays to the keyspace in memory up to expired keys exactly if no record reads a purged key that nothing has written since |
| `AofReplay.HexRoundTrip` | src/kvstore/engine/persistence/aof.py:70-73 | fixed-width hexadecimal reads back as the number |
| `AofReplay.Decode` | src/kvstore/engine/persistence/aof.py:98-122 | a sound record of the version gives its arguments, a torn one an error |
| `AofReplay.ReadRecord` | src/kvstore/engine/persistence/aof.py:70-122 | one record of a log, perhaps cut: decoded if whole, refused with nothing after it if not, whatever bytes the payload holds |
| `AofReplay.Replay` | src/kvstore/engine/persistence/aof.py:211-254 | of a log cut at any byte exactly the records lying wholly before the cut are applied, in order, and the good length is their end; a cut inside a record is accepted exactly if truncation is allowed |
| `CrashRecovery.Recovers` | src/kvstore/engine/persistence/manager.py:123-151 | the files on disk load to what has reached the disk, up to expired keys |
| `CrashRecovery.Persistence.Append` | src/kvstore/engine/persistence/manager.py:154-162 | an effect joins the log; after a write error nothing is logged any more |
| `CrashRecovery.Persistence.Commit` | src/kvstore/engine/persistence/manager.py:164-180 | what returns without an error has reached the disk exactly if there was no earlier write error or nothing was buffered |
| `CrashRecovery.Persistence.BeginRewrite` | src/kvstore/engine/persistence/manager.py:201-232 | the old file is flushed, the new one listed and switched to; a failure or crash at any point leaves what can be recovered, and a process that goes on writes to the last file listed on disk if it did before; a rewrite that has begun always does |
| `CrashRecovery.Persistence.FinishCopy` | src/kvstore/engine/persistence/manager.py:254-272 | the copy of the live keys taken when the rewrite began goes to the background thread |
| `CrashRecovery.Persistence.AbandonCopy` | src/kvstore/engine/persistence/manager.py:246-252 | a copy that never comes changes nothing on disk |
| `CrashRecovery.Persistence.WriteSnapshot` | src/kvstore/engine/persistence/manager.py:254-272 | the snapshot file appears or does not, and recovery is the same |
| `CrashRecovery.Persistence.Replace` | src/kvstore/engine/persistence/manager.py:289-312 | the manifest changes in one step and only then do old files go; a crash before or after recovers the same |
| `CrashRecovery.Persistence.WithoutUnreferenced` | src/kvstore/engine/persistence/manager.py:328-340 | no file the manifest names is deleted |
| `CrashRecovery.Persistence.Poll` | src/kvstore/engine/persistence/manager.py:274-281 | a finished job is concluded only after the old file was closed |
| `CrashRecovery.Persistence.Load` | src/kvstore/engine/persistence/manager.py:123-151 | a start finds everything that had reached the disk, or dies on the way and leaves it as it was; it is refused exactly if a file that is not the last one listed ends in part of a record |
| `CrashRecovery.Persistence.Run` | src/kvstore/engine/persistence/manager.py:123-340 | after every run of events with failures and crashes anywhere, also in the middle of a record, a crash and a start: the keyspace is the fold of a prefix of the logged effects, less keys that have expired, and the prefix includes every effect logged before a commit that reported success; from a process that writes to the last file listed, as a new one does, the start is never refused |
| `CrashRecovery.Persistence.RunAndCrash` | src/kvstore/engine/persistence/manager.py:123-340 | the same run up to the crash: every committed effect is on the disk, and no file but the last one listed ends in part of a record |
| `CrashRecovery.RunOnLast` | src/kvstore/engine/persistence/manager.py:142-145 | in every run the file being written stays the last one listed on disk, so that only that can end in part of a record |
| `LogFiles.ReadFile` | src/kvstore/engine/persistence/aof.py:211-254 | the bytes of one file, its whole records and perhaps part of one more: accepted exactly if nothing is cut or truncation is allowed, and then every whole record is applied |
| `LogFiles.ReadFiles` | src/kvstore/engine/persistence/manager.py:142-147 | the bytes of all listed files: refused exactly if one but the last has a torn end, and otherwise what is applied is every record the disk holds whole, in order |
| `LogFiles.ReadAfter` | src/kvstore/engine/persistence/manager.py:123-151 | without a process, reading the bytes on disk is refused exactly if the start is, and otherwise applies the very records the start replays |
| `LogFiles.ReadAfterRun` | src/kvstore/engine/persistence/manager.py:123-151 | after any run from a new process and a crash at any byte, whatever bytes the files then hold for their records: reading them is not refused, and applies every record that had reached the disk whole |
| `Replication.AppendKeeps` | src/kvstore/replication/stream.py:41-47 | the backlog stays the newest part of the stream, as much as fits |
| `Replication.SinceIsRest` | src/kvstore/replication/stream.py:52-56 | what the backlog returns for an offset is exactly what comes after it |
| `Replication.Backlog.Append` | src/kvstore/replication/stream.py:41-47 | the update in place is that one, with the stream so far as ghost |
| `Replication.Backlog.Since` | src/kvstore/replication/stream.py:52-56 | data exactly for the offsets still in the window |
| `Replication.Backlog.Reset` | src/kvstore/replication/stream.py:58-62 | nothing before the offset is known |
| `Replication.NextKeeps` | src/kvstore/replication/primary.py:56-228 | every step of writing, connecting, loading a copy, failing to load or to save it, losing the files to a write error, sending, applying, acknowledging, breaking, promoting, demoting and restarting keeps the invariant |
| `Replication.RunKeeps` | src/kvstore/replication/replica.py:120-188 | every run keeps the invariant; and after it a node holds exactly what its position (history and offset) names if and only if no failed load of a full resync has left it with other data since it started or last completed one, and the same held for the primary of that resync |
| `Replication.FilesAgree` | src/kvstore/engine/engine.py:337-355 | what a node's files would rebuild is what it holds, exactly if since it started or last completed a full resync no load failed and, after a write error, nothing ran that is then not logged, or what that left is what the files hold |
| `Replication.ContinueIsPrefix` | src/kvstore/replication/primary.py:56-60 | a replica is allowed to continue only if its position is a prefix of the primary's history; it holds the beginning of what the primary holds, and lacks as much as its offset is behind, exactly if it holds what its position names |
| `Replication.SendExtends` | src/kvstore/replication/primary.py:116-144 | what is sent after a handled handshake is exactly what the replica's position lacks of the primary's history |
| `Replication.HoldsHistory` | src/kvstore/replication/replica.py:158-188 | a replica at offset N of a history holds what its primary held at N exactly if it holds what its position names |
| `Replication.SameOffsetSameState` | src/kvstore/replication/primary.py:56-66 | of two nodes at the same offset of the same history, one of which holds what its position names, both hold the same exactly if the other does too |
| `Replication.ResyncEqualises` | src/kvstore/replication/replica.py:120-151 | a resync brings the replica to the primary's name and offset; after a full one it holds what the primary holds, after a partial one exactly if it held what its position named; after a write error a full one cannot complete: its load fails and leaves the primary's data at the old position |
| `Replication.CountedIsHeld` | src/kvstore/replication/primary.py:230-255 | a replica that WAIT counts is past the write unless it has yet to load the copy it was sent, so it is if it has reported the acknowledgement or was let continue; of one on the primary's history that is exactly when; it holds what its position says exactly if it holds what its position names |
| `Replication.HoldsOnward` | src/kvstore/replication/replica.py:175-188 | in every run a node that is past an offset of its history stays so while it stays on it, and holds the history up to there if no failed load has left it with other data |
| `Replication.OffsetIsHeld` | src/kvstore/replication/primary.py:56-60 | a node is past exactly the offsets of its history up to its own, and holds the history exactly up to there if it holds what its position names |
| `Replication.ChooseWinner` | src/kvstore/cluster/manager.py:246-262 | the candidate with the highest offset, none exactly if there is no candidate |
| `Replication.Failover` | src/kvstore/cluster/manager.py:246-269 | after every later run, with offsets read at different times, if the replica that acknowledged stays on the history and the winner is on it, the winner's position is past a write confirmed through a reported acknowledgement; it holds the history up to its position, and so the write, exactly if no failed load has left it with other data |
| `Replication.PromotionCarries` | src/kvstore/replication/node.py:255-270 | the promoted node's new history begins with what its position covered; it keeps what it held, which is that history exactly if it held what its position named |
| `Migration.KeyMigration.Check` | src/kvstore/cluster/migration.py:102-122 | served exactly if no key is locked and all are here, sent on exactly if none is locked and all have gone, else told to try again |
| `Migration.KeyMigration.ClientHere` | src/kvstore/cluster/migration.py:102-122 | a command let through runs on the source; a redirected one is remembered; after a failure the keys stay right exactly if it deletes none that has a copy |
| `Migration.KeyMigration.ClientThere` | src/kvstore/cluster/migration.py:102-122 | a redirected command at the new owner keeps every key right |
| `Migration.KeyMigration.NextBatch` | src/kvstore/cluster/migration.py:134-146 | the next batch or the end; at the end no key that belongs elsewhere is here |
| `Migration.KeyMigration.Load` | src/kvstore/cluster/migration.py:148-162 | the keys of the batch still here are copied as they are and locked |
| `Migration.KeyMigration.Arrive` | src/kvstore/cluster/migration.py:170-175 | a copy reaches its target, perhaps again |
| `Migration.KeyMigration.Acknowledge` | src/kvstore/cluster/migration.py:181-189 | the answered keys leave the source; after a failure the keys stay right exactly if their copies are still what the source held |
| `Migration.KeyMigration.Refuse` | src/kvstore/cluster/migration.py:163-186 | an error reply fails the migration and unlocks every key while the other targets' answers still come |
| `Migration.KeyMigration.Run` | src/kvstore/cluster/migration.py:95-189 | over every interleaving: each event has its stated effect, what should be is the fold of the accepted commands, no key that has gone comes back, every key's copy that counts is right exactly if nothing harmful happens after a failure, always without one, and none that belongs elsewhere is left when done |
| `Router.PlaceOne` | src/kvstore/cluster/router.py:300-326 | after any outcome of a pipeline a write is sent again only if it has not run |
| `Router.Note` | src/kvstore/cluster/router.py:302-326 | results in place, redirections followed or forgotten, and what is sent again |
| `Router.ShardRouter.Addresses` | src/kvstore/cluster/router.py:286-298 | where each command goes, by redirection or by routing again; aborted exactly if a keyless command is to be retried |
| `Router.ShardRouter.SendWithRetries` | src/kvstore/cluster/router.py:274-332 | under every schedule each write runs at most once, also in a batch that is aborted; each command gets one honest result at its position, from the last pipeline that held it or because there was no node to send it to, and is given up early only on a final outcome; each pipeline goes where its commands belong, attempt by attempt and in the order of its commands; aborted exactly if the first attempt at a keyless command failed in a way that is retried |
| `Router.ShardRouter.AttemptIsAgains` | src/kvstore/cluster/router.py:283-331 | the attempt a command is sent in is how often it has been answered that it is to be sent again |
| `Router.ShardRouter.WritesInOrder` | src/kvstore/cluster/router.py:283-331 | two writes of a share that belong to one group, as two writes to one key do, run in their order exactly if the first has not been answered more often than the second that it is to be sent again |
| `Router.ShardRouter.Flush` | src/kvstore/cluster/router.py:237-249 | every group gets its share and every reply goes back to its own position |
| `Router.ShardRouter.Fanout` | src/kvstore/cluster/router.py:251-260 | every group is sent the command, also after one group aborted; the first error stands for all replies |
| `Router.ShardRouter.ExecuteBatch` | src/kvstore/cluster/router.py:187-213 | every command is answered at its own position by its own group or by all; a command for all groups comes after those before it and before those after it; no command for one group is in two shares; aborted exactly if a fan-out was |
| `Router.Scatter` | src/kvstore/cluster/router.py:247-249 | each reply at the position its command came from, the others untouched |
| `HashRing.TagDecides` | src/kvstore/cluster/hash_ring.py:10-21 | a non-empty tag between the first braces is what is hashed |
| `HashRing.ConsistentHashRing.AddNode` | src/kvstore/cluster/hash_ring.py:59-68 | a new node claims its points except those already taken |
| `HashRing.ConsistentHashRing.RemoveNode` | src/kvstore/cluster/hash_ring.py:70-75 | its points go and the others keep their owners |
| `HashRing.ConsistentHashRing.GetNode` | src/kvstore/cluster/hash_ring.py:77-83 | the owner of the one first point clockwise, wrapping round |
| `HashRing.AddMoves` | src/kvstore/cluster/hash_ring.py:59-68 | adding a node moves keys only to that node |
| `HashRing.RemoveMoves` | src/kvstore/cluster/hash_ring.py:70-75 | removing a node moves only its own keys |
| `HashRing.AddThenRemove` | src/kvstore/cluster/hash_ring.py:59-75 | removing a node just added restores points and owners, with colliding hashes too |
| `Resp.DecimalRoundTrip` | src/kvstore/protocol/resp.py:62-74 | decimal text reads back as the number |
| `Resp.ReadBulks` | src/kvstore/protocol/resp.py:146-163 | all bulk strings of a command, or those that have arrived with the progress kept |
| `Resp.RequestParser.NextCommand` | src/kvstore/protocol/resp.py:121-167 | of a stream of encoded commands the next one once it has arrived whole, else nothing and no progress lost |
| `Resp.RequestParser.Compact` | src/kvstore/protocol/resp.py:183-190 | what is unread stays |
| `Resp.ParseAll` | src/kvstore/protocol/resp.py:62-190 | however the encoding of commands within the limits is cut into chunks, exactly those commands come out and nothing is left buffered or pending |
| `Replies.ReadsReply` | src/kvstore/protocol/resp.py:51-98 | whatever has arrived of a reply's encoding, nested arrays included, is read back exactly when it is whole |
| `Replies.ReplyParser.NextReply` | src/kvstore/protocol/resp.py:207-268 | the next reply once whole, never a protocol error on an encoded stream |
| `Replies.ParseReplies` | src/kvstore/protocol/resp.py:51-268 | however the encoding of replies is cut into chunks, exactly those replies come out |
| `SnapshotCodec.CrcConcat` | src/kvstore/engine/persistence/snapshot.py:44-65 | the checksum fed in pieces is the checksum of the whole |
| `SnapshotCodec.LoadUndoesStore` | src/kvstore/engine/persistence/snapshot.py:87-98 | records survive storage exactly if none has a deadline before 1970 |
| `SnapshotCodec.ChecksummedWriter.WriteRecords` | src/kvstore/engine/persistence/snapshot.py:87-116 | for any number of internal flushes the contents grow by the encoding of the records, or a field does not fit |
| `SnapshotCodec.EncodeSnapshot` | src/kvstore/engine/persistence/snapshot.py:44-98 | the sealed file, or nothing exactly if a length or time does not fit |
| `SnapshotCodec.DecodeSnapshot` | src/kvstore/engine/persistence/snapshot.py:124-151 | what was encoded comes back; what is accepted begins with the encoding of what was decoded; nothing comes from a wrong checksum |
| `SnapshotCodec.Transfer` | src/kvstore/engine/persistence/snapshot.py:44-187 | encoding then decoding gives the same records, for all five types, exactly if none has a deadline before 1970 |
| `SnapshotCodec.DumpValue` | src/kvstore/engine/persistence/snapshot.py:208-216 | the sealed value, or nothing exactly if a length does not fit |
| `SnapshotCodec.LoadValue` | src/kvstore/engine/persistence/snapshot.py:219-232 | inverts dumping and accepts only a checksummed value of its kind |
| `GroupCommit.Shard.WriteOut` | src/kvstore/engine/persistence/manager.py:164-180 | once a write has failed a commit does nothing and reports nothing |
| `GroupCommit.Shard.Execute` | src/kvstore/engine/engine.py:197-224 | without a hold a command commits before returning; under one it does not touch the disk |
| `GroupCommit.Shard.Serve` | src/kvstore/protocol/tcp_server.py:225-235 | a connection joins the pending commit and runs its batch; exactly its effects are logged |
| `GroupCommit.Shard.Flush` | src/kvstore/protocol/tcp_server.py:65-90 | one commit for every batch that joined; a success has written everything exactly if there was no earlier write error or nothing was left to write |
| `GroupCommit.Shard.Resume` | src/kvstore/protocol/tcp_server.py:225-235 | replies go out only after a commit that succeeded |
| `GroupCommit.Shard.Run` | src/kvstore/protocol/tcp_server.py:45-90 | under every interleaving each event has its stated effect; answered batches are committed unless an append failed while they waited; a failed commit releases no reply |
| `Histogram.BoundsInvertIndex` | benchmarks/histogram.py:20-34 | the bounds of a bucket are exactly the values that land in it |
| `Histogram.Adjacent` | benchmarks/histogram.py:27-34 | the buckets lie side by side and cover the naturals |
| `Histogram.Width` | benchmarks/histogram.py:27-34 | past the linear range a bucket is at most 1/128 as wide as its values are large |
| `Histogram.RankedCoversShare` | benchmarks/histogram.py:73-86 | at least pct percent of the values are at or below the ranked one and fewer below it |
| `Histogram.LatencyHistogram.Record` | benchmarks/histogram.py:47-57 | the histogram of the values so far with the new ones, negatives as zero |
| `Histogram.LatencyHistogram.Merge` | benchmarks/histogram.py:59-67 | the histogram of both recordings, also of one with itself |
| `Histogram.LatencyHistogram.Percentile` | benchmarks/histogram.py:73-86 | refused outside [0, 100]; otherwise exactly one value has the rank, and the answer is within 1/256 of it |
| `CrashRecovery.SilentCommit` | src/kvstore/engine/persistence/manager.py:154-180 | an append that fails leaves an earlier effect in the buffer; the commit that follows reports success and a crash loses it |
| `GroupCommit.AnsweredUncommitted` | src/kvstore/protocol/tcp_server.py:65-90 | another connection's failing append makes the shared commit do nothing; the first connection is answered and its write is not on disk |
| `Effects.PurgedThenIncremented` | src/kvstore/engine/store.py:256-263 | a key purged at startup and then incremented replays onto the expired number |
| `Equivalence.PurgedThenAdded` | src/kvstore/engine/engine.py:161-161 | a string purged at startup and then used as a set leaves a log whose replay fails, so the node does not start |
| `Migration.WriteLost` | src/kvstore/cluster/migration.py:148-189 | one target refuses, which unlocks a key copied to another; its write is served here and the other target's answer then deletes it |
| `Migration.DeletedReturns` | src/kvstore/cluster/migration.py:163-168 | after such a refusal a key deleted at the source is the old copy at the target again |
| `ReplicationRuns.AssumedAck` | src/kvstore/replication/primary.py:196-203 | a replica in a full resync is counted by WAIT before it holds the write |
| `ReplicationRuns.OtherHistoryWins` | src/kvstore/cluster/manager.py:246-269 | the highest offset can belong to a candidate on another history that lacks a confirmed write |
| `ReplicationRuns.LeftAndReturned` | src/kvstore/cluster/manager.py:246-269 | a replica that left the history and came back is on it at the end without the write it had reported |
| `ReplicationRuns.LoadFailed` | src/kvstore/replication/replica.py:137-139 | loading a full resync replaces what the replica holds and then saves it; if the copy cannot be read, or the save fails (a disk error, or only a rewrite already in progress), the position stays: the replica may continue from an offset whose data it no longer has, and its files mix the old data with the new stream |
| `EventLog.CopyOnReplica` | src/kvstore/engine/store.py:441-444 | a replica leaves a key that has expired by its own clock out of its copy, and a PERSIST of it streamed since does not bring it back |
| `Router.SecondRunsFirst` | src/kvstore/cluster/router.py:317-331 | two writes to one key in a batch, the first answered TRYAGAIN: it is sent again and both succeed in the opposite order; since a shard runs the commands of one read without yielding (src/kvstore/protocol/tcp_server.py:225-235), this takes a batch that reaches the shard in two reads |
| `Router.KeylessAborts` | src/kvstore/cluster/router.py:351-375 | a fan-out command whose first connection is refused aborts the whole batch instead of being retried |

## Findings

Properties that the code does not meet, each with a run that shows it and the exact
condition under which it does.

| shown by | source | what goes wrong | when the property holds |
|---|---|---|---|
| `CrashRecovery.SilentCommit` | src/kvstore/engine/persistence/manager.py:154-180 | an append that fails leaves an earlier effect in the buffer; the commit that follows reports success and a crash loses it | `Persistence.Commit`: durable exactly if no write error had happened or nothing was buffered |
| `GroupCommit.AnsweredUncommitted` | src/kvstore/protocol/tcp_server.py:65-90 | another connection's failing append makes the shared commit do nothing; the first connection is answered and its write is not on disk | `Shard.Flush`: everything written exactly if no write error had happened or nothing was left to write |
| `Effects.PurgedThenIncremented` | src/kvstore/engine/store.py:256-263 | a key purged at startup and then incremented replays onto the expired number | `Equivalence.PurgeExactly`: exactly if no record reads a purged key that nothing has written since |
| `Equivalence.PurgedThenAdded` | src/kvstore/engine/engine.py:161-161 | a string purged at startup and then used as a set leaves a log whose replay fails, so the node does not start | `Equivalence.PurgeExactly` |
| `Migration.WriteLost` | src/kvstore/cluster/migration.py:148-189 | one target refuses, which unlocks a key copied to another; its write is served here and the other target's answer then deletes it | `KeyMigration.Run` and `Acknowledge`: exactly if the copy is still what the source held |
| `Migration.DeletedReturns` | src/kvstore/cluster/migration.py:163-168 | after such a refusal a key deleted at the source is the old copy at the target again | `KeyMigration.ClientHere`: exactly if no key with a copy is deleted |
| `ReplicationRuns.AssumedAck` | src/kvstore/replication/primary.py:196-203 | a replica in a full resync is counted by WAIT before it holds the write | `CountedIsHeld`: right exactly if the copy has been loaded, of a replica on the history; so for reported acknowledgements and for replicas that continued |
| `ReplicationRuns.OtherHistoryWins` | src/kvstore/cluster/manager.py:246-269 | the highest offset can belong to a candidate on another history that lacks a confirmed write | `Failover`: holds if the winner is on the history of the write |
| `ReplicationRuns.LeftAndReturned` | src/kvstore/cluster/manager.py:246-269 | a replica that left the history and came back is on it at the end without the write it had reported | `Failover`: the acknowledging replica must stay on it |
| `ReplicationRuns.LoadFailed` | src/kvstore/replication/replica.py:137-139 | loading a full resync replaces what the replica holds and then saves it; if the copy cannot be read, or the save fails (a disk error, or only a rewrite already in progress), the position stays: the replica may continue from an offset whose data it no longer has, and its files mix the old data with the new stream | `RunKeeps` and `FilesAgree`: exactly if no failed load has left it with other data than its position, or its files, name |
| `EventLog.CopyOnReplica` | src/kvstore/engine/store.py:441-444 | a replica leaves a key that has expired by its own clock out of its copy, and a PERSIST of it streamed since does not bring it back | `EventLog.CopyRestores`: after every record exactly if none revives a key that the copy lacks (`EventLog.LogLags`) |
| `Router.SecondRunsFirst` | src/kvstore/cluster/router.py:317-331 | two writes to one key in a batch, the first answered TRYAGAIN: it is sent again and both succeed in the opposite order; since a shard runs the commands of one read without yielding (src/kvstore/protocol/tcp_server.py:225-235), this takes a batch that reaches the shard in two reads | `ShardRouter.WritesInOrder`: exactly if the first is not turned away more often than the second |
| `Router.KeylessAborts` | src/kvstore/cluster/router.py:351-375 | a fan-out command whose first connection is refused aborts the whole batch instead of being retried | `ShardRouter.SendWithRetries` and `ExecuteBatch`: exactly if the first attempt at a keyless command failed in a way that is retried and a retry is left |
| `Keyspace.InsertBalances` | src/kvstore/engine/store.py:156-159 | a write over an entry that a lookup only hid leaves a deadline that no entry has and counts the size twice | the same lemma: exactly if the hidden entry had no deadline, and size 0 |
| `SnapshotCodec.LoadUndoesStore` | src/kvstore/engine/persistence/snapshot.py:87-98 | a deadline before 1970 is stored as no deadline; commands do not leave one, since a past deadline deletes the key (src/kvstore/engine/commands/keyspace.py:106-111), RESTORE refuses a negative ttl and snapshots skip expired keys, so it takes a clock before 1970 or a direct call of the encoder | the same lemma and `Transfer`: exactly if no record has one |
| `Effects.Engine.Stream` | src/kvstore/engine/commands/keyspace.py:103-115 | a streamed deadline that has passed deletes the key on the replica while the primary still has it | the same method: exactly if no record arrives with a deadline already past |

The migration's remark that it stops on a target's error rather than lose the key
(src/kvstore/cluster/migration.py:184) holds for that key and not for the other keys of
the batch, as `Migration.WriteLost` shows.

## Left out

- Lists and hashes: their values are carried whole, and their commands are not modelled; they would add easy members.
- Threads, fsync, sockets, timeouts and sleeps: each is a step with its possible outcomes. A crash loses what is in the process's buffer, perhaps in the middle of a record. Loss of bytes that reached the operating system is not modelled: with a loss of power, the previous file can be torn until its last fsync, which runs on a thread after the next file is listed (src/kvstore/engine/persistence/manager.py:222-232).
- Replication nodes and the cluster are values, and the protocol is a function from state and step to state; only the backlog is a class. Update in place and aliasing of nodes are not captured there.
- Eviction policies and the key set inside the store are values that the store reassigns; the key set also has its form in place, proved equal to the value.
- The payload of a full resync is the sequence of items it stands for, and a node's files are what they would rebuild; the parsing of the stream into commands (src/kvstore/replication/stream.py:64-93) is not modelled. A replica without persistence has no save that could fail.
- `EventLog` takes what a handler logs as given, with the condition that it tells what the handler does to the store; `EngineLog` shows that for every kind of record, and which record a command logs, with which reply, is `Effects.Engine`. The two meet in the records; the handlers are not run on the class `Keyspace.Store`.
- After a write error a primary refuses the writes of its clients and logs nothing; in `Replication` it may go on with any items, as it does with the deletions of expired keys.
- The shares of a batch are sent one after the other; in the source the groups of one flush, and of one fan-out, run at the same time. Each share has its own retries and results, so the claims about a share do not depend on that.
- A duplicate RESTORE that a target processes after it has answered for the batch is not modelled; a duplicate before that is.
- Log records of versions 1 and 2, the legacy file name, and damage other than truncation.
- Text of floating point numbers is an assumed inverse pair, strings are sequences of characters standing for bytes, and byte size estimates are an arbitrary function.
- The request parser is given a limit on bulk strings below 10^12, so that a length line fits the line limit; inline commands depend on how they are cut into chunks and have no chunk-independence claim.
- Percentile ranks are computed over the reals.
- Group commit is modelled for handlers that do not yield while a batch runs; WAIT inside a batch is not.
- The heartbeat, reconciliation, saving and restart of the cluster manager; promotion replies arrive.
- Settings, HTTP endpoints, metrics, logging and the other benchmarks.
- Resp.RequestParser.ParseInline: states progress and the buffer invariant only, because the words of a line are not part of the framed protocol the round trip is about.
- Replication.Failover: the winner being on the history of the write is a condition on the run; the code does not compare histories, and `ReplicationRuns.OtherHistoryWins` shows that it matters.
- Replication.CountedIsHeld: exact for a replica on the primary's history; one on another history that has yet to load its copy may share the write through a common past or not.
