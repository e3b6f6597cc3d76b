# A verified model of the ApiSample data-access layer

ApiSample is a Go game backend whose data lives in sharded MySQL: a master
database holds the unsharded tables, shard databases hold per-user tables,
and weighted read replicas ("slaves") serve read-only traffic. This project
models the part of it that computes things itself, not the SQL round-trips,
and proves properties of that model:

- **the record executor** (`src/sample/model/base.go`), in four modules:
  - `BaseCondition`: the WHERE and ORDER BY condition language, and the
    `conditionCheck` that dispatches to it;
  - `BaseOption`: option resolution (mode, FOR UPDATE, shard key, shard id);
  - `BaseRecord`: the derivation of columns, values, pk map and shard key
    from a record, and shard-id resolution;
  - `BaseSeq`: sequence-id reservation.

  `BaseWrite` holds the statements that Update (with its snapshot diff),
  Create, CreateMulti (with its single-shard rule) and Save assemble;
- **the per-request transaction coordinator**, in two versions:
  - `DBISpec` and `DBI` for `src/sample/DBI/DBI.go`, which uses plain errors;
  - `DbSpec` and `Db` for `src/sample/common/db/db.go`, which uses error
    stacks.

  Both keep four request-scoped slots (master write, master read, shard-write
  map, shard-read map), each with a started flag. `TxContext` holds what the
  two share, and each `*Spec` module states the transitions as functions. The
  class methods of `DBI`/`Db` update the request context in place and are
  proved equal to those functions;
- **the list builders** of both coordinators: the shard-id list, the
  expanded slave-weight list and the replica choice, with the weighted-list
  flattening in `Weights`;
- **weighted shard choice** (`UserShardWeight`, `src/sample/model/userShardWeight.go`);
- **table metadata** (`TableConf`, `src/sample/model/dbTableConf.go`): the
  type predicates, the row map the cache setter builds, and Find;
- **the two process-local TTL caches**:
  - `ModelCache` for `src/sample/model/cache.go`;
  - `Cache` for `src/sample/cache/cache.go`;
- **the two error stacks**:
  - `Err` for `src/sample/common/err/error.go`;
  - `Error` for `src/sample/common/error/error.go`;
- **the redis helpers** (`Redis`, `src/sample/logic/redis.go`): the SET and
  ZADD option checks, the MULTI/EXEC state kept in the request context, and
  the shaping of the EXISTS and ZREVRANGE replies.

`GoValues` models Go's `interface{}` values and the helpers' outcome type.
`Strings` models the pieces of Go's `strings`/`strconv` that are needed.
`Wrappers` holds Option and Result.

Everything outside the process becomes an explicit input: what Begin, Commit
and Rollback return, the rows a query returns, what `rand.Intn` draws, the
clock, the shard lookup, and the caller information of `runtime.Caller`. A
Go map iterated with `range` becomes a map plus a parameter listing its keys
in one arbitrary order. Wherever the result depends on that order, the
lemmas say exactly how. A Go panic (an unchecked type assertion, a nil
dereference, an index out of range, `rand.Intn(0)`) becomes a `Panic`
outcome.

Where the coordinators' documented behaviour and their code disagree, the
model follows the code:

- `Commit` in both versions returns only the result of the last step, the
  read-shard rollback. A failed write commit is therefore not reported by
  `Commit`.
- `RollBack` does not clear every slot. A master slot whose rollback failed
  stays started in both versions. In db.go the same holds for a shard slot
  with a failed entry.
- Update's snapshot diff matches columns by the lower-cased field name, not
  by the `db` tag.

## Model

| member | source | states |
|---|---|---|
| Err.FixedPhrase | src/sample/common/err/error.go:110-121 | five items: "(" + caller name + ")", "at", the path trimmed after a single "/src/", "line", the line number |
| Err.TrimSrc | src/sample/common/err/error.go:112-118 | the part after "/src/" exactly when "/src/" occurs once in the path, the whole path otherwise |
| Err.AddCallerMsg | src/sample/common/err/error.go:88-100 | the old messages kept as a prefix, five caller items added |
| Err.NewErrWriter | src/sample/common/err/error.go:27-38 | empty without messages; with messages, those messages first, then five caller items |
| Err.Write | src/sample/common/err/error.go:48-53 | old messages, then the new ones, then five caller items; HasErr holds afterwards even when nothing new is written |
| Err.Unshift | src/sample/common/err/error.go:131-134 | the given items first, the old messages after them, both in order |
| Err.HasErrAfterConstruction | src/sample/common/err/error.go:27-38 | HasErr of a new writer holds iff messages were given; it holds after any Write; it fails on the zero value |
| Err.HasErr | src/sample/common/err/error.go:62-67 | defines HasErr: the stack holds a message; Err.HasErrAfterConstruction and Err.HasErrIffErr state when it holds |
| Err.GetErr | src/sample/common/err/error.go:76-78 | defines Err: the message list; Err.HasErrIffErr relates it to HasErr |
| Err.HasErrIffErr | src/sample/common/err/error.go:62-78 | HasErr holds iff Err returns a non-empty list; Err returns the list unchanged |
| Err.WriteTwice | src/sample/common/err/error.go:48-53 | two writes leave both message lists in order, each followed by its own caller items |
| Err.UnshiftWrite | src/sample/common/err/error.go:131-134 | unshifting onto a written stack puts the new items before everything written, caller items included |
| Err.FixedPhraseSrcOnce | src/sample/common/err/error.go:112-118 | "a/src/b" becomes "b" |
| Err.FixedPhraseNoSrc | src/sample/common/err/error.go:112-118 | a path without "/src/" is kept whole |
| Err.FixedPhraseSrcTwice | src/sample/common/err/error.go:112-118 | a path with "/src/" twice splits into three pieces and is kept whole |
| Error.FixedPhrase | src/sample/common/error/error.go:98-109 | four items: "at", the trimmed path, "line", the line number |
| Error.AddCallerMsg | src/sample/common/error/error.go:77-88 | the old messages kept as a prefix, four caller items added |
| Error.NewErrWriter | src/sample/common/error/error.go:27-38 | empty without messages; with messages, those messages, then four caller items |
| Error.Write | src/sample/common/error/error.go:48-53 | old messages, new messages, then exactly "at", file, "line", line |
| Error.GetErr | src/sample/common/error/error.go:62-67 | nil iff the stack is empty, otherwise the message list |
| Error.Unshift | src/sample/common/error/error.go:119-122 | the given items first, the old messages after them |
| Error.ErrNilUntilWritten | src/sample/common/error/error.go:27-67 | Err of a new writer is nil iff no messages were given; after any Write it is not nil |
| Error.SameMessagesAsErr | src/sample/common/error/error.go:98-109 | the messages recorded match package err's, and the caller items match package err's without the function-name item |
| Strings.Split | src/sample/common/err/error.go:112 | the pieces of the string between the occurrences of the separator |
| Strings.SplitInTwo | src/sample/common/err/error.go:112-118 | a split yields exactly two pieces iff the separator occurs exactly once; the second piece is what follows it |
| Strings.JoinSplit | src/sample/common/err/error.go:112 | joining a split's pieces with the same separator gives the string back |
| Strings.IndexOfCorrect | src/sample/common/err/error.go:112 | the index found is the first occurrence of the separator, and -1 means it does not occur |
| Strings.ToLower | src/sample/model/base.go:772 | the same length, letter by letter lower-cased |
| Strings.ToLowerLowers | src/sample/model/base.go:772 | lower-casing is idempotent and leaves no upper-case ASCII letter |
| Weights.Repeat | src/sample/DBI/DBI.go:173-175 | n copies of the value, none for n <= 0 |
| Weights.ShardRange | src/sample/DBI/DBI.go:82-84 | the ids 1..n in ascending order |
| Weights.ExpandCount | src/sample/model/userShardWeight.go:77-82 | in the expanded list each value occurs exactly as often as its total positive weight |
| Weights.ExpandAppend | src/sample/model/userShardWeight.go:77-82 | the expanded list keeps row order: the list of a concatenation is the concatenation of the lists |
| Weights.ExpandMember | src/sample/model/userShardWeight.go:77-82 | a value is in the expanded list iff some row carries it with a positive weight |
| Weights.SlaveCount | src/sample/DBI/DBI.go:172-175 | the slave-weight list holds slave index k exactly weight[k] times, none when that weight is <= 0 |
| TxContext.WithMaster | src/sample/DBI/DBI.go:239-240 | storing a master slot changes that slot only |
| TxContext.WithShard | src/sample/DBI/DBI.go:285-286 | storing a shard slot changes that slot only |
| TxContext.IsTransactonStart | src/sample/DBI/DBI.go:545-551 | defines isTransactonStart: the flag stored under the slot's key, false when absent; TxContext.StartedIffHeld ties it to the slot |
| TxContext.StartedIffHeld | src/sample/DBI/DBI.go:545-551 | on a consistent context, the started flag holds iff the slot holds a transaction; a fresh context is consistent and has nothing started |
| TxContext.LastErr | src/sample/DBI/DBI.go:353-359 | the error left after the loop is the last visited shard's, and it is an error only if some shard failed |
| TxContext.FirstErr | src/sample/DBI/DBI.go:274-280 | the error of the first failing shard in visiting order; none iff no shard failed |
| TxContext.Survivors | src/sample/DBI/DBI.go:353-359 | exactly the failed shards' transactions remain |
| TxContext.SurvivorsEmptyIff | src/sample/common/db/db.go:474-502 | after a full loop the map is empty iff no shard's call failed |
| TxContext.LastErrMasksFailure | src/sample/DBI/DBI.go:353-359 | with two shards where only the first visited fails, the loop leaves a nil error |
| TxContext.FinishShards | src/sample/DBI/DBI.go:353-359 | the loop that deletes finished entries leaves the failed ones, the last call's error and whether any call failed |
| TxContext.BeginAll | src/sample/DBI/DBI.go:272-282 | Ok iff no shard's Begin fails, then one transaction per shard handle under the same keys; otherwise the error of a failing shard |
| TxContext.BeginShards | src/sample/DBI/DBI.go:272-282 | the Begin loop returns at the first failure in visiting order, or the full transaction map |
| TxContext.RequestContext.constructor | src/sample/DBI/DBI.go:545-551 | a fresh request has nothing started |
| TxContext.RequestContext.SetMaster | src/sample/DBI/DBI.go:239-240 | the two keys of one master slot are set, nothing else |
| TxContext.RequestContext.SetShard | src/sample/DBI/DBI.go:285-286 | the two keys of one shard slot are set, nothing else |
| DBISpec.DecideUseSlave | src/sample/DBI/DBI.go:197-200 | `rand.Intn(0)` panics exactly on the empty slave-weight list; otherwise the chosen slave index is an element of the list |
| DBISpec.DecideUseSlaveWeighted | src/sample/DBI/DBI.go:172-200 | the choice panics exactly when no slave has a positive weight, and otherwise the chosen slave has a positive weight |
| DBISpec.GetDBMasterConnection | src/sample/DBI/DBI.go:599-627 | Ok iff the mode is W or R: W gives the write master, R the request's slave; BAK and unknown modes end in "connection is nil!!" |
| DBISpec.GetDBShardMap | src/sample/DBI/DBI.go:661-689 | Ok iff the mode is W or R: W gives the write shard map, R the request's slave map; any other mode ends in "shardMap is nil!!" |
| DBISpec.MasterTxStart | src/sample/DBI/DBI.go:213-243 | a started slot is left alone with nil; an error leaves the context unchanged; on success the new transaction and its flag are stored |
| DBISpec.ShardAllTxStart | src/sample/DBI/DBI.go:253-289 | a started slot is left alone; an error (the map's or the first failing Begin's) leaves the context unchanged; on success one transaction per shard handle is stored with the flag |
| DBISpec.MasterCommit | src/sample/DBI/DBI.go:319-334 | Commit's error when a transaction is held; the slot and flag are cleared only on success; the other slots are untouched |
| DBISpec.MasterRollback | src/sample/DBI/DBI.go:398-419 | the same for the master slot the mode selects |
| DBISpec.ShardCommit | src/sample/DBI/DBI.go:344-368 | a held write map is always dropped with its flag, and the error is the last visited shard's |
| DBISpec.ShardRollback | src/sample/DBI/DBI.go:430-459 | the same for the shard slot the mode selects |
| DBISpec.Commit | src/sample/DBI/DBI.go:302-309 | both shard slots are dropped; each master slot is cleared only if its call succeeds; only the read-shard rollback's error is returned |
| DBISpec.RollBack | src/sample/DBI/DBI.go:381-387 | W and R masters, then W and R shard maps; only the read-shard rollback's error is returned |
| DBISpec.GetTransaction | src/sample/DBI/DBI.go:474-534 | defines GetTransaction: start the slot the mode selects, then read its transaction or the shard's entry; DBISpec.GetMasterTransaction and DBISpec.GetShardTransactionResult state its cases |
| DBISpec.ConsistentByMasterStart | src/sample/DBI/DBI.go:213-243 | starting a master keeps every flag in step with its slot |
| DBISpec.ConsistentByShardStart | src/sample/DBI/DBI.go:253-289 | starting the shards keeps every flag in step with its slot |
| DBISpec.ConsistentByMasterFinish | src/sample/DBI/DBI.go:319-419 | a master commit or rollback keeps every flag in step with its slot |
| DBISpec.ConsistentByShardCommit | src/sample/DBI/DBI.go:344-368 | a shard commit keeps every flag in step with its slot |
| DBISpec.ConsistentByShardRollback | src/sample/DBI/DBI.go:430-459 | a shard rollback keeps every flag in step with its slot |
| DBISpec.StartIdempotent | src/sample/DBI/DBI.go:221-264 | starting a started slot again changes nothing and returns nil, whatever Begin would do |
| DBISpec.GetMasterTransaction | src/sample/DBI/DBI.go:502-533 | on the master, a successful start yields the transaction begun on the mode's connection; a failed start leaves the context unchanged |
| DBISpec.GetShardTransaction | src/sample/DBI/DBI.go:478-531 | on a shard, the transaction of that shard when the id is a key of the map, otherwise "not found transaction!!" with the started map kept |
| DBISpec.GetShardTransactionResult | src/sample/DBI/DBI.go:474-533 | on the shard path in every case: a start error is returned as is and leaves the context; otherwise Ok iff the shard id is a key of the slot's map, with that entry, else "not found transaction!!"; a started slot is reused unchanged, and a fresh one holds one transaction per handle of the mode's shard map |
| DBISpec.CommitDropsFailedShards | src/sample/DBI/DBI.go:302-368 | after a failed shard commit whose error later steps hide, Commit still drops the shard slot; a failed master commit keeps its slot |
| DBISpec.RollBackNothingStarted | src/sample/DBI/DBI.go:302-387 | with nothing started, RollBack and Commit touch nothing and return nil |
| DBISpec.RollBackClearsAll | src/sample/DBI/DBI.go:381-387 | a rollback whose every call succeeds leaves a fresh context |
| DBI.BuildShardIds | src/sample/DBI/DBI.go:82-84 | the loop appends 1..Shard to the list |
| DBI.AppendSlaveWeight | src/sample/DBI/DBI.go:173-175 | the loop appends the slave index weight times |
| DBI.BuildSlaveWeights | src/sample/DBI/DBI.go:117-175 | the list built over all slaves is the expanded indexed weight list |
| DBI.MasterTxStart | src/sample/DBI/DBI.go:213-243 | the new context and error are those of DBISpec.MasterTxStart |
| DBI.ShardAllTxStart | src/sample/DBI/DBI.go:253-289 | the new context and error are those of DBISpec.ShardAllTxStart |
| DBI.MasterCommit | src/sample/DBI/DBI.go:319-334 | the new context and error are those of DBISpec.MasterCommit |
| DBI.MasterRollback | src/sample/DBI/DBI.go:398-419 | the new context and error are those of DBISpec.MasterRollback |
| DBI.ShardCommit | src/sample/DBI/DBI.go:344-368 | the in-place deletion loop; the new context and error are those of DBISpec.ShardCommit |
| DBI.ShardRollback | src/sample/DBI/DBI.go:430-459 | the in-place deletion loop; the new context and error are those of DBISpec.ShardRollback |
| DBI.Commit | src/sample/DBI/DBI.go:302-309 | the new context and error are those of DBISpec.Commit |
| DBI.RollBack | src/sample/DBI/DBI.go:381-387 | the new context and error are those of DBISpec.RollBack |
| DBI.GetTransaction | src/sample/DBI/DBI.go:474-534 | the new context and transaction are those of DBISpec.GetTransaction |
| DbSpec.DecideUseSlave | src/sample/common/db/db.go:272-275 | `rand.Intn(0)` panics exactly on the empty slave-weight list; otherwise the chosen slave index is an element of the list |
| DbSpec.GetDBMasterConnection | src/sample/common/db/db.go:736-764 | Ok iff the mode is W or R, with the write master or the request's slave; BAK ends in "connection is nil!!"; any other mode returns "invalid mode!!" at once; every error is a non-empty stack |
| DbSpec.GetDBShardMap | src/sample/common/db/db.go:797-825 | the same selection for shard maps, with "shardMap is nil!!" for BAK and "invalid mode!!" for an unknown mode |
| DbSpec.MasterTxStart | src/sample/common/db/db.go:343-372 | a started slot gives an empty stack and no change; an error leaves the context unchanged; on success the transaction and its flag are stored |
| DbSpec.ShardAllTxStart | src/sample/common/db/db.go:382-417 | a started slot gives an empty stack and no change; an error leaves the context unchanged; only the mode's shard slot can change |
| DbSpec.ShardStartOutcome | src/sample/common/db/db.go:398-414 | a fresh start reports the first failing shard's Begin error and stores nothing, or stores one transaction per handle with the flag |
| DbSpec.MasterCommit | src/sample/common/db/db.go:447-464 | with a held transaction, a non-empty stack iff the commit fails, headed by that error; the slot is cleared only on success; other slots untouched |
| DbSpec.MasterRollback | src/sample/common/db/db.go:532-555 | the same for the master slot the mode selects |
| DbSpec.ShardCommit | src/sample/common/db/db.go:474-502 | with a held map, a non-empty stack iff some commit fails; if none fails the slot and flag are cleared, otherwise they stay holding only the failed transactions |
| DbSpec.ShardRollback | src/sample/common/db/db.go:566-599 | the same for the shard slot the mode selects |
| DbSpec.Commit | src/sample/common/db/db.go:430-437 | each slot ends as its own step leaves it; only the read-shard rollback's stack is returned |
| DbSpec.RollBack | src/sample/common/db/db.go:515-521 | each slot ends as its own rollback leaves it; only the read-shard rollback's stack is returned |
| DbSpec.GetTransaction | src/sample/common/db/db.go:614-671 | defines GetTransaction with error stacks; DbSpec.GetTransactionResult states its cases |
| DbSpec.ConsistentByMasterStart | src/sample/common/db/db.go:343-372 | starting a master keeps every flag in step with its slot |
| DbSpec.ConsistentByShardStart | src/sample/common/db/db.go:382-417 | starting the shards keeps every flag in step with its slot |
| DbSpec.ConsistentByMasterFinish | src/sample/common/db/db.go:447-555 | a master commit or rollback keeps every flag in step with its slot |
| DbSpec.ConsistentByShardCommit | src/sample/common/db/db.go:474-502 | a shard commit keeps every flag in step with its slot; a failed one keeps the map of failed transactions with its flag |
| DbSpec.ConsistentByShardRollback | src/sample/common/db/db.go:566-599 | a shard rollback keeps every flag in step with its slot |
| DbSpec.ShardCommitKeepsFailed | src/sample/common/db/db.go:483-499 | after a failed shard commit the slot holds a non-empty map of exactly the transactions whose commit failed |
| DbSpec.ShardCommitReportsMaskedFailure | src/sample/common/db/db.go:483-499 | when only the first of two shards fails, the failure is still reported, by a stack headed by the nil error of the last call, and the failed shard stays |
| DbSpec.StartIdempotent | src/sample/common/db/db.go:351-392 | starting a started slot again gives an empty stack and changes nothing |
| DbSpec.GetTransactionResult | src/sample/common/db/db.go:614-671 | Ok iff the start succeeds and the slot or the shard's entry holds a transaction; a failed start adds the start-failed message; a missing transaction is "not found transaction!!" |
| DbSpec.RollBackNothingStarted | src/sample/common/db/db.go:430-521 | with nothing started, RollBack and Commit touch nothing and return an empty stack |
| Db.BuildShardIds | src/sample/common/db/db.go:57-59 | the loop appends 1..Shard to the list |
| Db.BuildSlaveWeights | src/sample/common/db/db.go:90-94 | the loops append each slave's index weight times, slaves in order |
| Db.FirstErrIndex | src/sample/common/db/db.go:128-146 | the index of the first failed open: all before it succeeded, and it failed unless it is the end |
| Db.OpenedMap | src/sample/common/db/db.go:128-136 | the map of handles opened so far has exactly the shard ids as keys |
| Db.OpenedValues | src/sample/common/db/db.go:138-141 | with distinct shard ids, the handles held by the map are exactly those opened |
| Db.WriteShardAsWrittenSpec | src/sample/common/db/db.go:126-148 | defines the as-written setup: the full map when every open succeeds, otherwise the nil dereference in the close loop; Db.WriteShardAgreement states its cases |
| Db.WriteShardSpec | src/sample/common/db/db.go:126-148 | defines the intended setup: the full map, or the first failed open's stack with its setup message and the handles opened before it closed; Db.WriteShardAgreement states its cases |
| Db.OpenShardsAsWritten | src/sample/common/db/db.go:130-139 | the opening loop stops exactly at the first failed open, with the handles opened before it and a nil entry for the failed shard in the map, or opens every shard |
| Db.CloseLoopAsWritten | src/sample/common/db/db.go:140-142 | the close loop as written dereferences a nil handle exactly when some visited map entry is nil |
| Db.GetWriteShardAsWritten | src/sample/common/db/db.go:126-148 | the loop as written yields exactly Db.WriteShardAsWrittenSpec |
| Db.GetWriteShard | src/sample/common/db/db.go:126-148 | the loop with the intended cleanup yields exactly Db.WriteShardSpec |
| Db.WriteShardPanics | src/sample/common/db/db.go:134-141 | two shards, the second failing to open: the as-written setup panics |
| Db.WriteShardClosesOpened | src/sample/common/db/db.go:134-145 | the same input: the corrected setup fails and closes the first handle |
| Db.WriteShardAgreement | src/sample/common/db/db.go:126-148 | each setup returns the full map exactly when every open succeeds, and then both return the same map; after a failed open the as-written setup panics and the intended one fails with the first failing shard's setup message |
| Db.MasterTxStart | src/sample/common/db/db.go:343-372 | the new context and stack are those of DbSpec.MasterTxStart |
| Db.ShardAllTxStart | src/sample/common/db/db.go:382-417 | the new context and stack are those of DbSpec.ShardAllTxStart |
| Db.MasterCommit | src/sample/common/db/db.go:447-464 | the new context and stack are those of DbSpec.MasterCommit |
| Db.MasterRollback | src/sample/common/db/db.go:532-555 | the new context and stack are those of DbSpec.MasterRollback |
| Db.ShardCommit | src/sample/common/db/db.go:474-502 | the in-place deletion loop; the new context and stack are those of DbSpec.ShardCommit |
| Db.ShardRollback | src/sample/common/db/db.go:566-599 | the in-place deletion loop; the new context and stack are those of DbSpec.ShardRollback |
| Db.Commit | src/sample/common/db/db.go:430-437 | the new context and stack are those of DbSpec.Commit |
| Db.RollBack | src/sample/common/db/db.go:515-521 | the new context and stack are those of DbSpec.RollBack |
| Db.GetTransaction | src/sample/common/db/db.go:614-671 | the new context and transaction are those of DbSpec.GetTransaction |
| ModelCache.UniqueKey | src/sample/model/cache.go:104-107 | the unique key is exactly key + "_" + member |
| ModelCache.FirstUnderscore | src/sample/model/cache.go:104-107 | when the key has no underscore, the first underscore of the unique key is the separator |
| ModelCache.UniqueKeyInjective | src/sample/model/cache.go:104-107 | for keys without an underscore, two unique keys are equal iff both key and member are |
| ModelCache.UniqueKeyCollision | src/sample/model/cache.go:104-107 | ("a_b", "c") and ("a", "b_c") share one entry |
| ModelCache.Put | src/sample/model/cache.go:40-53 | defines SetCache's effect: both maps overwritten under the unique key, expiring at now + 10; ModelCache.PutThenLookup, PutOther and PutOverwrites state it |
| ModelCache.Lookup | src/sample/model/cache.go:55-81 | defines GetCache's reading; ModelCache.LookupMeaning states its cases |
| ModelCache.PutThenLookup | src/sample/model/cache.go:40-81 | data stored at t reads back unchanged at any t' <= t + 10, and as a miss after that |
| ModelCache.PutOther | src/sample/model/cache.go:49-52 | storing under one key leaves every other key's reading unchanged |
| ModelCache.PutOverwrites | src/sample/model/cache.go:49-52 | a second store under the same key replaces the first entirely |
| ModelCache.LookupMeaning | src/sample/model/cache.go:55-81 | an error, "unique key [k] is invalid!!", iff a live info entry has no data; a missing or expired entry is (nil, nil); a hit returns the stored value |
| ModelCache.ConsistentKept | src/sample/model/cache.go:40-81 | the empty cache has data for every info entry, each store keeps that, and then the invalid-key error never occurs |
| ModelCache.WithSetter | src/sample/model/cache.go:83-102 | defines GetCacheWithSetter given both readings; ModelCache.SetterOnlyOnMiss states it |
| ModelCache.SetterOnlyOnMiss | src/sample/model/cache.go:83-102 | an error or a cached value is returned without the setter; on a nil reading the result is exactly the setter's |
| ModelCache.CacheRepo.constructor | src/sample/model/cache.go:34-35 | both package-level maps start empty |
| ModelCache.CacheRepo.SetCache | src/sample/model/cache.go:40-53 | both maps are overwritten under the unique key with the data and expired_at = now + 10 |
| ModelCache.CacheRepo.GetCache | src/sample/model/cache.go:55-81 | the reading of the unique key at now, as ModelCache.LookupMeaning describes |
| ModelCache.CacheRepo.GetCacheWithSetter | src/sample/model/cache.go:83-102 | the cached reading, or the setter's result on a nil reading; the cache itself is left unchanged |
| Cache.GlobalCache.constructor | src/sample/cache/cache.go:18-19 | both package-level maps start empty |
| Cache.GlobalCache.Set | src/sample/cache/cache.go:24-37 | under category + "_" + key, the info entry records expired_at = now + 10 and the data entry holds the data, replacing any previous entry |
| Cache.GlobalCache.Get | src/sample/cache/cache.go:39-65 | (nil, nil) for a missing or expired entry, the invalid-key error for info without data, the data otherwise |
| Cache.SetThenGet | src/sample/cache/cache.go:24-65 | a Set followed within ten seconds by a Get of the same category and key returns that data; a later Get finds nothing |
| TableConf.IsUseTypeMaster | src/sample/model/dbTableConf.go:168-173 | defines IsUseTypeMaster; TableConf.TypePredicates states it |
| TableConf.IsUseTypeShard | src/sample/model/dbTableConf.go:181-186 | defines IsUseTypeShard; TableConf.TypePredicates states it |
| TableConf.IsShardTypeUser | src/sample/model/dbTableConf.go:194-199 | defines IsShardTypeUser; TableConf.TypePredicates states it |
| TableConf.IsShardTypeGroup | src/sample/model/dbTableConf.go:207-212 | defines IsShardTypeGroup; TableConf.TypePredicates states it |
| TableConf.TypePredicates | src/sample/model/dbTableConf.go:19-212 | the codes are 0/1/2; IsUseTypeMaster iff UseType 1, IsUseTypeShard iff 2, IsShardTypeUser iff ShardType 1, IsShardTypeGroup iff 2; never both of a kind; code 0 satisfies neither |
| TableConf.RowMapMeaning | src/sample/model/dbTableConf.go:150-153 | a name is in the map iff some row carries it, and it maps to the last such row |
| TableConf.BuildRowMap | src/sample/model/dbTableConf.go:150-153 | the loop builds exactly that map |
| TableConf.Setter | src/sample/model/dbTableConf.go:140-157 | defines cacheSetter: a failed or empty read is reported and leaves the cache, otherwise the row map is cached and returned; TableConf.FindLoads and FindReadFails state both cases |
| TableConf.FindSpec | src/sample/model/dbTableConf.go:85-99 | defines Find over the cache and the setter; TableConf.FindLoads, FindReadFails, FindCached and FindServedFromCache state its cases |
| TableConf.FindLoads | src/sample/model/dbTableConf.go:85-157 | with nothing cached and a non-empty read, Find caches the rows' map under ("db_table_conf", "all") for ten seconds and picks the name from it |
| TableConf.Pick | src/sample/model/dbTableConf.go:93-98 | defines the last step of Find; TableConf.PickFromRows states what it yields |
| TableConf.PickFromRows | src/sample/model/dbTableConf.go:93-98 | picking returns the last row of that name, or "not found db_table_conf record!!" when no row has it |
| TableConf.FindReadFails | src/sample/model/dbTableConf.go:141-147 | a failed read, or an empty one ("db_table_conf is empty!!"), is reported with Find's caller items last, and nothing is cached |
| TableConf.FindCached | src/sample/model/dbTableConf.go:85-99 | once the map is cached, Find neither reads the table nor changes the cache |
| TableConf.FindServedFromCache | src/sample/model/dbTableConf.go:85-157 | a Find that loaded the table at t serves every Find up to t + 10 from the cache, for any name |
| TableConf.DbTableConfRepo.constructor | src/sample/model/dbTableConf.go:66-74 | the repository reads and fills the given package cache |
| TableConf.DbTableConfRepo.CacheSetter | src/sample/model/dbTableConf.go:140-157 | the new cache and result are those of the setter function: the error stacks, or the map stored and returned |
| TableConf.DbTableConfRepo.Find | src/sample/model/dbTableConf.go:85-99 | the new cache and result are those of the Find function |
| BaseCondition.InPlaceholdersCount | src/sample/model/base.go:963-970 | the IN operand "(?,...,?)" holds exactly one placeholder per element |
| BaseCondition.Operand | src/sample/model/base.go:960-974 | defined iff an IN operand has type In; the operand's placeholders equal its arguments, which are the IN elements or the single value |
| BaseCondition.EntryShape | src/sample/model/base.go:924-995 | error iff the length is not 3 or 4, the column or operator is not a string, the operator is not one of = < > <= >= IN LIKE, or the 4th element is not "AND"/"OR"; an IN operand of another type panics; an accepted entry yields column, operator, operand and, unless last, its connector |
| BaseCondition.EntryDoneIff | src/sample/model/base.go:924-995 | an entry is accepted iff it passes every check |
| BaseCondition.EntryExample | src/sample/model/base.go:930-995 | an accepted entry with a plain operand yields column, operator, "?" and, unless last, its connector, with its value as the one argument |
| BaseCondition.CollectStop | src/sample/model/base.go:926-987 | once an entry fails, later entries are not looked at |
| BaseCondition.CollectDone | src/sample/model/base.go:922-996 | the loop runs through iff every entry is accepted |
| BaseCondition.CollectFirstFailure | src/sample/model/base.go:926-987 | the loop ends with the first rejected entry's outcome |
| BaseCondition.Where | src/sample/model/base.go:907-1002 | defines whereSyntaxAnalyze: every entry analysed in order, the tokens joined by single spaces; BaseCondition.WhereAccepted, WhereRejected, WherePlaceholders and WhereExample state what it yields |
| BaseCondition.WhereAccepted | src/sample/model/base.go:907-1002 | a WHERE condition is accepted iff every entry passes all checks |
| BaseCondition.WhereRejected | src/sample/model/base.go:907-1002 | a rejected WHERE condition reports the first failing entry's error, or the panic of its IN operand |
| BaseCondition.WherePlaceholders | src/sample/model/base.go:959-999 | in an accepted predicate the placeholder count equals the argument count, and the arguments come entry by entry in order |
| BaseCondition.JoinCount | src/sample/model/base.go:999 | joining with a separator free of "?" neither adds nor loses placeholders |
| BaseCondition.EntryPlaceholders | src/sample/model/base.go:959-974 | with a column free of "?", an accepted entry has one placeholder per argument |
| BaseCondition.CollectArgs | src/sample/model/base.go:964-973 | the gathered arguments are the entries' arguments in order, and placeholders add up to them |
| BaseCondition.FirstEntryExample | src/sample/model/base.go:930-995 | the entry {"id","<=",1,"OR"} that is not last yields the tokens id, <=, ?, OR and the one argument 1 |
| BaseCondition.SecondEntryExample | src/sample/model/base.go:930-995 | the last entry {"id",">",2} yields the tokens id, >, ? without a connector and the one argument 2 |
| BaseCondition.JoinSecond | src/sample/model/base.go:999 | the last entry's tokens joined by single spaces give "id > ?" |
| BaseCondition.JoinExample | src/sample/model/base.go:999 | the example's tokens joined by single spaces give "id <= ? OR id > ?" |
| BaseCondition.WhereExample | src/sample/model/user.go:88-91 | {{"id","<=",1,"OR"},{"id",">",2}} gives "id <= ? OR id > ?" with arguments [1, 2]: the first entry's connector sits between the entries and the last entry has none |
| BaseCondition.FindCompare | src/sample/model/base.go:945-952 | the search finds the operator iff it is one of = < > <= >= IN LIKE |
| BaseCondition.InOperand | src/sample/model/base.go:962-970 | the IN loop builds one placeholder per element and the elements as arguments |
| BaseCondition.AnalyzeEntry | src/sample/model/base.go:924-995 | the loop body for one entry yields exactly the entry's outcome |
| BaseCondition.AnalyzeOperand | src/sample/model/base.go:959-995 | the operand and connector part of the loop body yields exactly the entry's outcome |
| BaseCondition.WhereSyntaxAnalyze | src/sample/model/base.go:907-1002 | the loop yields exactly the WHERE outcome: a non-WhereCondition value is an error, otherwise each entry in turn as above |
| BaseCondition.OrderRowsStop | src/sample/model/base.go:1035-1045 | once an ORDER BY entry fails, later entries are not looked at |
| BaseCondition.OrderBy | src/sample/model/base.go:1023-1048 | defines orderSyntaxAnalyze; BaseCondition.OrderRowsCorrect states what it yields |
| BaseCondition.OrderRowsCorrect | src/sample/model/base.go:1023-1048 | never a panic; accepted iff every entry has 2 elements, then one "column direction" per entry in input order, the direction unchecked; otherwise the length of the first other entry |
| BaseCondition.OrderSyntaxAnalyze | src/sample/model/base.go:1023-1048 | the loop yields exactly the ORDER BY outcome |
| BaseCondition.AnalyzeConditions | src/sample/model/base.go:853-881 | the map loop yields exactly conditionCheck as written, for the given iteration order |
| BaseCondition.AnalyzeKey | src/sample/model/base.go:859-878 | one iteration yields exactly that key's step |
| BaseCondition.CondFoldNext | src/sample/model/base.go:859-878 | one more key extends the loop by that key's step |
| BaseCondition.CondFoldStop | src/sample/model/base.go:863-873 | a failed analysis ends the loop |
| BaseCondition.CondFoldDone | src/sample/model/base.go:859-878 | the loop runs to the end iff every "where" and "order" key it meets analyses without error |
| BaseCondition.CondFoldValues | src/sample/model/base.go:861-873 | a completed loop holds the WHERE analysis if "where" was met and the ORDER BY analysis if "order" was met, else empty values |
| BaseCondition.CondFoldErrAsWritten | src/sample/model/base.go:861-878 | as written, a completed loop reports an error iff the last key met is neither "where" nor "order" |
| BaseCondition.CondFoldErrKept | src/sample/model/base.go:876-877 | keeping the error, a completed loop reports one iff some key is neither "where" nor "order" |
| BaseCondition.ConditionCheckAsWritten | src/sample/model/base.go:853-881 | defines conditionCheck as written, for one iteration order; BaseCondition.ConditionCheckAsWrittenErr and ConditionCheckDropsInvalidKey state its error behaviour |
| BaseCondition.ConditionCheckDropsInvalidKey | src/sample/model/base.go:859-880 | the condition {"x": 1, "where": {{"id","=",1}}} is accepted as "id = ?" when "where" is visited last, and rejected with "invalid condition type!!" when "x" is |
| BaseCondition.ConditionCheck | src/sample/model/base.go:853-881 | defines conditionCheck with the unknown-key error kept; BaseCondition.ConditionCheckCorrect states what it yields |
| BaseCondition.ConditionCheckCorrect | src/sample/model/base.go:853-881 | corrected: accepted iff every key is "where" or "order" and both analyses succeed, and then the result is the same in every iteration order |
| BaseCondition.ConditionCheckAsWrittenErr | src/sample/model/base.go:853-881 | as written, with successful analyses, rejected iff the last key in iteration order is unknown |
| BaseOption.OptionMapOf | src/sample/model/base.go:1070-1082 | accepted iff every argument is an Option, then the last one's map; otherwise "can not check this type!!" |
| BaseOption.OptStepFields | src/sample/model/base.go:1086-1121 | each key sets its own field alone; an unknown key or mode records its error and the loop goes on; a bad shard id ends it |
| BaseOption.OptFoldDone | src/sample/model/base.go:1086-1121 | the map loop runs to the end iff no mode is a non-string and every shard id is an int in 1..2 |
| BaseOption.OptFoldState | src/sample/model/base.go:1086-1121 | after any prefix of keys, each field is set by its own key alone, and an error is recorded iff some key seen is unknown or names an unknown mode |
| BaseOption.DirtyIff | src/sample/model/base.go:1094-1118 | some seen key recorded an error iff some seen key is unknown or names an unknown mode |
| BaseOption.FinishCorrect | src/sample/model/base.go:1124-1133 | after a full loop, the final checks accept exactly a valid map and then yield what it stands for |
| BaseOption.OptionCheck | src/sample/model/base.go:1060-1134 | defines optionCheck for one iteration order of the last option map; BaseOption.OptionCheckCorrect and OptionCheckOrderFree state what it yields |
| BaseOption.OptionCheckCorrect | src/sample/model/base.go:1060-1134 | accepted iff every argument is an Option and the last map is valid, then the resolved options, in every iteration order |
| BaseOption.ForUpdateIsWrite | src/sample/model/base.go:1124-1132 | an accepted result has mode W under for_update, a mode among W/R/BAK, a shard id of 0 or in 1..2, and no shard id beside a shard key |
| BaseOption.OptionCheckOrderFree | src/sample/model/base.go:1086-1121 | two iteration orders give the same accepted result |
| BaseOption.NoOptionsDefaults | src/sample/model/base.go:1063-1068 | no options: mode R, no lock, no shard key, shard id 0 |
| BaseOption.NonOptionRefused | src/sample/model/base.go:1077-1081 | an argument that is not an Option is refused with "can not check this type!!" |
| BaseOption.RefusalMessageOrder | src/sample/model/base.go:1094-1118 | with an unknown mode and an unknown key, the error of the key visited last is returned |
| BaseOption.ReadOptions | src/sample/model/base.go:1070-1082 | the arguments loop yields exactly OptionMapOf |
| BaseOption.ScanOptions | src/sample/model/base.go:1086-1121 | the map loop yields exactly the fold over the given iteration order |
| BaseOption.OptionCheckLoop | src/sample/model/base.go:1060-1134 | the two loops and the final checks yield exactly optionCheck |
| BaseSeq.SeqIds | src/sample/model/base.go:1207-1213 | getNum ids |
| BaseSeq.BuildSeqIds | src/sample/model/base.go:1207-1213 | the prepend loop builds seqId-(getNum-1), ..., seqId in uint64, in ascending position |
| BaseSeq.GetSeqIds | src/sample/model/base.go:1163-1216 | the statements in order yield exactly SeqIdsOutcome |
| BaseSeq.SeqIdsAscending | src/sample/model/base.go:1207-1213 | without wrap-around the ids are max-n+1, ..., max, consecutive and ascending |
| BaseSeq.SeqIdsFresh | src/sample/model/base.go:1183-1213 | when the UPDATE raised the maximum from b to b+n, the ids are exactly b+1, ..., b+n |
| BaseSeq.SeqIdsWrapAround | src/sample/model/base.go:1210-1211 | a maximum of 0 with getNum 2 wraps to [2^64-1, 0] |
| BaseSeq.SeqIdsOutcomeCases | src/sample/model/base.go:1163-1216 | getNum 0 is "invalid getNum : 0" before any statement; otherwise the first failing statement's error; with none, getNum ids ending at the selected maximum |
| BaseRecord.TableInfoOf | src/sample/model/base.go:735-811 | defines getTableInfoFromStructData as a fold over the fields and the pk check; BaseRecord.TableInfoFacts, TableInfoPlacement and TableInfoShardKeyOnce state what it yields |
| BaseRecord.GetTableInfo | src/sample/model/base.go:735-811 | the field loop and the pk check yield exactly getTableInfoFromStructData |
| BaseRecord.FieldOnce | src/sample/model/base.go:755-801 | one iteration yields exactly that field's step: column from the db tag or the lower-cased name, timestamps skipped on INSERT/UPDATE, a fresh sequence id for an unset seq field, pk or value map, and "multiple shard key not available!!" for a second shard key |
| BaseRecord.FieldStepColumns | src/sample/model/base.go:764-801 | a successful step appends the field's column unless it is skipped, and touches the shard key only on a sharded table |
| BaseRecord.SeqIdMeaning | src/sample/model/base.go:1144-1152 | getSeqId returns exactly the maximum id the sequence table reports, or the first failing statement's error |
| BaseRecord.ShardIdOf | src/sample/model/base.go:822-843 | defines getShardIdByShardKey; BaseRecord.ShardIdCases states its cases |
| BaseRecord.ShardIdCases | src/sample/model/base.go:822-843 | a master table resolves shard id 0 without a lookup; otherwise a nil shard key is "not set shard_key!!" and any other key is what the shard lookup returns |
| BaseRecord.ScanColumns | src/sample/model/base.go:753-802 | after the loop the columns are the kept fields' columns in field order, and a table that is not sharded has no shard key |
| BaseRecord.ScanCovers | src/sample/model/base.go:784-791 | every column is a key of one of the two maps, and every key is a column |
| BaseRecord.ScanNoPk | src/sample/model/base.go:787-791 | with no emitted pk field the pk map stays empty |
| BaseRecord.NoTimestamps | src/sample/model/base.go:770-773 | on INSERT and UPDATE neither created_at nor updated_at is emitted |
| BaseRecord.ScanKeeps | src/sample/model/base.go:784-791 | a later field with another column leaves a placed value alone |
| BaseRecord.ScanPlacement | src/sample/model/base.go:774-791 | with distinct columns each emitted field's value lands in the pk map for a pk field and in the value map otherwise, and in no other map |
| BaseRecord.ShardKeySticks | src/sample/model/base.go:794-800 | once a shard key is set, a later emitted shard field is an error |
| BaseRecord.ScanShardKeyOnce | src/sample/model/base.go:794-800 | on a sharded table two emitted shard fields pass only when the first one's value is nil |
| BaseRecord.TableInfoFacts | src/sample/model/base.go:735-811 | a successful derivation has the kept columns in field order, no timestamp on INSERT/UPDATE, maps keyed exactly by the columns, a non-empty pk map and no shard key unless sharded; a derivation with no emitted pk field fails with "must be set pks in struct!!" |
| BaseRecord.TableInfoPlacement | src/sample/model/base.go:774-791 | with distinct columns every emitted field's value, a seq field's being its resolved id, lands in exactly one map |
| BaseRecord.TableInfoShardKeyOnce | src/sample/model/base.go:794-800 | a second shard key is accepted only when the first one was nil |
| BaseWrite.DiffLoop | src/sample/model/base.go:298-319 | the snapshot loop yields exactly the diff: a matched column is deleted, and nil is returned once the map is emptied |
| BaseWrite.DiffKept | src/sample/model/base.go:298-319 | the diff keeps exactly the columns no snapshot field matches by lower-cased name and equal value, with their values; it returns nil exactly when the map was non-empty and every column is matched |
| BaseWrite.KeptAfterMatch | src/sample/model/base.go:310-313 | deleting a matched column leaves the set of unmatched columns unchanged |
| BaseWrite.KeptAfterMiss | src/sample/model/base.go:310-311 | a field that deletes nothing leaves the set of unmatched columns unchanged |
| BaseWrite.UpdateSpec | src/sample/model/base.go:265-343 | defines Update: snapshot count, derivation, diff, shard id and statement; BaseWrite.UpdateMeaning states what it yields |
| BaseWrite.Update | src/sample/model/base.go:265-343 | yields exactly the Update outcome: the statement it would execute, nil without SQL, or the error |
| BaseWrite.UpdateMeaning | src/sample/model/base.go:265-343 | more than one snapshot is "enable set 1 prevData only!!"; a snapshot equal to the record returns nil; nil without SQL means that or every non-pk column matched; an UPDATE sets only the record's non-pk values, all of them without a snapshot and the unmatched ones with one, filtered on a non-empty pk map, on the resolved shard |
| BaseWrite.CollectValues | src/sample/model/base.go:383-392 | the values loop yields exactly each column's value, the pk map consulted first, or "unknown column found!!" |
| BaseWrite.CollectSaveLists | src/sample/model/base.go:617-632 | the Save loop yields exactly the values, the "column = ?" list of non-pk columns and their values |
| BaseWrite.ValuesKnown | src/sample/model/base.go:383-392 | for a derived table info the unknown-column error cannot happen, and the values follow the columns one for one |
| BaseWrite.DupCounts | src/sample/model/base.go:622-632 | the update list and its values have equal length, and with no "?" in a column one placeholder per value |
| BaseWrite.SavePlaceholders | src/sample/model/base.go:635-640 | the ON DUPLICATE KEY UPDATE suffix holds one placeholder per argument passed with it |
| BaseWrite.CreateSpec | src/sample/model/base.go:359-412 | defines Create: derivation, shard id, values; BaseWrite.CreateMeaning states what it yields |
| BaseWrite.Create | src/sample/model/base.go:359-412 | yields exactly the Create outcome: derivation, shard id, values |
| BaseWrite.CreateMeaning | src/sample/model/base.go:359-412 | Create succeeds iff the derivation and the shard lookup do; then one row with every column's value, the columns joined by ",", on the resolved shard |
| BaseWrite.Rows | src/sample/model/base.go:458-491 | one row outcome per holder, each that holder's derivation, values and shard id |
| BaseWrite.RowOf | src/sample/model/base.go:459-485 | one iteration yields exactly that holder's row outcome |
| BaseWrite.CreateMultiSpec | src/sample/model/base.go:428-523 | defines CreateMulti: one row per holder and the single-shard check; BaseWrite.CreateMultiSingleShard, CreateMultiShardRule and CreateMultiOne state what it yields |
| BaseWrite.CreateMulti | src/sample/model/base.go:428-523 | the holder loop and the shard check yield exactly the CreateMulti outcome |
| BaseWrite.MultiRows | src/sample/model/base.go:458-491 | a successful loop collects one value list per holder, in holder order, after those it started with |
| BaseWrite.MultiShardIds | src/sample/model/base.go:481-482 | every holder's shard id is recorded, and the final shard id is the last holder's |
| BaseWrite.MultiShardIdsOnly | src/sample/model/base.go:481-482 | when every holder resolves the same id, no other id is recorded |
| BaseWrite.MultiAllDone | src/sample/model/base.go:458-491 | when every holder's row succeeds, the loop does |
| BaseWrite.MultiOutcomeRows | src/sample/model/base.go:494-506 | a successful statement inserts one row per holder, in order, and every holder resolved the statement's shard id |
| BaseWrite.CreateMultiSingleShard | src/sample/model/base.go:428-523 | an empty slice is "holder slice invalid length!!"; a successful statement inserts one row per holder, in order, all of them on the one shard it runs on |
| BaseWrite.MultiShardRule | src/sample/model/base.go:454-497 | with every row present, a common shard id gives exactly that id, and two different ids give more than one |
| BaseWrite.CreateMultiShardRule | src/sample/model/base.go:454-497 | when all holders resolve the same id CreateMulti succeeds on it; two different ids make it fail with "can not set multi shard id !!" |
| BaseWrite.CreateMultiOne | src/sample/model/base.go:359-523 | CreateMulti of one record is Create of that record |
| BaseWrite.SaveSpec | src/sample/model/base.go:594-655 | defines Save: derivation, shard id, then the insert and update lists; BaseWrite.SaveMeaning states what it yields |
| BaseWrite.Save | src/sample/model/base.go:594-655 | yields exactly the Save outcome: derivation, shard id, then the lists |
| BaseWrite.SaveMeaning | src/sample/model/base.go:594-655 | Save succeeds iff Create does, with the same columns, values and shard; and with no "?" in a column the suffix has one placeholder per argument |
| UserShardWeight.Pairs | src/sample/model/userShardWeight.go:78-80 | one (shard id, weight) pair per row, in row order |
| UserShardWeight.Finds | src/sample/model/userShardWeight.go:106-131 | the rows pass iff they were read and are at least one; an empty table is "user shard weight record empty!!"; an earlier error is passed on unchanged |
| UserShardWeight.ExpandWeights | src/sample/model/userShardWeight.go:77-82 | the nested loops build exactly each row's shard id repeated weight times, rows in order |
| UserShardWeight.ShardWeightsShape | src/sample/model/userShardWeight.go:77-82 | each shard id occurs exactly as often as the total positive weight of its rows, and the list of concatenated rows is the concatenation of their lists |
| UserShardWeight.ChoiceAsWritten | src/sample/model/userShardWeight.go:69-96 | defines ChoiceShardId as written, `rand.Intn(0)` panic included; UserShardWeight.PanicIffNoWeight and ZeroWeightPanics state when it panics |
| UserShardWeight.Choice | src/sample/model/userShardWeight.go:69-96 | defines the corrected ChoiceShardId, an empty weight list being an error; UserShardWeight.ChoiceMeaning states what it yields |
| UserShardWeight.ChoiceShardIdAsWritten | src/sample/model/userShardWeight.go:69-96 | yields exactly ChoiceShardId as written, a panic included |
| UserShardWeight.ChoiceShardId | src/sample/model/userShardWeight.go:69-96 | yields exactly the corrected choice |
| UserShardWeight.PanicIffNoWeight | src/sample/model/userShardWeight.go:77-88 | as written the draw panics iff the table was read but no row has a positive weight; otherwise it agrees with the corrected choice |
| UserShardWeight.ZeroWeightPanics | src/sample/model/userShardWeight.go:77-88 | one row of weight 0 passes the emptiness check of finds and makes the draw panic, whatever is drawn |
| UserShardWeight.ChoiceMeaning | src/sample/model/userShardWeight.go:69-96 | a chosen id is at least 1, is the one at the drawn index and belongs to a row of positive weight; a read error is passed on with ChoiceShardId's caller items; an id below 1 is "shard id : 0 is invalid!!" |
| Redis.SetOption | src/sample/logic/redis.go:117-141 | defines checkSetOption for one iteration order; Redis.SetOptionMeaning and SetOptionOrderFree state what it yields |
| Redis.CheckSetOption | src/sample/logic/redis.go:117-141 | the loop and the double-setting check yield exactly checkSetOption for the given iteration order |
| Redis.SetScanNext | src/sample/logic/redis.go:122-133 | one more key extends the loop by that key's step |
| Redis.SetScanSticks | src/sample/logic/redis.go:130-131 | once an unknown key has ended the loop, later keys change nothing |
| Redis.SetScanCounts | src/sample/logic/redis.go:122-133 | with known keys only, each once, the loop runs to the end and counts the EX/PX keys and the NX/XX keys |
| Redis.SetScanValid | src/sample/logic/redis.go:122-133 | with at most one expire key and one condition key, the arguments are the expire key and value followed by the condition flag |
| Redis.SetScanInvalid | src/sample/logic/redis.go:117-131 | with an unknown key among them, the loop ends with "invalid key : " and the first unknown key in the iteration order |
| Redis.SetOptionMeaning | src/sample/logic/redis.go:117-141 | an unknown key is refused naming the first unknown key in the iteration order; with known keys only, EX with PX or NX with XX is "invalid option setting!!", and otherwise the arguments are the expire key and value, then the condition flag, in every iteration order |
| Redis.SetOptionOrderFree | src/sample/logic/redis.go:122-140 | with known keys only, the iteration order does not change the result |
| Redis.SetOptionUnknownKeyOrder | src/sample/logic/redis.go:130-131 | with two unknown keys, the one reported is the first in iteration order |
| Redis.ZAddOption | src/sample/logic/redis.go:348-367 | defines checkZAddOption as the present flags in fixed order; Redis.ZAddOptionMeaning states what it yields |
| Redis.CheckZAddOption | src/sample/logic/redis.go:348-367 | the flag loop yields exactly the flags present, in the order NX, XX, CH, INCR |
| Redis.PresentRanked | src/sample/logic/redis.go:354-359 | after the first m flags, each present one is emitted, only present ones, in ascending rank |
| Redis.ZAddOptionMeaning | src/sample/logic/redis.go:348-367 | every present flag is emitted once, other keys are ignored, the flags come in the order NX, XX, CH, INCR, and the double-setting check never fires |
| Redis.CheckOption | src/sample/logic/redis.go:487-509 | an accepted non-empty option list is one RedisOption |
| Redis.CheckOptionMeaning | src/sample/logic/redis.go:487-509 | no option gives no arguments, more than one is "opiton can set only one!!", a value of another type is "undefined type!!", and a lone RedisOption gets what the validator returns |
| Redis.TxStarted | src/sample/logic/redis.go:621-629 | defines isTxStart: an absent entry reads as not started; Redis.MultiLaws, ExecLaws and DiscardLaws use it |
| Redis.GetConnectionSpec | src/sample/logic/redis.go:519-533 | defines getConnection; Redis.GetConnectionLaws states its laws |
| Redis.GetConnectionLaws | src/sample/logic/redis.go:519-533 | a stored connection is reused unchanged; otherwise the pooled one is stored under the key and returned; asking again yields the same connection |
| Redis.IssueKeeps | src/sample/logic/redis.go:519-533 | a command goes out on the connection stored under its key, leaving the flag and the stored connections alone |
| Redis.MultiSpec | src/sample/logic/redis.go:551-568 | defines Multi; Redis.MultiLaws states its laws |
| Redis.MultiLaws | src/sample/logic/redis.go:551-568 | nothing when a transaction is started; otherwise MULTI goes out on the write connection, its error is returned, and the flag is set iff it was sent without error; a second Multi is a no-op |
| Redis.ExecSpec | src/sample/logic/redis.go:571-588 | defines Exec; Redis.ExecLaws states its laws |
| Redis.ExecLaws | src/sample/logic/redis.go:571-588 | nil and no command when no transaction is started; otherwise EXEC goes out, its reply and error are returned, and the flag stays set iff it failed |
| Redis.DiscardSpec | src/sample/logic/redis.go:591-608 | defines Discard; Redis.DiscardLaws states its laws |
| Redis.DiscardLaws | src/sample/logic/redis.go:591-608 | nothing when no transaction is started; otherwise DISCARD goes out, its error is returned, and the flag stays set iff it failed |
| Redis.SendSpec | src/sample/logic/redis.go:610-619 | defines send; Redis.SendLaws and SendThenExec state its laws |
| Redis.SendLaws | src/sample/logic/redis.go:610-619 | with no transaction started MULTI and the command go out on the one write connection, with one started only the command; MULTI's error is dropped and only the command's error is returned |
| Redis.SendThenExec | src/sample/logic/redis.go:551-619 | a command sent outside a transaction and then EXEC, both succeeding, go out as MULTI, the command, EXEC on the same connection, and the flag is cleared again |
| Redis.ExistsArgs | src/sample/logic/redis.go:205-209 | the EXISTS arguments are key and then each of keys, in order |
| Redis.ExistsSpec | src/sample/logic/redis.go:201-223 | defines Exists; Redis.ExistsArgs and ExistsLaws state what it sends and yields |
| Redis.ExistsLaws | src/sample/logic/redis.go:201-223 | true iff the reply counts every key passed, the reply's error is passed on, and EXISTS goes out on the read connection |
| Redis.Paired | src/sample/logic/redis.go:392-404 | one member-to-score map per pair of elements, the n-th holding element 2n with score 2n+1 |
| Redis.ConvertsStep | src/sample/logic/redis.go:394-401 | converting from i on is converting the pair at i and everything after |
| Redis.PairedStep | src/sample/logic/redis.go:392-404 | the pairs from i on are the pair at i followed by the pairs from i+2 on |
| Redis.MappingDone | src/sample/logic/redis.go:391-404 | the loop from i on succeeds iff every element converts and an even number remain, giving the pairs in order after those collected |
| Redis.MappingPanics | src/sample/logic/redis.go:398 | the loop panics iff every element converts and an odd number remain |
| Redis.MappingFails | src/sample/logic/redis.go:394-401 | a failing loop reports the conversion error of one of the elements |
| Redis.ZRevRangeSpec | src/sample/logic/redis.go:382-407 | defines ZRevRange over the mapping of the reply; Redis.MappingMeaning states the mapping's outcomes |
| Redis.MappingMeaning | src/sample/logic/redis.go:382-407 | the reply maps to the member-to-score pairs in order iff it converts and has even length, panics on an odd length, and otherwise reports an element's conversion error |
| Redis.RedisContext.constructor | src/sample/logic/redis.go:519-533 | a request context with no connection, no flag and no command |
| Redis.RedisContext.IsTxStart | src/sample/logic/redis.go:621-629 | a missing entry reads as not started, otherwise the stored flag |
| Redis.RedisContext.GetConnection | src/sample/logic/redis.go:519-533 | the new context and the connection are exactly getConnection's |
| Redis.RedisContext.Log | src/sample/logic/redis.go:559 | appends one command to the log and changes nothing else |
| Redis.RedisContext.Multi | src/sample/logic/redis.go:551-568 | the new context and the error are exactly Multi's |
| Redis.RedisContext.Exec | src/sample/logic/redis.go:571-588 | the new context, the reply and the error are exactly Exec's |
| Redis.RedisContext.Discard | src/sample/logic/redis.go:591-608 | the new context and the error are exactly Discard's |
| Redis.RedisContext.Send | src/sample/logic/redis.go:610-619 | the new context and the error are exactly send's |
| Redis.RedisContext.Exists | src/sample/logic/redis.go:201-223 | the new context and the result are exactly Exists's |
| Redis.RedisContext.ZRevRange | src/sample/logic/redis.go:382-407 | the new context and the result are exactly ZRevRange's |

## Left out

- Connection opening and SQL execution are not modelled. This covers `sql.Open`, the DSNs, `getDbMap`, `getWriteMaster`, `getReadOnlyMaster`, `getReadOnlyShard`, `Close`, the LOCK/UNLOCK, SELECT and UPDATE statements, and gorp's Select/Exec. Their outcomes are inputs, and the executor returns the statement it would execute instead of executing it. The `Db.GetWriteShard` setup is kept, for its cleanup loop.
- squirrel's `ToSql` is not modelled. The statements are returned as the column lists, value lists, maps and suffixes the source hands to it, and the "sql maker error!!" path is left out.
- Find, Finds, Count and Delete of base.go are not modelled. They consist of option resolution, condition checks, table derivation and shard resolution, which are modelled, around SQL execution.
- `GetDBConnection`, `GetDBShardConnection` and `GetShardIds` of both coordinators are not modelled: they are one lookup each, next to the modelled `GetDBMasterConnection` and `GetDBShardMap`.
- Partial results that the source returns alongside an error (columns, maps, a partly built list) are not modelled. Every caller discards them, so the model returns only the error.
- Int64 and int overflow is not modelled: integers are unbounded, except the `uint64` arithmetic of sequence ids, which wraps modulo 2^64 as in Go.
- Reflection is not modelled. A record is an explicit list of field descriptors. CreateMulti's "holders type is not Ptr!!" and "holders Ptr type is not slice!!" checks are left out, because a list of records cannot be anything else.
- Update compares the record with its snapshot as a whole, where Go compares the two structs with `==`.
- Comparing two `interface{}` values that hold uncomparable types panics in Go. It is not modelled: `Value` equality is total.
- The probability distribution of `rand.Intn` and of the weighted choices is not modelled. The draw is an input that satisfies `rand.Intn`'s range contract whenever the list is non-empty, and only which element it selects is proved; `rand.Intn(0)` on an empty list is modelled as a panic.
- Logging (`log.Info`, `log.Error`, `log.Critical`) and the HTTP layer are not modelled.
- `runtime.Caller` is not modelled. The caller items of an error stack are given by the site that writes them (function name, file and line).
- The cache's plain `error` is turned into a one-message error stack where dbTableConf.go hands it on.
- The cache interface in `src/sample/model/cache.go` and the call in `dbTableConf.go` do not match (two different `GetCacheWithSetter` signatures). TableConf.Find models the call as the cache read, then, on a miss, the setter, which stores the map itself.
- base.go does not check the error of its `db_table_conf` lookup, so a missing conf would be dereferenced later. This path is not modelled. The executor's functions therefore take the resolved `DbTableConf` as a value.
- The redis commands Set, Get, Expire, ExpireAt, ZAdd, ZAdds, ZRevRangeAll, ZRevRank, ZScore and Close are not modelled. Each is a network call around the modelled option checks, `send` and the connection lookup.
- redigo's `redis.String`, `redis.Int` and `redis.Values` conversions, and its `Send`/`Do` results, are inputs.
- Redis.MappingPanics: a ZREVRANGE reply of odd length reads one element past its end. This is modelled as a `Panic`, which is what the index expression does in Go.
- BaseCondition.ConditionCheckCorrect, BaseOption.OptionCheckOrderFree and Redis.SetOptionOrderFree are order-independence results for accepted inputs only. Which error is reported for a rejected input can depend on Go's map iteration order. The lemmas BaseCondition.ConditionCheckAsWrittenErr, BaseOption.RefusalMessageOrder and Redis.SetOptionUnknownKeyOrder state that dependence instead.
- DbSpec.GetDBMasterConnection: the BAK mode, which the source leaves unimplemented, is modelled as written: it ends in the nil-connection error.
- Strings.ToLower lowers ASCII letters only; Go's `strings.ToLower` also lowers other Unicode letters.

## Findings

| source | as written | input that shows it | evidently intended | confidence | as-written member | corrected member |
|---|---|---|---|---|---|---|
| src/sample/common/db/db.go:134-141 | a failed open stores a nil handle in the shard map, and the cleanup loop then calls `Close` on every entry, the nil one included | two shards, the second one's open failing | close the handles opened so far and report the open error | not executed | Db.WriteShardPanics | Db.WriteShardClosesOpened |
| src/sample/model/base.go:859-880 | `err` is overwritten by each later "where" or "order" analysis, so "invalid condition type!!" survives only when the unknown key is the last one visited | `{"x": 1, "where": {{"id","=",1}}}` with "where" visited last | refuse any condition map holding a key other than "where" or "order" | not executed | BaseCondition.ConditionCheckDropsInvalidKey | BaseCondition.ConditionCheckCorrect |
| src/sample/model/userShardWeight.go:77-88 | when every row has a weight of 0 or less the expanded list is empty, and `rand.Intn(0)` panics; the emptiness check in finds counts rows, not weights | one row with shard id 1 and weight 0 | report an error when the expanded list is empty | not executed | UserShardWeight.ZeroWeightPanics | UserShardWeight.ChoiceMeaning |
