# Tiered cache with Redis failover, modelled in Dafny

This project models the core of a .NET caching library: a read-through
`CacheManager` over two `ICacheClient` tiers, with a sliding refresh of
entries that are about to expire. The three clients are:

- an in-memory client over `MemoryCache.Default`;
- a placeholder client that stores nothing;
- a Redis client that reads from a fixed replica and writes to a master.

The master can be swapped by a failover coordinator (`RedisCacheServer`).
The coordinator keeps a guard flag with a one-hour watchdog, pings the master,
reads the replica's `INFO`, consults an arbiter table of `"host port"` records,
and then either promotes the local replica or re-attaches it to the recorded
master.

Modules, one file each:

| file | module | what it holds |
|---|---|---|
| wrappers.dfy | `Wrappers` | `Option` |
| text.dfy | `Text` | the .NET string and integer primitives the code relies on: `int.TryParse`, `Convert.ToInt32`, `string.Split`, `Trim`, `Replace`, `IsNullOrWhiteSpace`, ordinal case-insensitive comparison |
| values.dfy | `Values` | runtime values and types, `default(T)`, the cast `(T) value` |
| base_client.dfy | `BaseClient` | the constants and `SafeConvert` of `BaseCacheClient` |
| memory.dfy | `Memory` | `MemoryCacheClient` over a map of entries with absolute expiries |
| none_cache.dfy | `NoneCache` | `NoneCacheClient` |
| redis_native.dfy | `RedisNative` | `RedisClientNullable`: a node's keys, the null sentinel and `Get<T>` decoding |
| slave_info.dfy | `SlaveInfo` | `RedisSlaveInfo.Parse` over the `INFO` dictionary |
| failover.dfy | `Failover` | the failover and startup decisions as functions on a `View` (guard, arbiter, writer address, replication commands) |
| redis_cache.dfy | `RedisCache` | the `RedisCacheServer` and `RedisCacheClient` classes, proved against `Failover` |
| clients.dfy | `Clients` | `ICacheClient` over the three client classes, and the shared `BaseCacheClient` members |
| manager.dfy | `Manager` | `CacheManager` |

## How the system is represented

Time, inputs and effects:

- Time is an integer number of seconds, `now`. Minutes are multiplied by 60.
- A memory entry is visible strictly before its expiry.
- Everything outside the process is an input:
  - whether the reader throws, and whether each write attempt at the master completes or throws (`RedisIo`);
  - the ping result, the replica's `INFO` fields, failing arbiter reads and inserts, failing `SLAVEOF` commands, and the IP sources (`FailoverIo`, `BootIo`);
  - the value a producer returns.
- What the code sends out is recorded:
  - arbiter inserts become rows appended to `arbiter`;
  - `SLAVEOF` commands are appended to the reader's `replication`;
  - writes that reached the master are appended to `remoteLog`.

Exceptions and tasks:

- Argument checks (`Argument.NotNullOrEmpty`, `NotNegativeOrZero`) are preconditions. `CacheManager` checks the expiry only when it reaches `Set`, on a miss or an extension; the model requires a positive expiry on every `TryCache*` and `To*Cache` call, a hit included.
- Exceptions that the code catches become outcomes: `SwitchOutcome`, `Outcome`, and `BootOutcome.Threw`, which is rethrown to the constructor.
- Tasks started with `Task.Run` run to completion at the point where they start.

Polymorphism over the three clients:

- `Clients.Client` is a datatype with one case per client class.
- `Clients.Snapshot` is what a client's answers depend on.
- Each dispatch member is proved against a function on that snapshot.
- `CacheManager` is proved against `Manager.TryCacheSpec` and `Manager.Extend`.

Behaviour notes. Where the code and its documentation differ, the model follows the code:

- `MemoryCacheClient.Get` reports found whenever the entry is not `DBNull`. It does so even when the cast to `T` fails, in which case the value is the default (`BaseClient.SafeConvert`).
- The one-hour watchdog releases the guard, but the caller that releases it still returns without running the failover; the next caller runs it (`Failover.WatchdogReleasesForNextCaller`).
- The candidate master in the failover is chosen by a conditional that is inverted: it takes the replica's value only when that value is blank. `INFO` always yields a non-blank `"host port"`, so the candidate is always the client's own writer (`Failover.Candidate`). The model keeps this behaviour.
- The second-tier `TryCacheToSecondClient` falls back to the first tier when the second is the placeholder. The fallback passes the default `cacheNull = true`, so the caller's `cacheNull` is dropped there.
- A `null` written to Redis through `SetAsNull` reads back as found with the default for every type except `byte[]`. For `byte[]` it reads back as the bytes of the quoted marker (`RedisNative.NullReadAsBytesIsMarker`).

## Model

| member | source | states |
|---|---|---|
| `Text.TryParseInt32` | Server/RedisSlaveInfo.cs:118-125 | `int.TryParse` succeeds exactly for a well-formed integer in the 32-bit range, and then yields that integer |
| `Text.ParseIntegerOfIntToString` | Server/RedisCacheServer.cs:635-640 | a rendered integer parses back to itself |
| `Text.TryParseInt32OfIntToString` | Server/RedisSlaveInfo.cs:123-124 | a rendered 32-bit integer parses back through `int.TryParse` |
| `Text.Trim` | Server/RedisCacheServer.cs:707 | the result is the input with a white-space prefix and a white-space suffix cut off; it starts and ends with a non-white-space character, and it is empty exactly when the input is null-or-white-space |
| `Text.TrimIsInfix` | Server/RedisCacheServer.cs:707 | `Trim` keeps exactly the characters between a white-space prefix and a white-space suffix |
| `Text.TrimEmptyIffWhite` | Server/RedisCacheServer.cs:473 | trimming to nothing is the same as `string.IsNullOrWhiteSpace` |
| `Text.Remove` | Server/RedisCacheServer.cs:858 | `Replace(c, "")` leaves no `c`, and changes nothing when there is none |
| `Text.RemoveKeepsOthers` | Server/RedisCacheServer.cs:707 | `Replace(c, "")` drops only `c`: every other character keeps its number of occurrences |
| `Text.RemoveKeepsAbsent` | Server/RedisCacheServer.cs:858 | removing one character never brings back another that was absent |
| `Text.TrimKeepsAbsent` | Server/RedisCacheServer.cs:707 | trimming never brings back a character that was absent |
| `Text.SplitWithoutSeparator` | Server/RedisCacheServer.cs:330-332 | a record without a space splits into the record alone, so it has no port part |
| `Text.SplitAtFirstSeparator` | Server/RedisCacheServer.cs:635-636 | `Split(' ')` cuts at the first space and splits the rest again |
| `Text.SplitHostAndPort` | Server/RedisCacheServer.cs:634-640 | a `"host port"` record with a space-free host splits into exactly the host and the port text |
| `Text.SplitBeforeNumber` | Server/RedisCacheServer.cs:634-640 | a text without the separator, the separator and a number split back into exactly the text and the number's digits |
| `Text.EndpointAddress` | Clients/RedisCacheClient.cs:47-55 | `"host:port"`; for a host without `:` it splits at `:` into exactly the host and a text that parses back to the port |
| `Text.HostAndPortNotWhiteSpace` | Server/RedisSlaveInfo.cs:64-71 | a `"host port"` string is never null-or-white-space |
| `Text.CleanHostAndPort` | Server/RedisCacheServer.cs:707 | a clean `"host port"` record survives the arbiter read's removal of line breaks and trimming unchanged |
| `Text.EqualsIgnoreCaseReflexive` | Server/RedisCacheServer.cs:482 | the ordinal case-insensitive comparison holds of equal strings |
| `Values.Default` | Clients/NoneCacheClient.cs:28 | `default(T)` is null exactly for reference types and `Nullable<T>`, and otherwise is an object of type `T` |
| `BaseClient.SafeConvert` | Clients/BaseCacheClient.cs:152-178 | reports converted exactly when the value is not `DBNull`; the result is the value when the cast to `T` succeeds, otherwise the default passed in |
| `Memory.TrackerKeyDiffers` | Clients/MemoryCacheClient.cs:95 | the tracker key never collides with the key it tracks |
| `Memory.ReadAfterWrite` | Clients/MemoryCacheClient.cs:42-99 | until its expiry, a value `Set` stored reads back through `Get`, with null through the sentinel, and is found unless it is `DBNull` |
| `Memory.ReadAfterExpiry` | Clients/MemoryCacheClient.cs:87-91 | from its expiry on, a value `Set` stored is gone |
| `Memory.WriteFrame` | Clients/MemoryCacheClient.cs:80-99 | `Set` touches only the key and its tracker |
| `Memory.AddKeepsLiveEntry` | Clients/MemoryCacheClient.cs:107-109 | `Add` on a live key changes nothing and returns false |
| `Memory.AboutToExpireAfterWrite` | Clients/MemoryCacheClient.cs:136-148 | after `Set` with a sliding time to live of `stt` minutes, the key is about to expire exactly from `stt` minutes before its expiry |
| `Memory.NeverAboutToExpireWithoutSliding` | Clients/MemoryCacheClient.cs:140-141 | with no sliding time to live nothing is about to expire |
| `Memory.MemoryCacheClient.constructor` | Clients/BaseCacheClient.cs:20-23 | a new client has sliding time to live 0 and is not disposed |
| `Memory.MemoryCacheClient.Exists` | Clients/MemoryCacheClient.cs:22-36 | true exactly when the key has an entry that has not expired |
| `Memory.MemoryCacheClient.Get` | Clients/MemoryCacheClient.cs:42-74 | a missing key is not found with the default; found exactly when the live entry is neither null nor `DBNull`; a found value is the default or castable to `T` |
| `Memory.MemoryCacheClient.IsAboutToExpire` | Clients/MemoryCacheClient.cs:136-148 | true exactly when there is a sliding time to live and the key's tracker has expired |
| `Memory.MemoryCacheClient.Set` | Clients/MemoryCacheClient.cs:80-99 | returns true and the store becomes `Write` of the old store: the value or sentinel with expiry now + m, plus the tracker when sliding |
| `Memory.MemoryCacheClient.Add` | Clients/MemoryCacheClient.cs:101-119 | store and result are `Insert` of the old store: the value only if the key is not live, and the tracker only if added; a null value is refused by the precondition |
| `Memory.MemoryCacheClient.FlushAll` | Clients/MemoryCacheClient.cs:125-130 | removing the keys one by one leaves the store empty |
| `NoneCache.NoneCacheClient.constructor` | Clients/BaseCacheClient.cs:20-23 | a new placeholder has sliding time to live 0 and is not disposed |
| `NoneCache.NoneCacheClient.Exists` | Clients/NoneCacheClient.cs:16-19 | never exists |
| `NoneCache.NoneCacheClient.Get` | Clients/NoneCacheClient.cs:25-30 | never found, with the default of the requested type |
| `NoneCache.NoneCacheClient.Set` | Clients/NoneCacheClient.cs:36-41 | validates its arguments and returns false |
| `NoneCache.NoneCacheClient.Add` | Clients/NoneCacheClient.cs:43-48 | validates its arguments and returns false |
| `NoneCache.NoneCacheClient.IsAboutToExpire` | Clients/NoneCacheClient.cs:63-66 | never about to expire |
| `RedisNative.IsNullableType` | RedisNative/RedisClientNullable.cs:88-97 | a type is nullable exactly when its default is null |
| `RedisNative.Serialize` | RedisNative/RedisClientNullable.cs:77-79 | a well-formed object's serialization deserializes back to the same object at its own type |
| `RedisNative.Deserialize` | RedisNative/RedisClientNullable.cs:76-83 | never `DBNull`, null only for a `Nullable<T>` request, and an object it yields is castable to the requested type |
| `RedisNative.ChangeType` | RedisNative/RedisClientNullable.cs:59-73 | `Convert.ChangeType` to an integer type succeeds exactly when the text parses as an integer inside the type's range, and then yields an object of that type with the same value |
| `RedisNative.NullMarkerIsSerializedSentinel` | RedisNative/RedisClientNullable.cs:15-16 | the serializer turns the sentinel into the quoted marker that `Get` looks for |
| `RedisNative.WireValue` | Clients/RedisCacheClient.cs:253-277 | null and the sentinel string go out as the quoted marker, and a string goes out as the marker exactly when it is the sentinel |
| `RedisNative.DecodeWireValue` | RedisNative/RedisClientNullable.cs:32-84 | what the cache client writes for a value decodes back to the value, read at its own type or, for an integer or boolean, as its `Nullable<T>`; null comes back as found with the default |
| `RedisNative.SentinelStringReadsAsNull` | RedisNative/RedisClientNullable.cs:50-56 | the stored sentinel reads back as found with the default |
| `RedisNative.NullReadAsBytesIsMarker` | RedisNative/RedisClientNullable.cs:34-38 | read as `byte[]`, a stored null is found with the marker's bytes |
| `RedisNative.Decode` | RedisNative/RedisClientNullable.cs:32-84 | `Get<T>` reports not found exactly for an absent key, or for a non-empty text that does not convert to a non-nullable numeric `T`; not found always comes with the default; otherwise the value is the default or an object castable to `T` |
| `RedisNative.TimeToLive` | Clients/RedisCacheClient.cs:457-460 | the TTL is negative exactly when the key is not live |
| `RedisNative.ReadAfterStore` | RedisNative/RedisClientNullable.cs:41-83 | until its expiry, a value stored by the cache client reads back through `Get`, at its own type or as its `Nullable<T>` |
| `RedisNative.RedisClientNullable.constructor` | RedisNative/RedisClientNullable.cs:19-21 | a connection to a node with the given data and no replication commands yet |
| `RedisNative.RedisClientNullable.Get` | RedisNative/RedisClientNullable.cs:32-84 | a key that is not live is not found with the default, and a live key is found for every non-integer type |
| `RedisNative.RedisClientNullable.ContainsKey` | Clients/RedisCacheClient.cs:195-198 | the key exists exactly when its TTL is not negative |
| `RedisNative.RedisClientNullable.GetTimeToLive` | Clients/RedisCacheClient.cs:457 | -2 for a key that is gone, otherwise the seconds until its expiry |
| `RedisNative.RedisClientNullable.Set` | Clients/RedisCacheClient.cs:253-264 | stores the serialized value with the expiry |
| `RedisNative.RedisClientNullable.Add` | Clients/RedisCacheClient.cs:266-277 | stores the serialized value only when the key is not live, and reports whether it did |
| `RedisNative.RedisClientNullable.SetAsNull` | RedisNative/RedisClientNullable.cs:101-104 | stores exactly the quoted null marker with the expiry |
| `RedisNative.RedisClientNullable.AddAsNull` | RedisNative/RedisClientNullable.cs:106-109 | stores the quoted null marker only when the key is not live |
| `RedisNative.RedisClientNullable.SlaveOf` | Server/RedisCacheServer.cs:656 | appends `SLAVEOF host port` to the node's replication commands |
| `RedisNative.RedisClientNullable.SlaveOfNoOne` | Server/RedisCacheServer.cs:649 | appends `SLAVEOF NO ONE` to the node's replication commands |
| `SlaveInfo.GetSafeValue` | Server/RedisSlaveInfo.cs:113-116 | the entry, or `""` for a missing key |
| `SlaveInfo.GetSafeValueInt` | Server/RedisSlaveInfo.cs:118-125 | the parsed 32-bit entry, or 0 when it is missing or does not parse |
| `SlaveInfo.Parse` | Server/RedisSlaveInfo.cs:77-107 | every numeric field is in the 32-bit range, and the link is `Up` exactly when `master_link_status` is `"up"` |
| `SlaveInfo.MasterHostAndPort` | Server/RedisSlaveInfo.cs:64-71 | the `"host port"` of the master is never null-or-white-space |
| `SlaveInfo.ParseRender` | Server/RedisSlaveInfo.cs:77-107 | parsing the `INFO` fields of a record gives the record back |
| `SlaveInfo.ParseIgnoresOtherFields` | Server/RedisSlaveInfo.cs:99-106 | fields other than the five read do not change the result |
| `SlaveInfo.ParseEmpty` | Server/RedisSlaveInfo.cs:113-125 | an empty dictionary parses to empty host, zero numbers and link down |
| `Failover.FirstInterNetwork` | Server/RedisCacheServer.cs:919-931 | a non-empty result is the text of some IPv4 address of the host entry |
| `Failover.FirstInterNetworkIsFirst` | Server/RedisCacheServer.cs:925-929 | the result is the first IPv4 address |
| `Failover.CurrentIp` | Server/RedisCacheServer.cs:847-891 | a file-based IP has no `\r`, `\n` or `\t`; an unreadable file or a failed DNS lookup gives `""`; without a file, a result other than the role environment's is an IPv4 address of the host entry |
| `Failover.CurrentIpPrefersFile` | Server/RedisCacheServer.cs:855-861 | with an IP file, the IP is its text without `\r`, `\n` and `\t` |
| `Failover.CurrentIpPrefersDns` | Server/RedisCacheServer.cs:863-871 | without a file, the first non-empty IPv4 address wins over the role environment |
| `Failover.Indicate` | Server/RedisCacheServer.cs:365-384 | changes and returns true only when the flag differs, and records the start time only when starting |
| `Failover.Latest` | Server/RedisCacheServer.cs:689-730 | `""` when the read fails or the table is empty; otherwise a text without line breaks that starts and ends with a non-white-space character |
| `Failover.AlreadyStarted` | Server/RedisCacheServer.cs:386-406 | true exactly when the flag is set; a flag older than an hour is cleared but the answer is still true |
| `Failover.Candidate` | Server/RedisCacheServer.cs:472-476 | the candidate master is always the writer's `"host port"`, because the inverted conditional only takes the replica's value when it is blank |
| `Failover.Switch` | Server/RedisCacheServer.cs:629-683 | leaves guard and arbiter alone, keeps the writer valid, and moves the writer only when it reports `Switched` |
| `Failover.SwitchToRecord` | Server/RedisCacheServer.cs:634-671 | a clean `"host port"` record moves the writer to it, after `SLAVEOF NO ONE` when the record names this machine and `SLAVEOF host port` otherwise |
| `Failover.PromotionRecord` | Server/RedisCacheServer.cs:603-606 | a row inserted by `RedisSlave` at the current time, with the reason naming this machine, that any later arbiter read returns as this machine's `"host port"` |
| `Failover.Promote` | Server/RedisCacheServer.cs:589-619 | keeps the guard; on failure nothing changes, on success the writer becomes the slave's own address |
| `Failover.Decide` | Server/RedisCacheServer.cs:438-500 | keeps the guard and a valid writer, adds at most one arbiter row and only when promoting, and outcomes that stop early keep the writer |
| `Failover.RunFailover` | Server/RedisCacheServer.cs:505-509 | the guard is released on every exit |
| `Failover.FailOver` | Server/RedisCacheServer.cs:412-434 | runs exactly when the guard is free, leaves it free afterwards, keeps the writer valid, and the arbiter only grows, by at most one row |
| `Failover.WatchdogReleasesForNextCaller` | Server/RedisCacheServer.cs:393-401 | a guard older than an hour is released without running, and the next caller runs |
| `Failover.GuardHeldWithinTheHour` | Server/RedisCacheServer.cs:389-401 | within the hour, a started failover blocks every caller and changes nothing |
| `Failover.HealthyMasterChangesNothing` | Server/RedisCacheServer.cs:445-470 | a successful ping or a link reported up ends the failover with arbiter and writer unchanged |
| `Failover.PromotesWhenArbiterNamesWriter` | Server/RedisCacheServer.cs:480-491 | when the arbiter names the current writer, the replica is promoted and recorded, and becomes the writer |
| `Failover.EmptyArbiterReadKeepsWriter` | Server/RedisCacheServer.cs:725-730 | an empty arbiter read neither promotes nor moves the writer |
| `Failover.ReattachesToArbiterMaster` | Server/RedisCacheServer.cs:493-499 | when the arbiter names another master, the replica and the writer follow it, with no arbiter row |
| `Failover.Boot` | Server/RedisCacheServer.cs:299-355 | keeps the guard and a valid writer, and adds at most one arbiter row |
| `Failover.CheckRecord` | Server/RedisCacheServer.cs:330-350 | keeps the guard and the arbiter and a valid writer, and moves the writer only when the switch succeeds |
| `Failover.CheckRecordConfirms` | Server/RedisCacheServer.cs:330-338 | a record naming the configured writer is confirmed and changes nothing |
| `Failover.BootConfirmsConfiguredWriter` | Server/RedisCacheServer.cs:330-338 | an arbiter record equal to the configured writer changes nothing |
| `Failover.FirstBootBecomesMaster` | Server/RedisCacheServer.cs:306-327 | with an empty arbiter the machine records itself, becomes the writer and stops replicating |
| `RedisCache.AfterRemote` | Clients/RedisCacheClient.cs:376-407 | a delivered write leaves the failover state alone, and the failover keeps the writer valid |
| `RedisCache.AboutToExpireAfterStore` | Clients/RedisCacheClient.cs:448-465 | after a write for m minutes, the key is about to expire exactly from `SlidingTimeToLive` minutes before its expiry |
| `RedisCache.MissingKeyNotAboutToExpire` | Clients/RedisCacheClient.cs:459-461 | a key that is gone is not about to expire |
| `RedisCache.RedisCacheServer.constructor` | Server/RedisCacheServer.cs:56-66 | validated slave address, the given arbiter, and the guard free |
| `RedisCache.RedisCacheServer.SetFailoverIndicator` | Server/RedisCacheServer.cs:365-384 | the guard fields and result are `Indicate` of the old guard |
| `RedisCache.RedisCacheServer.FailoverAlreadyStarted` | Server/RedisCacheServer.cs:386-406 | the guard fields and result are `AlreadyStarted` of the old guard |
| `RedisCache.RedisCacheServer.InsertMasterInDatabase` | Server/RedisCacheServer.cs:781-836 | appends one row inserted by `RedisSlave`, unless the insert fails |
| `RedisCache.RedisCacheServer.ReadLatestMasterInDatabase` | Server/RedisCacheServer.cs:689-730 | `""` when the read fails or the table is empty; otherwise a text without line breaks that starts and ends with a non-white-space character |
| `RedisCache.RedisCacheServer.GetLocalIp` | Server/RedisCacheServer.cs:919-931 | the scan returns the first IPv4 address (`FirstInterNetwork`), and None when the lookup throws |
| `RedisCache.RedisCacheServer.GetCurrentIp` | Server/RedisCacheServer.cs:847-891 | file, then DNS, then role environment, as `CurrentIp` |
| `RedisCache.RedisCacheServer.SwitchToNewMaster` | Server/RedisCacheServer.cs:629-683 | the client's writer and the replica's commands change as `Switch` says |
| `RedisCache.RedisCacheServer.PromoteToMaster` | Server/RedisCacheServer.cs:589-619 | the arbiter, writer and replica change as `Promote` says |
| `RedisCache.RedisCacheServer.GetSlaveInfo` | Server/RedisCacheServer.cs:559-578 | refreshes the replica with `SLAVEOF writer` and parses `INFO`; None when either throws |
| `RedisCache.RedisCacheServer.DecideFailover` | Server/RedisCacheServer.cs:438-500 | the body of the failover changes the state as `Decide` says |
| `RedisCache.RedisCacheServer.FailOverIfRequiredInternal` | Server/RedisCacheServer.cs:436-510 | as `RunFailover`: the decision, then the guard released |
| `RedisCache.RedisCacheServer.FailOverIfRequired` | Server/RedisCacheServer.cs:412-434 | as `FailOver`: the guarded failover |
| `RedisCache.RedisCacheServer.SetMasterInAppDomainLoad` | Server/RedisCacheServer.cs:299-355 | as `Boot`: the startup check of the writer against the arbiter |
| `RedisCache.RedisCacheClient.Init` | Clients/RedisCacheClient.cs:103-108 | stores the addresses, with no sliding time to live and nothing sent |
| `RedisCache.RedisCacheClient.Create` | Clients/RedisCacheClient.cs:93-120 | validates the addresses and runs the startup check before the client is used; the writer is the one `Boot` chose, and the construction fails when the check throws |
| `RedisCache.RedisCacheClient.GetReaderRedisClientAddress` | Clients/RedisCacheClient.cs:47-50 | the reader's `"host:port"`, which splits back into its host and port |
| `RedisCache.RedisCacheClient.GetWriterRedisClientAddress` | Clients/RedisCacheClient.cs:52-55 | the current writer's `"host:port"`, which splits back into its host and port |
| `RedisCache.RedisCacheClient.Exists` | Clients/RedisCacheClient.cs:189-205 | true exactly when the reader answers and the key's TTL there is not negative |
| `RedisCache.RedisCacheClient.Get` | Clients/RedisCacheClient.cs:211-231 | a key that does not exist, or a reader that throws, gives not found with the default; an existing key is found for every non-integer type |
| `RedisCache.RedisCacheClient.IsAboutToExpire` | Clients/RedisCacheClient.cs:448-465 | true exactly when there is a sliding time to live and the key's TTL is between 0 and that many minutes |
| `RedisCache.RedisCacheClient.SwitchWriterConfigToNewMaster` | Clients/RedisCacheClient.cs:164-183 | the writer becomes exactly (host, port), reported as `"host:port"`; the reader is untouched |
| `RedisCache.RedisCacheClient.RunWithFailOver` | Clients/RedisCacheClient.cs:376-407 | the first completed attempt (first try, else the one retry) is the result and is sent to the current writer; only when both throw does the failover run, once, and the result is false |
| `RedisCache.RedisCacheClient.SetWithTask` | Clients/RedisCacheClient.cs:283-318 | returns true, the task's result is the remote write's, the reader gets the value or null marker unless it fails, and the failover state is `AfterRemote` |
| `RedisCache.RedisCacheClient.AddWithTask` | Clients/RedisCacheClient.cs:320-355 | as `SetWithTask` with SET NX on both sides |
| `RedisCache.RedisCacheClient.Set` | Clients/RedisCacheClient.cs:237-241 | returns true, with the reader, the remote log and the failover state changed as the task-returning `Set` changes them |
| `RedisCache.RedisCacheClient.Add` | Clients/RedisCacheClient.cs:243-247 | returns true, with the reader, the remote log and the failover state changed as the task-returning `Add` changes them |
| `RedisCache.RedisCacheClient.FlushAllWithTask` | Clients/RedisCacheClient.cs:427-442 | flushes the writer through the retry and the failover; this client sends nothing to the reader |
| `RedisCache.RedisCacheClient.FlushAll` | Clients/RedisCacheClient.cs:421-425 | `FlushAllWithTask` without the task |
| `RedisCache.RedisCacheClient.Dispose` | Clients/RedisCacheClient.cs:141-153 | afterwards the client is disposed, whether or not it was before |
| `Clients.SnapSet` | Interfaces/ICacheClient.cs:63-71 | `Set` reports true exactly for a client that stores, and keeps the sliding time to live and the validity |
| `Clients.SnapAdd` | Interfaces/ICacheClient.cs:53-61 | the placeholder changes nothing and returns false, Redis always returns true, memory (which refuses null) returns true exactly when the key was free |
| `Clients.SnapFlushAll` | Interfaces/ICacheClient.cs:115-118 | flushing keeps the client valid |
| `Clients.MissingKeyReadsAsDefault` | Interfaces/ICacheClient.cs:18-33 | a key that does not exist reads as not found with `default(T)` on every client |
| `Clients.AboutToExpireNeedsSliding` | Interfaces/ICacheClient.cs:126-142 | only a client with a positive sliding time to live reports a key about to expire |
| `Clients.MarkerKeyDiffers` | Clients/BaseCacheClient.cs:14 | the extension marker differs from the key and from the key's tracker |
| `Clients.MarkerBlocksExtension` | Interfaces/ICacheClient.cs:154-159 | after `SetKeyAsExtending`, the key is extending for the next `SlidingTimeToLive` minutes |
| `Clients.SetKeepsMarker` | Clients/BaseCacheClient.cs:184-193 | writing another key does not change whether the key is extending |
| `Clients.Exists` | Interfaces/ICacheClient.cs:16 | each client's `Exists`, as `SnapExists` |
| `Clients.Get` | Interfaces/ICacheClient.cs:26-33 | each client's `Get(key, out value)`, as `SnapGet` |
| `Clients.GetValue` | Clients/BaseCacheClient.cs:45-50 | the value when found, otherwise `default(T)` |
| `Clients.IsAboutToExpire` | Interfaces/ICacheClient.cs:135-142 | each client's `IsAboutToExpire`, as `SnapAboutToExpire` |
| `Clients.IsExtending` | Clients/BaseCacheClient.cs:184-193 | `Exists(key + "_$@{EXT}@$")` |
| `Clients.SetWithTask` | Clients/BaseCacheClient.cs:134-139 | the write as `SnapSet`; a task only from the Redis client, none from the others |
| `Clients.Set` | Interfaces/ICacheClient.cs:63-71 | the write as `SnapSet` |
| `Clients.AddWithTask` | Clients/BaseCacheClient.cs:127-132 | the add as `SnapAdd`; a task only from the Redis client; memory refuses null |
| `Clients.Add` | Interfaces/ICacheClient.cs:53-61 | the add as `SnapAdd`; memory refuses null |
| `Clients.SetForDefaultMinutes` | Clients/BaseCacheClient.cs:57-60 | `Set` for exactly 5 minutes |
| `Clients.AddForDefaultMinutes` | Clients/BaseCacheClient.cs:52-55 | `Add` for exactly 5 minutes |
| `Clients.SetWithTaskForDefaultMinutes` | Clients/BaseCacheClient.cs:67-70 | `Set(out task)` for exactly 5 minutes |
| `Clients.AddWithTaskForDefaultMinutes` | Clients/BaseCacheClient.cs:62-65 | `Add(out task)` for exactly 5 minutes |
| `Clients.FlushAllWithTask` | Clients/BaseCacheClient.cs:141-146 | the flush as `SnapFlushAll`; a task only from the Redis client |
| `Clients.FlushAll` | Interfaces/ICacheClient.cs:115-118 | the flush as `SnapFlushAll` |
| `Clients.SetKeyAsExtending` | Clients/BaseCacheClient.cs:195-204 | `Set(key + "_$@{EXT}@$", 1, SlidingTimeToLive)` and its result |
| `Clients.SetSlidingTimeToLive` | Clients/BaseCacheClient.cs:18 | only the sliding time to live changes |
| `Clients.Dispose` | Clients/BaseCacheClient.cs:94-115 | the client is disposed afterwards and its snapshot (entries, sliding time to live) is unchanged; a second call does nothing |
| `Manager.Extend` | CacheManager.cs:201-217 | runs the producer at most once and not at all while the key is extending (then nothing changes); keeps the tier valid and its sliding time to live |
| `Manager.TryCacheSpec` | CacheManager.cs:118-146 | the producer runs at most once, and the tier stays valid |
| `Manager.HitReturnsCachedValue` | CacheManager.cs:123-132 | a hit returns the cached value; the producer runs only to extend an entry about to expire that nobody is extending, and otherwise nothing changes |
| `Manager.MissRunsProducerOnce` | CacheManager.cs:135-145 | a miss runs the producer once and returns its value, storing it unless it is null and `cacheNull` is false |
| `Manager.ExtendIsSingleFlight` | CacheManager.cs:201-217 | right after an extension, a second one finds the marker and neither runs the producer nor writes |
| `Manager.MissThenHitInMemory` | CacheManager.cs:118-146 | in memory, a miss stores the value and a later `TryCache` before expiry returns it (for any `T` the value casts to), without running the producer outside the sliding window |
| `Manager.MissThenHitOnRedis` | CacheManager.cs:118-146 | the same on Redis while the reader answers and nothing else writes to it, including a cached null and a read as the value's `Nullable<T>` |
| `Manager.UncachedNullRunsAgain` | CacheManager.cs:140-143 | a null not cached leaves the tier unchanged, so the next call runs the producer again |
| `Manager.CacheManager.constructor` | CacheManager.cs:34-54 | keeps both clients and expiries, and copies each tier's sliding time to live into its client |
| `Manager.CacheManager.ExtendCache` | CacheManager.cs:201-217 | the marker check, marker, producer and `Set`, as `Extend` |
| `Manager.CacheManager.TryCacheInternal` | CacheManager.cs:118-146 | the tier and result are `TryCacheSpec` of the old tier |
| `Manager.CacheManager.TryCache` | CacheManager.cs:148-151 | `TryCacheInternal` on the first tier with its configured expiry |
| `Manager.CacheManager.TryCacheFor` | CacheManager.cs:153-156 | `TryCacheInternal` on the first tier with the given expiry |
| `Manager.CacheManager.TryCacheToSecondClient` | CacheManager.cs:158-166 | the second tier with its expiry, or the first tier with its expiry and `cacheNull` true when the second is the placeholder; only the tier used may change, and it stays valid |
| `Manager.CacheManager.TryCacheToSecondClientFor` | CacheManager.cs:168-176 | the same with the given expiry; only the tier used may change, and it stays valid |
| `Manager.CacheManager.FromCache` | CacheManager.cs:182-185 | `Get` on the first tier |
| `Manager.CacheManager.FromSecondCache` | CacheManager.cs:187-195 | `Get` on the second tier, or on the first when the second is the placeholder |
| `Manager.CacheManager.ToCache` | CacheManager.cs:223-226 | `Set` on the first tier |
| `Manager.CacheManager.ToCacheForDefaultMinutes` | CacheManager.cs:228-231 | `Set` on the first tier for 5 minutes |
| `Manager.CacheManager.ToSecondCache` | CacheManager.cs:233-241 | `Set` on the second tier, or on the first when the second is the placeholder; only that tier may change, and it stays valid |
| `Manager.CacheManager.ToSecondCacheForDefaultMinutes` | CacheManager.cs:243-251 | the same for 5 minutes; only that tier may change, and it stays valid |

## Left out

- Concurrency. The lock and the static flags shared between server instances are not modelled, nor is any interleaving of the tasks. `async` work runs to completion where it starts. The guard is one server's fields. The `SetFailoverIndicator(true)` race in `FailOverIfRequiredAsync` cannot happen sequentially.
- The 100 ms sleep before the retry in `RunWithFailOver`, `CancellationTokenSource`, logging, `Stopwatch` timings and the connection pool.
- Redis replication into the reader. The reader is the local replica of the writer, so in the running system every write that reaches the master arrives there too, from this process and from every other process, and the master's `FLUSHALL` empties it. `SLAVEOF host port` also resyncs it from the new master. The model records `SLAVEOF` as a command and does not propagate master writes or resync. The reader's contents change only through this client's own local writes. Consequently `RedisCache.RedisCacheClient.FlushAllWithTask`, `Manager.MissThenHitOnRedis` and the Redis case of `Clients.MissingKeyReadsAsDefault` describe a reader that nothing else feeds.
- SQL access to the arbiter is a sequence of rows. A read yields the latest row, or `""` when it fails. An insert appends one row unless it fails. The ordering by insert date and the deployment id are not modelled.
- File, DNS and role-environment access for the IP, the ping, `INFO`, `SLAVEOF`, and every network write are inputs (see `RedisIo`, `FailoverIo`, `BootIo`).
- The startup wiring of `RedisCacheServer` (configuration reading, `TestMasterRedisAndChangeIfRequired`, `GenerateInformation`, `LogToWebRole`) and its configuration-based constructor.
- The JSON serializer and deserializer, a stand-in:
  - strings are quoted;
  - booleans are `true`/`false`;
  - integers use their decimal text, and reading integer text back goes through the same conversion as `Convert.ChangeType`; text that does not convert reads as the default;
  - other values use their text;
  - the property relied on is that a value's serialization reads back as the value, at its own type or as the `Nullable<T>` of an integer or boolean.
  - two behaviours of the JSON library are assumed rather than modelled: that it writes default values rather than skipping them, and that reading stored text as a mismatched type (a boolean as an integer type, say) yields the default instead of throwing. Were it to throw, `RedisCacheClient.Get` would catch the exception and report not found (Clients/RedisCacheClient.cs:225-230).
- `Memory.MemoryCacheClient.Add`: a null value is a precondition. `MemoryCache.Add` throws `ArgumentNullException` for it and the client does not catch it, so the model does not promise anything for that call. The same precondition carries over to `Clients.SnapAdd`, `Clients.Add`, `Clients.AddWithTask`, `Clients.AddForDefaultMinutes` and `Clients.AddWithTaskForDefaultMinutes` for the memory client.
- Numeric types other than the integer types. `float`, `double` and `decimal` also go through `Convert.ChangeType` in `Get<T>` (RedisNative/RedisClientNullable.cs:59); the model has integer types with a range and booleans only, so floating-point and decimal parsing and rounding are not modelled.
- Reference subtyping. A class type in the model has no base classes or interfaces, so a cast to a base class or an interface, which `(T) value` allows, fails in the model; only a cast to the exact type, to `object` or to `Nullable<T>` of the exact type succeeds.
- The DateTime serializer configuration in the `CacheManager` constructor.
- `MemoryCache.Default` is one store per `MemoryCacheClient`, not one store shared by the process. Its eviction under memory pressure is not modelled.
- The remote writer's contents. A write that reaches the master is recorded in `remoteLog` with the address it went to, and its result is an input. The `FlushAll` lambda always returns true, so for that command the input should be true.
- Exceptions from the producer, and from the reader inside the Redis `IsAboutToExpire`. The code does not catch the latter.
- `RedisCache.RedisCacheClient.IsAboutToExpire`: `TimeSpan.TotalMinutes <= SlidingTimeToLive` is compared in whole seconds (`ttl <= 60 * SlidingTimeToLive`). This is the same comparison, because TTLs are whole seconds. A key without an expiry (TTL -1) cannot arise here, because every write sets one.
- A null second client in `CacheManager`. The code dereferences it in the constructor, so the model requires a client there.
- `IsEnabled`. The manager only stores it, and the model stores it too; nothing consults it.
- Case-insensitive comparison is ASCII upper-casing. Culture-specific and non-ASCII case mapping are not modelled.
- `Manager.CacheManager.TryCache`: promises validity of the first tier only. The second tier is not proved unaffected, because the two tiers may share a Redis reader.
- The finalizer path of `Dispose(false)`.
- The Azure client, the root-level duplicate `NoneCacheClient.cs`, the factories, and the interfaces `ICacheManager`, `IRedisCacheServer` and `IRedisClientNullable`, which hold signatures only.
