# Key-value storage server: a verified model

This project models the server side of a small key-value storage service in
Dafny, and proves properties of that model. The service listens on a TCP port.
Clients send requests as lines of text. The server answers from an in-memory
cache that sits in front of one file per key.

The model covers five parts:

- **Wire codec** (`Messages`, `Serialization`, `Lines`). A message has an
  optional key, an optional value and a status; Java's `null` is `Option.None`.
  Serializing builds newline-terminated lines closed by a blank line. Decoding
  dispatches on the first line and the line count.
- **Bounded caches** (`ICache`, `FifoCache`, `LruCache`, `LfuCache`,
  `StrategyCache`). Each policy is a class whose methods update its fields in
  place:
  - a value map;
  - an entry counter;
  - the policy's metadata: an insertion queue, a last-use stamp per key, or a
    usage count per key.

  `ICache.PutContract` is the put contract every policy meets.
  `StrategyCache.Cache` holds the one policy object its strategy names and
  dispatches to it.
- **Persistent storage** (`PersistentStorage`). The directory of value files
  is a `map` field from file name to file content. A read returns the file's
  first line.
- **Write-through coordination** (`CachedStore`, `Server`). A read is served
  by the cache on a hit and by storage on a miss. A write goes to storage
  first, and to the cache only if storage accepted it. The server turns a put
  with a null or empty value into a delete.
- **Per-connection request handling** (`Connection`):
  - Lines are gathered into a 1024-slot array until a blank line.
  - Each frame is decoded, and each GET or PUT gets exactly one answer.
  - Answers are appended to an output sequence.
  - `Accumulate` is the reference definition of how lines become frames.
  - `FrameAnswer` is the reference answer to one frame, given the server's
    state as a `ServerView` (both tiers and the capacity). `FrameStep` is
    how that frame changes the state. Only a PUT changes the pairs either
    tier holds, as `Server.PutStep` says. A GET of a cached key also
    updates the policy's recency or usage data, which a `ServerView`
    leaves out; `StrategyCache.Cache.Touched` states that update.
  - `Answers` and `Steps` replay a sequence of frames over a sequence of
    states.
  - `ClientConnection.HandleRequests` is the imperative loop. It is proved
    against `Accumulate`, `Answers` and `Steps`.

Filesystem failures are parameters:
- `FsFaults` says, for one request, which filesystem calls fail: opening a
  file to read it, reading its line, creating a missing file, opening a
  file to write it, and deleting a file;
- `undeletable` is the set of files that `clear` cannot delete;
- the connection takes a map from frame number to the `FsFaults` for that
  frame.

Files left from an earlier run are a constructor parameter (`persisted`,
`existing`). The wall clock the LRU policy reads is a logical counter,
`LRUCache.clock`.

The model follows the code as written wherever the code is definite. It keeps
the code's inconsistencies visible; see "Inconsistencies kept from the code"
below.

## Model

| member | source | states |
|---|---|---|
| Lines.ReadLines | src/app_kvServer/ClientConnection.java:97 | definition: the lines successive `readLine` calls return before end of stream, split at '\n', with a final unterminated fragment when it is not empty |
| Lines.FirstLine | src/app_kvServer/storage/Storage.java:52-58 | definition: the single `readLine` of a value file, null on an empty file |
| Lines.ReadLinesOfJoinLines | src/app_kvServer/ClientConnection.java:96-97 | text made of lines without '\n', each terminated, reads back line by line as exactly those lines |
| Lines.FirstLineOfLine | src/app_kvServer/storage/Storage.java:52-58 | a file holding one non-empty line reads back as that line |
| Messages.StatusName | src/common/serialization/Serialization.java:28-42 | definition: the name of each of the nine statuses, the token written at the head of a frame and matched by the named constructor (KVMessageImpl.java:19-49) |
| Messages.ParseStatus | src/common/messages/KVMessageImpl.java:22-52 | a recognised name yields the status of that name; the result is unset exactly when the text names none of the nine statuses |
| Messages.KVMessage.GetKey | src/common/messages/KVMessageImpl.java:55-58 | the key the message was built with (null as none) |
| Messages.KVMessage.GetValue | src/common/messages/KVMessageImpl.java:60-63 | the value the message was built with (null as none) |
| Messages.KVMessage.GetStatus | src/common/messages/KVMessageImpl.java:65-68 | the status the message was built with (null as none) |
| Messages.FromStatus | src/common/messages/KVMessageImpl.java:13-17 | the enum constructor: the getters return exactly the key, value and status it was given |
| Messages.FromStatusName | src/common/messages/KVMessageImpl.java:19-52 | the name constructor: the getters return its key and value; the status is unset exactly when the name is none of the nine, and otherwise is the status of that name |
| Messages.NamedConstructorAgreesWithEnum | src/common/messages/KVMessageImpl.java:19-49 | each of the nine names builds the same message as its enum constant |
| Serialization.Render | src/common/serialization/Serialization.java:30-32 | definition: a null key or value is written as the text "null", as Java's string concatenation does |
| Serialization.ContentLines | src/common/serialization/Serialization.java:25-42 | a serialized message starts with its status name and has at least two content lines |
| Serialization.Serialize | src/common/serialization/Serialization.java:25-48 | the encoding is the content lines plus a blank line, each terminated by '\n': GET is `GET\n`key`\n\n`, PUT always has a value line, success statuses have key and value, error statuses have only the value |
| Serialization.ParseGetRequest | src/common/serialization/Serialization.java:81-89 | succeeds iff there are exactly 3 lines, giving key `lines[1]`, a null value and the status of `lines[0]`; otherwise the argument-count error |
| Serialization.ParsePutRequest | src/common/serialization/Serialization.java:91-100 | succeeds iff there are 3 or 4 lines; the value is `lines[2]` iff there are 4, null otherwise |
| Serialization.ParseSuccessResponse | src/common/serialization/Serialization.java:102-110 | succeeds iff there are exactly 4 lines, with key `lines[1]` and value `lines[2]` |
| Serialization.ParseErrorResponse | src/common/serialization/Serialization.java:112-120 | succeeds iff there are exactly 3 lines, with a null key and value `lines[2]` |
| Serialization.Unserialize | src/common/serialization/Serialization.java:56-79 | no lines, or a first line naming no status, is an error; a success carries the status of `lines[0]` |
| Serialization.DecodeGetRequest | src/common/serialization/Serialization.java:59-60 | a GET frame decodes iff it has 3 lines, as key `lines[1]` with a null value |
| Serialization.DecodePutRequest | src/common/serialization/Serialization.java:61-62 | a PUT frame decodes iff it has 3 or 4 lines; 3 lines give a null value, 4 give value `lines[2]` |
| Serialization.DecodeSuccessResponse | src/common/serialization/Serialization.java:65-69 | a success frame decodes iff it has 4 lines |
| Serialization.DecodeErrorResponse | src/common/serialization/Serialization.java:70-73 | an error frame decodes iff it has 3 lines, taking `lines[2]` as its value |
| Serialization.ReadBackLines | src/common/serialization/Serialization.java:25-48 | reading a serialized message line by line gives its content lines and the blank terminator |
| Serialization.RoundTrip | src/common/serialization/Serialization.java:25-110 | a GET, a PUT with a value, or a success response, with one-line fields, decodes from its serialized lines plus the blank line to itself |
| Serialization.DeleteRequestReadsBackAsNullText | src/common/serialization/Serialization.java:30-32 | a PUT with a null value is written with the text "null" as its value and decodes with that text as value |
| Serialization.ErrorResponseReadsBackWithoutText | src/common/serialization/Serialization.java:119 | an error response reads back with an empty text, because the blank terminator is taken as the value |
| ICache.PutContract | src/app_kvServer/cache/ICache.java:28-33 | definition: the pairs a put may leave, shared by the three policies: an update or an insert with room changes only that key, an insert into a full cache first evicts exactly one cached key |
| ICache.PutContractBounds | src/app_kvServer/cache/ICache.java:28-33 | under any policy, a put leaves the key mapped to the value, stays within a positive capacity, keeps every other surviving pair, and keeps the size on an update |
| FifoCache.FirstIndex | src/app_kvServer/cache/FIFOCache.java:92 | the position `LinkedList.remove(Object)` removes from: the first occurrence of the key |
| FifoCache.RemoveFirst | src/app_kvServer/cache/FIFOCache.java:92 | removing an element drops its first occurrence and keeps every other element in order; an absent key changes nothing; the queue shortens by one iff the key was present |
| FifoCache.RemoveFirstKeepsNoDuplicates | src/app_kvServer/cache/FIFOCache.java:92 | from a duplicate-free queue, the key is gone entirely afterwards and the queue stays duplicate-free |
| FifoCache.FIFOCache.constructor | src/app_kvServer/cache/FIFOCache.java:19-25 | a new cache is empty, has the given capacity and satisfies the invariant |
| FifoCache.FIFOCache.GetCacheSize | src/app_kvServer/cache/FIFOCache.java:31-33 | returns the configured capacity |
| FifoCache.FIFOCache.InCache | src/app_kvServer/cache/FIFOCache.java:40-42 | true iff the key is cached; changes nothing |
| FifoCache.FIFOCache.GetKV | src/app_kvServer/cache/FIFOCache.java:51-54 | returns the cached value (null when absent) and changes nothing, so gets never affect the eviction order |
| FifoCache.FIFOCache.PutKV | src/app_kvServer/cache/FIFOCache.java:61-81 | keeps the invariant (counter = map size = queue length, no duplicates, same keys, within capacity); an update changes only the value; an insert into a full cache evicts the queue's head, then appends the key |
| FifoCache.FIFOCache.EvictOldest | src/app_kvServer/cache/FIFOCache.java:70-75 | a full cache drops exactly the queue's head from map and queue, leaving one free slot |
| FifoCache.FIFOCache.Append | src/app_kvServer/cache/FIFOCache.java:77-80 | a new key with room for it is added to the map and queued last, and the invariant holds |
| FifoCache.FIFOCache.DeleteKV | src/app_kvServer/cache/FIFOCache.java:88-93 | removes the key from map and queue and decrements the counter; the invariant holds afterwards iff the key was cached |
| FifoCache.FIFOCache.Clear | src/app_kvServer/cache/FIFOCache.java:98-103 | empties map and queue and zeroes the counter |
| FifoCache.FifoTwoKeys | src/testing/ServerCacheTest.java:77-78 | after putting key1 and key2 into a cache of capacity 2, both are cached and key1 heads the queue |
| FifoCache.FifoEvictionScenario | src/testing/ServerCacheTest.java:72-88 | capacity 2: put key1, put key2, get key1, put key3 evicts key1 |
| LruCache.LRUCache.constructor | src/app_kvServer/cache/LRUCache.java:20-26 | a new cache is empty, has the given capacity and satisfies the invariant |
| LruCache.LRUCache.Now | src/app_kvServer/cache/LRUCache.java:53 | each clock reading is later than every earlier one |
| LruCache.LRUCache.GetCacheSize | src/app_kvServer/cache/LRUCache.java:32-34 | returns the configured capacity |
| LruCache.LRUCache.InCache | src/app_kvServer/cache/LRUCache.java:41-43 | true iff the key is cached; changes nothing |
| LruCache.LRUCache.GetKV | src/app_kvServer/cache/LRUCache.java:51-55 | returns the value (null when absent) and stamps the key later than every other key; a miss leaves a stamp for an uncached key, so the invariant survives iff the key was cached; the clock advances by one reading |
| LruCache.LRUCache.GetLruTime | src/app_kvServer/cache/LRUCache.java:87-95 | returns a key with the earliest stamp, and null iff there are no stamps |
| LruCache.LRUCache.PutKV | src/app_kvServer/cache/LRUCache.java:62-85 | keeps the invariant (counter = size, same keys in both maps, within capacity, distinct past stamps); an update refreshes value and stamp; an insert into a full cache evicts a least recently used key; the key ends with the latest stamp; the clock advances by one reading |
| LruCache.LRUCache.Refresh | src/app_kvServer/cache/LRUCache.java:64-69 | an update replaces the value and gives the key the latest stamp without eviction; the clock advances by one reading |
| LruCache.LRUCache.EvictLeastRecent | src/app_kvServer/cache/LRUCache.java:72-79 | a full cache drops exactly one key, the least recently used one, from both maps |
| LruCache.LRUCache.Insert | src/app_kvServer/cache/LRUCache.java:81-84 | a new key enters with the latest stamp and the counter grows by one; the clock advances by one reading |
| LruCache.LRUCache.DeleteKV | src/app_kvServer/cache/LRUCache.java:102-107 | removes the key from both maps and decrements the counter; the invariant holds afterwards iff the key was cached |
| LruCache.LRUCache.Clear | src/app_kvServer/cache/LRUCache.java:112-117 | empties both maps and zeroes the counter |
| LruCache.LruTwoKeys | src/testing/ServerCacheTest.java:37-38 | capacity 2: two puts fill the cache without eviction |
| LruCache.LruFilled | src/testing/ServerCacheTest.java:39 | getting key1 makes key2 the less recently used key |
| LruCache.LruEvictionScenario | src/testing/ServerCacheTest.java:31-48 | key2 is cached before the put of key3 and evicted by it |
| LfuCache.MoreUsedIsNotLeastUsed | src/app_kvServer/cache/LFUCache.java:86-94 | a key used strictly more often than another is never the eviction choice |
| LfuCache.LFUCache.constructor | src/app_kvServer/cache/LFUCache.java:19-25 | a new cache is empty, has the given capacity and satisfies the invariant |
| LfuCache.LFUCache.GetCacheSize | src/app_kvServer/cache/LFUCache.java:31-33 | returns the configured capacity |
| LfuCache.LFUCache.InCache | src/app_kvServer/cache/LFUCache.java:40-42 | true iff the key is cached; changes nothing |
| LfuCache.LFUCache.GetKV | src/app_kvServer/cache/LFUCache.java:50-54 | returns the value and increments the key's count by exactly one |
| LfuCache.LFUCache.GetLfuKey | src/app_kvServer/cache/LFUCache.java:86-94 | returns a key with the smallest count, and null iff there are no counts |
| LfuCache.LFUCache.PutKV | src/app_kvServer/cache/LFUCache.java:61-84 | keeps the invariant (counter = size, same keys, within capacity, every count at least 1); an update increments the count; an insert into a full cache evicts a key of minimal count; a new key starts at 1 |
| LfuCache.LFUCache.EvictLeastUsed | src/app_kvServer/cache/LFUCache.java:71-78 | a full cache drops exactly one key of minimal count from both maps |
| LfuCache.LFUCache.Insert | src/app_kvServer/cache/LFUCache.java:80-83 | a new key enters with count 1 and the counter grows by one |
| LfuCache.LFUCache.DeleteKV | src/app_kvServer/cache/LFUCache.java:101-106 | removes the key from both maps and decrements the counter; the invariant holds afterwards iff the key was cached |
| LfuCache.LFUCache.Clear | src/app_kvServer/cache/LFUCache.java:111-116 | empties both maps and zeroes the counter |
| LfuCache.LfuTwoKeys | src/testing/ServerCacheTest.java:56-57 | capacity 2: two puts fill the cache, each key with one use |
| LfuCache.LfuFilled | src/testing/ServerCacheTest.java:58-60 | after one get of key1 and two of key2 the counts are 2 and 3 |
| LfuCache.LfuEvictionScenario | src/testing/ServerCacheTest.java:50-69 | key1 is cached before the put of key3 and evicted by it |
| StrategyCache.Cache.constructor | src/app_kvServer/cached_storage/CachedStorage.java:36-47 | the strategy selects the one policy built, empty and with the given capacity |
| StrategyCache.Cache.GetCacheSize | src/app_kvServer/cache/ICache.java:6-10 | returns the configured capacity |
| StrategyCache.Cache.InCache | src/app_kvServer/cache/ICache.java:12-17 | true iff the key is cached; changes nothing |
| StrategyCache.Cache.Touched | src/app_kvServer/cache/ICache.java:19-26 | what a get of a cached key does to the policy's data: FIFO keeps its queue (FIFOCache.java:51-54), LRU stamps the key with the clock's current reading (LRUCache.java:53), LFU adds one to its count (LFUCache.java:52) |
| StrategyCache.Cache.GetKV | src/app_kvServer/cache/ICache.java:19-26 | for a key the caller knows is cached, returns its value and leaves the pairs as they are; the policy's data is updated as `Touched` says: FIFO keeps its queue, LRU gives the key the clock's current reading and advances the clock, LFU adds one to the key's count |
| StrategyCache.Cache.PutKV | src/app_kvServer/cache/ICache.java:28-33 | every policy's put meets the shared put contract and keeps the invariant |
| StrategyCache.Cache.DeleteKV | src/app_kvServer/cache/ICache.java:35-40 | removes the key; the invariant survives iff the key was cached |
| StrategyCache.Cache.Clear | src/app_kvServer/cache/ICache.java:42-45 | afterwards no key is cached |
| PersistentStorage.Lookup | src/app_kvServer/storage/Storage.java:47-59 | not found iff there is no file or it cannot be opened; a filesystem failure iff the file exists and opens but the read fails; otherwise the file's first line |
| PersistentStorage.LookupAfterStore | src/app_kvServer/storage/Storage.java:67-80 | after storing a one-line non-empty value, reading the key returns it |
| PersistentStorage.LookupOtherKey | src/app_kvServer/storage/Storage.java:69-79 | storing one key changes no other key's read |
| PersistentStorage.WriteOutcome | src/app_kvServer/storage/Storage.java:67-80 | "Unable to create key" iff the file is missing and cannot be created; otherwise not found (`FileNotFoundException`) iff the file cannot be opened for writing |
| PersistentStorage.Written | src/app_kvServer/storage/Storage.java:67-80 | only the key's file changes: it holds the value after a successful write, stays missing when it could not be created, and stays as it was, or empty if just created, when it could not be opened |
| PersistentStorage.WrittenWithoutFaults | src/app_kvServer/storage/Storage.java:67-80 | without faults a write succeeds and stores exactly the value |
| PersistentStorage.Storage.constructor | src/app_kvServer/storage/Storage.java:23-26 | opens the root directory with the files already there |
| PersistentStorage.Storage.InStorage | src/app_kvServer/storage/Storage.java:34-38 | true iff a file for the key exists; changes nothing |
| PersistentStorage.Storage.GetKV | src/app_kvServer/storage/Storage.java:47-59 | the result is `Lookup` of the directory: not found for an absent or unopenable file |
| PersistentStorage.Storage.PutKV | src/app_kvServer/storage/Storage.java:67-80 | the outcome is `WriteOutcome` and the new directory is `Written`: create the missing file, then open it for writing and overwrite it |
| PersistentStorage.Storage.DeleteKV | src/app_kvServer/storage/Storage.java:88-96 | not found iff the key is absent; a failure iff the delete fails; otherwise removes exactly that file |
| PersistentStorage.Storage.Clear | src/app_kvServer/storage/Storage.java:102-110 | succeeds iff no stored file is undeletable, and then nothing is left; a failure ends with FileSystemFailure, leaves an undeletable file, keeps every stored undeletable file, removes keys only, and leaves what remains unchanged |
| CachedStore.PutKeepsCoherent | src/app_kvServer/cached_storage/CachedStorage.java:106-112 | a write-through put of a one-line non-empty value keeps every cached pair in agreement with storage |
| CachedStore.DeleteKeepsCoherent | src/app_kvServer/KVServer.java:86-87 | deleting a key from both tiers keeps the cache in agreement with storage |
| CachedStore.ClearedStorageIsIncoherent | src/app_kvServer/cached_storage/CachedStorage.java:125-128 | clearing storage alone leaves a non-empty cache out of agreement with storage |
| CachedStore.ReadThrough | src/app_kvServer/cached_storage/CachedStorage.java:93-99 | the reference read: the cached value when the key is cached, and otherwise what storage's read returns, errors included |
| CachedStore.CoherentHitAgreesWithStorage | src/app_kvServer/cached_storage/CachedStorage.java:93-99 | on a coherent store a cache hit reads what storage would return |
| CachedStore.CachedStorage.constructor | src/app_kvServer/KVServer.java:41-42 | builds the cache the strategy names, empty, and storage under the given root directory with the existing files |
| CachedStore.CachedStorage.GetCacheStrategy | src/app_kvServer/cached_storage/CachedStorage.java:57-59 | returns the configured strategy |
| CachedStore.CachedStorage.GetCacheSize | src/app_kvServer/cached_storage/CachedStorage.java:65-67 | returns the cache's capacity |
| CachedStore.CachedStorage.InStorage | src/app_kvServer/cached_storage/CachedStorage.java:74-76 | delegates to storage; changes nothing |
| CachedStore.CachedStorage.InCache | src/app_kvServer/cached_storage/CachedStorage.java:83-85 | delegates to the cache; changes nothing |
| CachedStore.CachedStorage.GetKV | src/app_kvServer/cached_storage/CachedStorage.java:93-99 | the result is `ReadThrough`: a hit returns the cached value, a miss returns storage's result, errors included; the pairs in both tiers are unchanged; a hit updates the policy's recency or usage data as `Touched` says, and a miss leaves the cache untouched |
| CachedStore.CachedStorage.PutKV | src/app_kvServer/cached_storage/CachedStorage.java:106-112 | storage is written first, as `WriteOutcome` and `Written` say; a storage failure leaves the cache untouched, pairs and policy data alike (`unchanged(cache.Repr)`); on success the cache takes the pair under the put contract; coherence is kept |
| CachedStore.CachedStorage.DeleteKV | src/app_kvServer/KVServer.java:87 | storage first, then the cache; not found iff absent from storage; a failure leaves storage as it was and the cache untouched, pairs and policy data alike; on success the key leaves both tiers |
| CachedStore.CachedStorage.DropFromCache | src/app_kvServer/KVServer.java:87 | the cache half of that delete: afterwards the cache holds exactly its former pairs without the key, and storage is unchanged |
| CachedStore.CachedStorage.ClearCache | src/app_kvServer/cached_storage/CachedStorage.java:117-120 | empties only the cache |
| CachedStore.CachedStorage.ClearStorage | src/app_kvServer/cached_storage/CachedStorage.java:125-128 | clears only storage; the cache keeps its pairs; on failure, as `Storage.Clear` says: FileSystemFailure, an undeletable file remains, every stored undeletable file remains, keys only disappear and the surviving files keep their contents |
| Server.IsDeletion | src/app_kvServer/KVServer.java:86 | a put is a delete exactly when its value is null or empty |
| Server.PutStep | src/app_kvServer/KVServer.java:84-91 | the put's state relation: a deletion that passes removes the key from both tiers, one that fails changes nothing; a write changes storage as `Written` says, and the cache takes the pair under the put contract only if the write passed |
| Server.PutOutcome | src/app_kvServer/KVServer.java:84-91 | a null or empty value is a delete: not found iff the key is absent, a filesystem failure iff the delete fails; any other value ends as storage's write does |
| Server.PutOutcomeWithoutFaults | src/app_kvServer/KVServer.java:84-91 | without faults a put of a value always succeeds and a delete succeeds iff the key exists |
| Server.PutThenRead | src/app_kvServer/KVServer.java:79-91 | after a put of a value without faults, a read of the key returns that value from the cache, whatever the policy evicted, and storage holds it |
| Server.KVServer.constructor | src/app_kvServer/KVServer.java:39-43 | stores the port, has no host yet, and builds a cached storage rooted at "data" with the given strategy and capacity |
| Server.KVServer.GetPort | src/app_kvServer/KVServer.java:46-48 | returns the constructor's port |
| Server.KVServer.GetHostname | src/app_kvServer/KVServer.java:51-56 | null while there is no server socket |
| Server.KVServer.GetCacheStrategy | src/app_kvServer/KVServer.java:59-61 | passes through to the cached storage |
| Server.KVServer.GetCacheSize | src/app_kvServer/KVServer.java:64-66 | passes through to the cached storage |
| Server.KVServer.InStorage | src/app_kvServer/KVServer.java:69-71 | passes through; changes nothing |
| Server.KVServer.InCache | src/app_kvServer/KVServer.java:74-76 | passes through; changes nothing |
| Server.KVServer.GetKV | src/app_kvServer/KVServer.java:79-81 | the cached storage read, `ReadThrough` of both tiers; the pairs in both tiers and the capacity are unchanged; a hit updates the policy's recency or usage data as `Touched` says, and a miss leaves the cache untouched |
| Server.KVServer.PutKV | src/app_kvServer/KVServer.java:84-91 | a null or empty value deletes the key from both tiers, any other value is written through; the outcome is `PutOutcome` and the new state is as `PutStep` says; no other cached key changes value; a failed put or delete leaves the cache untouched, policy data included; coherence is kept |
| Server.KVServer.ClearCache | src/app_kvServer/KVServer.java:94-96 | empties the cache only |
| Server.KVServer.ClearStorage | src/app_kvServer/KVServer.java:99-101 | clears storage only; the cache keeps its pairs; on failure FileSystemFailure, an undeletable key remains, every stored undeletable key remains, keys only disappear and the surviving ones keep their values |
| Server.SelfInfoScenario | src/testing/ServerTest.java:29-39 | a fresh FIFO server of capacity 4 reports no host, its port, its strategy and its capacity |
| Server.PutGetScenario | src/testing/ServerTest.java:41-56 | a put of foo2=bar2 followed by a get returns bar2 |
| Server.ClearStorageScenario | src/testing/ServerTest.java:58-74 | a get after clearing storage still returns bar2 from the cache, where the test expects not found |
| Connection.GetResponse | src/app_kvServer/ClientConnection.java:142-166 | GET_SUCCESS with the request's key and the fetched value; otherwise GET_ERROR without a key, "Specified key not found" for not found and "Error while processing request" for any other failure |
| Connection.PutResponse | src/app_kvServer/ClientConnection.java:168-194 | on success, PUT_SUCCESS iff the key was not stored, PUT_UPDATE iff it was and the value is non-null, DELETE_SUCCESS iff it was and the value is null; on failure DELETE_ERROR for a null value, PUT_ERROR otherwise, without a key |
| Connection.DeleteOfMissingKeyIsAnError | src/app_kvServer/ClientConnection.java:175-183 | a delete of a key that is not stored is answered with DELETE_ERROR |
| Connection.RequestKey | src/common/serialization/Serialization.java:81-100 | a decoded GET or PUT carries the key of its second line |
| Connection.Feed | src/app_kvServer/ClientConnection.java:98-108 | one iteration of the read loop: a blank line hands the buffered lines on as a frame and empties the buffer; another line is buffered, or, with all 1024 slots taken, ends the connection; after that no line changes anything |
| Connection.Accumulate | src/app_kvServer/ClientConnection.java:94-109 | how the lines read become frames: `Feed` applied to each line in order, starting from no frames, an empty buffer and no overflow |
| Connection.FrameAnswer | src/app_kvServer/ClientConnection.java:116-194 | the reference answer to one frame: exactly one message iff the frame does not decode or is a GET or PUT, none otherwise |
| Connection.FrameStep | src/app_kvServer/ClientConnection.java:116-140 | how one frame changes both tiers: a decoded PUT as `Server.PutStep` says, any other frame not at all |
| Connection.Answers | src/app_kvServer/ClientConnection.java:97-109 | the answers to a sequence of frames: each frame's `FrameAnswer` against the state before it, in order |
| Connection.Steps | src/app_kvServer/ClientConnection.java:97-109 | each state follows from the one before by that frame's `FrameStep`, under the faults given for its number |
| Connection.AnswersIgnoreLaterViews | src/app_kvServer/ClientConnection.java:97-109 | the answers to the frames so far depend only on the states before them |
| Connection.AnswersSnoc | src/app_kvServer/ClientConnection.java:97-109 | one frame more adds that frame's answer, computed from the state before it, after the earlier answers |
| Connection.StepsSnoc | src/app_kvServer/ClientConnection.java:97-109 | handling one frame more from the last state extends the sequence of states |
| Connection.ReplayedSnoc | src/app_kvServer/ClientConnection.java:97-109 | handling one frame more from the last state extends the replay: the frame joins those handled, its step joins the states, and its answer follows the earlier answers |
| Connection.AnswersCount | src/app_kvServer/ClientConnection.java:116-140 | every frame that gets an answer gets exactly one, and no other frame gets one |
| Connection.AccumulateIsWellFormed | src/app_kvServer/ClientConnection.java:94-109 | no gathered frame or buffer holds a blank line or more than 1024 lines |
| Connection.OverflowIsFinal | src/app_kvServer/ClientConnection.java:106-107 | once a line finds the array full, no later line changes anything |
| Connection.AccumulateBuffers | src/app_kvServer/ClientConnection.java:105-108 | non-blank lines are buffered in order |
| Connection.AccumulateFramed | src/app_kvServer/ClientConnection.java:97-109 | frames sent each with its blank line are handed on exactly, in order, with nothing left over |
| Connection.AccumulateNext | src/app_kvServer/ClientConnection.java:97-109 | reading one more line feeds it to the accumulation of the lines before it |
| Connection.AccumulateDone | src/app_kvServer/ClientConnection.java:97-109 | once every line is read or a line overflowed, the accumulation of all the lines is the one reached so far |
| Connection.ClientGetIsRejected | src/app_kvServer/ClientConnection.java:98-103 | a GET as serialized arrives as the two-line frame status, key, which decoding rejects |
| Connection.ClientPutArrivesAsDelete | src/app_kvServer/ClientConnection.java:98-103 | a PUT with a value arrives as the three-line frame status, key, value, which decodes as a PUT with a null value |
| Connection.ClientConnection.constructor | src/app_kvServer/ClientConnection.java:45-49 | a new connection is open and has sent nothing |
| Connection.ClientConnection.SendResponse | src/app_kvServer/ClientConnection.java:196-205 | the response is appended to the output |
| Connection.ClientConnection.HandleGetRequest | src/app_kvServer/ClientConnection.java:142-166 | sends exactly the `GetResponse` to `ReadThrough` of both tiers; the pairs in both tiers and the capacity are unchanged; a hit updates the policy's recency or usage data as `Touched` says, and a miss leaves the cache untouched |
| Connection.ClientConnection.PerformPut | src/app_kvServer/ClientConnection.java:172-176 | samples whether the key is stored, then the outcome is `PutOutcome`, the new state is as `PutStep` says, and a failure leaves the cache untouched |
| Connection.ClientConnection.HandlePutRequest | src/app_kvServer/ClientConnection.java:168-194 | samples whether the key is stored before the write, then sends exactly the `PutResponse` to the put's outcome; the new state is as `PutStep` says; a failed put or delete leaves the cache untouched, policy data included |
| Connection.ClientConnection.PolicyEffect | src/app_kvServer/ClientConnection.java:116-166 | what a frame does beyond the pairs: a GET of a cached key touches the policy's data (CachedStorage.java:94-95), a PUT whose write or delete failed leaves the cache untouched (CachedStorage.java:108-111), and a frame that is neither a PUT nor such a GET leaves the server untouched |
| Connection.ClientConnection.HandleRequest | src/app_kvServer/ClientConnection.java:116-140 | sends exactly `FrameAnswer` of the frame and the state before it: the "Invalid request" GET_ERROR for a frame that does not decode, the GET or PUT answer, nothing for another status; the new state is as `FrameStep` says, so only a PUT changes the pairs; a GET of a cached key updates the policy's data as `Touched` says, a failed PUT leaves the cache untouched, and any frame other than a PUT leaves the server untouched (`PolicyEffect`) |
| Connection.ClientConnection.EndFrame | src/app_kvServer/ClientConnection.java:98-104 | the blank line: the filled slots are handed on as one frame with the faults for its number, answered, and the slots start over, the replay extended by that frame |
| Connection.ClientConnection.ReceiveLine | src/app_kvServer/ClientConnection.java:97-109 | one step of the read loop agrees with `Feed`: a blank line hands the filled slots on as one frame, answers it and empties the slots; another line fills the next slot or ends the connection; the frames, states and answers so far still replay |
| Connection.ClientConnection.ReadFrames | src/app_kvServer/ClientConnection.java:94-109 | the read loop: afterwards the frames handled are `Accumulate` of the lines, the connection is open iff no line overflowed the 1024 slots, and the answers sent replay those frames over the states the server went through |
| Connection.ClientConnection.HandleRequests | src/app_kvServer/ClientConnection.java:90-110 | the frames handed on are exactly `Accumulate` of the stream's lines; the connection stays open iff no line overflowed the 1024 slots; `views` starts at the state before and ends at the state after, each state follows from the one before by `FrameStep`, and the output grows by exactly `Answers` of the frames over those states, in order |
| Connection.UnknownStatusIsInvalid | src/common/serialization/Serialization.java:56-79 | a frame whose status line names no status does not decode |
| Connection.EmptyFrameIsInvalid | src/app_kvServer/ClientConnection.java:98-103 | a blank line with nothing buffered hands on the empty frame, which has no status line (Serialization.java:57 reads `lines[0]`); it is answered with the "Invalid request" GET_ERROR and changes nothing |
| Connection.UnknownStatusFrame | src/app_kvServer/ClientConnection.java:97-109 | the stream "X", blank line arrives as the single frame ["X"] |
| Connection.InvalidFrameScenario | src/app_kvServer/ClientConnection.java:116-127 | that stream is answered with exactly one message, the "Invalid request" GET_ERROR |
| Connection.PutAsDeleteAnswers | src/app_kvServer/ClientConnection.java:168-194 | the frame PUT, key, value handled against a state that stores the key deletes it and is answered DELETE_SUCCESS |
| Connection.ClientPutDeletesScenario | src/app_kvServer/ClientConnection.java:168-194 | a client's serialized PUT of foo=bar2 to a server storing foo is answered DELETE_SUCCESS, and foo is no longer stored |

## Left out

- Sockets, the accept loop, threads, `run`, `close`, `kill`,
  `initializeServer` and `main` are not modelled. The model handles one
  request at a time, so the unsynchronised sharing of the cache between
  connection threads is not captured.
- Logging is not modelled.
- Real file I/O (`File`, `PrintWriter`, `BufferedReader`, `mkdirs`) is
  replaced by a map field. Whether a call fails is a parameter, not an
  effect of the disk.
- `ClientConnection.run` ends the connection on an `IOException`. At end of
  stream, `run` calls `handleRequests` again with a new `BufferedReader`.
  The model reads one stream, once.
- Lines still sitting in the array when the stream ends are dropped, as in
  the code. Nothing more is said about them.
- `sendResponse` writes the serialized bytes. The model appends the message
  itself to `output`; `Serialize` defines the bytes.
- Only '\n' ends a line. `BufferedReader.readLine` also splits on "\r" and
  "\r\n", which the model does not.
- LfuCache.LFUCache.PutKV: usage counts are unbounded. Java's `int` would
  wrap after 2^31-1 uses; this is not modelled.
- LruCache.LRUCache.Now: the clock is a logical counter that always
  advances. `new Date()` has millisecond resolution, so two Java stamps can
  be equal and `before` then keeps the earlier-scanned key.
- LfuCache.LFUCache.GetKV requires the key to be cached. For any other key
  the source unboxes a missing count and throws a `NullPointerException`.
  Its only caller checks membership first.
- Serialization.Serialize requires a non-null status. Java's switch on a
  null enum throws. The `default` branch is dead code, since the switch
  lists all nine statuses.
- CachedStore.CachedStorage.constructor models the intended constructor.
  `KVServer` calls a three-argument constructor and a `deleteKV` that
  `CachedStorage.java` does not have: its constructor takes two arguments and
  has TODO bodies. The model takes the form the caller uses. It builds the
  cache the strategy names and storage under the root directory.
- CachedStore.CachedStorage.DeleteKV deletes from storage first, then from
  the cache. It asks the cache only when the cache holds the key. Asking
  unconditionally would break the cache's invariant, through the counter
  miscount described below.
- `ServerCacheTest.java:18-20` calls `new KVServer(port, 2, strategy)`. The
  server's constructor takes `(port, strategy, size)`. The scenarios use that
  signature. They drive the cache classes directly, which is what the
  server's put (through write-through) and its get (on a hit) reach.
- `Storage.clear` declares `throws Exception`, while `IStorage.clear` and
  `CachedStorage.clearStorage` declare none. The model returns the failure
  as an outcome.
- PersistentStorage.Storage.Clear deletes files in an unspecified order.
  On a failure the model states that an undeletable file remains. It does
  not state which of the deletable files were removed before the failure.
- Connection.ClientConnection.HandleRequests: the frame number used to look up
  faults exists only in the model. The source has no such counter.
- Connection.ClientConnection.HandleRequests states each cached state after a
  successful write only up to the shared put contract (`ICache.PutContract`).
  Which key a full cache evicts depends on its policy's queue, stamps or
  counts, which a `ServerView` leaves out. Each policy's own `PutKV` states
  its victim. For the same reason the states it gives do not show how a
  GET of a cached key updated the LRU stamps or LFU counts; each
  `HandleRequest` call states that update (`Touched`), but the loop does
  not carry it from one frame to the next.
- Connection.FrameAnswer and Connection.ClientConnection.HandleRequests
  answer an empty frame with the "Invalid request" GET_ERROR and keep the
  connection open. An empty frame is a blank line with nothing buffered:
  a stream that starts with a blank line, or two blank lines in a row.
  In the source, `unserialize` reads `lines[0]` of the zero-length array
  (Serialization.java:57) and throws ArrayIndexOutOfBoundsException. The
  model reads the catch at ClientConnection.java:121 as catching every
  decode error, the only reading under which the code compiles (see the
  inconsistencies below). Taken literally, that catch lets this exception
  escape, and the connection would end without an answer, as it does on an
  overflow of the 1024 slots. That ending is not modelled.
- Server.KVServer.constructor requires a capacity of at least 1, and so do
  the constructors of `CachedStore.CachedStorage`, `StrategyCache.Cache` and
  the three policies. The source accepts any `int`. With a capacity of 0 or
  less, the cache stays empty and every put of a value is written to storage
  and then throws in the cache. FIFO calls `removeFirst` on an empty queue.
  LRU and LFU pick a `null` victim, which their `Hashtable` lookups reject.
  The client gets PUT_ERROR while storage keeps the pair. That path is not
  modelled.

## Inconsistencies kept from the code

These are modelled as written and exhibited by lemmas or contracts.

| where | what | shown by |
|---|---|---|
| Serialization.java:81-100 with ClientConnection.java:98-103 | decoding counts the blank terminator as a line, but the connection strips it, so a client's GET is rejected and a client's PUT arrives as a delete | `Connection.ClientGetIsRejected`, `Connection.ClientPutArrivesAsDelete` |
| Serialization.java:119 | error responses take `lines[2]`, the blank terminator, as their text | `Serialization.ErrorResponseReadsBackWithoutText` |
| Serialization.java:30-32 | a PUT with a null value is written with the text "null" | `Serialization.DeleteRequestReadsBackAsNullText` |
| ClientConnection.java:121 | decode errors are caught as `IllegalArgumentException`, but `unserialize` throws a plain `Exception` | handled as the decode error path in `Connection.ClientConnection.HandleRequest` |
| ClientConnection.java:98-103 with Serialization.java:57 | a blank line with nothing buffered hands `unserialize` a zero-length array, whose `lines[0]` throws | read as a decode error like the one above: `Connection.EmptyFrameIsInvalid` |
| FIFOCache.java:91, LRUCache.java:105, LFUCache.java:104 | `deleteKV` decrements the counter even for an absent key | each `DeleteKV`: the invariant holds afterwards iff the key was cached |
| LRUCache.java:53 | a get of an uncached key still records a stamp | `LruCache.LRUCache.GetKV` |
| CachedStorage.java:96-98 | a miss does not fill the cache | `CachedStore.CachedStorage.GetKV` |
| ServerTest.java:58-74 | the test expects not found after clearing storage, but the cache still answers | `Server.ClearStorageScenario`, `CachedStore.ClearedStorageIsIncoherent` |
