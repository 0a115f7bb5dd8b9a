# clink-config client: tiered property lookup and Redis pairing listener

This project models, in Dafny, the core of the `clink-config-client` library:

- **`RedisPropertySource`**, a Spring property source that resolves a configuration item by
  looking in an in-memory `HashMap` (the local cache), then in the Redis hash `config:<env>`,
  then in a per-application `.properties` file under the user's home directory. A value found
  in Redis is written back to the local cache and to the file; a value found in the file is
  written back to the local cache only; Redis is never written. The file is loaded lazily into a
  working copy (`fileCacheProperties`) at most once, and every save rewrites the whole file
  from that working copy.
- **`RedisAsynListener`**, a Redis subscriber on `itemChannel` and `valueChannel` that buffers
  the latest message of each channel and, once both buffers hold non-empty text, writes the pair
  into the *same* local cache object and clears both buffers.

Files:

- `common.dfy` (module `Common`): `Option` (a Java reference that may be null), the Java
  exceptions that can escape, and `Completion` (normal return or exception).
- `settings.dfy` (module `Settings`): the constructor's string derivations: the system-property
  lookup with its defaults, the Redis hash name, `indexOf`/`substring` and the host/port split,
  and the cache file path.
- `local_cache.dfy` (module `Cache`): the shared `HashMap` as a class.
- `asyn_listener.dfy` (module `AsynListener`): the pure `Receive`/`Replay` specification of
  `onMessage`, and the `RedisAsynListener` class whose methods are proved against it; the static
  flag `single` is a `ListenerStatics` object shared by all listeners.
- `property_source.dfy` (module `PropertySource`): the pure `Resolve` specification of
  `getProperty` over a `Tiers` value (local cache, Redis, working copy, file), lemmas about single
  lookups and sequences of lookups and their interplay with the listener, and the
  `RedisPropertySource` class whose methods are proved against the specification.

Behaviour the model states as the code has it:

- An exception from `getResource` or `hget` is caught and reads exactly like a missing key, so
  the lookup goes on to the file.
- A file that cannot be opened makes `getProperty` throw: the `catch` block's `return null`
  (or the logged error on save) is overridden by the `finally` block calling `close()` on a
  reader or writer that is still `null`, so a `NullPointerException` escapes. On the save path
  this happens after the local cache was already updated and after the working copy was
  created (an empty one if nothing had been loaded).
- A save that happens before any load starts from an empty working copy and truncates the file:
  keys persisted by earlier runs are lost.
- The listener pairs whatever is buffered: a second key on `itemChannel` before a value arrives
  replaces the first, which is lost; an empty message blocks the write until it is replaced.
- An empty string found in Redis or in the file is cached like any other value.
- The listener implements this two-channel pairing protocol, not an eviction of the notified
  key; the model follows the code.

## Model

| member | source | states |
|---|---|---|
| Settings.RedisKey | clink-config-client/src/main/java/com/tinet/ccic/config/RedisPropertySource.java:72 | the hash name is `config:` followed by the environment, which stripping the prefix gives back |
| Settings.RedisKeyInjective | clink-config-client/src/main/java/com/tinet/ccic/config/RedisPropertySource.java:72 | two environments share a hash name exactly when they are equal |
| Settings.DefaultRedisKey | clink-config-client/src/main/java/com/tinet/ccic/config/RedisPropertySource.java:70-72 | with `config.environment` unset the hash is `config:dev` |
| Settings.DefaultServer | clink-config-client/src/main/java/com/tinet/ccic/config/RedisPropertySource.java:71-74 | with `config.server` unset the server is host `localhost`, port text `6379` |
| Settings.IndexOf | clink-config-client/src/main/java/com/tinet/ccic/config/RedisPropertySource.java:73-74 | `indexOf` returns -1 exactly when the character is absent, otherwise its first position |
| Settings.Substring | clink-config-client/src/main/java/com/tinet/ccic/config/RedisPropertySource.java:73-74 | `substring` returns normally exactly when `0 <= begin <= end <= length`, and then returns the characters from `begin` up to `end`; otherwise throws `StringIndexOutOfBoundsException` |
| Settings.SplitServer | clink-config-client/src/main/java/com/tinet/ccic/config/RedisPropertySource.java:73-74 | the split throws exactly when the address has no ':'; otherwise host + ":" + port text is the address and the host holds no ':' |
| Settings.SplitServerUnique | clink-config-client/src/main/java/com/tinet/ccic/config/RedisPropertySource.java:73-74 | conversely, any colon-free host, ':' and port text split back into that host and port text |
| Settings.CachePath | clink-config-client/src/main/java/com/tinet/ccic/config/RedisPropertySource.java:50-52 | a cache path exists exactly when the application identifier is non-null and non-empty, and is `<home>/clink/<appId>.properties` |
| Settings.CachePathInjective | clink-config-client/src/main/java/com/tinet/ccic/config/RedisPropertySource.java:50-52 | on one host, distinct application ids get distinct cache path strings (the file system may still map two paths to one file, for example on a case-insensitive disk) |
| Cache.LocalCache.Put | clink-config-client/src/main/java/com/tinet/ccic/config/RedisAsynListener.java:64 | `put` sets the key whether or not it was present, nothing else changes |
| Cache.LocalCache.Replace | clink-config-client/src/main/java/com/tinet/ccic/config/RedisAsynListener.java:62 | `replace` sets the key only when it is present, otherwise nothing changes |
| AsynListener.Receive | clink-config-client/src/main/java/com/tinet/ccic/config/RedisAsynListener.java:51-69 | one message: keys only grow; only the buffered item key can change; when both buffers are non-empty the pair is written and both buffers cleared, otherwise the cache is untouched and the message overwrites its channel's buffer; other channels, empty messages and a lone message after a write never write |
| AsynListener.ReplayNeverRemoves | clink-config-client/src/main/java/com/tinet/ccic/config/RedisAsynListener.java:51-69 | no sequence of messages removes a cache entry |
| AsynListener.ReplayKeepsUnpublishedKeys | clink-config-client/src/main/java/com/tinet/ccic/config/RedisAsynListener.java:54-65 | a key never buffered nor published on `itemChannel` keeps its value, or stays absent, over any sequence of messages |
| AsynListener.LaterItemWins | clink-config-client/src/main/java/com/tinet/ccic/config/RedisAsynListener.java:54-58 | of two keys on `itemChannel` before a value, the first is lost and the value goes to the second |
| AsynListener.PairingIgnoresOrder | clink-config-client/src/main/java/com/tinet/ccic/config/RedisAsynListener.java:54-67 | key then value, or value then key, both write the pair and leave the buffers empty |
| AsynListener.ListenerStatics.constructor | clink-config-client/src/main/java/com/tinet/ccic/config/RedisAsynListener.java:17 | the static flag `single` starts false |
| AsynListener.RedisAsynListener.constructor | clink-config-client/src/main/java/com/tinet/ccic/config/RedisAsynListener.java:23-26 | the listener holds the given cache, and both buffers start null |
| AsynListener.RedisAsynListener.OnMessage | clink-config-client/src/main/java/com/tinet/ccic/config/RedisAsynListener.java:51-69 | the new buffers and cache are those `Receive` gives for the old ones |
| AsynListener.RedisAsynListener.Run | clink-config-client/src/main/java/com/tinet/ccic/config/RedisAsynListener.java:35-39 | delivering a sequence of messages leaves the state `Replay` gives, and the subscription then ends as the connection does (an exception when it drops or cannot be opened) |
| AsynListener.RedisAsynListener.SingleThreadListenerAction | clink-config-client/src/main/java/com/tinet/ccic/config/RedisAsynListener.java:28-33 | when the shared flag is already set nothing changes; otherwise the subscription runs, and the flag is set only if `run` returned normally: an exception from `run` escapes with the flag still clear |
| PropertySource.RedisFetch | clink-config-client/src/main/java/com/tinet/ccic/config/RedisPropertySource.java:124-146 | a server that is down reads as a miss; otherwise the value is the hash field's, if any |
| PropertySource.FileLoad | clink-config-client/src/main/java/com/tinet/ccic/config/RedisPropertySource.java:178-220 | no appId: miss, no change; a loaded working copy answers without rereading; an unopenable file throws `NullPointerException` and changes nothing; a first load makes the file the working copy; nothing but the working copy changes |
| PropertySource.FileSave | clink-config-client/src/main/java/com/tinet/ccic/config/RedisPropertySource.java:230-264 | no appId: no-op; otherwise the working copy exists afterwards (empty if nothing was loaded) and, when the file can be written, holds the key, and a readable file is rewritten to equal it while an unreadable one stays unreadable; an unwritable file throws before the key is set |
| PropertySource.Resolve | clink-config-client/src/main/java/com/tinet/ccic/config/RedisPropertySource.java:86-115 | per branch: local hit returns it with no change; Redis hit caches locally and saves to file; Redis miss with no appId returns null unchanged; unopenable file throws; file hit caches locally only; Redis is never written; a returned value is in the local cache; the local cache only grows; a loaded working copy stays loaded; a file that cannot be read stays so, even when a save rewrites it |
| PropertySource.ResolveIdempotent | clink-config-client/src/main/java/com/tinet/ccic/config/RedisPropertySource.java:86-98 | after a value was returned, asking again returns it from the local cache and changes nothing |
| PropertySource.SaveBeforeLoadTruncates | clink-config-client/src/main/java/com/tinet/ccic/config/RedisPropertySource.java:236-246 | a Redis hit saved before any load leaves a readable file holding only that key (every other persisted key is lost) and an unreadable file unreadable |
| PropertySource.FileHoldsOnlyKeysSavedHere | clink-config-client/src/main/java/com/tinet/ccic/config/RedisPropertySource.java:236-246 | lookups that never reach the file tier, once anything was saved or loaded, leave a readable file equal to the working copy and holding exactly its starting keys plus the keys saved in this process; an unreadable file stays unreadable |
| PropertySource.DiskCopySurvivesRestart | clink-config-client/src/main/java/com/tinet/ccic/config/RedisPropertySource.java:91-107 | a value fetched from Redis is returned and saved; a fresh instance finds it in the file while Redis is down, unless the file cannot be read, in which case that lookup throws `NullPointerException` |
| PropertySource.LoadedCopyShadowsFile | clink-config-client/src/main/java/com/tinet/ccic/config/RedisPropertySource.java:184-211 | once the working copy is loaded, the file's contents change neither the result nor any other part of the state |
| PropertySource.ResolveAllNeverWritesRedis | clink-config-client/src/main/java/com/tinet/ccic/config/RedisPropertySource.java:86-115 | no sequence of lookups changes Redis or removes a local entry |
| PropertySource.NoAppIdNeverTouchesFile | clink-config-client/src/main/java/com/tinet/ccic/config/RedisPropertySource.java:178-234 | without an appId no sequence of lookups changes the file or the working copy, and none throws |
| PropertySource.ResolveAllIgnoresFileOnceLoaded | clink-config-client/src/main/java/com/tinet/ccic/config/RedisPropertySource.java:184-211 | once the working copy is loaded, the file is never read again: every later result is independent of its contents |
| PropertySource.PairedWriteServedLocally | clink-config-client/src/main/java/com/tinet/ccic/config/RedisPropertySource.java:86-89 | after the listener writes a pair (k, v), looking up k returns v from the local cache and changes nothing |
| PropertySource.PushedValueReplacesCached | clink-config-client/src/main/java/com/tinet/ccic/config/RedisAsynListener.java:51-69 | with `db.host` cached as `10.0.0.5`, the messages `db.host` and `10.0.0.9` make the next lookup return `10.0.0.9` |
| PropertySource.RedisPropertySource.constructor | clink-config-client/src/main/java/com/tinet/ccic/config/RedisPropertySource.java:44-83 | empty local cache, cache path, `config:<env>`, host/port split, nothing loaded, a file that does not exist created empty when possible while an existing one is left alone, and a listener sharing the local cache |
| PropertySource.RedisPropertySource.GetProperty | clink-config-client/src/main/java/com/tinet/ccic/config/RedisPropertySource.java:86-115 | result and new state are `Resolve`'s; a local hit changes nothing; a Redis hit is cached; a not-found leaves the cache; Redis is unchanged |
| PropertySource.RedisPropertySource.LoadPropertyFromRedis | clink-config-client/src/main/java/com/tinet/ccic/config/RedisPropertySource.java:124-146 | returns `RedisFetch`: any exception is a miss |
| PropertySource.RedisPropertySource.LoadPropertyFromLocalCache | clink-config-client/src/main/java/com/tinet/ccic/config/RedisPropertySource.java:155-157 | returns the cached value exactly when the key is cached |
| PropertySource.RedisPropertySource.SavePropertyToLocalCache | clink-config-client/src/main/java/com/tinet/ccic/config/RedisPropertySource.java:167-169 | the key is set in the local cache, nothing else changes |
| PropertySource.RedisPropertySource.LoadPropertyFromFileCache | clink-config-client/src/main/java/com/tinet/ccic/config/RedisPropertySource.java:178-220 | result and new working copy are `FileLoad`'s |
| PropertySource.RedisPropertySource.SavePropertyToFileCache | clink-config-client/src/main/java/com/tinet/ccic/config/RedisPropertySource.java:230-264 | result, new working copy and new file are `FileSave`'s |
| PropertySource.PublishThenLookup | clink-config-client/src/main/java/com/tinet/ccic/config/RedisPropertySource.java:82-89 | on the objects: a key and a value delivered to the constructor's listener are returned by the next `getProperty` of that key, which is then cached |
| Settings.SystemProperty | clink-config-client/src/main/java/com/tinet/ccic/config/RedisPropertySource.java:70-71 | a system property's value when it is set, otherwise the given default |
| PropertySource.HGet | clink-config-client/src/main/java/com/tinet/ccic/config/RedisPropertySource.java:129-130 | `getResource` throws exactly when Redis is down; otherwise `hget` returns the field of the hash when both exist and null otherwise |
| Cache.LocalCache.constructor | clink-config-client/src/main/java/com/tinet/ccic/config/RedisPropertySource.java:47 | the local cache starts empty |
| Cache.LocalCache.Get | clink-config-client/src/main/java/com/tinet/ccic/config/RedisPropertySource.java:156 | `get` returns a value exactly when the key is present, and then the key's value |
| Cache.LocalCache.ContainsKey | clink-config-client/src/main/java/com/tinet/ccic/config/RedisAsynListener.java:61 | `containsKey` holds exactly when `get` finds the key |
| AsynListener.Replay | clink-config-client/src/main/java/com/tinet/ccic/config/RedisAsynListener.java:38 | the messages of a subscription applied in order: none leaves the state alone, one is a single `onMessage`, and after any message no complete pair is left buffered |

## Left out

- Jedis: the connection pool and its configuration (RedisPropertySource.java:77-81), connections and `hget` are an abstract map of hashes with an up/down flag; a subscription is a finite sequence of `onMessage` calls followed by how it ends. Nothing here unsubscribes, so in the running system `subscribe` never returns normally: it throws `JedisConnectionException` when the connection drops, and `getResource` throws before any message when no connection can be opened.
- Concurrency: the thread started at RedisPropertySource.java:82 and the unsynchronised `HashMap` it shares; listener steps and lookups are interleaved only as whole sequential steps. That thread calls `run` directly, not `singleThreadListenerAction`.
- `java.util.Properties` text format (escaping, header, UTF-8 handling): the file is a map. An `IOException` from `load` or `store` after the file was opened (a partial read or write) and the `IllegalArgumentException` of a malformed escape are not modelled; failing to open the file is the only file error.
- The environment: `System.getProperty` is the pure `SystemProperty`, and the constructor takes its results (`env`, `url`) as parameters with the user's home directory and the file separator. `exists` is the constructor's `fileExists` flag, and `mkdirs` and `createNewFile` are one flag: a file that does not exist is created empty exactly when it can be written; a file that exists but cannot be read stays unreadable, also after a save rewrites it, so later loads from it throw `NullPointerException` (see `FileLoad`); what a save writes to such a file is not kept in the model, since no lookup can read it back.
- PropertySource.RedisPropertySource.constructor: requires a ':' in the server address, because a Dafny constructor cannot throw; `SplitServer` models the `StringIndexOutOfBoundsException`.
- PropertySource.RedisPropertySource.constructor: requires a non-null source and a non-empty name, because the Spring superclass constructor (RedisPropertySource.java:45) throws `IllegalArgumentException` otherwise and a Dafny constructor cannot throw; `CachePath` still models the null and empty application id. A name made only of whitespace, which Spring also rejects, is accepted.
- `Integer.parseInt` of the port: the port is kept as text, so a non-numeric port's `NumberFormatException` is not modelled.
- The Spring `PropertySource` base class and RedisPropertySourcesPlaceholderConfigurer.java (bean-factory wiring).
- Logging, including `onSubscribe`, which only logs.
- `null` keys and messages: keys, channels and messages are always strings.
