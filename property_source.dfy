/**
 * RedisPropertySource: the tiered lookup of a configuration item. The local
 * cache is consulted first, then the Redis hash `config:<env>`, then the file
 * cache; a value found lower down is written back to the tiers above it
 * (a Redis hit to the local cache and the file, a file hit to the local cache
 * only). Nothing is ever written to Redis.
 */
module PropertySource {
  import opened Common
  import opened Settings
  import opened Cache
  import opened AsynListener

  /**
   * Everything a lookup reads or writes, as one value. `file` is what a reader
   * of the cache file sees: `None` when it cannot be opened for reading. Such a
   * file may still be writable; a save then rewrites it on disk, and it stays
   * as unreadable as before.
   */
  datatype Tiers = Tiers(
    local: map<string, string>,                      // the shared local cache
    redisHashes: map<string, map<string, string>>,   // the Redis server: hash name to its fields
    redisUp: bool,                                   // false: getResource or hget throws
    redisKey: string,                                // the hash of this environment
    location: Option<string>,                        // fileCacheLocation
    working: Option<map<string, string>>,            // fileCacheProperties, loaded lazily
    file: Option<map<string, string>>,               // the persisted file; None: it cannot be opened for reading
    writable: bool)                                  // whether the file can be opened for writing

  /** What a call returns or throws, and the state it leaves behind. */
  datatype Step<T> = Step(result: Completion<T>, after: Tiers)

  /** `jedis.hget(hash, field)` on a server that is up or down. */
  function HGet(hashes: map<string, map<string, string>>, up: bool, hash: string, field: string)
    : (r: Completion<Option<string>>)
    ensures r.Abrupt? <==> !up
    ensures r.Abrupt? ==> r.exception == JedisException
    ensures r.Normal? ==> (r.value.Some? <==> hash in hashes && field in hashes[hash])
    ensures r.Normal? && r.value.Some? ==> r.value.value == hashes[hash][field]
  {
    if !up then Abrupt(JedisException)
    else if hash in hashes then Normal(Lookup(hashes[hash], field))
    else Normal(None)
  }

  /** `loadPropertyFromRedis`: any exception is caught and reads as a missing key. */
  function RedisFetch(t: Tiers, key: string): (r: Option<string>)
    ensures !t.redisUp ==> r == None
    ensures r.Some? <==> t.redisUp && t.redisKey in t.redisHashes && key in t.redisHashes[t.redisKey]
    ensures r.Some? ==> r.value == t.redisHashes[t.redisKey][key]
  {
    match HGet(t.redisHashes, t.redisUp, t.redisKey, key)
    case Normal(v) => v
    case Abrupt(_) => None
  }

  /** The working copy a save starts from: an empty `Properties` when nothing was loaded. */
  function WorkingOrEmpty(t: Tiers): map<string, string>
  {
    if t.working.Some? then t.working.value else map[]
  }

  /** The copy the file tier consults: the working copy once loaded, else the file. */
  function LoadedCopy(t: Tiers): Option<map<string, string>>
  {
    if t.working.Some? then t.working else t.file
  }

  /** Whether two states differ at most in the persisted file. */
  predicate SameButFile(a: Tiers, b: Tiers)
  {
    a.(file := None) == b.(file := None)
  }

  /** `loadPropertyFromFileCache`. */
  function FileLoad(t: Tiers, key: string): (r: Step<Option<string>>)
    // Without an application identifier the file tier always misses.
    ensures t.location.None? ==> r == Step(Normal(None), t)
    // Once loaded, the working copy answers and the file is not read again.
    ensures t.working.Some? && t.location.Some? ==> r == Step(Normal(Lookup(t.working.value, key)), t)
    // A file that cannot be opened: `close()` on the null reader throws.
    ensures r.result.Abrupt? <==> t.location.Some? && t.working.None? && t.file.None?
    ensures r.result.Abrupt? ==> r == Step(Abrupt(NullPointerException), t)
    // A first successful load makes the file's contents the working copy.
    ensures t.location.Some? && t.working.None? && t.file.Some? ==>
              r == Step(Normal(Lookup(t.file.value, key)), t.(working := t.file))
    // Loading touches nothing but the working copy.
    ensures r.after.(working := t.working) == t
  {
    if t.location.None? then Step(Normal(None), t)
    else if t.working.None? && t.file.None? then Step(Abrupt(NullPointerException), t)
    else
      var copy := LoadedCopy(t).value;
      Step(Normal(Lookup(copy, key)), t.(working := Some(copy)))
  }

  /** `savePropertyToFileCache`: set the key in the working copy and rewrite the whole file from it. */
  function FileSave(t: Tiers, key: string, value: string): (r: Step<()>)
    // Without an application identifier saving is a no-op.
    ensures t.location.None? ==> r == Step(Normal(()), t)
    // Otherwise the working copy exists afterwards; before any load it starts empty.
    ensures t.location.Some? && t.writable ==>
              r.result == Normal(())
              && r.after.working == Some(WorkingOrEmpty(t)[key := value])
              && r.after.file == (if t.file.Some? then r.after.working else None)
    // A file that cannot be opened for writing: `close()` on the null writer throws,
    // before the key is set.
    ensures t.location.Some? && !t.writable ==>
              r.result == Abrupt(NullPointerException)
              && r.after.working == Some(WorkingOrEmpty(t))
              && r.after.file == t.file
    // Saving touches nothing but the working copy and the file.
    ensures r.after.(working := t.working, file := t.file) == t
  {
    if t.location.None? then Step(Normal(()), t)
    else
      var base := WorkingOrEmpty(t);
      if !t.writable then Step(Abrupt(NullPointerException), t.(working := Some(base)))
      else
        var copy := base[key := value];
        Step(Normal(()), t.(working := Some(copy), file := if t.file.Some? then Some(copy) else None))
  }

  /** `getProperty`, as a function of the state before the call. */
  function Resolve(t: Tiers, key: string): (r: Step<Option<string>>)
    // A local hit returns the cached value and changes nothing.
    ensures key in t.local ==> r == Step(Normal(Some(t.local[key])), t)
    // A Redis hit is cached locally and saved to the file, then returned.
    ensures key !in t.local && RedisFetch(t, key).Some? ==>
              var v := RedisFetch(t, key).value;
              && r.after.local == t.local[key := v]
              && r.result == (if t.location.Some? && !t.writable then Abrupt(NullPointerException)
                              else Normal(Some(v)))
              && r.after.working == (if t.location.None? then t.working
                                     else if t.writable then Some(WorkingOrEmpty(t)[key := v])
                                     else Some(WorkingOrEmpty(t)))
              && r.after.file == (if t.location.Some? && t.writable && t.file.Some? then r.after.working else t.file)
    // A Redis miss (or failure) with no application identifier: not found, nothing changes.
    ensures key !in t.local && RedisFetch(t, key).None? && t.location.None? ==>
              r == Step(Normal(None), t)
    // A Redis miss when the file has to be loaded and cannot be opened: the call throws.
    ensures key !in t.local && RedisFetch(t, key).None? && t.location.Some? && LoadedCopy(t).None? ==>
              r == Step(Abrupt(NullPointerException), t)
    // A Redis miss answered by the file tier: a hit is cached locally (only), a miss changes
    // nothing but the working copy.
    ensures key !in t.local && RedisFetch(t, key).None? && t.location.Some? && LoadedCopy(t).Some? ==>
              var copy := LoadedCopy(t).value;
              && r.result == Normal(Lookup(copy, key))
              && r.after == t.(local := if key in copy then t.local[key := copy[key]] else t.local,
                               working := Some(copy))
    // Redis is never written, and a returned value is always in the local cache afterwards.
    ensures r.after.redisHashes == t.redisHashes && r.after.redisUp == t.redisUp
    ensures r.after.redisKey == t.redisKey && r.after.location == t.location && r.after.writable == t.writable
    ensures r.result.Normal? && r.result.value.Some? ==> r.after.local == t.local[key := r.result.value.value]
    // The local cache only grows, a loaded working copy stays loaded, and a file that
    // cannot be read stays so.
    ensures t.local.Keys <= r.after.local.Keys
    ensures t.working.Some? ==> r.after.working.Some?
    ensures t.file.None? ==> r.after.file.None?
  {
    if key in t.local then Step(Normal(Some(t.local[key])), t)
    else match RedisFetch(t, key)
      case Some(v) =>
        var saved := FileSave(t.(local := t.local[key := v]), key, v);
        Step(if saved.result.Abrupt? then Abrupt(saved.result.exception) else Normal(Some(v)), saved.after)
      case None =>
        var loaded := FileLoad(t, key);
        if loaded.result.Normal? && loaded.result.value.Some? then
          Step(loaded.result, loaded.after.(local := t.local[key := loaded.result.value.value]))
        else loaded
  }

  /** Once a key has been returned, asking again returns the same value from the local cache. */
  lemma ResolveIdempotent(t: Tiers, key: string)
    requires Resolve(t, key).result.Normal? && Resolve(t, key).result.value.Some?
    ensures var after := Resolve(t, key).after;
            Resolve(after, key) == Step(Resolve(t, key).result, after)
  {
  }

  /**
   * A save that comes before any load starts from an empty working copy: the
   * file afterwards holds only the saved key, and whatever it held is lost.
   */
  lemma SaveBeforeLoadTruncates(t: Tiers, key: string)
    requires key !in t.local && RedisFetch(t, key).Some?
    requires t.location.Some? && t.writable && t.working.None?
    ensures Resolve(t, key).after.file == (if t.file.Some? then Some(map[key := RedisFetch(t, key).value]) else None)
    ensures t.file.Some? ==> forall k :: k in t.file.value && k != key ==> k !in Resolve(t, key).after.file.value
  {
  }

  /**
   * A value fetched from Redis and saved to the file is found in the file by a
   * new instance (empty local cache, nothing loaded) while Redis is down. A
   * file that can be written but not read is rewritten all the same, and the
   * new instance's lookup throws.
   */
  lemma DiskCopySurvivesRestart(t: Tiers, key: string, local: map<string, string>)
    requires key !in t.local && RedisFetch(t, key).Some?
    requires t.location.Some? && t.writable
    requires key !in local
    ensures Resolve(t, key).result == Normal(RedisFetch(t, key))
    ensures var restarted := Resolve(t, key).after.(local := local, redisUp := false, working := None);
            Resolve(restarted, key).result
              == if t.file.Some? then Normal(RedisFetch(t, key)) else Abrupt(NullPointerException)
  {
  }

  /**
   * Once the working copy is loaded, the file's contents no longer matter to
   * any lookup: the file is read at most once per instance.
   */
  lemma LoadedCopyShadowsFile(a: Tiers, b: Tiers, key: string)
    requires SameButFile(a, b) && a.working.Some?
    ensures Resolve(a, key).result == Resolve(b, key).result
    ensures SameButFile(Resolve(a, key).after, Resolve(b, key).after)
    ensures Resolve(a, key).after.working.Some?
  {
  }

  /** A run of lookups, as `getProperty` called on each key in turn. */
  datatype Run = Run(results: seq<Completion<Option<string>>>, after: Tiers)

  function ResolveAll(t: Tiers, keys: seq<string>): (r: Run)
    ensures |r.results| == |keys|
    decreases |keys|
  {
    if keys == [] then Run([], t)
    else
      var first := Resolve(t, keys[0]);
      var rest := ResolveAll(first.after, keys[1..]);
      Run([first.result] + rest.results, rest.after)
  }

  /** No sequence of lookups writes to Redis, and none removes a local entry. */
  lemma {:induction false} ResolveAllNeverWritesRedis(t: Tiers, keys: seq<string>)
    ensures ResolveAll(t, keys).after.redisHashes == t.redisHashes
    ensures ResolveAll(t, keys).after.redisUp == t.redisUp
    ensures t.local.Keys <= ResolveAll(t, keys).after.local.Keys
    decreases |keys|
  {
    if keys != [] {
      ResolveAllNeverWritesRedis(Resolve(t, keys[0]).after, keys[1..]);
    }
  }

  /** Without an application identifier, no sequence of lookups touches the file tier. */
  lemma {:induction false} NoAppIdNeverTouchesFile(t: Tiers, keys: seq<string>)
    requires t.location.None?
    ensures ResolveAll(t, keys).after.file == t.file
    ensures ResolveAll(t, keys).after.working == t.working
    ensures forall i :: 0 <= i < |keys| ==> ResolveAll(t, keys).results[i].Normal?
    decreases |keys|
  {
    if keys != [] {
      NoAppIdNeverTouchesFile(Resolve(t, keys[0]).after, keys[1..]);
    }
  }

  /** Once loaded, the working copy decides every later lookup, whatever the file holds. */
  lemma {:induction false} ResolveAllIgnoresFileOnceLoaded(a: Tiers, b: Tiers, keys: seq<string>)
    requires SameButFile(a, b) && a.working.Some?
    ensures ResolveAll(a, keys).results == ResolveAll(b, keys).results
    ensures SameButFile(ResolveAll(a, keys).after, ResolveAll(b, keys).after)
    decreases |keys|
  {
    if keys != [] {
      LoadedCopyShadowsFile(a, b, keys[0]);
      ResolveAllIgnoresFileOnceLoaded(Resolve(a, keys[0]).after, Resolve(b, keys[0]).after, keys[1..]);
    }
  }

  /**
   * Lookups that never reach the file tier leave, once anything has been saved
   * or loaded, a readable file holding exactly the working copy it started from
   * plus the keys saved in this process: whatever else it held before the
   * first save is gone. A file that cannot be read stays so.
   */
  lemma {:induction false} FileHoldsOnlyKeysSavedHere(t: Tiers, keys: seq<string>)
    requires t.location.Some? && t.writable
    requires forall k :: k in keys ==> k in t.local || RedisFetch(t, k).Some?
    requires t.working.Some? && t.file.Some? ==> t.file == t.working
    ensures t.file.None? ==> ResolveAll(t, keys).after.file.None?
    ensures var after := ResolveAll(t, keys).after;
            t.file.Some? && (t.working.Some? || exists k :: k in keys && k !in t.local) ==>
              && after.working.Some? && after.file == after.working
              && after.working.value.Keys == WorkingOrEmpty(t).Keys + (set k | k in keys && k !in t.local)
    decreases |keys|
  {
    if keys != [] {
      var next := Resolve(t, keys[0]).after;
      forall k | k in keys[1..]
        ensures k in next.local || RedisFetch(next, k).Some?
      {
        assert RedisFetch(next, k) == RedisFetch(t, k);
      }
      FileHoldsOnlyKeysSavedHere(next, keys[1..]);
      if t.file.Some? && (t.working.Some? || exists k :: k in keys && k !in t.local) {
        if keys[0] in t.local {
          assert next == t;
          assert (set k | k in keys[1..] && k !in t.local) == (set k | k in keys && k !in t.local);
        } else {
          var v := RedisFetch(t, keys[0]).value;
          assert next.local == t.local[keys[0] := v];
          assert WorkingOrEmpty(next).Keys == WorkingOrEmpty(t).Keys + {keys[0]};
          assert WorkingOrEmpty(t).Keys + {keys[0]} + (set k | k in keys[1..] && k !in next.local)
              == WorkingOrEmpty(t).Keys + (set k | k in keys && k !in t.local);
        }
      }
    }
  }

  /**
   * The listener and the lookups share one cache: after the listener writes a
   * pair (k, v), looking up k returns v from the local cache and changes nothing,
   * whatever Redis and the file hold.
   */
  lemma PairedWriteServedLocally(t: Tiers, s: ListenerState, m: Message)
    requires s.cache == t.local && Paired(Buffer(s.buffers, m))
    ensures var k := Buffer(s.buffers, m).item.value;
            var t' := t.(local := Receive(s, m).cache);
            Resolve(t', k) == Step(Normal(Buffer(s.buffers, m).value), t')
  {
  }

  /**
   * While the local cache holds "db.host" = "10.0.0.5", the messages
   * "db.host" on itemChannel and "10.0.0.9" on valueChannel make the next
   * lookup return "10.0.0.9", without Redis.
   */
  lemma PushedValueReplacesCached(t: Tiers)
    requires t.local == map["db.host" := "10.0.0.5"]
    ensures var s := Replay(ListenerState(Empty, t.local),
                            [Message(ItemChannel, "db.host"), Message(ValueChannel, "10.0.0.9")]);
            var t' := t.(local := s.cache);
            Resolve(t', "db.host") == Step(Normal(Some("10.0.0.9")), t')
  {
    PairingIgnoresOrder(t.local, "db.host", "10.0.0.9");
  }

  class RedisPropertySource {
    const name: string
    const localCache: LocalCache
    const fileCacheLocation: Option<string>
    var fileCacheProperties: Option<map<string, string>>
    const redisKey: string
    const redisHost: string
    const redisPort: string
    /** The listener the constructor starts on its own thread, sharing `localCache`. */
    const listener: RedisAsynListener

    // The environment: the Redis server and the cache file.
    var redisHashes: map<string, map<string, string>>
    var redisUp: bool
    var cacheFile: Option<map<string, string>>
    var fileWritable: bool

    /** The instance and its environment as one value, the argument of `Resolve`. */
    ghost function Snapshot(): Tiers
      reads this, localCache
    {
      Tiers(localCache.entries, redisHashes, redisUp, redisKey,
            fileCacheLocation, fileCacheProperties, cacheFile, fileWritable)
    }

    /**
     * `env` and `url` are the values of the system properties
     * `config.environment` and `config.server` (see `SystemProperty`); they,
     * the user's home directory, the file separator, the Redis server and the
     * cache file are passed in; `fileExists` says whether the file is on disk,
     * which it is whenever it can be read. The superclass rejects a null
     * source and a name without text, and the server address must contain a
     * ':' (otherwise `substring` throws, see `SplitServer`).
     */
    constructor (name: string, source: Option<string>, env: string, url: string,
                 userHome: string, separator: string,
                 redisHashes: map<string, map<string, string>>, redisUp: bool,
                 cacheFile: Option<map<string, string>>, fileExists: bool, fileWritable: bool,
                 statics: ListenerStatics)
      requires source.Some? && name != ""
      requires cacheFile.Some? ==> fileExists
      requires ':' in url
      ensures fresh(localCache) && localCache.entries == map[]
      ensures fileCacheLocation == CachePath(source, userHome, separator)
      ensures fileCacheProperties == None
      ensures redisKey == RedisKey(env)
      ensures SplitServer(url) == Normal((redisHost, redisPort))
      ensures fresh(listener) && listener.cache == localCache && listener.statics == statics
      ensures listener.item == None && listener.value == None
      ensures this.redisHashes == redisHashes && this.redisUp == redisUp && this.fileWritable == fileWritable
      // A missing cache file is created empty when it can be; an existing one is left as it is.
      ensures this.cacheFile == (if fileCacheLocation.Some? && !fileExists && fileWritable
                                 then Some(map[]) else cacheFile)
    {
      this.name := name;
      var location := CachePath(source, userHome, separator);
      fileCacheLocation := location;
      this.cacheFile := if location.Some? && !fileExists && fileWritable then Some(map[]) else cacheFile;
      redisKey := RedisKey(env);
      var hostPort := SplitServer(url);
      redisHost, redisPort := hostPort.value.0, hostPort.value.1;
      this.redisHashes := redisHashes;
      this.redisUp := redisUp;
      this.fileWritable := fileWritable;
      fileCacheProperties := None;
      var cache := new LocalCache();
      localCache := cache;
      listener := new RedisAsynListener(cache, statics);
    }

    /** `getProperty`: one postcondition per tier the lookup stops at. */
    method GetProperty(key: string) returns (r: Completion<Option<string>>)
      modifies this, localCache
      ensures Step(r, Snapshot()) == Resolve(old(Snapshot()), key)
      ensures old(key in localCache.entries) ==>
                r == Normal(Some(old(localCache.entries[key]))) && Snapshot() == old(Snapshot())
      ensures old(key !in localCache.entries && RedisFetch(Snapshot(), key).Some?) ==>
                localCache.entries == old(localCache.entries)[key := old(RedisFetch(Snapshot(), key).value)]
      ensures old(key !in localCache.entries && RedisFetch(Snapshot(), key).None?) && r == Normal(None) ==>
                localCache.entries == old(localCache.entries)
      ensures redisHashes == old(redisHashes) && redisUp == old(redisUp)
    {
      var value := LoadPropertyFromLocalCache(key);
      if value.None? {
        value := LoadPropertyFromRedis(key);
        if value.Some? {
          SavePropertyToLocalCache(key, value.value);
          var saved := SavePropertyToFileCache(key, value.value);
          if saved.Abrupt? {
            return Abrupt(saved.exception);
          }
        } else {
          var loaded := LoadPropertyFromFileCache(key);
          if loaded.Abrupt? {
            return Abrupt(loaded.exception);
          }
          value := loaded.value;
          if value.Some? {
            SavePropertyToLocalCache(key, value.value);
          }
        }
      }
      return Normal(value);
    }

    /** `loadPropertyFromRedis`. */
    method LoadPropertyFromRedis(key: string) returns (v: Option<string>)
      ensures v == RedisFetch(Snapshot(), key)
    {
      v := None;
      var reply := HGet(redisHashes, redisUp, redisKey, key);
      if reply.Normal? {
        v := reply.value;
      }
    }

    /** `loadPropertyFromLocalCache`. */
    method LoadPropertyFromLocalCache(key: string) returns (v: Option<string>)
      ensures v.Some? <==> key in localCache.entries
      ensures v.Some? ==> v.value == localCache.entries[key]
    {
      v := localCache.Get(key);
    }

    /** `savePropertyToLocalCache`. */
    method SavePropertyToLocalCache(key: string, value: string)
      modifies localCache
      ensures localCache.entries == old(localCache.entries)[key := value]
    {
      localCache.Put(key, value);
    }

    /** `loadPropertyFromFileCache`. */
    method LoadPropertyFromFileCache(key: string) returns (r: Completion<Option<string>>)
      modifies this`fileCacheProperties
      ensures Step(r, Snapshot()) == FileLoad(old(Snapshot()), key)
    {
      if fileCacheLocation.None? {
        return Normal(None);
      }
      if fileCacheProperties.None? {
        if cacheFile.None? {
          // Opening the file throws; the `finally` block then calls close() on the null reader.
          return Abrupt(NullPointerException);
        }
        fileCacheProperties := cacheFile;
      }
      return Normal(Lookup(fileCacheProperties.value, key));
    }

    /** `savePropertyToFileCache`. */
    method SavePropertyToFileCache(key: string, value: string) returns (r: Completion<()>)
      modifies this`fileCacheProperties, this`cacheFile
      ensures Step(r, Snapshot()) == FileSave(old(Snapshot()), key, value)
    {
      if fileCacheLocation.None? {
        return Normal(());
      }
      if fileCacheProperties.None? {
        fileCacheProperties := Some(map[]);
      }
      if !fileWritable {
        // Opening the file throws; the `finally` block then calls close() on the null writer.
        return Abrupt(NullPointerException);
      }
      fileCacheProperties := Some(fileCacheProperties.value[key := value]);
      // `store` rewrites the whole file (append = false) from the working copy;
      // a file that cannot be read stays unreadable.
      if cacheFile.Some? {
        cacheFile := fileCacheProperties;
      }
      return Normal(());
    }
  }

  /**
   * The listener thread and a lookup, interleaved as whole steps on the one
   * shared cache: after `k` on itemChannel and `v` on valueChannel, looking up
   * `k` returns `v` from the local cache.
   */
  method PublishThenLookup(src: RedisPropertySource, k: string, v: string)
    returns (r: Completion<Option<string>>)
    requires src.listener.cache == src.localCache
    requires src.listener.item == None && src.listener.value == None
    requires k != "" && v != ""
    modifies src, src.localCache, src.listener
    ensures r == Normal(Some(v))
    ensures src.localCache.entries == old(src.localCache.entries)[k := v]
    ensures src.listener.item == None && src.listener.value == None
  {
    src.listener.OnMessage(ItemChannel, k);
    src.listener.OnMessage(ValueChannel, v);
    r := src.GetProperty(k);
  }
}
