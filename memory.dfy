/**
 * MemoryCacheClient: the in-process tier over MemoryCache.Default. The cache
 * is a map from key to entry with an absolute expiry in seconds; an entry is
 * visible strictly before its expiry. Null is stored as a sentinel string, and
 * with a sliding time to live every Set also writes a tracker key that expires
 * that many minutes before the value.
 */
module Memory {
  import opened Values
  import opened BaseClient

  const TimeToLiveKeySuffix: string := "_$@{TTL}@$"
  const NullValueIndicator: string := "${<MEMORYNULLOBJECT>}$"

  datatype Entry = Entry(value: Value, expiresAt: int)

  type Store = map<string, Entry>

  /** MemoryCache.Contains: the key is present and not yet expired. */
  predicate Live(store: Store, key: string, now: int)
  {
    key in store && now < store[key].expiresAt
  }

  /** MemoryCache.Get: the stored object, or null when it is absent or expired. */
  function Lookup(store: Store, key: string, now: int): Value
  {
    if Live(store, key, now) then store[key].value else Null
  }

  /** The tracker key of `key`. */
  function TrackerKey(key: string): string
  {
    key + TimeToLiveKeySuffix
  }

  /** Get<T>(key, out value) on the store: absent is not found; the sentinel reads as null. */
  function Read(store: Store, key: string, t: Ty, now: int): (bool, Value)
  {
    var raw := Lookup(store, key, now);
    if raw == Null then (false, Default(t))
    else SafeConvert(if ToString(raw) == NullValueIndicator then Null else raw, Default(t), t)
  }

  /** Set<T>: overwrite the value (null as the sentinel) and, with a sliding time to live, the tracker. */
  function Write(store: Store, slidingTimeToLive: int, key: string, v: Value, minutes: int, now: int): Store
  {
    var expiresAt := now + 60 * minutes;
    var stored := store[key := Entry(if v == Null then Obj(StringTy, NullValueIndicator) else v, expiresAt)];
    if slidingTimeToLive > 0 then stored[TrackerKey(key) := Entry(One, expiresAt - 60 * slidingTimeToLive)]
    else stored
  }

  /** MemoryCache.Add: inserts only when nothing live is stored under the key. */
  function AddEntry(store: Store, key: string, e: Entry, now: int): (Store, bool)
  {
    if Live(store, key, now) then (store, false) else (store[key := e], true)
  }

  /** Add<T>: insert the value as given and, when added with a sliding time to live, the tracker. MemoryCache refuses null, so `v` is an object. */
  function Insert(store: Store, slidingTimeToLive: int, key: string, v: Value, minutes: int, now: int): (Store, bool)
    requires v != Null
  {
    var expiresAt := now + 60 * minutes;
    var (stored, added) := AddEntry(store, key, Entry(v, expiresAt), now);
    if slidingTimeToLive > 0 && added then
      (AddEntry(stored, TrackerKey(key), Entry(One, expiresAt - 60 * slidingTimeToLive), now).0, true)
    else (stored, added)
  }

  /** IsAboutToExpire: with a sliding time to live, the tracker of the key is gone. */
  predicate AboutToExpire(store: Store, slidingTimeToLive: int, key: string, now: int)
  {
    slidingTimeToLive > 0 && !Live(store, TrackerKey(key), now)
  }

  /** What Get reports for a value that Set stored: null and the sentinel text both read as null. */
  function Normalize(v: Value): Value
  {
    if v == Null || ToString(v) == NullValueIndicator then Null else v
  }

  lemma TrackerKeyDiffers(key: string)
    ensures TrackerKey(key) != key
  {
    assert |TrackerKey(key)| == |key| + |TimeToLiveKeySuffix|;
  }

  /** Until it expires, a value written by Set reads back through Get (null as found with the default). */
  lemma ReadAfterWrite(store: Store, slidingTimeToLive: int, key: string, v: Value, minutes: int, now: int, later: int, t: Ty)
    requires minutes > 0 && now <= later < now + 60 * minutes
    ensures Read(Write(store, slidingTimeToLive, key, v, minutes, now), key, t, later)
            == SafeConvert(Normalize(v), Default(t), t)
    ensures v != DbNull ==> Read(Write(store, slidingTimeToLive, key, v, minutes, now), key, t, later).0
  {
    TrackerKeyDiffers(key);
  }

  /** Once its expiry has passed, a written value is gone. */
  lemma ReadAfterExpiry(store: Store, slidingTimeToLive: int, key: string, v: Value, minutes: int, now: int, later: int, t: Ty)
    requires later >= now + 60 * minutes
    ensures Read(Write(store, slidingTimeToLive, key, v, minutes, now), key, t, later) == (false, Default(t))
  {
    TrackerKeyDiffers(key);
  }

  /** Set touches only the key and its tracker. */
  lemma WriteFrame(store: Store, slidingTimeToLive: int, key: string, v: Value, minutes: int, now: int, other: string)
    requires other != key && other != TrackerKey(key)
    ensures var s := Write(store, slidingTimeToLive, key, v, minutes, now);
            (other in s <==> other in store) && (other in store ==> s[other] == store[other])
  {
  }

  /** Add never replaces a live entry and then reports false. */
  lemma AddKeepsLiveEntry(store: Store, slidingTimeToLive: int, key: string, v: Value, minutes: int, now: int)
    requires Live(store, key, now) && v != Null
    ensures Insert(store, slidingTimeToLive, key, v, minutes, now) == (store, false)
  {
  }


  /**
   * The sliding window: after Set with a sliding time to live of `stt` minutes,
   * the key is about to expire exactly from `stt` minutes before its expiry on.
   */
  lemma AboutToExpireAfterWrite(store: Store, stt: int, key: string, v: Value, minutes: int, now: int, later: int)
    requires stt > 0
    ensures AboutToExpire(Write(store, stt, key, v, minutes, now), stt, key, later)
            <==> later >= now + 60 * (minutes - stt)
  {
    TrackerKeyDiffers(key);
  }

  /** Without a sliding time to live nothing is ever about to expire. */
  lemma NeverAboutToExpireWithoutSliding(store: Store, stt: int, key: string, now: int)
    requires stt <= 0
    ensures !AboutToExpire(store, stt, key, now)
  {
  }

  class MemoryCacheClient {
    /** The entries of MemoryCache.Default. */
    var store: Store
    var slidingTimeToLive: int
    var isDisposed: bool

    constructor(store: Store)
      ensures this.store == store && slidingTimeToLive == 0 && !isDisposed
    {
      this.store := store;
      slidingTimeToLive := 0;
      isDisposed := false;
    }

    /** Exists: the key is stored and has not expired. */
    predicate Exists(key: string, now: int)
      reads this
      requires key != ""
      ensures Exists(key, now) <==> key in store && now < store[key].expiresAt
    {
      Live(store, key, now)
    }

    /** Get<T>: a key that does not exist is not found with the default; an existing key is found unless it holds DBNull. */
    function Get(key: string, t: Ty, now: int): (r: (bool, Value))
      reads this
      requires key != ""
      ensures !Exists(key, now) ==> r == (false, Default(t))
      ensures r.0 <==> Exists(key, now) && store[key].value !in {Null, DbNull}
      ensures r.0 ==> r.1 == Default(t) || CastSucceeds(r.1, t)
    {
      Read(store, key, t, now)
    }

    method Set(key: string, v: Value, minutes: int, now: int) returns (ok: bool)
      requires key != "" && minutes > 0
      modifies this`store
      ensures ok && store == Write(old(store), slidingTimeToLive, key, v, minutes, now)
    {
      var expiresAt := now + 60 * minutes;
      if v == Null {
        store := store[key := Entry(Obj(StringTy, NullValueIndicator), expiresAt)];
      } else {
        store := store[key := Entry(v, expiresAt)];
      }
      if slidingTimeToLive > 0 {
        store := store[TrackerKey(key) := Entry(One, expiresAt - 60 * slidingTimeToLive)];
      }
      ok := true;
    }

    method Add(key: string, v: Value, minutes: int, now: int) returns (added: bool)
      requires key != "" && minutes > 0 && v != Null
      modifies this`store
      ensures (store, added) == Insert(old(store), slidingTimeToLive, key, v, minutes, now)
    {
      var expiresAt := now + 60 * minutes;
      added := !Live(store, key, now);
      if added {
        store := store[key := Entry(v, expiresAt)];
      }
      if slidingTimeToLive > 0 && added && !Live(store, TrackerKey(key), now) {
        store := store[TrackerKey(key) := Entry(One, expiresAt - 60 * slidingTimeToLive)];
      }
    }

    /** Removes the keys one by one from a snapshot of the key set. */
    method FlushAll()
      modifies this`store
      ensures store == map[]
    {
      var keys := store.Keys;
      while keys != {}
        invariant store.Keys == keys
        decreases |keys|
      {
        var k :| k in keys;
        store := store - {k};
        keys := keys - {k};
      }
      assert store.Keys == {};
    }

    /** IsAboutToExpire: with a sliding time to live, exactly when the key's tracker no longer exists. */
    predicate IsAboutToExpire(key: string, now: int)
      reads this
      requires key != ""
      ensures IsAboutToExpire(key, now) <==> slidingTimeToLive > 0 && !Exists(TrackerKey(key), now)
    {
      AboutToExpire(store, slidingTimeToLive, key, now)
    }
  }
}
