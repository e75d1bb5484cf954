/** NoneCacheClient: the placeholder tier that never stores anything and never finds anything. */
module NoneCache {
  import opened Values

  class NoneCacheClient {
    var slidingTimeToLive: int
    var isDisposed: bool

    constructor()
      ensures slidingTimeToLive == 0 && !isDisposed
    {
      slidingTimeToLive := 0;
      isDisposed := false;
    }

    /** Exists: no key ever exists. */
    function Exists(key: string): (r: bool)
      ensures !r
    {
      false
    }

    /** Get: never found, the value is the default of the requested type. */
    function Get(key: string, t: Ty): (r: (bool, Value))
      requires key != ""
      ensures !r.0 && r.1 == Default(t)
    {
      (false, Default(t))
    }

    /** Set: validates its arguments and stores nothing. */
    method Set(key: string, v: Value, minutes: int) returns (ok: bool)
      requires key != "" && minutes > 0
      ensures !ok
    {
      ok := false;
    }

    /** Add: validates its arguments and stores nothing; the class repeats Set's body here, as it repeats Exists in IsAboutToExpire. */
    method Add(key: string, v: Value, minutes: int) returns (added: bool)
      requires key != "" && minutes > 0
      ensures !added
    {
      added := false;
    }

    /** FlushAll: nothing to remove. */
    method FlushAll()
    {
    }

    /** IsAboutToExpire: nothing is ever about to expire. */
    function IsAboutToExpire(key: string): (r: bool)
      ensures !r
    {
      false
    }
  }
}
