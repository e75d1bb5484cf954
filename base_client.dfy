/** The constants and the conversion helper shared by every cache client (BaseCacheClient). */
module BaseClient {
  import opened Values

  /** Appended to a key to form the marker that says an extension of that key is running. */
  const CacheKeyIsExtendingSuffix: string := "_$@{EXT}@$"

  /** The expiry used by the overloads that take no minutes. */
  const DefaultCacheMinutes: int := 5

  /**
   * SafeConvert: DBNull converts to nothing; null converts to the default;
   * any other object is cast to `t`, falling back to the default when the cast fails.
   * The boolean is the "found" flag the Get methods return.
   */
  function SafeConvert(value: Value, defaultValue: Value, t: Ty): (r: (bool, Value))
    ensures r.0 <==> value != DbNull
    ensures r.1 == (if CastSucceeds(value, t) then value else defaultValue)
  {
    if value == DbNull then (false, defaultValue)
    else if value == Null then (true, defaultValue)
    else if CastSucceeds(value, t) then (true, value)
    else (true, defaultValue)
  }
}
