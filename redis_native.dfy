/**
 * RedisClientNullable: a Redis connection that can store null. A value travels
 * as the text its serializer produces; null travels as the serialized (and so
 * quoted) sentinel string, which Get recognises before deserializing.
 */
module RedisNative {
  import opened Wrappers
  import opened Text
  import opened Values

  const NullValueIndicator: string := "${<REDISNULLOBJECT>}$"
  const NullValueIndicatorWithQuotes: string := "\"${<REDISNULLOBJECT>}$\""

  /** IsNullableType: every reference type, and Nullable<T>. */
  predicate IsNullableType(t: Ty)
    ensures IsNullableType(t) <==> Default(t) == Null
  {
    !IsValueType(t) || t.NullableTy?
  }

  /** IsNumericType: the integer types and their Nullable forms. */
  predicate IsNumericType(t: Ty)
  {
    t.IntegerTy? || (t.NullableTy? && t.underlying.IntegerTy?)
  }

  function Quote(s: string): string { "\"" + s + "\"" }

  /** Drops the surrounding quotes of a quoted string; other text is taken as it is. */
  function Unquote(s: string): string
  {
    if |s| >= 2 && s[0] == '"' && s[|s| - 1] == '"' then s[1..|s| - 1] else s
  }

  /** The serializer's text for a value: strings quoted, booleans as true/false, bytes as they are, everything else by its textual form. */
  function Serialize(v: Value): (r: string)
    ensures WellFormed(v) && v.Obj? ==> Deserialize(r, v.ty) == v
  {
    match v
    case Null => "null"
    case DbNull => ""
    case Obj(ty, text) =>
      if ty == StringTy then
        assert Quote(text)[1..|Quote(text)| - 1] == text;
        Quote(text)
      else if ty == BoolTy then (if text == "True" then "true" else "false")
      else text
  }

  /** The deserializer: the inverse of Serialize for each requested type; text that is not a number reads as the default. */
  function Deserialize(raw: string, t: Ty): (r: Value)
    ensures r != DbNull
    ensures r == Null ==> t.NullableTy?
    ensures r.Obj? && ValidTy(t) ==> CastSucceeds(r, t)
  {
    match t
    case StringTy => Obj(StringTy, Unquote(raw))
    case BoolTy => if raw == "true" then Obj(BoolTy, "True") else if raw == "false" then Obj(BoolTy, "False") else Default(t)
    case IntegerTy(_, _) =>
      (match ChangeType(raw, t)
       case Some(v) => v
       case None => Default(t))
    case NullableTy(u) => if raw == "" || raw == "null" then Null else Deserialize(raw, u)
    case _ => Obj(t, raw)
  }

  /** Convert.ChangeType of a string to an integer type: a parse that fails on bad text and on overflow. */
  function ChangeType(raw: string, t: Ty): (r: Option<Value>)
    requires t.IntegerTy?
    ensures r.Some? <==> ParseInteger(raw).Some? && t.lo <= ParseInteger(raw).value <= t.hi
    ensures r.Some? ==> r.value.Obj? && r.value.ty == t && ParseInteger(r.value.text) == ParseInteger(raw)
  {
    match ParseInteger(raw)
    case Some(n) =>
      ParseIntegerOfIntToString(n);
      if t.lo <= n <= t.hi then Some(Obj(t, IntToString(n))) else None
    case None => None
  }

  /**
   * Get<T>(key, out value) over the raw text stored under the key (None when absent).
   * Only an absent key, or a non-empty text that does not convert to a
   * non-nullable integer type, is reported as not found; the value is always a T.
   */
  function Decode(raw: Option<string>, t: Ty): (r: (bool, Value))
    ensures !r.0 <==> raw.None? || (t != BytesTy && raw.value != NullValueIndicatorWithQuotes && |raw.value| > 0
                                    && t.IntegerTy? && ChangeType(raw.value, t).None?)
    ensures !r.0 ==> r.1 == Default(t)
    ensures t != BytesTy && ValidTy(t) ==> r.1 == Default(t) || CastSucceeds(r.1, t)
  {
    if t == BytesTy then
      (raw.Some?, if raw.Some? then Obj(BytesTy, raw.value) else Null)
    else if raw.None? then (false, Default(t))
    else if raw.value == NullValueIndicatorWithQuotes then (true, Default(t))
    else if |raw.value| > 0 && IsNumericType(t) && !IsNullableType(t) then
      match ChangeType(raw.value, t)
      case Some(v) => (true, v)
      case None => (false, Default(t))
    else (true, Deserialize(raw.value, t))
  }

  /** What the cache client writes for a value: null through SetAsNull, anything else serialized; a string equal to the sentinel collides with null. */
  function WireValue(v: Value): (r: string)
    ensures v == Null || v == Obj(StringTy, NullValueIndicator) ==> r == NullValueIndicatorWithQuotes
    ensures v.Obj? && v.ty == StringTy ==> (r == NullValueIndicatorWithQuotes <==> v.text == NullValueIndicator)
  {
    if v == Null then NullValueIndicatorWithQuotes
    else
      assert NullValueIndicatorWithQuotes == Quote(NullValueIndicator);
      assert v.Obj? && v.ty == StringTy ==> Quote(v.text)[1..|Quote(v.text)| - 1] == v.text;
      Serialize(v)
  }

  /** A value as the runtime can hold it: integers in range and in canonical form, booleans True/False, never a boxed Nullable. */
  predicate WellFormed(v: Value)
  {
    v.Obj? ==>
      match v.ty
      case IntegerTy(lo, hi) =>
        var p := ParseInteger(v.text);
        p.Some? && lo <= p.value <= hi && IntToString(p.value) == v.text
      case BoolTy => v.text == "True" || v.text == "False"
      case NullableTy(_) => false
      case _ => true
  }

  /** SetAsNull stores the sentinel string, which the serializer quotes into the marker Get looks for. */
  lemma NullMarkerIsSerializedSentinel()
    ensures Serialize(Obj(StringTy, NullValueIndicator)) == NullValueIndicatorWithQuotes
    ensures WireValue(Null) == NullValueIndicatorWithQuotes
  {
  }

  /**
   * Round trip: a value written by the cache client reads back as itself, and
   * null reads back as found with the default, as long as the value is read
   * as its own type and its text is not the marker.
   */
  lemma {:induction false} DecodeWireValue(v: Value, t: Ty)
    requires WellFormed(v) && v != DbNull
    requires v.Obj? ==> ReadableAs(v, t) && WireValue(v) != NullValueIndicatorWithQuotes
    requires v == Null ==> t != BytesTy
    ensures Decode(Some(WireValue(v)), t) == (true, if v == Null then Default(t) else v)
  {
    if v.Obj? && t == NullableTy(v.ty) {
      if v.ty.IntegerTy? {
        var n := ParseInteger(v.text).value;
        assert Serialize(v) == IntToString(n);
        assert Serialize(v)[0] != 'n';
      }
      assert Serialize(v) != "" && Serialize(v) != "null";
    }
  }

  /** A string equal to the sentinel text is indistinguishable from null once stored. */
  lemma SentinelStringReadsAsNull(t: Ty)
    requires t != BytesTy
    ensures Decode(Some(WireValue(Obj(StringTy, NullValueIndicator))), t) == (true, Default(t))
  {
    NullMarkerIsSerializedSentinel();
    assert WireValue(Obj(StringTy, NullValueIndicator)) == NullValueIndicatorWithQuotes;
  }

  /** The byte[] path has no marker check: a stored null reads back as the marker's bytes. */
  lemma NullReadAsBytesIsMarker()
    ensures Decode(Some(WireValue(Null)), BytesTy) == (true, Obj(BytesTy, NullValueIndicatorWithQuotes))
  {
  }

  datatype Entry = Entry(raw: string, expiresAt: int)

  type Data = map<string, Entry>

  /** The commands that change which master the node replicates. */
  datatype ReplicationCommand = ReplicaOf(host: string, port: int) | ReplicaOfNoOne

  predicate Live(data: Data, key: string, now: int)
  {
    key in data && now < data[key].expiresAt
  }

  /** GET: the raw text of a live key. */
  function RawValue(data: Data, key: string, now: int): Option<string>
  {
    if Live(data, key, now) then Some(data[key].raw) else None
  }

  /** SET with an expiry in seconds. */
  function Stored(data: Data, key: string, raw: string, seconds: int, now: int): Data
  {
    data[key := Entry(raw, now + seconds)]
  }

  /** SET NX with an expiry: only when the key is not live. */
  function StoredIfAbsent(data: Data, key: string, raw: string, seconds: int, now: int): (Data, bool)
  {
    if Live(data, key, now) then (data, false) else (Stored(data, key, raw, seconds, now), true)
  }

  /** TTL in seconds: what is left of a live key, -2 for a missing one. */
  function TimeToLive(data: Data, key: string, now: int): (r: int)
    ensures r < 0 <==> !Live(data, key, now)
  {
    if Live(data, key, now) then data[key].expiresAt - now else -2
  }

  /** Until it expires, what the cache client writes under a key decodes back to the value. */
  lemma ReadAfterStore(data: Data, key: string, v: Value, t: Ty, seconds: int, now: int, later: int)
    requires WellFormed(v) && v != DbNull
    requires v.Obj? ==> ReadableAs(v, t) && WireValue(v) != NullValueIndicatorWithQuotes
    requires v == Null ==> t != BytesTy
    requires now <= later < now + seconds
    ensures Decode(RawValue(Stored(data, key, WireValue(v), seconds, now), key, later), t)
            == (true, if v == Null then Default(t) else v)
  {
    DecodeWireValue(v, t);
  }

  class RedisClientNullable {
    /** The keys of the node, with their raw text and expiry. */
    var data: Data
    /** The replication commands the node has been sent, oldest first. */
    var replication: seq<ReplicationCommand>

    constructor(data: Data)
      ensures this.data == data && replication == []
    {
      this.data := data;
      replication := [];
    }

    /** Get<T>: a key that is not there is not found; one that is there is found unless the integer conversion fails. */
    function Get(key: string, t: Ty, now: int): (r: (bool, Value))
      reads this
      ensures !ContainsKey(key, now) ==> r == (false, Default(t))
      ensures ContainsKey(key, now) && !t.IntegerTy? ==> r.0
    {
      Decode(RawValue(data, key, now), t)
    }

    /** ContainsKey: exactly the keys TTL reports as having time left. */
    predicate ContainsKey(key: string, now: int)
      reads this
      ensures ContainsKey(key, now) <==> GetTimeToLive(key, now) >= 0
    {
      Live(data, key, now)
    }

    /** TTL in seconds: the time left until the key's expiry, or -2 for a key that is not there. */
    function GetTimeToLive(key: string, now: int): (r: int)
      reads this
      ensures r < 0 ==> r == -2
      ensures r >= 0 ==> key in data && now + r == data[key].expiresAt
    {
      TimeToLive(data, key, now)
    }

    method Set(key: string, v: Value, seconds: int, now: int) returns (ok: bool)
      modifies this`data
      ensures ok && data == Stored(old(data), key, Serialize(v), seconds, now)
    {
      data := data[key := Entry(Serialize(v), now + seconds)];
      ok := true;
    }

    method Add(key: string, v: Value, seconds: int, now: int) returns (added: bool)
      modifies this`data
      ensures (data, added) == StoredIfAbsent(old(data), key, Serialize(v), seconds, now)
    {
      added := !Live(data, key, now);
      if added {
        data := data[key := Entry(Serialize(v), now + seconds)];
      }
    }

    method SetAsNull(key: string, seconds: int, now: int) returns (ok: bool)
      modifies this`data
      ensures ok && data == Stored(old(data), key, WireValue(Null), seconds, now)
    {
      NullMarkerIsSerializedSentinel();
      ok := Set(key, Obj(StringTy, NullValueIndicator), seconds, now);
    }

    method AddAsNull(key: string, seconds: int, now: int) returns (added: bool)
      modifies this`data
      ensures (data, added) == StoredIfAbsent(old(data), key, WireValue(Null), seconds, now)
    {
      NullMarkerIsSerializedSentinel();
      added := Add(key, Obj(StringTy, NullValueIndicator), seconds, now);
    }

    method SlaveOf(host: string, port: int)
      modifies this`replication
      ensures replication == old(replication) + [ReplicaOf(host, port)]
    {
      replication := replication + [ReplicaOf(host, port)];
    }

    method SlaveOfNoOne()
      modifies this`replication
      ensures replication == old(replication) + [ReplicaOfNoOne]
    {
      replication := replication + [ReplicaOfNoOne];
    }
  }
}
