/** RedisSlaveInfo: the replication fields a replica reports through INFO, read tolerantly. */
module SlaveInfo {
  import opened Wrappers
  import opened Text

  datatype MasterLinkStatus = Up | Down

  datatype RedisSlaveInfo = RedisSlaveInfo(
    masterHost: string,
    masterPort: int,
    masterLinkStatus: MasterLinkStatus,
    masterLastIoSecondsAgo: int,
    masterLinkDownSinceSeconds: int)

  /** "host port", the form the arbiter table and the SLAVEOF command use. */
  function MasterHostAndPort(info: RedisSlaveInfo): (r: string)
    ensures !IsNullOrWhiteSpace(r)
  {
    HostAndPortNotWhiteSpace(info.masterHost, info.masterPort);
    HostAndPort(info.masterHost, info.masterPort)
  }

  /** The value under the key, or the empty string when it is missing. */
  function GetSafeValue(fields: map<string, string>, key: string): (r: string)
    ensures key !in fields ==> r == ""
    ensures key in fields ==> r == fields[key]
  {
    if key in fields then fields[key] else ""
  }

  /** The value under the key as a 32-bit integer, or 0 when it is missing or does not parse. */
  function GetSafeValueInt(fields: map<string, string>, key: string): (r: int)
    ensures key !in fields ==> r == 0
    ensures key in fields && TryParseInt32(fields[key]).Some? ==> r == TryParseInt32(fields[key]).value
    ensures key in fields && TryParseInt32(fields[key]).None? ==> r == 0
  {
    if key !in fields then 0
    else match TryParseInt32(fields[key])
      case Some(n) => n
      case None => 0
  }

  /** RedisSlaveInfo.Parse: every number fits in 32 bits, and the link is up exactly when the status field reads "up". */
  function Parse(fields: map<string, string>): (r: RedisSlaveInfo)
    ensures InInt32Range(r)
    ensures r.masterLinkStatus == Up <==> "master_link_status" in fields && fields["master_link_status"] == "up"
  {
    RedisSlaveInfo(
      GetSafeValue(fields, "master_host"),
      GetSafeValueInt(fields, "master_port"),
      if GetSafeValue(fields, "master_link_status") == "up" then Up else Down,
      GetSafeValueInt(fields, "master_last_io_seconds_ago"),
      GetSafeValueInt(fields, "master_link_down_since_seconds"))
  }

  /** The INFO fields a replica reports for the given state. */
  function Render(info: RedisSlaveInfo): map<string, string>
  {
    map[
      "master_host" := info.masterHost,
      "master_port" := IntToString(info.masterPort),
      "master_link_status" := if info.masterLinkStatus == Up then "up" else "down",
      "master_last_io_seconds_ago" := IntToString(info.masterLastIoSecondsAgo),
      "master_link_down_since_seconds" := IntToString(info.masterLinkDownSinceSeconds)]
  }

  predicate InInt32Range(info: RedisSlaveInfo)
  {
    Int32Min <= info.masterPort <= Int32Max
    && Int32Min <= info.masterLastIoSecondsAgo <= Int32Max
    && Int32Min <= info.masterLinkDownSinceSeconds <= Int32Max
  }

  /** Parsing what a replica reports gives back its state, including the -1 Redis reports for an unknown last I/O. */
  lemma ParseRender(info: RedisSlaveInfo)
    requires InInt32Range(info)
    ensures Parse(Render(info)) == info
  {
    TryParseInt32OfIntToString(info.masterPort);
    TryParseInt32OfIntToString(info.masterLastIoSecondsAgo);
    TryParseInt32OfIntToString(info.masterLinkDownSinceSeconds);
  }

  /** Only the five replication fields matter; anything else in the report is ignored. */
  lemma ParseIgnoresOtherFields(fields: map<string, string>, key: string, value: string)
    requires key !in {"master_host", "master_port", "master_link_status",
                      "master_last_io_seconds_ago", "master_link_down_since_seconds"}
    ensures Parse(fields[key := value]) == Parse(fields)
  {
  }

  /** An empty report reads as a replica of " 0" whose link is down. */
  lemma ParseEmpty()
    ensures Parse(map[]) == RedisSlaveInfo("", 0, Down, 0, 0)
  {
  }

}
