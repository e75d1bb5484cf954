/**
 * RedisCacheClient and RedisCacheServer. The client reads from one fixed
 * replica (the reader) and writes to a swappable master (the writer): a write
 * goes to the writer with one retry and, when both attempts throw, escalates
 * to the server's failover; it is also written best-effort to the reader. The
 * server runs the failover and the startup check of the Failover module
 * against its own guard fields and arbiter table, the client's writer
 * address and the reader's replication commands.
 */
module RedisCache {
  import opened Wrappers
  import opened Text
  import opened Values
  import opened RedisNative
  import opened SlaveInfo
  import opened Failover

  /** One attempt of a remote command: it completed with the command's result, or it threw. */
  datatype Attempt = Completed(result: bool) | Threw

  /** A command sent to the writer. */
  datatype RemoteOp =
    | SetOp(key: string, raw: string, seconds: int)
    | AddOp(key: string, raw: string, seconds: int)
    | FlushAllOp

  /** A command that reached the writer at host:port. */
  datatype RemoteCommand = RemoteCommand(host: string, port: int, op: RemoteOp)

  /** The outside world during one write: whether the reader fails, the two attempts at the writer, and the failover's answers. */
  datatype RedisIo = RedisIo(readerFails: bool, firstTry: Attempt, retry: Attempt, failover: FailoverIo)

  /** The result of the attempt that reached the writer (the first, else the retry); None when both threw. */
  function Delivered(io: RedisIo): Option<bool>
  {
    if io.firstTry.Completed? then Some(io.firstTry.result)
    else if io.retry.Completed? then Some(io.retry.result)
    else None
  }

  /** What a remote write leaves of the failover state: unchanged when delivered, the failover's result when both attempts threw. */
  function AfterRemote(v: View, slaveHost: string, slavePort: int, now: int, io: RedisIo): (r: View)
    requires slaveHost != "" && slavePort > 0
    ensures Delivered(io).Some? ==> r == v
    ensures WriterValid(v) ==> WriterValid(r)
  {
    if Delivered(io).None? then FailOver(v, slaveHost, slavePort, now, io.failover).0 else v
  }

  /** IsAboutToExpire on the reader's data: with a sliding time to live, the key's remaining TTL is within it. */
  predicate AboutToExpire(data: Data, slidingTimeToLive: int, key: string, now: int)
  {
    if slidingTimeToLive <= 0 then false
    else
      var ttl := TimeToLive(data, key, now);
      if ttl < 0 then false else ttl <= 60 * slidingTimeToLive
  }

  /** The same sliding window as the in-memory client: from `stt` minutes before expiry, a stored key is about to expire. */
  lemma AboutToExpireAfterStore(data: Data, stt: int, key: string, raw: string, minutes: int, now: int, later: int)
    requires stt > 0 && now <= later < now + 60 * minutes
    ensures AboutToExpire(Stored(data, key, raw, 60 * minutes, now), stt, key, later)
            <==> later >= now + 60 * (minutes - stt)
  {
  }

  /** A key that is gone is never about to expire: its refresh is left to the next miss. */
  lemma MissingKeyNotAboutToExpire(data: Data, stt: int, key: string, now: int)
    requires !Live(data, key, now)
    ensures !AboutToExpire(data, stt, key, now)
  {
  }

  class RedisCacheServer {
    const slaveHost: string
    const slavePort: int
    var isFailoverStarted: bool
    var whenFailoverStarted: int
    /** The arbiter table, oldest row first. */
    var arbiter: seq<MasterRecord>

    constructor(slaveHost: string, slavePort: int, arbiter: seq<MasterRecord>)
      requires slaveHost != "" && slavePort > 0
      ensures this.slaveHost == slaveHost && this.slavePort == slavePort && this.arbiter == arbiter
      ensures !isFailoverStarted
    {
      this.slaveHost := slaveHost;
      this.slavePort := slavePort;
      this.arbiter := arbiter;
      isFailoverStarted := false;
      whenFailoverStarted := 0;
    }

    function GuardOf(): Guard
      reads this
    {
      Guard(isFailoverStarted, whenFailoverStarted)
    }

    /** The state the failover reads and writes, with `client` as the client being failed over. */
    function ViewOf(client: RedisCacheClient): View
      reads this, client, client.reader
    {
      View(GuardOf(), arbiter, client.writerHost, client.writerPort, client.reader.replication)
    }

    method SetFailoverIndicator(isStarted: bool, now: int) returns (changed: bool)
      modifies this`isFailoverStarted, this`whenFailoverStarted
      ensures (GuardOf(), changed) == Indicate(old(GuardOf()), isStarted, now)
    {
      if isFailoverStarted == isStarted {
        return false;
      }
      isFailoverStarted := isStarted;
      if isStarted {
        whenFailoverStarted := now;
      }
      changed := true;
    }

    method FailoverAlreadyStarted(now: int) returns (started: bool)
      modifies this`isFailoverStarted, this`whenFailoverStarted
      ensures (GuardOf(), started) == AlreadyStarted(old(GuardOf()), now)
    {
      if isFailoverStarted {
        if whenFailoverStarted + OneHour < now {
          var _ := SetFailoverIndicator(false, now);
        }
        return true;
      }
      started := false;
    }

    /** ReadLatestMasterInDatabase over the arbiter table; `fails` is a failed read. */
    function ReadLatestMasterInDatabase(fails: bool): (r: string)
      reads this
      ensures fails || arbiter == [] ==> r == ""
      ensures '\r' !in r && '\n' !in r
      ensures |r| > 0 ==> !IsWhiteSpace(r[0]) && !IsWhiteSpace(r[|r| - 1])
    {
      Latest(arbiter, fails)
    }

    method InsertMasterInDatabase(hostAndPort: string, reason: Reason, now: int, fails: bool)
      modifies this`arbiter
      ensures arbiter == Inserted(old(arbiter), MasterRecord(hostAndPort, InsertedBy, reason, now), fails)
    {
      if !fails {
        arbiter := arbiter + [MasterRecord(hostAndPort, InsertedBy, reason, now)];
      }
    }

    /** GetLocalIp: the first IPv4 address of the host entry, "" when there is none; None when the lookup throws. */
    static method GetLocalIp(dns: HostEntry) returns (ip: Option<string>)
      ensures dns.DnsFailed? ==> ip.None?
      ensures dns.Addresses? ==> ip == Some(FirstInterNetwork(dns.list))
    {
      if dns.DnsFailed? {
        return None;
      }
      var list := dns.list;
      var i := 0;
      while i < |list| && !list[i].interNetwork
        invariant 0 <= i <= |list|
        invariant FirstInterNetwork(list[i..]) == FirstInterNetwork(list)
      {
        assert list[i..][1..] == list[i + 1..];
        i := i + 1;
      }
      ip := Some(if i < |list| then list[i].text else "");
    }

    method GetCurrentIp(src: IpSources) returns (ip: string)
      ensures ip == CurrentIp(src)
    {
      match src.file {
        case FileText(text) =>
          ip := Remove(Remove(Remove(text, '\r'), '\n'), '\t');
        case UnreadableFile =>
          ip := "";
        case NoFile =>
          var local := GetLocalIp(src.dns);
          if local.None? {
            ip := "";
          } else if local.value != "" {
            ip := local.value;
          } else {
            ip := src.roleEnvironment;
          }
      }
    }

    method SwitchToNewMaster(client: RedisCacheClient, record: string, checkIp: bool, ipSources: IpSources, commandFails: bool)
      returns (outcome: SwitchOutcome)
      modifies client`writerHost, client`writerPort, client.reader`replication
      ensures (ViewOf(client), outcome) == Switch(old(ViewOf(client)), record, checkIp, ipSources, commandFails)
    {
      var parts := Split(record, ' ');
      if |parts| < 2 {
        return Unparsable;
      }
      var port := TryParseInt32(parts[1]);
      if port.None? {
        return Unparsable;
      }
      var host := parts[0];
      if commandFails {
        return CommandFailed;
      }
      var isThisMachine := false;
      if checkIp {
        var ip := GetCurrentIp(ipSources);
        isThisMachine := EqualsIgnoreCase(ip, host);
      }
      if isThisMachine {
        client.reader.SlaveOfNoOne();
      } else {
        client.reader.SlaveOf(host, port.value);
      }
      if host == "" || port.value <= 0 {
        return WriterRejected;
      }
      client.SwitchWriterConfigToNewMaster(host, port.value);
      outcome := Switched;
    }

    method PromoteToMaster(client: RedisCacheClient, info: RedisSlaveInfo, now: int, io: FailoverIo) returns (ok: bool)
      requires slaveHost != "" && slavePort > 0
      modifies this`arbiter, client`writerHost, client`writerPort, client.reader`replication
      ensures (ViewOf(client), ok) == Promote(old(ViewOf(client)), info, slaveHost, slavePort, now, io)
    {
      if io.commandFails {
        return false;
      }
      client.reader.SlaveOfNoOne();
      var myHost := GetCurrentIp(io.ip);
      InsertMasterInDatabase(HostAndPort(myHost, slavePort),
                             MasterWasDown(info.masterLinkDownSinceSeconds, info.masterLastIoSecondsAgo, myHost),
                             now, io.insertFails);
      client.SwitchWriterConfigToNewMaster(slaveHost, slavePort);
      ok := true;
    }

    /** GetSlaveInfoAsync: refresh the replica with SLAVEOF writer, then read INFO; None when either throws. */
    method GetSlaveInfo(client: RedisCacheClient, report: SlaveReport) returns (info: Option<RedisSlaveInfo>)
      modifies client.reader`replication
      ensures client.reader.replication == old(client.reader.replication)
              + (if report.SlaveOfFailed? then [] else [ReplicaOf(client.writerHost, client.writerPort)])
      ensures info == (if report.Report? then Some(Parse(report.fields)) else None)
    {
      if report.SlaveOfFailed? {
        return None;
      }
      client.reader.SlaveOf(client.writerHost, client.writerPort);
      if report.InfoFailed? {
        return None;
      }
      info := Some(Parse(report.fields));
    }

    /** The body of FailOverIfRequiredInternalAsync before its finally. */
    method DecideFailover(client: RedisCacheClient, now: int, io: FailoverIo) returns (outcome: Outcome)
      requires slaveHost != "" && slavePort > 0
      modifies this`arbiter, client`writerHost, client`writerPort, client.reader`replication
      ensures (ViewOf(client), outcome) == Decide(old(ViewOf(client)), slaveHost, slavePort, now, io)
    {
      if io.pingOk {
        return PingSucceeded;
      }
      ghost var v0 := ViewOf(client);
      var info := GetSlaveInfo(client, io.slave);
      assert ViewOf(client).replication == v0.replication
             + (if io.slave.SlaveOfFailed? then [] else [ReplicaOf(v0.writerHost, v0.writerPort)]);
      if info.None? {
        assert io.slave.SlaveOfFailed? ==> ViewOf(client) == v0;
        assert io.slave.InfoFailed? ==> ViewOf(client) == v0.(replication := v0.replication + [ReplicaOf(v0.writerHost, v0.writerPort)]);
        return NoSlaveInfo;
      }
      ghost var v1 := ViewOf(client);
      if info.value.masterLinkStatus == Up {
        return MasterLinkUp;
      }
      var reported := MasterHostAndPort(info.value);
      var candidate := if IsNullOrWhiteSpace(reported) then reported else HostAndPort(client.writerHost, client.writerPort);
      var latest := ReadLatestMasterInDatabase(io.arbiterReadFails);
      assert candidate == Candidate(info.value, v1.writerHost, v1.writerPort);
      if EqualsIgnoreCase(latest, candidate) {
        var ok := PromoteToMaster(client, info.value, now, io);
        assert (ViewOf(client), ok) == Promote(v1, info.value, slaveHost, slavePort, now, io);
        outcome := if ok then Promoted else PromotionFailed;
      } else {
        var switched := SwitchToNewMaster(client, latest, false, io.ip, io.commandFails);
        assert (ViewOf(client), switched) == Switch(v1, latest, false, io.ip, io.commandFails);
        outcome := Reattached(switched);
      }
    }

    method FailOverIfRequiredInternal(client: RedisCacheClient, now: int, io: FailoverIo) returns (outcome: Outcome)
      requires slaveHost != "" && slavePort > 0
      modifies this`isFailoverStarted, this`whenFailoverStarted, this`arbiter
      modifies client`writerHost, client`writerPort, client.reader`replication
      ensures (ViewOf(client), outcome) == RunFailover(old(ViewOf(client)), slaveHost, slavePort, now, io)
    {
      outcome := DecideFailover(client, now, io);
      var _ := SetFailoverIndicator(false, now);
    }

    method FailOverIfRequired(client: RedisCacheClient, now: int, io: FailoverIo) returns (outcome: Outcome)
      requires slaveHost != "" && slavePort > 0
      modifies this`isFailoverStarted, this`whenFailoverStarted, this`arbiter
      modifies client`writerHost, client`writerPort, client.reader`replication
      ensures (ViewOf(client), outcome) == FailOver(old(ViewOf(client)), slaveHost, slavePort, now, io)
    {
      var already := FailoverAlreadyStarted(now);
      if already {
        return AlreadyRunning;
      }
      var acquired := SetFailoverIndicator(true, now);
      if !acquired {
        // Another thread taking the flag in between: impossible when run sequentially.
        assert false;
      }
      outcome := FailOverIfRequiredInternal(client, now, io);
    }

    method SetMasterInAppDomainLoad(client: RedisCacheClient, configHost: string, configPort: int, now: int, io: BootIo)
      returns (outcome: BootOutcome)
      requires slaveHost != "" && slavePort > 0
      modifies this`arbiter, client`writerHost, client`writerPort, client.reader`replication
      ensures (ViewOf(client), outcome) == Boot(old(ViewOf(client)), slaveHost, slavePort, configHost, configPort, now, io)
    {
      var record := ReadLatestMasterInDatabase(io.firstReadFails);
      if record == "" {
        var myHost := GetCurrentIp(io.ip);
        InsertMasterInDatabase(HostAndPort(myHost, slavePort), MasterIsInitializing, now, io.insertFails);
        client.SwitchWriterConfigToNewMaster(slaveHost, slavePort);
        record := ReadLatestMasterInDatabase(io.secondReadFails);
      }
      var parts := Split(record, ' ');
      if |parts| < 2 {
        return BootOutcome.Threw;
      }
      var port := ParseInteger(parts[1]);
      if port.None? || !(Int32Min <= port.value <= Int32Max) {
        return BootOutcome.Threw;
      }
      if EqualsIgnoreCase(parts[0], configHost) && port.value == configPort {
        return ConfigConfirmed;
      }
      var switched := SwitchToNewMaster(client, record, true, io.ip, io.commandFails);
      outcome := SwitchedFromArbiter(switched);
    }
  }

  class RedisCacheClient {
    const reader: RedisClientNullable
    const server: RedisCacheServer
    const readerHost: string
    const readerPort: int
    var writerHost: string
    var writerPort: int
    var slidingTimeToLive: int
    var isDisposed: bool
    /** The commands that reached a writer, oldest first. */
    var remoteLog: seq<RemoteCommand>

    ghost predicate Valid()
      reads this
    {
      writerHost != "" && writerPort > 0 && readerHost != "" && readerPort > 0
      && server.slaveHost != "" && server.slavePort > 0
    }

    /** The field assignments of the constructor, before the startup check. */
    constructor Init(reader: RedisClientNullable, server: RedisCacheServer,
                     writerHost: string, writerPort: int, readerHost: string, readerPort: int)
      ensures this.reader == reader && this.server == server
      ensures this.writerHost == writerHost && this.writerPort == writerPort
      ensures this.readerHost == readerHost && this.readerPort == readerPort
      ensures slidingTimeToLive == 0 && !isDisposed && remoteLog == []
    {
      this.reader := reader;
      this.server := server;
      this.writerHost := writerHost;
      this.writerPort := writerPort;
      this.readerHost := readerHost;
      this.readerPort := readerPort;
      slidingTimeToLive := 0;
      isDisposed := false;
      remoteLog := [];
    }

    /**
     * The constructor: validate the addresses, then let the server's startup
     * check repoint the writer before the client is used; a startup check that
     * throws makes the construction fail (None).
     */
    static method Create(reader: RedisClientNullable, server: RedisCacheServer,
                         writerHost: string, writerPort: int, readerHost: string, readerPort: int,
                         now: int, io: BootIo) returns (client: Option<RedisCacheClient>)
      requires writerHost != "" && writerPort > 0 && readerHost != "" && readerPort > 0
      requires server.slaveHost != "" && server.slavePort > 0
      modifies server`arbiter, reader`replication
      ensures var boot := Boot(View(server.GuardOf(), old(server.arbiter), writerHost, writerPort, old(reader.replication)),
                               server.slaveHost, server.slavePort, writerHost, writerPort, now, io);
              server.arbiter == boot.0.arbiter && reader.replication == boot.0.replication
              && (client.Some? <==> boot.1 != BootOutcome.Threw)
              && (client.Some? ==>
                    fresh(client.value) && client.value.reader == reader && client.value.server == server
                    && client.value.readerHost == readerHost && client.value.readerPort == readerPort
                    && client.value.writerHost == boot.0.writerHost && client.value.writerPort == boot.0.writerPort
                    && client.value.slidingTimeToLive == 0 && client.value.remoteLog == []
                    && client.value.Valid())
    {
      var c := new RedisCacheClient.Init(reader, server, writerHost, writerPort, readerHost, readerPort);
      var outcome := server.SetMasterInAppDomainLoad(c, writerHost, writerPort, now, io);
      if outcome == BootOutcome.Threw {
        return None;
      }
      client := Some(c);
    }

    /** "host:port" of the reader; a host without ':' splits back into the host and the port. */
    function GetReaderRedisClientAddress(): (r: string)
      ensures (forall k :: 0 <= k < |readerHost| ==> readerHost[k] != ':') ==>
                var parts := Split(r, ':');
                |parts| == 2 && parts[0] == readerHost && ParseInteger(parts[1]) == Some(readerPort)
    {
      EndpointAddress(readerHost, readerPort)
    }

    /** "host:port" of the current writer, which follows the failover. */
    function GetWriterRedisClientAddress(): (r: string)
      reads this
      ensures (forall k :: 0 <= k < |writerHost| ==> writerHost[k] != ':') ==>
                var parts := Split(r, ':');
                |parts| == 2 && parts[0] == writerHost && ParseInteger(parts[1]) == Some(writerPort)
    {
      EndpointAddress(writerHost, writerPort)
    }

    method SwitchWriterConfigToNewMaster(host: string, port: int)
      requires host != "" && port > 0
      modifies this`writerHost, this`writerPort
      ensures writerHost == host && writerPort == port
      ensures GetWriterRedisClientAddress() == EndpointAddress(host, port)
    {
      writerHost := host;
      writerPort := port;
    }

    /** Exists on the reader; a failing reader reads as false. */
    predicate Exists(key: string, now: int, readerFails: bool)
      reads reader
      requires key != ""
      ensures Exists(key, now, readerFails) <==> !readerFails && reader.GetTimeToLive(key, now) >= 0
    {
      !readerFails && reader.ContainsKey(key, now)
    }

    /** Get on the reader; a failing reader reads as not found with the default. */
    function Get(key: string, t: Ty, now: int, readerFails: bool): (r: (bool, Value))
      reads reader
      requires key != ""
      ensures !Exists(key, now, readerFails) ==> r == (false, Default(t))
      ensures Exists(key, now, readerFails) && !t.IntegerTy? ==> r.0
    {
      if readerFails then (false, Default(t)) else reader.Get(key, t, now)
    }

    /** With a sliding time to live, a key whose remaining TTL is within it; a missing key never is. */
    predicate IsAboutToExpire(key: string, now: int)
      reads this, reader
      requires key != ""
      ensures IsAboutToExpire(key, now) <==>
                slidingTimeToLive > 0 && 0 <= reader.GetTimeToLive(key, now) <= 60 * slidingTimeToLive
    {
      AboutToExpire(reader.data, slidingTimeToLive, key, now)
    }

    /** RunWithFailOver: try, retry once on an exception, and escalate to the failover when both attempts throw. */
    method RunWithFailOver(op: RemoteOp, now: int, io: RedisIo) returns (ok: bool)
      requires Valid()
      modifies this`remoteLog, this`writerHost, this`writerPort, reader`replication
      modifies server`isFailoverStarted, server`whenFailoverStarted, server`arbiter
      ensures Valid()
      ensures ok <==> Delivered(io) == Some(true)
      ensures remoteLog == old(remoteLog) + (if Delivered(io).Some? then [RemoteCommand(old(writerHost), old(writerPort), op)] else [])
      ensures server.ViewOf(this) == AfterRemote(old(server.ViewOf(this)), server.slaveHost, server.slavePort, now, io)
    {
      match io.firstTry {
        case Completed(result) =>
          remoteLog := remoteLog + [RemoteCommand(writerHost, writerPort, op)];
          ok := result;
        case Threw =>
          match io.retry {
            case Completed(result) =>
              remoteLog := remoteLog + [RemoteCommand(writerHost, writerPort, op)];
              ok := result;
            case Threw =>
              var _ := server.FailOverIfRequired(this, now, io.failover);
              ok := false;
          }
      }
    }

    /** Set<T>(key, value, minutes, out task): the remote write as a task, the local write best-effort, and always true. */
    method SetWithTask(key: string, v: Value, minutes: int, now: int, io: RedisIo) returns (ok: bool, task: Option<bool>)
      requires key != "" && minutes > 0 && Valid()
      modifies this`remoteLog, this`writerHost, this`writerPort, reader`replication, reader`data
      modifies server`isFailoverStarted, server`whenFailoverStarted, server`arbiter
      ensures Valid()
      ensures ok && task == Some(Delivered(io) == Some(true))
      ensures reader.data == if io.readerFails then old(reader.data)
                             else Stored(old(reader.data), key, WireValue(v), 60 * minutes, now)
      ensures remoteLog == old(remoteLog)
              + (if Delivered(io).Some? then [RemoteCommand(old(writerHost), old(writerPort), SetOp(key, WireValue(v), 60 * minutes))] else [])
      ensures server.ViewOf(this) == AfterRemote(old(server.ViewOf(this)), server.slaveHost, server.slavePort, now, io)
    {
      var remote := RunWithFailOver(SetOp(key, WireValue(v), 60 * minutes), now, io);
      task := Some(remote);
      if !io.readerFails {
        if v == Null {
          var _ := reader.SetAsNull(key, 60 * minutes, now);
        } else {
          var _ := reader.Set(key, v, 60 * minutes, now);
        }
      }
      ok := true;
    }

    /** Add<T>(key, value, minutes, out task): as Set, with SET NX on both sides. */
    method AddWithTask(key: string, v: Value, minutes: int, now: int, io: RedisIo) returns (ok: bool, task: Option<bool>)
      requires key != "" && minutes > 0 && Valid()
      modifies this`remoteLog, this`writerHost, this`writerPort, reader`replication, reader`data
      modifies server`isFailoverStarted, server`whenFailoverStarted, server`arbiter
      ensures Valid()
      ensures ok && task == Some(Delivered(io) == Some(true))
      ensures reader.data == if io.readerFails then old(reader.data)
                             else StoredIfAbsent(old(reader.data), key, WireValue(v), 60 * minutes, now).0
      ensures remoteLog == old(remoteLog)
              + (if Delivered(io).Some? then [RemoteCommand(old(writerHost), old(writerPort), AddOp(key, WireValue(v), 60 * minutes))] else [])
      ensures server.ViewOf(this) == AfterRemote(old(server.ViewOf(this)), server.slaveHost, server.slavePort, now, io)
    {
      var remote := RunWithFailOver(AddOp(key, WireValue(v), 60 * minutes), now, io);
      task := Some(remote);
      if !io.readerFails {
        if v == Null {
          var _ := reader.AddAsNull(key, 60 * minutes, now);
        } else {
          var _ := reader.Add(key, v, 60 * minutes, now);
        }
      }
      ok := true;
    }

    method Set(key: string, v: Value, minutes: int, now: int, io: RedisIo) returns (ok: bool)
      requires key != "" && minutes > 0 && Valid()
      modifies this`remoteLog, this`writerHost, this`writerPort, reader`replication, reader`data
      modifies server`isFailoverStarted, server`whenFailoverStarted, server`arbiter
      ensures Valid()
      ensures ok
      ensures reader.data == if io.readerFails then old(reader.data)
                             else Stored(old(reader.data), key, WireValue(v), 60 * minutes, now)
      ensures remoteLog == old(remoteLog)
              + (if Delivered(io).Some? then [RemoteCommand(old(writerHost), old(writerPort), SetOp(key, WireValue(v), 60 * minutes))] else [])
      ensures server.ViewOf(this) == AfterRemote(old(server.ViewOf(this)), server.slaveHost, server.slavePort, now, io)
    {
      var task;
      ok, task := SetWithTask(key, v, minutes, now, io);
    }

    method Add(key: string, v: Value, minutes: int, now: int, io: RedisIo) returns (ok: bool)
      requires key != "" && minutes > 0 && Valid()
      modifies this`remoteLog, this`writerHost, this`writerPort, reader`replication, reader`data
      modifies server`isFailoverStarted, server`whenFailoverStarted, server`arbiter
      ensures Valid()
      ensures ok
      ensures reader.data == if io.readerFails then old(reader.data)
                             else StoredIfAbsent(old(reader.data), key, WireValue(v), 60 * minutes, now).0
      ensures remoteLog == old(remoteLog)
              + (if Delivered(io).Some? then [RemoteCommand(old(writerHost), old(writerPort), AddOp(key, WireValue(v), 60 * minutes))] else [])
      ensures server.ViewOf(this) == AfterRemote(old(server.ViewOf(this)), server.slaveHost, server.slavePort, now, io)
    {
      var task;
      ok, task := AddWithTask(key, v, minutes, now, io);
    }

    /** FlushAll(out task): flushes the writer only; the reader is emptied by replication, not here. */
    method FlushAllWithTask(now: int, io: RedisIo) returns (task: Option<bool>)
      requires Valid()
      modifies this`remoteLog, this`writerHost, this`writerPort, reader`replication
      modifies server`isFailoverStarted, server`whenFailoverStarted, server`arbiter
      ensures Valid()
      ensures task == Some(Delivered(io) == Some(true))
      ensures remoteLog == old(remoteLog) + (if Delivered(io).Some? then [RemoteCommand(old(writerHost), old(writerPort), FlushAllOp)] else [])
      ensures server.ViewOf(this) == AfterRemote(old(server.ViewOf(this)), server.slaveHost, server.slavePort, now, io)
    {
      var remote := RunWithFailOver(FlushAllOp, now, io);
      task := Some(remote);
    }

    method FlushAll(now: int, io: RedisIo)
      requires Valid()
      modifies this`remoteLog, this`writerHost, this`writerPort, reader`replication
      modifies server`isFailoverStarted, server`whenFailoverStarted, server`arbiter
      ensures Valid()
      ensures remoteLog == old(remoteLog) + (if Delivered(io).Some? then [RemoteCommand(old(writerHost), old(writerPort), FlushAllOp)] else [])
      ensures server.ViewOf(this) == AfterRemote(old(server.ViewOf(this)), server.slaveHost, server.slavePort, now, io)
    {
      var _ := FlushAllWithTask(now, io);
    }

    /** Dispose: releases the pool once; later calls do nothing. */
    method Dispose()
      modifies this`isDisposed
      ensures isDisposed
    {
      if isDisposed {
        return;
      }
      isDisposed := true;
    }
  }
}
