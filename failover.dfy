/**
 * The failover decision procedure of RedisCacheServer as functions over the
 * state it reads and writes: the start/stop guard, the arbiter table of
 * masters, the cache client's writer address and the replication commands
 * sent to the local replica. Every external effect (ping, INFO, the arbiter
 * database, the IP sources, Redis commands) is an input; "throws and is
 * caught" is an outcome.
 */
module Failover {
  import opened Wrappers
  import opened Text
  import opened SlaveInfo
  import opened RedisNative

  /** The watchdog: a guard held longer than this many seconds is released by the next caller. */
  const OneHour: int := 3600
  const InsertedBy: string := "RedisSlave"

  /** Why a master was recorded in the arbiter table. */
  datatype Reason =
    | MasterIsInitializing
    | MasterWasDown(downSinceSeconds: int, lastIoSecondsAgo: int, requestedFrom: string)

  /** A row of the arbiter table; the latest row names the current master. */
  datatype MasterRecord = MasterRecord(serverHost: string, insertedBy: string, description: Reason, insertedAt: int)

  /** The start/stop guard: whether a failover is running and since when. */
  datatype Guard = Guard(started: bool, startedAt: int)

  /** Everything the failover flow reads and writes. */
  datatype View = View(
    guard: Guard,
    arbiter: seq<MasterRecord>,
    writerHost: string,
    writerPort: int,
    replication: seq<ReplicationCommand>)

  /** The IP file: missing, present but unreadable, or its text. */
  datatype IpFile = NoFile | UnreadableFile | FileText(text: string)

  /** An address of the host entry; `interNetwork` marks IPv4. */
  datatype Address = Address(interNetwork: bool, text: string)

  /** The DNS host entry of the machine, or a failed lookup. */
  datatype HostEntry = DnsFailed | Addresses(list: seq<Address>)

  /** The three sources of the machine's own address; `roleEnvironment` is "" when unavailable. */
  datatype IpSources = IpSources(file: IpFile, dns: HostEntry, roleEnvironment: string)

  /** What the local replica answers: the SLAVEOF refresh failed, INFO failed, or the INFO fields. */
  datatype SlaveReport = SlaveOfFailed | InfoFailed | Report(fields: map<string, string>)

  /** The answers of the outside world during one failover. */
  datatype FailoverIo = FailoverIo(
    pingOk: bool,
    slave: SlaveReport,
    arbiterReadFails: bool,
    insertFails: bool,
    commandFails: bool,
    ip: IpSources)

  /** The answers of the outside world during the startup check. */
  datatype BootIo = BootIo(
    firstReadFails: bool,
    insertFails: bool,
    secondReadFails: bool,
    commandFails: bool,
    ip: IpSources)

  datatype SwitchOutcome = Unparsable | CommandFailed | WriterRejected | Switched

  datatype Outcome =
    | AlreadyRunning
    | PingSucceeded
    | NoSlaveInfo
    | MasterLinkUp
    | Promoted
    | PromotionFailed
    | Reattached(switch: SwitchOutcome)

  datatype BootOutcome = ConfigConfirmed | SwitchedFromArbiter(switch: SwitchOutcome) | Threw

  predicate WriterValid(v: View) { v.writerHost != "" && v.writerPort > 0 }

  /** GetLocalIp: the first IPv4 address of the host entry, or "". */
  function FirstInterNetwork(list: seq<Address>): (ip: string)
    ensures ip != "" ==> exists k :: 0 <= k < |list| && list[k].interNetwork && list[k].text == ip
  {
    if list == [] then ""
    else if list[0].interNetwork then list[0].text
    else FirstInterNetwork(list[1..])
  }

  /** GetCurrentIp: the IP file first (cleaned of line breaks and tabs), then DNS, then the role environment; "" on error. */
  function CurrentIp(src: IpSources): (r: string)
    ensures src.file.FileText? ==> '\r' !in r && '\n' !in r && '\t' !in r
    ensures src.file.UnreadableFile? || (src.file.NoFile? && src.dns.DnsFailed?) ==> r == ""
    ensures src.file.NoFile? && src.dns.Addresses? && r != src.roleEnvironment ==>
              exists k :: 0 <= k < |src.dns.list| && src.dns.list[k].interNetwork && src.dns.list[k].text == r
  {
    match src.file
    case FileText(text) =>
      var once := Remove(text, '\r');
      var twice := Remove(once, '\n');
      RemoveKeepsAbsent(once, '\n', '\r');
      RemoveKeepsAbsent(twice, '\t', '\r');
      RemoveKeepsAbsent(twice, '\t', '\n');
      Remove(twice, '\t')
    case UnreadableFile => ""
    case NoFile =>
      match src.dns
      case DnsFailed => ""
      case Addresses(list) =>
        var ip := FirstInterNetwork(list);
        if ip != "" then ip else src.roleEnvironment
  }

  /** The file wins whenever it exists, even when it is empty. */
  lemma CurrentIpPrefersFile(src: IpSources)
    requires src.file.FileText?
    ensures CurrentIp(src) == Remove(Remove(Remove(src.file.text, '\r'), '\n'), '\t')
  {
  }

  /** Without a file, an IPv4 address from DNS wins over the role environment. */
  lemma {:induction false} CurrentIpPrefersDns(src: IpSources, k: nat)
    requires src.file.NoFile? && src.dns.Addresses?
    requires k < |src.dns.list| && src.dns.list[k].interNetwork && src.dns.list[k].text != ""
    requires forall j :: 0 <= j < k ==> !src.dns.list[j].interNetwork
    ensures CurrentIp(src) == src.dns.list[k].text
  {
    FirstInterNetworkIsFirst(src.dns.list, k);
  }

  lemma {:induction false} FirstInterNetworkIsFirst(list: seq<Address>, k: nat)
    requires k < |list| && list[k].interNetwork
    requires forall j :: 0 <= j < k ==> !list[j].interNetwork
    ensures FirstInterNetwork(list) == list[k].text
  {
    if k > 0 {
      FirstInterNetworkIsFirst(list[1..], k - 1);
    }
  }

  /** ReadLatestMasterInDatabase: the latest row with line breaks removed and trimmed; "" on error or when there is none. */
  function Latest(arbiter: seq<MasterRecord>, fails: bool): (r: string)
    ensures fails || arbiter == [] ==> r == ""
    ensures '\r' !in r && '\n' !in r
    ensures |r| > 0 ==> !IsWhiteSpace(r[0]) && !IsWhiteSpace(r[|r| - 1])
  {
    if fails || arbiter == [] then ""
    else
      var once := Remove(arbiter[|arbiter| - 1].serverHost, '\r');
      var twice := Remove(once, '\n');
      RemoveKeepsAbsent(once, '\n', '\r');
      TrimKeepsAbsent(twice, '\r');
      TrimKeepsAbsent(twice, '\n');
      Trim(twice)
  }

  /** InsertMasterInDatabase: appends a row unless the insert fails (the error is swallowed). */
  function Inserted(arbiter: seq<MasterRecord>, row: MasterRecord, fails: bool): seq<MasterRecord>
  {
    if fails then arbiter else arbiter + [row]
  }

  /** SetFailoverIndicator: succeeds only when it changes the flag; the start time moves only when starting. */
  function Indicate(g: Guard, isStarted: bool, now: int): (r: (Guard, bool))
    ensures r.1 <==> g.started != isStarted
    ensures r.0.started == isStarted
    ensures r.0.startedAt == (if r.1 && isStarted then now else g.startedAt)
  {
    if g.started == isStarted then (g, false)
    else (Guard(isStarted, if isStarted then now else g.startedAt), true)
  }

  /** FailoverAlreadyStarted: true whenever the flag is set; a flag older than an hour is cleared for the next caller. */
  function AlreadyStarted(g: Guard, now: int): (r: (Guard, bool))
    ensures r.1 <==> g.started
    ensures !g.started ==> r.0 == g
    ensures g.started ==> r.0.started == !(g.startedAt + OneHour < now) && r.0.startedAt == g.startedAt
  {
    if g.started then
      (if g.startedAt + OneHour < now then Indicate(g, false, now).0 else g, true)
    else (g, false)
  }

  /**
   * The master the replica reports, or the writer when that is blank. As
   * written the branches are the other way round, and since the replica's
   * "host port" is never blank, the candidate is always the writer.
   */
  function Candidate(info: RedisSlaveInfo, writerHost: string, writerPort: int): (r: string)
    ensures r == HostAndPort(writerHost, writerPort)
  {
    if IsNullOrWhiteSpace(MasterHostAndPort(info)) then MasterHostAndPort(info)
    else HostAndPort(writerHost, writerPort)
  }

  /** SwitchToNewMasterAsync: parse "host port", repoint the replica (or make it master when it is this machine), repoint the writer. */
  function Switch(v: View, record: string, checkIp: bool, ip: IpSources, commandFails: bool): (r: (View, SwitchOutcome))
    ensures r.0.guard == v.guard && r.0.arbiter == v.arbiter
    ensures WriterValid(v) ==> WriterValid(r.0)
    ensures r.1 != Switched ==> r.0.writerHost == v.writerHost && r.0.writerPort == v.writerPort
  {
    var parts := Split(record, ' ');
    if |parts| < 2 then (v, Unparsable)
    else match TryParseInt32(parts[1])
      case None => (v, Unparsable)
      case Some(port) =>
        var host := parts[0];
        if commandFails then (v, CommandFailed)
        else
          var command := if checkIp && EqualsIgnoreCase(CurrentIp(ip), host) then ReplicaOfNoOne else ReplicaOf(host, port);
          var v1 := v.(replication := v.replication + [command]);
          if host == "" || port <= 0 then (v1, WriterRejected)
          else (v1.(writerHost := host, writerPort := port), Switched)
  }

  /** The row a promoted replica inserts for itself. */
  function PromotionRecord(info: RedisSlaveInfo, ip: string, slavePort: int, now: int): (r: MasterRecord)
    ensures r.insertedBy == InsertedBy && r.insertedAt == now
    ensures r.description.MasterWasDown? && r.description.requestedFrom == ip
    ensures (|ip| > 0 && forall k :: 0 <= k < |ip| ==> !IsWhiteSpace(ip[k])) ==>
              forall arbiter :: Latest(arbiter + [r], false) == HostAndPort(ip, slavePort)
  {
    var row := MasterRecord(HostAndPort(ip, slavePort), InsertedBy,
                            MasterWasDown(info.masterLinkDownSinceSeconds, info.masterLastIoSecondsAgo, ip), now);
    if |ip| > 0 && forall k :: 0 <= k < |ip| ==> !IsWhiteSpace(ip[k]) then
      CleanHostAndPort(ip, slavePort);
      row
    else row
  }

  /** PromoteToMaster: SLAVEOF NO ONE, record this machine as master, point the writer at the local replica. */
  function Promote(v: View, info: RedisSlaveInfo, slaveHost: string, slavePort: int, now: int, io: FailoverIo): (r: (View, bool))
    ensures r.0.guard == v.guard
    ensures !r.1 ==> r.0 == v
    ensures r.1 ==> r.0.writerHost == slaveHost && r.0.writerPort == slavePort
                    && r.0.replication == v.replication + [ReplicaOfNoOne]
                    && r.0.arbiter == Inserted(v.arbiter, PromotionRecord(info, CurrentIp(io.ip), slavePort, now), io.insertFails)
  {
    if io.commandFails then (v, false)
    else
      var row := PromotionRecord(info, CurrentIp(io.ip), slavePort, now);
      (v.(replication := v.replication + [ReplicaOfNoOne],
          arbiter := Inserted(v.arbiter, row, io.insertFails),
          writerHost := slaveHost, writerPort := slavePort), true)
  }

  /**
   * The body of FailOverIfRequiredInternalAsync before its finally: ping, refresh
   * and read the replica, compare the arbiter with the candidate, then promote or
   * reattach.
   */
  function Decide(v: View, slaveHost: string, slavePort: int, now: int, io: FailoverIo): (r: (View, Outcome))
    requires slaveHost != "" && slavePort > 0
    ensures r.0.guard == v.guard
    ensures WriterValid(v) ==> WriterValid(r.0)
    ensures v.arbiter <= r.0.arbiter && |r.0.arbiter| <= |v.arbiter| + 1
    ensures r.1 != Promoted ==> r.0.arbiter == v.arbiter
    ensures r.1 in {PingSucceeded, NoSlaveInfo, MasterLinkUp, PromotionFailed} ==>
              r.0.writerHost == v.writerHost && r.0.writerPort == v.writerPort
    ensures r.1 != AlreadyRunning
  {
    if io.pingOk then (v, PingSucceeded)
    else
      match io.slave
      case SlaveOfFailed => (v, NoSlaveInfo)
      case InfoFailed => (v.(replication := v.replication + [ReplicaOf(v.writerHost, v.writerPort)]), NoSlaveInfo)
      case Report(fields) =>
        var v1 := v.(replication := v.replication + [ReplicaOf(v.writerHost, v.writerPort)]);
        var info := Parse(fields);
        if info.masterLinkStatus == Up then (v1, MasterLinkUp)
        else
          var candidate := Candidate(info, v1.writerHost, v1.writerPort);
          var latest := Latest(v1.arbiter, io.arbiterReadFails);
          if EqualsIgnoreCase(latest, candidate) then
            var (v2, ok) := Promote(v1, info, slaveHost, slavePort, now, io);
            (v2, if ok then Promoted else PromotionFailed)
          else
            var (v2, o) := Switch(v1, latest, false, io.ip, io.commandFails);
            (v2, Reattached(o))
  }

  /** FailOverIfRequiredInternalAsync: Decide, then release the guard whatever happened. */
  function RunFailover(v: View, slaveHost: string, slavePort: int, now: int, io: FailoverIo): (r: (View, Outcome))
    requires slaveHost != "" && slavePort > 0
    ensures !r.0.guard.started
  {
    var (v1, o) := Decide(v, slaveHost, slavePort, now, io);
    (v1.(guard := Indicate(v1.guard, false, now).0), o)
  }

  /** FailOverIfRequiredAsync: only one failover at a time, guarded by the flag and its watchdog. */
  function FailOver(v: View, slaveHost: string, slavePort: int, now: int, io: FailoverIo): (r: (View, Outcome))
    requires slaveHost != "" && slavePort > 0
    ensures r.1 == AlreadyRunning <==> v.guard.started
    ensures r.1 != AlreadyRunning ==> !r.0.guard.started
    ensures v.guard.started ==> r.0 == v.(guard := AlreadyStarted(v.guard, now).0)
    ensures WriterValid(v) ==> WriterValid(r.0)
    ensures v.arbiter <= r.0.arbiter && |r.0.arbiter| <= |v.arbiter| + 1
    ensures r.1 != Promoted ==> r.0.arbiter == v.arbiter
  {
    var (g1, already) := AlreadyStarted(v.guard, now);
    if already then (v.(guard := g1), AlreadyRunning)
    else
      var (g2, acquired) := Indicate(g1, true, now);
      if !acquired then (v.(guard := g2), AlreadyRunning)
      else RunFailover(v.(guard := g2), slaveHost, slavePort, now, io)
  }

  /**
   * The watchdog as written: the caller that finds an hour-old flag clears it
   * but still does not run; the next caller runs the failover.
   */
  lemma WatchdogReleasesForNextCaller(v: View, slaveHost: string, slavePort: int, now: int, later: int, io: FailoverIo, io2: FailoverIo)
    requires slaveHost != "" && slavePort > 0
    requires v.guard.started && v.guard.startedAt + OneHour < now
    ensures var (v1, o1) := FailOver(v, slaveHost, slavePort, now, io);
            o1 == AlreadyRunning && v1 == v.(guard := Guard(false, v.guard.startedAt))
            && FailOver(v1, slaveHost, slavePort, later, io2).1 != AlreadyRunning
  {
  }

  /** Within the hour, a running failover turns every other caller away without touching anything. */
  lemma GuardHeldWithinTheHour(v: View, slaveHost: string, slavePort: int, now: int, io: FailoverIo)
    requires slaveHost != "" && slavePort > 0
    requires v.guard.started && !(v.guard.startedAt + OneHour < now)
    ensures FailOver(v, slaveHost, slavePort, now, io) == (v, AlreadyRunning)
  {
  }

  /** A reachable master, or a replica whose link is up, ends the failover with nothing changed but the refresh. */
  lemma HealthyMasterChangesNothing(v: View, slaveHost: string, slavePort: int, now: int, io: FailoverIo)
    requires slaveHost != "" && slavePort > 0 && !v.guard.started
    requires io.pingOk || (io.slave.Report? && Parse(io.slave.fields).masterLinkStatus == Up)
    ensures var (v1, o) := FailOver(v, slaveHost, slavePort, now, io);
            o in {PingSucceeded, MasterLinkUp} && v1.arbiter == v.arbiter
            && v1.writerHost == v.writerHost && v1.writerPort == v.writerPort && !v1.guard.started
  {
  }

  /**
   * The decision: when the arbiter still names the current writer, this replica
   * promotes itself, inserting exactly one row for its own address (unless the
   * insert fails) and pointing the writer at the local replica.
   */
  lemma PromotesWhenArbiterNamesWriter(v: View, slaveHost: string, slavePort: int, now: int, io: FailoverIo)
    requires slaveHost != "" && slavePort > 0 && !v.guard.started
    requires !io.pingOk && io.slave.Report? && Parse(io.slave.fields).masterLinkStatus == Down
    requires EqualsIgnoreCase(Latest(v.arbiter, io.arbiterReadFails), HostAndPort(v.writerHost, v.writerPort))
    requires !io.commandFails
    ensures var (v1, o) := FailOver(v, slaveHost, slavePort, now, io);
            o == Promoted && v1.writerHost == slaveHost && v1.writerPort == slavePort
            && v1.arbiter == Inserted(v.arbiter, PromotionRecord(Parse(io.slave.fields), CurrentIp(io.ip), slavePort, now), io.insertFails)
            && v1.replication == v.replication + [ReplicaOf(v.writerHost, v.writerPort), ReplicaOfNoOne]
  {
  }

  /** An arbiter read that fails (or finds no row) never names the writer, and the "" it yields is unparsable: nothing moves. */
  lemma EmptyArbiterReadKeepsWriter(v: View, slaveHost: string, slavePort: int, now: int, io: FailoverIo)
    requires slaveHost != "" && slavePort > 0 && !v.guard.started
    requires Latest(v.arbiter, io.arbiterReadFails) == ""
    ensures var (v1, o) := FailOver(v, slaveHost, slavePort, now, io);
            v1.arbiter == v.arbiter && v1.writerHost == v.writerHost && v1.writerPort == v.writerPort
            && o != Promoted
  {
    FailOverRuns(v, slaveHost, slavePort, now, io);
    if !io.pingOk && io.slave.Report? {
      assert !EqualsIgnoreCase("", HostAndPort(v.writerHost, v.writerPort));
      assert Split("", ' ') == [""];
    }
  }

  /** Parsing a well-formed record "host port" recovers the host and the port. */
  lemma SwitchToRecord(v: View, host: string, port: int, checkIp: bool, ip: IpSources)
    requires |host| > 0 && forall k :: 0 <= k < |host| ==> !IsWhiteSpace(host[k])
    requires 0 < port <= Int32Max
    ensures var (v1, o) := Switch(v, HostAndPort(host, port), checkIp, ip, false);
            o == Switched && v1.writerHost == host && v1.writerPort == port
            && v1.replication == v.replication + [if checkIp && EqualsIgnoreCase(CurrentIp(ip), host) then ReplicaOfNoOne else ReplicaOf(host, port)]
  {
    assert forall k :: 0 <= k < |host| ==> host[k] != ' ' by {
      assert IsWhiteSpace(' ');
    }
    SplitHostAndPort(host, port);
    TryParseInt32OfIntToString(port);
  }

  /**
   * When the arbiter names another master "host port", the replica reattaches
   * to it: SLAVEOF host port, and the writer follows, with no row inserted.
   */
  lemma ReattachesToArbiterMaster(v: View, slaveHost: string, slavePort: int, now: int, io: FailoverIo, host: string, port: int)
    requires slaveHost != "" && slavePort > 0 && !v.guard.started
    requires !io.pingOk && io.slave.Report? && Parse(io.slave.fields).masterLinkStatus == Down
    requires !io.arbiterReadFails && !io.commandFails && v.arbiter != []
    requires v.arbiter[|v.arbiter| - 1].serverHost == HostAndPort(host, port)
    requires |host| > 0 && forall k :: 0 <= k < |host| ==> !IsWhiteSpace(host[k])
    requires 0 < port <= Int32Max
    requires !EqualsIgnoreCase(HostAndPort(host, port), HostAndPort(v.writerHost, v.writerPort))
    ensures var (v1, o) := FailOver(v, slaveHost, slavePort, now, io);
            o == Reattached(Switched) && v1.writerHost == host && v1.writerPort == port && v1.arbiter == v.arbiter
            && v1.replication == v.replication + [ReplicaOf(v.writerHost, v.writerPort), ReplicaOf(host, port)]
  {
    var vg := v.(guard := Guard(true, now));
    FailOverRuns(v, slaveHost, slavePort, now, io);
    CleanHostAndPort(host, port);
    DecideReattaches(vg, slaveHost, slavePort, now, io);
    var v1 := vg.(replication := v.replication + [ReplicaOf(v.writerHost, v.writerPort)]);
    SwitchToRecord(v1, host, port, false, io.ip);
  }

  /** A replica whose link is down and whose arbiter names someone other than the writer reattaches. */
  lemma DecideReattaches(v: View, slaveHost: string, slavePort: int, now: int, io: FailoverIo)
    requires slaveHost != "" && slavePort > 0
    requires !io.pingOk && io.slave.Report? && Parse(io.slave.fields).masterLinkStatus == Down
    requires !EqualsIgnoreCase(Latest(v.arbiter, io.arbiterReadFails), HostAndPort(v.writerHost, v.writerPort))
    ensures var v1 := v.(replication := v.replication + [ReplicaOf(v.writerHost, v.writerPort)]);
            var sw := Switch(v1, Latest(v.arbiter, io.arbiterReadFails), false, io.ip, io.commandFails);
            Decide(v, slaveHost, slavePort, now, io) == (sw.0, Reattached(sw.1))
  {
  }

  /** When no failover is running, FailOver takes the guard and runs the flow. */
  lemma FailOverRuns(v: View, slaveHost: string, slavePort: int, now: int, io: FailoverIo)
    requires slaveHost != "" && slavePort > 0 && !v.guard.started
    ensures FailOver(v, slaveHost, slavePort, now, io) == RunFailover(v.(guard := Guard(true, now)), slaveHost, slavePort, now, io)
  {
  }

  /** The row the startup check inserts when the arbiter is empty. */
  function InitialRecord(ip: string, slavePort: int, now: int): MasterRecord
  {
    MasterRecord(HostAndPort(ip, slavePort), InsertedBy, MasterIsInitializing, now)
  }

  /**
   * SetMasterInAppDomainLoad: with an empty arbiter, record this machine as
   * master and point the writer at the local replica; then compare the
   * arbiter's master with the configured writer and switch to it when they
   * differ. A record without a port, or with a bad one, throws.
   */
  function Boot(v: View, slaveHost: string, slavePort: int, configHost: string, configPort: int, now: int, io: BootIo): (r: (View, BootOutcome))
    requires slaveHost != "" && slavePort > 0
    ensures r.0.guard == v.guard
    ensures WriterValid(v) ==> WriterValid(r.0)
    ensures v.arbiter <= r.0.arbiter && |r.0.arbiter| <= |v.arbiter| + 1
  {
    var first := Latest(v.arbiter, io.firstReadFails);
    var (v1, record) :=
      if first == "" then
        var row := InitialRecord(CurrentIp(io.ip), slavePort, now);
        var va := v.(arbiter := Inserted(v.arbiter, row, io.insertFails), writerHost := slaveHost, writerPort := slavePort);
        (va, Latest(va.arbiter, io.secondReadFails))
      else (v, first);
    CheckRecord(v1, record, configHost, configPort, io)
  }

  /** The second half of the startup check: parse the arbiter's "host port" and switch to it unless it is the configured writer. */
  function CheckRecord(v: View, record: string, configHost: string, configPort: int, io: BootIo): (r: (View, BootOutcome))
    ensures r.0.guard == v.guard && r.0.arbiter == v.arbiter
    ensures WriterValid(v) ==> WriterValid(r.0)
    ensures r.1 != SwitchedFromArbiter(Switched) ==> r.0.writerHost == v.writerHost && r.0.writerPort == v.writerPort
  {
    var parts := Split(record, ' ');
    if |parts| < 2 then (v, Threw)
    else match ParseInteger(parts[1])
      case None => (v, Threw)
      case Some(port) =>
        if !(Int32Min <= port <= Int32Max) then (v, Threw)
        else if EqualsIgnoreCase(parts[0], configHost) && port == configPort then (v, ConfigConfirmed)
        else
          var (v2, o) := Switch(v, record, true, io.ip, io.commandFails);
          (v2, SwitchedFromArbiter(o))
  }

  /** A record naming the configured writer is confirmed and changes nothing. */
  lemma CheckRecordConfirms(v: View, host: string, port: int, io: BootIo)
    requires forall k :: 0 <= k < |host| ==> host[k] != ' '
    requires Int32Min <= port <= Int32Max
    ensures CheckRecord(v, HostAndPort(host, port), host, port, io) == (v, ConfigConfirmed)
  {
    SplitHostAndPort(host, port);
    ParseIntegerOfIntToString(port);
    EqualsIgnoreCaseReflexive(host);
  }

  /** When the arbiter already names the configured writer, startup changes nothing. */
  lemma BootConfirmsConfiguredWriter(v: View, slaveHost: string, slavePort: int, now: int, io: BootIo, host: string, port: int)
    requires slaveHost != "" && slavePort > 0
    requires !io.firstReadFails && v.arbiter != [] && v.arbiter[|v.arbiter| - 1].serverHost == HostAndPort(host, port)
    requires |host| > 0 && forall k :: 0 <= k < |host| ==> !IsWhiteSpace(host[k])
    requires Int32Min <= port <= Int32Max
    ensures Boot(v, slaveHost, slavePort, host, port, now, io) == (v, ConfigConfirmed)
  {
    CleanHostAndPort(host, port);
    assert Latest(v.arbiter, io.firstReadFails) == HostAndPort(host, port);
    HostAndPortNotWhiteSpace(host, port);
    assert forall k :: 0 <= k < |host| ==> host[k] != ' ' by {
      assert IsWhiteSpace(' ');
    }
    CheckRecordConfirms(v, host, port, io);
  }

  /**
   * On an empty arbiter with every step succeeding, the first machine to start
   * records itself as master, and its replica stops replicating when the
   * configuration named another writer.
   */
  lemma FirstBootBecomesMaster(v: View, slaveHost: string, slavePort: int, configHost: string, configPort: int, now: int, io: BootIo)
    requires slaveHost != "" && slavePort > 0 && slavePort <= Int32Max
    requires v.arbiter == [] && !io.insertFails && !io.secondReadFails && !io.commandFails
    requires var ip := CurrentIp(io.ip); |ip| > 0 && forall k :: 0 <= k < |ip| ==> !IsWhiteSpace(ip[k])
    requires !(EqualsIgnoreCase(CurrentIp(io.ip), configHost) && slavePort == configPort)
    ensures var (v1, o) := Boot(v, slaveHost, slavePort, configHost, configPort, now, io);
            v1.arbiter == [InitialRecord(CurrentIp(io.ip), slavePort, now)]
            && o == SwitchedFromArbiter(Switched)
            && v1.writerHost == CurrentIp(io.ip) && v1.writerPort == slavePort
            && v1.replication == v.replication + [ReplicaOfNoOne]
  {
    var ip := CurrentIp(io.ip);
    CleanHostAndPort(ip, slavePort);
    assert forall k :: 0 <= k < |ip| ==> ip[k] != ' ' by {
      assert IsWhiteSpace(' ');
    }
    SplitHostAndPort(ip, slavePort);
    ParseIntegerOfIntToString(slavePort);
    EqualsIgnoreCaseReflexive(ip);
    var va := v.(arbiter := [InitialRecord(ip, slavePort, now)], writerHost := slaveHost, writerPort := slavePort);
    SwitchToRecord(va, ip, slavePort, true, io.ip);
  }
}
