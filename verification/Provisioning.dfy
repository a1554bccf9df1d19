/** Provisioning one server for an asset request: create the server, attach a floating IP, read
    the server's details and register it (provision/serverprovision.go, stormstack/stormstack.go). */
module Provisioning {
  import opened Sequences
  import opened Wrappers
  import opened Cloud
  import opened FloatingIPs

  datatype ErrorCode =
    | ServerCreate
    | AssociateIP
    | SettingHostName
    | FindFlavor
    | FindImage
    | ServerDetail
    | StormRegister

  datatype Status = New | Build | HalfFilled | Retry

  datatype TrackerCall = Registering(server: string, reply: Option<string>) | AddingToDomain(agent: string, done: bool)

  /** The storm tracker and the service that keeps domains of agents. */
  class Tracker {
    ghost var log: seq<TrackerCall>

    constructor ()
      ensures log == []
    {
      log := [];
    }

    /** The agent's id, or nothing when registering fails. */
    method Register(server: string) returns (agent: Option<string>)
      modifies this
      ensures log == old(log) + [Registering(server, agent)]
    {
      agent := *;
      log := log + [Registering(server, agent)];
    }

    method AddToDomain(agent: string) returns (ok: bool)
      modifies this
      ensures log == old(log) + [AddingToDomain(agent, ok)]
    {
      ok := *;
      log := log + [AddingToDomain(agent, ok)];
    }
  }

  /** The calls that register a server: an agent registered is also added to the domain, and both have
      to succeed. */
  predicate RegisterCalls(calls: seq<TrackerCall>, server: string, ok: bool) {
    && |calls| >= 1 && calls[0].Registering? && calls[0].server == server
    && match calls[0].reply
       case None => calls[1..] == [] && !ok
       case Some(agent) => |calls| == 2 && calls[1] == AddingToDomain(agent, ok)
  }

  /** The part of a request that provisioning reads and writes. `stormData` is empty when the
      request names no storm tracker. */
  class AssetRequest {
    const id: string
    const remediation: bool
    const stormData: string
    var serverId: string
    var ipAddress: string
    var agentId: string
    var status: Status

    constructor (id: string, remediation: bool, stormData: string, serverId: string, ipAddress: string)
      ensures this.id == id && this.remediation == remediation && this.stormData == stormData
      ensures this.serverId == serverId && this.ipAddress == ipAddress && agentId == "" && status == New
    {
      this.id, this.remediation, this.stormData := id, remediation, stormData;
      this.serverId, this.ipAddress, agentId, status := serverId, ipAddress, "", New;
    }

    /** Registers the server as a storm agent and adds the agent to the default domain. */
    method RegisterStormAgent(tracker: Tracker, entityId: string) returns (ok: bool, ghost calls: seq<TrackerCall>)
      modifies this`serverId, this`agentId, tracker
      ensures serverId == entityId
      ensures tracker.log == old(tracker.log) + calls && RegisterCalls(calls, entityId, ok)
      ensures agentId == if calls[0].reply.Some? then calls[0].reply.value else old(agentId)
    {
      serverId := entityId;
      var agent := tracker.Register(entityId);
      calls := [Registering(entityId, agent)];
      if agent.None? {
        return false, calls;
      }
      agentId := agent.value;
      ok := tracker.AddToDomain(agentId);
      calls := calls + [AddingToDomain(agentId, ok)];
    }

    /** The one address a request may disturb: that of the server it replaces. */
    function Spare(): Option<string>
      reads this
    {
      if remediation then Some(ipAddress) else None
    }
  }

  /** The calls that are to give the server an IP: those of giving `spare` back, if there is one, or of
      attaching a new one. */
  ghost predicate ObtainCalls(calls: seq<IPCall>, tracked: set<string>, server: string, spare: Option<string>,
                              fip: string, failed: bool, added: Option<int>)
  {
    match spare
    case None =>
      AttachCalls(calls, tracked, server, if failed then None else Some(fip), added) && (failed ==> fip == "")
    case Some(address) => RetainCalls(calls, tracked, server, address, fip, failed, added)
  }

  /** The first of the calls was a listing that shows the address to give back. Then no failure to give
      the server an IP is reported. */
  predicate HidesFailure(spare: Option<string>, calls: seq<IPCall>) {
    spare.Some? && calls != [] && Shows(calls[0], spare.value)
  }

  /** The server was given no IP, or one of whose address nothing is reported: an empty one, or the
      one given back. */
  predicate Silent(ips: IPs, held: Option<int>, spare: Option<string>) {
    held.Some? && held.value in ips ==> ips[held.value].address == "" || spare == Some(ips[held.value].address)
  }

  /** The addresses to choose from: the public ones, else the private ones, else those of any one
      network. */
  ghost predicate Choices(networks: Networks, addresses: seq<string>) {
    if "public" in networks && networks["public"] != [] then addresses == networks["public"]
    else if "private" in networks && networks["private"] != [] then addresses == networks["private"]
    else if networks == map[] then addresses == []
    else exists n :: n in networks && addresses == networks[n]
  }

  /** The second of the addresses, else the only one, else none. */
  function Fallback(addresses: seq<string>): string {
    if addresses == [] then "" else if |addresses| == 1 then addresses[0] else addresses[1]
  }

  /** An address of the server's own, as its details show them. */
  ghost predicate IsOwn(networks: Networks, fip: string) {
    exists addresses :: Choices(networks, addresses) && fip == Fallback(addresses)
  }

  /** The address taken when these are to choose from. */
  predicate TakenFrom(addresses: seq<string>, fip: string) {
    if |addresses| >= 2 then fip == addresses[1]
    else if |addresses| == 1 then fip == addresses[0]
    else fip == ""
  }

  /** The network, if there is one of this name, has no addresses. */
  predicate NoneIn(networks: Networks, name: string) {
    name in networks ==> networks[name] == []
  }

  /** Public addresses go before private ones, and those before any others. */
  lemma OwnExactly(networks: Networks, fip: string)
    ensures !NoneIn(networks, "public") ==> (IsOwn(networks, fip) <==> TakenFrom(networks["public"], fip))
    ensures NoneIn(networks, "public") && !NoneIn(networks, "private") ==>
              (IsOwn(networks, fip) <==> TakenFrom(networks["private"], fip))
    ensures NoneIn(networks, "public") && NoneIn(networks, "private") ==>
              (IsOwn(networks, fip) <==>
               if networks == map[] then fip == "" else exists n :: n in networks && TakenFrom(networks[n], fip))
  {
    forall addresses
      ensures TakenFrom(addresses, fip) <==> fip == Fallback(addresses)
    {
    }
    if n :| n in networks && TakenFrom(networks[n], fip) && NoneIn(networks, "public") && NoneIn(networks, "private") {
      assert Choices(networks, networks[n]);
    }
    if !NoneIn(networks, "public") {
      assert Choices(networks, networks["public"]);
    } else if !NoneIn(networks, "private") {
      assert Choices(networks, networks["private"]);
    } else if networks == map[] {
      assert Choices(networks, []);
    }
  }

  /** The server is registered if the request names a storm tracker. */
  predicate Registers(calls: seq<TrackerCall>, server: string, stormData: string, err: Option<ErrorCode>) {
    if stormData == "" then calls == [] && err.None?
    else
      || (err.None? && RegisterCalls(calls, server, true))
      || (err == Some(StormRegister) && RegisterCalls(calls, server, false))
  }

  /** The calls that come before the server's details: names of its address are looked up, and the
      server is renamed to the first - only when the look-up failed. */
  predicate NameCalls(calls: seq<InfoCall>, server: string, attached: string) {
    && |calls| >= 1 && calls[0].LookedUp? && calls[0].address == attached
    && if calls[0].failed && calls[0].names != [] then calls[1..] == [Renamed(server, calls[0].names[0])]
       else calls[1..] == []
  }

  /** The calls that finish a server, and what they lead to: without the server's details, or without
      an address, the server is not registered. */
  ghost predicate FinishCalls(info: seq<InfoCall>, tracker: seq<TrackerCall>, server: string, stormData: string,
                              attached: string, fip: string, err: Option<ErrorCode>)
  {
    && |info| >= 1 && NameCalls(info[..|info| - 1], server, attached)
    && var last := info[|info| - 1];
       && last.Details? && last.server == server
       && if last.networks.None? then tracker == [] && err == Some(ServerDetail) && fip == attached
          else
            && (if attached == "" then IsOwn(last.networks.value, fip) else fip == attached)
            && if fip == "" then tracker == [] && err == Some(AssociateIP)
               else Registers(tracker, server, stormData, err)
  }

  /** What was asked for and answered. */
  datatype Trace = Trace(server: seq<ServerCall>, ip: seq<IPCall>, info: seq<InfoCall>, tracker: seq<TrackerCall>)

  const SILENCE := Trace([], [], [], [])

  function Plus(a: Trace, b: Trace): Trace {
    Trace(a.server + b.server, a.ip + b.ip, a.info + b.info, a.tracker + b.tracker)
  }

  /** The calls of equipping a server: it is finished unless a failure to give it an IP is reported. */
  ghost predicate EquipCalls(t: Trace, tracked: set<string>, spare: Option<string>, stormData: string, id: string,
                             fip: string, err: Option<ErrorCode>, added: Option<int>)
  {
    exists attached, failed ::
      && ObtainCalls(t.ip, tracked, id, spare, attached, failed, added)
      && if failed then t.info == [] && t.tracker == [] && err == Some(AssociateIP) && fip == ""
         else FinishCalls(t.info, t.tracker, id, stormData, attached, fip, err)
  }

  /** The calls of provisioning one server, and what they lead to: step by step, until one fails. */
  ghost predicate ProvisionCalls(t: Trace, tracked: set<string>, spare: Option<string>, stormData: string, id: string,
                                 fip: string, err: Option<ErrorCode>, added: Option<int>)
  {
    if t.server == [CreationFailed] then
      id == "" && fip == "" && err == Some(ServerCreate) && added.None? && t == Trace([CreationFailed], [], [], [])
    else
      t.server == [Created(id)] && EquipCalls(t, tracked, spare, stormData, id, fip, err, added)
  }

  /** The calls of giving a server up: only a remediation gives its address up too. */
  predicate DeprovisionCalls(t: Trace, spare: Option<string>, server: string, ok: bool) {
    && t.server == [DeleteRequested(server, ok)] && t.info == [] && t.tracker == []
    && match spare
       case None => t.ip == []
       case Some(address) => DettachCalls(t.ip, address, true) || DettachCalls(t.ip, address, false)
  }

  /** The last answer about a server gives this address as its own. */
  ghost predicate Reports(calls: seq<InfoCall>, fip: string) {
    && calls != [] && calls[|calls| - 1].Details? && calls[|calls| - 1].networks.Some?
    && IsOwn(calls[|calls| - 1].networks.value, fip)
  }

  /** How the outcome relates to the IP that the server holds. Four kinds of failure are possible. When
      all went well, or failed only after an address was found, the server holds an IP, unless the
      failure to give it one was hidden; the address reported is that of the IP, or one from the
      server's details if that is empty or the one given back. */
  ghost predicate Outcome(ips: IPs, held: Option<int>, spare: Option<string>, t: Trace, fip: string,
                          err: Option<ErrorCode>)
  {
    match err
    case None =>
      && fip != "" && (held.Some? || HidesFailure(spare, t.ip))
      && ((held.Some? && held.value in ips && ips[held.value].address == fip) ||
          (Silent(ips, held, spare) && Reports(t.info, fip)))
    case Some(ServerDetail) => held.Some? || HidesFailure(spare, t.ip)
    case Some(StormRegister) => held.Some? || HidesFailure(spare, t.ip)
    case Some(AssociateIP) =>
      (held.None? && !HidesFailure(spare, t.ip)) || (Silent(ips, held, spare) && Reports(t.info, ""))
    case _ => false
  }

  lemma NotEquipped(t: Trace, ips: IPs, held: Option<int>, spare: Option<string>)
    requires held.None? && !HidesFailure(spare, t.ip)
    ensures Outcome(ips, held, spare, t, "", Some(AssociateIP))
  {
  }

  lemma Equipped(t: Trace, ips: IPs, held: Option<int>, spare: Option<string>, id: string, stormData: string,
                 attached: string, fip: string, err: Option<ErrorCode>)
    requires held.Some? || HidesFailure(spare, t.ip)
    requires attached != "" ==> held.Some? && held.value in ips && ips[held.value].address == attached
    requires attached == "" ==> Silent(ips, held, spare)
    requires FinishCalls(t.info, t.tracker, id, stormData, attached, fip, err)
    ensures Outcome(ips, held, spare, t, fip, err)
  {
  }

  class ServiceProvision {
    const nova: Compute
    const floatingSvc: FIPWithNova
    const tracker: Tracker

    constructor (nova: Compute, remediation: RemediationList, tracker: Tracker)
      ensures this.nova == nova && floatingSvc.nova == nova && floatingSvc.remediation == remediation
      ensures this.tracker == tracker
    {
      this.nova, this.tracker := nova, tracker;
      floatingSvc := new FIPWithNova(nova, remediation);
    }

    ghost predicate Valid()
      reads this, nova
    {
      floatingSvc.nova == nova && nova.Valid()
    }

    /** All that was asked for so far. */
    ghost function Log(): Trace
      reads this, nova, tracker
    {
      Trace(nova.serverLog, nova.ipLog, nova.infoLog, tracker.log)
    }

    /** Retains the request's address when it replaces a failed server, else attaches a new one.
        `held` is the IP the server was given. When there is none, a failure is reported unless the
        request is a remediation and the listing made first shows its address. */
    method ObtainIP(asset: AssetRequest, entityId: string)
      returns (fip: string, failed: bool, ghost held: Option<int>, ghost added: Option<int>, ghost calls: seq<IPCall>)
      requires Valid()
      modifies nova`ips, nova`nextIP, nova`ipLog, floatingSvc.remediation
      ensures Valid() && old(nova.nextIP) <= nova.nextIP
      ensures KeepsOthers(old(nova.ips), nova.ips, old(floatingSvc.remediation.tracked), asset.Spare())
      ensures Accounts(old(nova.ips), nova.ips, added, asset.Spare(), entityId)
      ensures added.Some? ==> old(nova.nextIP) <= added.value
      ensures floatingSvc.remediation.tracked ==
              old(floatingSvc.remediation.tracked) -
              if asset.remediation && !GivesBack(calls, asset.ipAddress) then {asset.ipAddress} else {}
      ensures nova.ipLog == old(nova.ipLog) + calls
      ensures ObtainCalls(calls, old(floatingSvc.remediation.tracked), entityId, asset.Spare(), fip, failed, added)
      ensures failed <==> held.None? && !HidesFailure(asset.Spare(), calls)
      ensures held.None? ==> fip == "" && GivenBack(nova.ips, calls, added)
      ensures held.Some? ==> Holds(nova.ips, held.value, entityId)
      ensures fip != "" ==> held.Some? && nova.ips[held.value].address == fip
      ensures fip == "" ==> Silent(nova.ips, held, asset.Spare())
    {
      added := None;
      if asset.remediation {
        fip, failed, held, added, calls := floatingSvc.Retain(entityId, asset.ipAddress);
      } else {
        var ip;
        ip, added, calls := floatingSvc.Attach(entityId);
        failed, held := ip.None?, if ip.Some? then added else None;
        fip := if ip.Some? then ip.value else "";
      }
    }

    /** Looks up names for the address, and renames the server to the first one found by a look-up
        that failed. The outcome of both is overwritten by the call that reads the details. */
    method NameServer(entityId: string, attached: string) returns (ghost calls: seq<InfoCall>)
      modifies nova`infoLog
      ensures nova.infoLog == old(nova.infoLog) + calls && NameCalls(calls, entityId, attached)
    {
      var failed, names := nova.LookupAddr(attached);
      calls := [LookedUp(attached, failed, names)];
      if failed && |names| > 0 {
        var _ := nova.RenameServer(entityId, names[0]);
        calls := calls + [Renamed(entityId, names[0])];
        assert calls[1..] == [Renamed(entityId, names[0])];
      }
    }

    /** Names the server, reads its details and registers it. An empty address is replaced by one of
        the server's own. */
    method FinishInstance(asset: AssetRequest, entityId: string, attached: string)
      returns (fip: string, err: Option<ErrorCode>, ghost info: seq<InfoCall>, ghost registering: seq<TrackerCall>)
      modifies asset`serverId, asset`agentId, nova`infoLog, tracker
      ensures nova.infoLog == old(nova.infoLog) + info && tracker.log == old(tracker.log) + registering
      ensures FinishCalls(info, registering, entityId, asset.stormData, attached, fip, err)
      ensures asset.serverId == if registering != [] then entityId else old(asset.serverId)
    {
      fip, err, registering := attached, None, [];
      info := NameServer(entityId, attached);
      ghost var naming := info;
      var detail := nova.GetServer(entityId);
      info := naming + [Details(entityId, detail)];
      Regrouped(old(nova.infoLog), naming, [Details(entityId, detail)]);
      assert info[..|info| - 1] == naming;
      if detail.None? {
        err := Some(ServerDetail);
        return;
      }
      var addresses := PickAddresses(detail.value);
      if fip == "" {
        if |addresses| > 1 {
          fip := addresses[1];
        } else if |addresses| > 0 {
          fip := addresses[0];
        }
        assert fip == Fallback(addresses);
      }
      if fip == "" {
        err := Some(AssociateIP);
        return;
      }
      if asset.stormData != "" {
        var registered;
        registered, registering := asset.RegisterStormAgent(tracker, entityId);
        if !registered {
          err := Some(StormRegister);
        }
      }
    }

    /** Gives a server just made an IP and finishes it. */
    method EquipInstance(asset: AssetRequest, entityId: string)
      returns (fip: string, err: Option<ErrorCode>, ghost held: Option<int>, ghost added: Option<int>,
               ghost calls: Trace)
      requires Valid()
      modifies nova`ips, nova`nextIP, nova`ipLog, nova`infoLog, floatingSvc.remediation, tracker
      modifies asset`serverId, asset`agentId
      ensures Valid() && old(nova.nextIP) <= nova.nextIP
      ensures Log() == Plus(old(Log()), calls) && calls.server == []
      ensures EquipCalls(calls, old(floatingSvc.remediation.tracked), asset.Spare(), asset.stormData, entityId, fip,
                         err, added)
      ensures asset.serverId == if calls.tracker != [] then entityId else old(asset.serverId)
      ensures KeepsOthers(old(nova.ips), nova.ips, old(floatingSvc.remediation.tracked), asset.Spare())
      ensures Accounts(old(nova.ips), nova.ips, added, asset.Spare(), entityId)
      ensures added.Some? ==> old(nova.nextIP) <= added.value
      ensures if asset.remediation
              then Untracks(old(floatingSvc.remediation.tracked), floatingSvc.remediation.tracked, asset.ipAddress)
              else floatingSvc.remediation.tracked == old(floatingSvc.remediation.tracked)
      ensures held.Some? ==> Holds(nova.ips, held.value, entityId)
      ensures held.None? ==> GivenBack(nova.ips, calls.ip, added)
      ensures Outcome(nova.ips, held, asset.Spare(), calls, fip, err)
    {
      var attached, failed;
      ghost var asked, info, registering;
      attached, failed, held, added, asked := ObtainIP(asset, entityId);
      if failed {
        fip, err, calls := "", Some(AssociateIP), Trace([], asked, [], []);
        NotEquipped(calls, nova.ips, held, asset.Spare());
      } else {
        ghost var spare := asset.Spare();
        fip, err, info, registering := FinishInstance(asset, entityId, attached);
        calls := Trace([], asked, info, registering);
        Equipped(calls, nova.ips, held, spare, entityId, asset.stormData, attached, fip, err);
      }
    }

    /** Creates and equips one server. The wait for the server to start never reports an error. */
    method ProvisionInstance(asset: AssetRequest)
      returns (entityId: string, fip: string, err: Option<ErrorCode>, ghost held: Option<int>, ghost added: Option<int>,
               ghost calls: Trace)
      requires Valid()
      modifies nova, floatingSvc.remediation, tracker, asset`serverId, asset`agentId
      ensures Valid() && old(nova.nextIP) <= nova.nextIP
      ensures Log() == Plus(old(Log()), calls)
      ensures ProvisionCalls(calls, old(floatingSvc.remediation.tracked), asset.Spare(), asset.stormData, entityId, fip,
                             err, added)
      ensures err == Some(ServerCreate) <==> calls.server == [CreationFailed]
      ensures err == Some(ServerCreate) ==> nova.known == old(nova.known) && nova.ips == old(nova.ips)
      ensures err != Some(ServerCreate) ==>
                entityId !in old(nova.known) && nova.known == old(nova.known) + {entityId}
      ensures asset.serverId == if calls.tracker != [] then entityId else old(asset.serverId)
      ensures KeepsOthers(old(nova.ips), nova.ips, old(floatingSvc.remediation.tracked), asset.Spare())
      ensures Accounts(old(nova.ips), nova.ips, added, asset.Spare(), entityId)
      ensures added.Some? ==> old(nova.nextIP) <= added.value
      ensures if asset.remediation
              then Untracks(old(floatingSvc.remediation.tracked), floatingSvc.remediation.tracked, asset.ipAddress)
              else floatingSvc.remediation.tracked == old(floatingSvc.remediation.tracked)
      ensures held.Some? ==> Holds(nova.ips, held.value, entityId)
      ensures held.None? ==> GivenBack(nova.ips, calls.ip, added)
      ensures err != Some(ServerCreate) ==> Outcome(nova.ips, held, asset.Spare(), calls, fip, err)
    {
      entityId, fip, err, held, added := "", "", None, None, None;
      var entity := nova.RunServer();
      if entity.None? {
        err := Some(ServerCreate);
        calls := Trace([CreationFailed], [], [], []);
        return;
      }
      entityId := entity.value;
      fip, err, held, added, calls := EquipInstance(asset, entityId);
      calls := calls.(server := [Created(entityId)]);
    }

    /** Deletes the request's server. Only when the request is a remediation is its address released
        (if more than one IP is listed) and tracked. */
    method DeprovisionInstance(asset: AssetRequest) returns (ok: bool, ghost calls: Trace)
      requires Valid()
      modifies nova`ips, nova`ipLog, nova`serverLog, floatingSvc.remediation
      ensures Valid()
      ensures Log() == Plus(old(Log()), calls) && DeprovisionCalls(calls, asset.Spare(), asset.serverId, ok)
      ensures floatingSvc.remediation.tracked ==
              old(floatingSvc.remediation.tracked) + if asset.remediation then {asset.ipAddress} else {}
      ensures forall k :: k in old(nova.ips) && Uninvolved(asset, old(nova.ips)[k]) ==>
                k in nova.ips && nova.ips[k] == old(nova.ips)[k]
      ensures forall k :: k in nova.ips ==> k in old(nova.ips)
      ensures !asset.remediation ==> forall k :: k in old(nova.ips) ==> k in nova.ips
    {
      ghost var asked: seq<IPCall> := [];
      if asset.remediation {
        var detached;
        detached, asked := floatingSvc.Dettach(asset.ipAddress);
        floatingSvc.remediation.Track(asset.ipAddress);
      }
      ok := nova.DeleteServer(asset.serverId);
      calls := Trace([DeleteRequested(asset.serverId, ok)], asked, [], []);
    }
  }

  /** Neither attached to the request's server nor the address it may disturb. */
  predicate Uninvolved(asset: AssetRequest, ip: CloudIP)
    reads asset
  {
    ip.instance != Some(asset.serverId) && asset.Spare() != Some(ip.address)
  }

  method PickAddresses(networks: Networks) returns (addresses: seq<string>)
    ensures Choices(networks, addresses)
  {
    addresses := [];
    if "public" in networks && |networks["public"]| > 0 {
      addresses := networks["public"];
    } else if "private" in networks && |networks["private"]| > 0 {
      addresses := networks["private"];
    } else if |networks| > 0 {
      var item :| item in networks.Items;
      addresses := item.1;
    }
  }
}
