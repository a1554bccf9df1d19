/** The compute service as its clients see it: every call may fail, in any way the contracts
    below allow. Creating a server or an IP fails without effect; a failed attachment or deletion
    may have taken effect all the same. The ghost logs record what was asked for and answered. The
    look-up of host names, though no part of the service, is kept with it. */
module Cloud {
  import opened Wrappers

  datatype CloudIP = CloudIP(address: string, instance: Option<string>)

  datatype ServerCall = Created(id: string) | CreationFailed | DeleteRequested(id: string, done: bool)

  datatype IPCall =
    | Allocated(id: int, address: string)
    | AllocationFailed
    | Listed(list: seq<(int, CloudIP)>)
    | AddressSet(server: string, address: string)
    | Attachment(server: string, address: string, done: bool)
    | IPDeletion(id: int, done: bool)

  /** A server's addresses by network. */
  type Networks = map<string, seq<string>>

  datatype InfoCall =
    | LookedUp(address: string, failed: bool, names: seq<string>)
    | Renamed(server: string, name: string)
    | Details(server: string, networks: Option<Networks>)

  class Compute {
    var ips: map<int, CloudIP>
    var nextIP: int
    var known: set<string>
    ghost var serverLog: seq<ServerCall>
    ghost var ipLog: seq<IPCall>
    ghost var infoLog: seq<InfoCall>

    /** No two floating IPs share an address, ids are not given out twice, and IPs are attached to
        known servers only. */
    ghost predicate Valid()
      reads this
    {
      && (forall k :: k in ips ==> k < nextIP && (ips[k].instance.Some? ==> ips[k].instance.value in known))
      && (forall j, k :: j in ips && k in ips && ips[j].address == ips[k].address ==> j == k)
    }

    constructor ()
      ensures Valid() && ips == map[] && known == {} && serverLog == [] && ipLog == [] && infoLog == []
    {
      ips, nextIP, known := map[], 0, {};
      serverLog, ipLog, infoLog := [], [], [];
    }

    method AllocateFloatingIP() returns (ip: Option<(int, string)>)
      requires Valid()
      modifies this`ips, this`nextIP, this`ipLog
      ensures Valid()
      ensures ip.None? ==> ips == old(ips) && nextIP == old(nextIP) && ipLog == old(ipLog) + [AllocationFailed]
      ensures ip.Some? ==>
                var (id, address) := ip.value;
                && old(nextIP) <= id < nextIP && id !in old(ips) && ips == old(ips)[id := CloudIP(address, None)]
                && (forall k :: k in old(ips) ==> old(ips)[k].address != address)
                && ipLog == old(ipLog) + [Allocated(id, address)]
    {
      var address: string := *;
      if exists k :: k in ips && ips[k].address == address {
        ipLog := ipLog + [AllocationFailed];
        return None;
      }
      if * {
        ipLog := ipLog + [AllocationFailed];
        return None;
      }
      ip := Some((nextIP, address));
      ips := ips[nextIP := CloudIP(address, None)];
      ipLog := ipLog + [Allocated(nextIP, address)];
      nextIP := nextIP + 1;
    }

    /** The current IPs, in any order; a filter may have been ignored or have hidden some. The log
        takes a failed listing for an empty one. */
    method ListFloatingIPs() returns (ok: bool, list: seq<(int, CloudIP)>)
      modifies this`ipLog
      ensures ipLog == old(ipLog) + [Listed(if ok then list else [])]
      ensures |list| <= |ips|
      ensures forall i :: 0 <= i < |list| ==> list[i].0 in ips && ips[list[i].0] == list[i].1
    {
      ok, list := *, [];
      var todo := ips.Items;
      while todo != {}
        invariant todo <= ips.Items && |list| + |todo| <= |ips|
        invariant forall i :: 0 <= i < |list| ==> list[i].0 in ips && ips[list[i].0] == list[i].1
        decreases todo
      {
        var item :| item in todo;
        todo := todo - {item};
        if * {
          list := list + [item];
        }
      }
      ipLog := ipLog + [Listed(if ok then list else [])];
    }

    method DeleteFloatingIP(id: int) returns (ok: bool)
      requires Valid()
      modifies this`ips, this`ipLog
      ensures Valid()
      ensures ips == old(ips) - {id} || (!ok && ips == old(ips))
      ensures ipLog == old(ipLog) + [IPDeletion(id, ok)]
    {
      ok := *;
      var takesEffect: bool := *;
      if ok || takesEffect {
        ips := ips - {id};
      } else {
        assert old(ips) == ips;
      }
      ipLog := ipLog + [IPDeletion(id, ok)];
    }

    method SetIPV4Address(server: string, address: string) returns (ok: bool)
      modifies this`ipLog
      ensures ipLog == old(ipLog) + [AddressSet(server, address)]
    {
      ok := *;
      ipLog := ipLog + [AddressSet(server, address)];
    }

    /** Attaches the IP with this address, if there is one; a failure may leave it attached. */
    method AddServerFloatingIP(server: string, address: string) returns (ok: bool)
      requires Valid()
      modifies this`ips, this`ipLog
      ensures Valid() && ips.Keys == old(ips).Keys
      ensures ipLog == old(ipLog) + [Attachment(server, address, ok)]
      ensures forall k :: k in ips ==>
                || (ips[k] == old(ips)[k] && (ok ==> ips[k].address != address || ips[k].instance == Some(server)))
                || (old(ips)[k].address == address && ips[k] == CloudIP(address, Some(server)))
    {
      ok := *;
      var takesEffect: bool := *;
      if server !in known {
        ok, takesEffect := false, false;
      }
      if ok || takesEffect {
        ips := map k | k in ips :: if ips[k].address == address then CloudIP(address, Some(server)) else ips[k];
      }
      ipLog := ipLog + [Attachment(server, address, ok)];
    }

    /** A new server gets an id no server had before. */
    method RunServer() returns (id: Option<string>)
      requires Valid()
      modifies this`serverLog, this`known
      ensures Valid()
      ensures id.None? ==> serverLog == old(serverLog) + [CreationFailed] && known == old(known)
      ensures id.Some? ==>
                && id.value !in old(known) && known == old(known) + {id.value}
                && serverLog == old(serverLog) + [Created(id.value)]
    {
      var name: string, refused: bool := *, *;
      if refused || name in known {
        serverLog := serverLog + [CreationFailed];
        return None;
      }
      known := known + {name};
      serverLog := serverLog + [Created(name)];
      return Some(name);
    }

    /** The host names of an address. */
    method LookupAddr(address: string) returns (failed: bool, names: seq<string>)
      modifies this`infoLog
      ensures infoLog == old(infoLog) + [LookedUp(address, failed, names)]
    {
      failed, names := *, *;
      infoLog := infoLog + [LookedUp(address, failed, names)];
    }

    method RenameServer(server: string, name: string) returns (ok: bool)
      modifies this`infoLog
      ensures infoLog == old(infoLog) + [Renamed(server, name)]
    {
      ok := *;
      infoLog := infoLog + [Renamed(server, name)];
    }

    /** The server's addresses by network, or nothing when the call fails. */
    method GetServer(server: string) returns (networks: Option<Networks>)
      modifies this`infoLog
      ensures infoLog == old(infoLog) + [Details(server, networks)]
    {
      networks := *;
      infoLog := infoLog + [Details(server, networks)];
    }

    /** Asks for a server's deletion, which may detach its IPs whether or not it is confirmed. */
    method DeleteServer(server: string) returns (ok: bool)
      requires Valid()
      modifies this`serverLog, this`ips
      ensures Valid() && ips.Keys == old(ips).Keys
      ensures forall k :: k in ips ==>
                || ips[k] == old(ips)[k]
                || (old(ips)[k].instance == Some(server) && ips[k] == CloudIP(old(ips)[k].address, None))
      ensures serverLog == old(serverLog) + [DeleteRequested(server, ok)]
    {
      ok := *;
      serverLog := serverLog + [DeleteRequested(server, ok)];
      if * {
        ips := map k | k in ips :: if ips[k].instance == Some(server) then CloudIP(ips[k].address, None) else ips[k];
      }
    }
  }
}
