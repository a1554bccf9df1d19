/** What an accepted request brings about, in the states that runs of requests reach. */
module NovaEffects {
  import opened Wrappers
  import opened Decimal
  import opened NovaStore
  import opened NovaInvariants
  import opened NovaHttp
  import opened NovaRuns
  import opened NovaReplies
  import opened NovaMeaning

  /** The server is in a group of this name. */
  predicate InGroup(st: Store, sid: string, name: string) {
    exists g :: g in st.groups && st.groups[g].name == name && HasServerGroup(st, sid, g)
  }

  /** The IP with this address is marked as attached to the server. */
  predicate Attached(st: Store, address: string, server: Option<string>) {
    exists k :: k in st.ips && st.ips[k].ip == address && st.ips[k].instanceId == server
  }

  predicate Embeds(st: Store, g: int, r: int) {
    g in st.groups && RuleIndex(st.groups[g].rules, r) != -1
  }

  /** The server has this name and is in all groups asked for. */
  predicate Running(st: Store, sid: string, name: string, wanted: seq<string>) {
    sid in st.servers && st.servers[sid].name == name && forall i :: 0 <= i < |wanted| ==> InGroup(st, sid, wanted[i])
  }

  ghost predicate Granted(n: NovaState, req: Request) {
    match req
    case RunServer(name, _, _, names) => Running(n.st, Itoa(n.nextServerId), name, Wanted(names))
    case DeleteServer(sid) => sid !in n.st.servers
    case JoinGroup(sid, name) => InGroup(n.st, sid, name)
    case LeaveGroup(sid, name) => !InGroup(n.st, sid, name)
    case AttachIP(sid, address) => HasServerIP(n.st, sid, address) && Attached(n.st, address, Some(sid))
    case DetachIP(sid, address) => !HasServerIP(n.st, sid, address) && Attached(n.st, address, None)
    case CreateGroup(name, _) => !FoundGroup(n.st, name, None)
    case DeleteGroup(id) => id !in n.st.groups
    case CreateRule(info) => HasRule(n.st, info.parent, n.nextRuleId) && Embeds(n.st, info.parent, n.nextRuleId)
    case DeleteRule(id) => !HasRule(n.st, -1, id) && forall g :: !Embeds(n.st, g, id)
    case CreateIP => Attached(n.st, Address(n.nextIPId), None)
    case DeleteIP(id) => id !in n.st.ips
  }

  lemma JoinGrants(n: NovaState, sid: string, name: string, found: Option<Group>)
    requires HttpInv(n) && FoundGroup(n.st, name, found) && HandleJoinGroup(n, sid, found).1.Accepted?
    ensures InGroup(HandleJoinGroup(n, sid, found).0.st, sid, name)
  {
    FoundGroupIsKeyed(n.st, name, found);
    var st', g := HandleJoinGroup(n, sid, found).0.st, found.value.id;
    var list := ListOf(n.st.serverGroups, sid);
    assert ListOf(st'.serverGroups, sid) == list + [g];
    assert (list + [g])[|list|] == g;
    assert HasServerGroup(st', sid, g);
  }

  lemma LeaveGrants(n: NovaState, sid: string, name: string, found: Option<Group>)
    requires HttpInv(n) && FoundGroup(n.st, name, found) && HandleLeaveGroup(n, sid, found).1.Accepted?
    ensures !InGroup(HandleLeaveGroup(n, sid, found).0.st, sid, name)
  {
    FoundGroupIsKeyed(n.st, name, found);
    var st', g := HandleLeaveGroup(n, sid, found).0.st, found.value.id;
    var list := ListOf(n.st.serverGroups, sid);
    RemoveAtKeepsDistinct(list, IndexOf(list, g));
    assert !HasServerGroup(st', sid, g);
    assert forall h :: h in st'.groups && st'.groups[h].name == name ==> h == g;
  }

  lemma AttachGrants(n: NovaState, sid: string, address: string, found: Option<FloatingIP>)
    requires HttpInv(n) && FoundIP(n.st, address, found) && HandleAttachIP(n, sid, address, found).1.Accepted?
    ensures var st' := HandleAttachIP(n, sid, address, found).0.st;
            HasServerIP(st', sid, address) && Attached(st', address, Some(sid))
  {
    FoundIPIsKeyed(n.st, address, found);
    var st', id := HandleAttachIP(n, sid, address, found).0.st, found.value.id;
    var list := ListOf(n.st.serverIPs, sid);
    assert ListOf(st'.serverIPs, sid) == list + [id];
    assert (list + [id])[|list|] == id;
    assert id in ListOf(st'.serverIPs, sid) && AddressOf(st', id) == address;
    assert id in st'.ips && st'.ips[id].ip == address && st'.ips[id].instanceId == Some(sid);
  }

  lemma DetachGrants(n: NovaState, sid: string, address: string, found: Option<FloatingIP>)
    requires HttpInv(n) && FoundIP(n.st, address, found) && HandleDetachIP(n, sid, address, found).1.Accepted?
    ensures var st' := HandleDetachIP(n, sid, address, found).0.st;
            !HasServerIP(st', sid, address) && Attached(st', address, None)
  {
    FoundIPIsKeyed(n.st, address, found);
    var st', id := HandleDetachIP(n, sid, address, found).0.st, found.value.id;
    var list := ListOf(n.st.serverIPs, sid);
    RemoveAtKeepsDistinct(list, IndexOf(list, id));
    assert id in st'.ips && st'.ips[id].ip == address && st'.ips[id].instanceId == None;
    forall k | k in ListOf(st'.serverIPs, sid)
      ensures AddressOf(st', k) != address
    {
      OnlyOneAddressed(n, address, id, k);
    }
  }

  lemma OnlyOneAddressed(n: NovaState, address: string, id: int, k: int)
    requires HttpInv(n) && id in n.st.ips && n.st.ips[id].ip == address && k != id
    ensures AddressOf(n.st, k) != address
  {
    if AddressOf(n.st, k) == address {
      assert address == Address(id);
      assert k in n.st.ips;
      AddressesDistinct(n, id, k);
    }
  }

  lemma CreateRuleGrants(n: NovaState, info: RuleInfo)
    requires HttpInv(n) && HandleCreateRule(n, info).1.Accepted?
    ensures var n' := HandleCreateRule(n, info).0;
            HasRule(n'.st, info.parent, n'.nextRuleId) && Embeds(n'.st, info.parent, n'.nextRuleId)
  {
    var n' := HandleCreateRule(n, info).0;
    var rs := n.st.groups[info.parent].rules;
    var rs' := n'.st.groups[info.parent].rules;
    assert n.st.groups[info.parent].id == info.parent;
    assert rs' == rs + [NewRule(n.st, n'.nextRuleId, info)];
    assert rs'[|rs|].id == n'.nextRuleId;
  }

  lemma DeleteRuleGrants(n: NovaState, id: int)
    requires HttpInv(n) && HandleDeleteRule(n, id).1.Accepted?
    ensures var st' := HandleDeleteRule(n, id).0.st;
            !HasRule(st', -1, id) && forall g :: !Embeds(st', g, id)
  {
    RemoveRuleLeavesNoCopy(n.st, id);
    var st' := HandleDeleteRule(n, id).0.st;
    forall g
      ensures !Embeds(st', g, id)
    {
      assert g in st'.groups <==> g in n.st.groups.Keys;
    }
  }

  /** Joining several groups without a refusal puts the server into all of them. */
  lemma {:induction false} JoinAllJoins(st: Store, sid: string, gids: seq<int>)
    requires JoinAll(st, sid, gids).error.None?
    ensures var st' := JoinAll(st, sid, gids).store;
            && st'.servers == st.servers && st'.groups == st.groups
            && (forall g :: g in ListOf(st.serverGroups, sid) || g in gids ==> g in ListOf(st'.serverGroups, sid))
    decreases |gids|
  {
    if gids != [] {
      var next := AddServerGroup(st, sid, gids[0]).store;
      JoinAllJoins(next, sid, gids[1..]);
      var list := ListOf(st.serverGroups, sid);
      assert ListOf(next.serverGroups, sid) == list + [gids[0]];
      assert (list + [gids[0]])[|list|] == gids[0];
      assert gids == [gids[0]] + gids[1..];
    }
  }

  lemma StartGrants(n: NovaState, name: string, wanted: seq<string>, gids: seq<int>)
    requires HttpInv(n) && Picked(n.st, wanted, gids)
    requires StartServer(n.(nextServerId := n.nextServerId + 1), name, gids).1.Accepted?
    ensures var n' := StartServer(n.(nextServerId := n.nextServerId + 1), name, gids).0;
            Running(n'.st, Itoa(n'.nextServerId), name, wanted)
  {
    var n1 := n.(nextServerId := n.nextServerId + 1);
    var id := Itoa(n1.nextServerId);
    var mid := AddServer(n1.st, Server(id, name)).store;
    var st' := StartServer(n1, name, gids).0.st;
    PickedRepeats(n, wanted, gids);
    JoinAllJoins(mid, id, gids);
    forall i | 0 <= i < |wanted|
      ensures InGroup(st', id, wanted[i])
    {
      assert gids[i] in gids;
      assert HasServerGroup(st', id, gids[i]);
    }
  }

  lemma CreateGroupGrants(n: NovaState, name: string, description: string, found: Option<Group>)
    requires HandleCreateGroup(n, name, description, found).1.Accepted?
    ensures !FoundGroup(HandleCreateGroup(n, name, description, found).0.st, name, None)
  {
    var n' := HandleCreateGroup(n, name, description, found).0;
    assert n'.nextGroupId in n'.st.groups && n'.st.groups[n'.nextGroupId].name == name;
  }

  lemma CreateIPGrants(n: NovaState)
    requires HandleCreateIP(n).1.Accepted?
    ensures var n' := HandleCreateIP(n).0; Attached(n'.st, Address(n'.nextIPId), None)
  {
    var n' := HandleCreateIP(n).0;
    assert n'.nextIPId in n'.st.ips && n'.st.ips[n'.nextIPId].instanceId == None;
  }

  /** An accepted request has brought about what it asked for. */
  lemma AcceptedGrants(n: NovaState, req: Request, n': NovaState, reply: Reply)
    requires HttpInv(n) && Serves(n, req, n', reply) && reply.Accepted?
    ensures Granted(n', req)
  {
    match req {
      case RunServer(name, image, flavor, names) =>
        var gids :| Picked(n.st, Wanted(names), gids) &&
                    (n', reply) == StartServer(n.(nextServerId := n.nextServerId + 1), name, gids);
        StartGrants(n, name, Wanted(names), gids);
      case JoinGroup(sid, name) =>
        var found :| FoundGroup(n.st, name, found) && (n', reply) == HandleJoinGroup(n, sid, found);
        JoinGrants(n, sid, name, found);
      case LeaveGroup(sid, name) =>
        var found :| FoundGroup(n.st, name, found) && (n', reply) == HandleLeaveGroup(n, sid, found);
        LeaveGrants(n, sid, name, found);
      case AttachIP(sid, addr) =>
        var found :| FoundIP(n.st, addr, found) && (n', reply) == HandleAttachIP(n, sid, addr, found);
        AttachGrants(n, sid, addr, found);
      case DetachIP(sid, addr) =>
        var found :| FoundIP(n.st, addr, found) && (n', reply) == HandleDetachIP(n, sid, addr, found);
        DetachGrants(n, sid, addr, found);
      case CreateGroup(name, desc) =>
        var found :| FoundGroup(n.st, name, found) && (n', reply) == HandleCreateGroup(n, name, desc, found);
        CreateGroupGrants(n, name, desc, found);
      case CreateRule(info) => CreateRuleGrants(n, info);
      case DeleteRule(id) => DeleteRuleGrants(n, id);
      case CreateIP => CreateIPGrants(n);
      case _ =>
    }
  }

  /** What a caller may rely on: in a sound state the request leaves a sound state, is answered
      with an internal error exactly when it is one of those that fail inside, and if accepted has
      been carried out; and all tables and counters are what the request means. */
  ghost predicate Honoured(n: NovaState, req: Request, n': NovaState, reply: Reply) {
    HttpInv(n) ==>
      && HttpInv(n')
      && (reply.Internal? <==> FailsInside(n, req))
      && (reply.Accepted? ==> Granted(n', req))
      && Means(n, req, n', reply)
  }

  lemma ServedIsHonoured(n: NovaState, req: Request, n': NovaState, reply: Reply)
    requires Serves(n, req, n', reply)
    ensures Honoured(n, req, n', reply)
  {
    if HttpInv(n) {
      ServingKeepsInv(n, req, n', reply);
      InternalExactly(n, req, n', reply);
      ServedAsMeant(n, req, n', reply);
      if reply.Accepted? {
        AcceptedGrants(n, req, n', reply);
      }
    }
  }
}
