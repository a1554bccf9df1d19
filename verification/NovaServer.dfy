/** The Nova service double as an object: its tables are fields that each operation updates, and
    its handlers call those operations (testservices/novaservice/service.go, service_http.go). */
module NovaServer {
  import opened Wrappers
  import opened Decimal
  import opened NovaStore
  import opened NovaInvariants
  import opened NovaHttp
  import opened NovaRuns
  import opened NovaEffects

  class Nova {
    const tenantId: string
    var servers: map<string, Server>
    var groups: map<int, Group>
    var rules: map<int, Rule>
    var floatingIPs: map<int, FloatingIP>
    var serverGroups: map<string, seq<int>>
    var serverIPs: map<string, seq<int>>
    var nextServerId: nat
    var nextGroupId: nat
    var nextRuleId: nat
    var nextIPId: nat

    ghost function Tables(): Store
      reads this
    {
      Store(tenantId, servers, groups, rules, floatingIPs, serverGroups, serverIPs)
    }

    ghost function State(): NovaState
      reads this
    {
      NovaState(Tables(), nextServerId, nextGroupId, nextRuleId, nextIPId)
    }

    constructor (tenantId: string)
      ensures State() == New(tenantId) && HttpInv(State())
    {
      this.tenantId := tenantId;
      servers, rules, floatingIPs, serverGroups, serverIPs := map[], map[], map[], map[], map[];
      groups := map[DEFAULT_GROUP_ID := Group(DEFAULT_GROUP_ID, DEFAULT_GROUP, "default group", tenantId, [])];
      nextServerId, nextGroupId, nextRuleId, nextIPId := 0, 0, 0, 0;
      new;
      NewInv(tenantId);
    }

    // ---------- Operations on the tables ----------

    method AddServer(server: Server) returns (err: Option<Failure>)
      modifies this
      ensures Became(old(State()), NovaStore.AddServer(old(Tables()), server), State(), err)
      ensures old(Agree(Tables())) ==> Agree(Tables())
    {
      KeepsAgreement(Tables(), AddingServer(server));
      if server.id in servers {
        return Some(AlreadyExists);
      }
      servers := servers[server.id := server];
      return None;
    }

    method RemoveServer(id: string) returns (err: Option<Failure>)
      modifies this
      ensures Became(old(State()), NovaStore.RemoveServer(old(Tables()), id), State(), err)
      ensures old(Agree(Tables())) ==> Agree(Tables())
    {
      KeepsAgreement(Tables(), RemovingServer(id));
      if id !in servers {
        return Some(NoSuchServer);
      }
      servers := servers - {id};
      return None;
    }

    method AddSecurityGroup(group: Group) returns (err: Option<Failure>)
      modifies this
      ensures Became(old(State()), NovaStore.AddGroup(old(Tables()), group), State(), err)
      ensures old(Agree(Tables())) && group.rules == [] ==> Agree(Tables())
    {
      if group.rules == [] {
        KeepsAgreement(Tables(), AddingGroup(group));
      }
      if group.id in groups {
        return Some(AlreadyExists);
      }
      groups := groups[group.id := group.(tenantId := tenantId)];
      return None;
    }

    method RemoveSecurityGroup(id: int) returns (err: Option<Failure>)
      modifies this
      ensures Became(old(State()), NovaStore.RemoveGroup(old(Tables()), id), State(), err)
      ensures old(Agree(Tables())) ==> Agree(Tables())
    {
      KeepsAgreement(Tables(), RemovingGroup(id));
      if id !in groups {
        return Some(NoSuchGroup);
      }
      groups := groups - {id};
      return None;
    }

    method SecurityGroupByName(name: string) returns (found: Option<Group>)
      ensures FoundGroup(Tables(), name, found)
    {
      var todo := groups.Items;
      while todo != {}
        invariant todo <= groups.Items
        invariant forall k :: k in groups && (k, groups[k]) !in todo ==> groups[k].name != name
        decreases todo
      {
        var item :| item in todo;
        var id, group := item.0, item.1;
        if group.name == name {
          assert id in Tables().groups && Tables().groups[id] == group;
          return Some(group);
        }
        todo := todo - {item};
      }
      return None;
    }

    method AddSecurityGroupRule(id: int, info: RuleInfo) returns (err: Option<Failure>)
      modifies this
      ensures Became(old(State()), NovaStore.AddRule(old(Tables()), id, info), State(), err)
      ensures old(Agree(Tables())) ==> Agree(Tables())
    {
      KeepsAgreement(Tables(), AddingRule(id, info));
      if id in rules {
        return Some(AlreadyExists);
      }
      if info.parent !in groups {
        return Some(NoSuchGroup);
      }
      var group := groups[info.parent];
      for i := 0 to |group.rules|
        invariant forall k :: 0 <= k < i ==> group.rules[k].id != id
      {
        if group.rules[i].id == id {
          assert RuleIndex(group.rules, id) == i;
          return Some(RuleInGroup);
        }
      }
      assert RuleIndex(group.rules, id) == -1;
      var source := GroupRef("", "");
      if info.groupId.Some? {
        if info.groupId.value !in groups {
          return Some(UnknownSource);
        }
        var sourceGroup := groups[info.groupId.value];
        source := GroupRef(sourceGroup.tenantId, sourceGroup.name);
      }
      var rule := Rule(id, info.parent, None, None, None, None, source);
      if info.fromPort != 0 {
        rule := rule.(fromPort := Some(info.fromPort));
      }
      if info.toPort != 0 {
        rule := rule.(toPort := Some(info.toPort));
      }
      if info.proto != "" {
        rule := rule.(proto := Some(info.proto));
      }
      if info.cidr != "" {
        rule := rule.(cidr := Some(info.cidr));
      }
      assert rule == NewRule(Tables(), id, info);
      groups := groups[group.id := group.(rules := group.rules + [rule])];
      rules := rules[id := rule];
      return None;
    }

    method HasSecurityGroupRule(group: int, id: int) returns (has: bool)
      ensures has <==> HasRule(Tables(), group, id)
      ensures RulesAgree(Tables()) && group != -1 && Embeds(Tables(), group, id) ==> has
      ensures RulesAgree(Tables()) && NoneStale(Tables()) && group != -1 ==> (has <==> Embeds(Tables(), group, id))
    {
      if RulesAgree(Tables()) && group in groups && group != -1 {
        HasRuleExactly(Tables(), group, id);
      }
      has := id in rules && (group == -1 || (group in groups && rules[id].parent == group));
    }

    method RemoveSecurityGroupRule(id: int) returns (err: Option<Failure>)
      modifies this
      ensures Became(old(State()), NovaStore.RemoveRule(old(Tables()), id), State(), err)
      ensures old(Agree(Tables())) ==> Agree(Tables())
    {
      KeepsAgreement(Tables(), RemovingRule(id));
      if id !in rules {
        return Some(NoSuchRule);
      }
      var parent := rules[id].parent;
      if parent in groups {
        var group := groups[parent];
        var idx := FindRule(group.rules, id);
        if idx != -1 {
          groups := groups[group.id := group.(rules := group.rules[..idx] + group.rules[idx + 1..])];
        }
      }
      rules := rules - {id};
      return None;
    }

    method AddServerSecurityGroup(sid: string, gid: int) returns (err: Option<Failure>)
      modifies this
      ensures Became(old(State()), NovaStore.AddServerGroup(old(Tables()), sid, gid), State(), err)
      ensures old(Agree(Tables())) ==> Agree(Tables())
    {
      KeepsAgreement(Tables(), AddingServerGroup(sid, gid));
      if sid !in servers {
        return Some(NoSuchServer);
      }
      if gid !in groups {
        return Some(NoSuchGroup);
      }
      var list := ListOf(serverGroups, sid);
      var idx := Find(list, gid);
      if idx != -1 {
        return Some(AlreadyMember);
      }
      serverGroups := serverGroups[sid := list + [gid]];
      return None;
    }

    method HasServerSecurityGroup(sid: string, gid: int) returns (has: bool)
      ensures has <==> HasServerGroup(Tables(), sid, gid)
    {
      if sid !in servers || gid !in groups || sid !in serverGroups {
        return false;
      }
      var idx := Find(serverGroups[sid], gid);
      return idx != -1;
    }

    method RemoveServerSecurityGroup(sid: string, gid: int) returns (err: Option<Failure>)
      modifies this
      ensures Became(old(State()), NovaStore.RemoveServerGroup(old(Tables()), sid, gid), State(), err)
      ensures old(Agree(Tables())) ==> Agree(Tables())
    {
      KeepsAgreement(Tables(), RemovingServerGroup(sid, gid));
      if sid !in servers {
        return Some(NoSuchServer);
      }
      if gid !in groups {
        return Some(NoSuchGroup);
      }
      if sid !in serverGroups {
        return Some(NotMember);
      }
      var list := serverGroups[sid];
      var idx := Find(list, gid);
      if idx == -1 {
        return Some(NotMember);
      }
      serverGroups := serverGroups[sid := list[..idx] + list[idx + 1..]];
      return None;
    }

    method AddFloatingIP(ip: FloatingIP) returns (err: Option<Failure>)
      modifies this
      ensures Became(old(State()), NovaStore.AddIP(old(Tables()), ip), State(), err)
      ensures old(Agree(Tables())) && ip.instanceId.None? ==> Agree(Tables())
    {
      if ip.instanceId.None? {
        KeepsAgreement(Tables(), AddingIP(ip));
      }
      if ip.id in floatingIPs {
        return Some(AlreadyExists);
      }
      floatingIPs := floatingIPs[ip.id := ip];
      return None;
    }

    method FloatingIPByAddr(address: string) returns (found: Option<FloatingIP>)
      ensures FoundIP(Tables(), address, found)
    {
      var todo := floatingIPs.Items;
      while todo != {}
        invariant todo <= floatingIPs.Items
        invariant forall k :: k in floatingIPs && (k, floatingIPs[k]) !in todo ==> floatingIPs[k].ip != address
        decreases todo
      {
        var item :| item in todo;
        var id, fip := item.0, item.1;
        if fip.ip == address {
          assert id in Tables().ips && Tables().ips[id] == fip;
          return Some(fip);
        }
        todo := todo - {item};
      }
      return None;
    }

    method RemoveFloatingIP(id: int) returns (err: Option<Failure>)
      modifies this
      ensures Became(old(State()), NovaStore.RemoveIP(old(Tables()), id), State(), err)
      ensures old(Agree(Tables())) ==> Agree(Tables())
    {
      KeepsAgreement(Tables(), RemovingIP(id));
      if id !in floatingIPs {
        return Some(NoSuchIP);
      }
      floatingIPs := floatingIPs - {id};
      return None;
    }

    method AddServerFloatingIP(sid: string, id: int) returns (err: Option<Failure>)
      modifies this
      ensures Became(old(State()), NovaStore.AddServerIP(old(Tables()), sid, id), State(), err)
      ensures old(Agree(Tables())) ==> Agree(Tables())
    {
      KeepsAgreement(Tables(), AddingServerIP(sid, id));
      if sid !in servers {
        return Some(NoSuchServer);
      }
      if id !in floatingIPs {
        return Some(NoSuchIP);
      }
      floatingIPs := floatingIPs[id := floatingIPs[id].(fixedIP := Some(FIXED_IP), instanceId := Some(sid))];
      var list := ListOf(serverIPs, sid);
      var idx := Find(list, id);
      if idx != -1 {
        return Some(AlreadyMember);
      }
      serverIPs := serverIPs[sid := list + [id]];
      return None;
    }

    method HasServerFloatingIP(sid: string, address: string) returns (has: bool)
      ensures has <==> HasServerIP(Tables(), sid, address)
    {
      var found := FloatingIPByAddr(address);
      FoundOrNot(Tables(), address, found);
      if sid !in servers || found.None? || sid !in serverIPs {
        return false;
      }
      var list := serverIPs[sid];
      for i := 0 to |list|
        invariant forall k :: 0 <= k < i ==> AddressOf(Tables(), list[k]) != address
      {
        var ip := if list[i] in floatingIPs then floatingIPs[list[i]].ip else "";
        if ip == address {
          assert list[i] in ListOf(Tables().serverIPs, sid) && AddressOf(Tables(), list[i]) == address;
          return true;
        }
      }
      return false;
    }

    method RemoveServerFloatingIP(sid: string, id: int) returns (err: Option<Failure>)
      modifies this
      ensures Became(old(State()), NovaStore.RemoveServerIP(old(Tables()), sid, id), State(), err)
      ensures old(Agree(Tables())) ==> Agree(Tables())
    {
      KeepsAgreement(Tables(), RemovingServerIP(sid, id));
      if sid !in servers {
        return Some(NoSuchServer);
      }
      if id !in floatingIPs {
        return Some(NoSuchIP);
      }
      floatingIPs := floatingIPs[id := floatingIPs[id].(fixedIP := None, instanceId := None)];
      if sid !in serverIPs {
        return Some(NotMember);
      }
      var list := serverIPs[sid];
      var idx := Find(list, id);
      if idx == -1 {
        return Some(NotMember);
      }
      serverIPs := serverIPs[sid := list[..idx] + list[idx + 1..]];
      return None;
    }

    // ---------- Handlers ----------

    method HandleJoinGroup(sid: string, name: string) returns (reply: Reply)
      modifies this
      ensures Serves(old(State()), JoinGroup(sid, name), State(), reply)
      ensures Honoured(old(State()), JoinGroup(sid, name), State(), reply)
    {
      var found := SecurityGroupByName(name);
      ghost var n := State();
      reply := NotFound;
      if sid in servers && found.Some? {
        var has := HasServerSecurityGroup(sid, found.value.id);
        if !has {
          var err := AddServerSecurityGroup(sid, found.value.id);
          reply := Answered(err);
        }
      }
      assert FoundGroup(n.st, name, found) && (State(), reply) == NovaHttp.HandleJoinGroup(n, sid, found);
      ServedIsHonoured(n, JoinGroup(sid, name), State(), reply);
    }

    method HandleLeaveGroup(sid: string, name: string) returns (reply: Reply)
      modifies this
      ensures Serves(old(State()), LeaveGroup(sid, name), State(), reply)
      ensures Honoured(old(State()), LeaveGroup(sid, name), State(), reply)
    {
      var found := SecurityGroupByName(name);
      ghost var n := State();
      reply := NotFound;
      if sid in servers && found.Some? {
        var has := HasServerSecurityGroup(sid, found.value.id);
        if has {
          var err := RemoveServerSecurityGroup(sid, found.value.id);
          reply := Answered(err);
        }
      }
      assert FoundGroup(n.st, name, found) && (State(), reply) == NovaHttp.HandleLeaveGroup(n, sid, found);
      ServedIsHonoured(n, LeaveGroup(sid, name), State(), reply);
    }

    method HandleAttachIP(sid: string, address: string) returns (reply: Reply)
      modifies this
      ensures Serves(old(State()), AttachIP(sid, address), State(), reply)
      ensures Honoured(old(State()), AttachIP(sid, address), State(), reply)
    {
      var has := HasServerFloatingIP(sid, address);
      var found := FloatingIPByAddr(address);
      ghost var n := State();
      reply := NotFound;
      if sid in servers && !has && found.Some? {
        var err := AddServerFloatingIP(sid, found.value.id);
        reply := Answered(err);
      }
      assert FoundIP(n.st, address, found) && (State(), reply) == NovaHttp.HandleAttachIP(n, sid, address, found);
      ServedIsHonoured(n, AttachIP(sid, address), State(), reply);
    }

    method HandleDetachIP(sid: string, address: string) returns (reply: Reply)
      modifies this
      ensures Serves(old(State()), DetachIP(sid, address), State(), reply)
      ensures Honoured(old(State()), DetachIP(sid, address), State(), reply)
    {
      var has := HasServerFloatingIP(sid, address);
      var found := FloatingIPByAddr(address);
      ghost var n := State();
      reply := NotFound;
      if sid in servers && has && found.Some? {
        var err := RemoveServerFloatingIP(sid, found.value.id);
        reply := Answered(err);
      }
      assert FoundIP(n.st, address, found) && (State(), reply) == NovaHttp.HandleDetachIP(n, sid, address, found);
      ServedIsHonoured(n, DetachIP(sid, address), State(), reply);
    }

    method HandleCreateGroup(name: string, description: string) returns (reply: Reply)
      modifies this
      ensures Serves(old(State()), CreateGroup(name, description), State(), reply)
      ensures Honoured(old(State()), CreateGroup(name, description), State(), reply)
    {
      var found := SecurityGroupByName(name);
      ghost var n := State();
      if found.Some? {
        reply := BadRequest;
      } else {
        nextGroupId := nextGroupId + 1;
        var err := AddSecurityGroup(Group(nextGroupId, name, description, tenantId, []));
        reply := Answered(err);
      }
      assert FoundGroup(n.st, name, found) &&
             (State(), reply) == NovaHttp.HandleCreateGroup(n, name, description, found);
      ServedIsHonoured(n, CreateGroup(name, description), State(), reply);
    }

    method HandleDeleteGroup(id: int) returns (reply: Reply)
      modifies this
      ensures Serves(old(State()), DeleteGroup(id), State(), reply)
      ensures Honoured(old(State()), DeleteGroup(id), State(), reply)
    {
      ghost var n := State();
      if id !in groups {
        reply := NotFound;
      } else {
        var err := RemoveSecurityGroup(groups[id].id);
        reply := Answered(err);
      }
      ServedIsHonoured(n, DeleteGroup(id), State(), reply);
    }

    method HandleCreateRule(info: RuleInfo) returns (reply: Reply)
      modifies this
      ensures Serves(old(State()), CreateRule(info), State(), reply)
      ensures Honoured(old(State()), CreateRule(info), State(), reply)
    {
      ghost var n := State();
      if info.parent !in groups {
        reply := Internal(NoSuchGroup);
      } else {
        var known := HasSameRule(groups[info.parent].rules, info);
        if known {
          reply := BadRequest;
        } else {
          nextRuleId := nextRuleId + 1;
          var err := AddSecurityGroupRule(nextRuleId, info);
          reply := Answered(err);
        }
      }
      ServedIsHonoured(n, CreateRule(info), State(), reply);
    }

    method HandleDeleteRule(id: int) returns (reply: Reply)
      modifies this
      ensures Serves(old(State()), DeleteRule(id), State(), reply)
      ensures Honoured(old(State()), DeleteRule(id), State(), reply)
    {
      ghost var n := State();
      if id !in rules {
        reply := NotFound;
      } else {
        var err := RemoveSecurityGroupRule(id);
        reply := Answered(err);
      }
      ServedIsHonoured(n, DeleteRule(id), State(), reply);
    }

    method HandleCreateIP() returns (reply: Reply)
      modifies this
      ensures Serves(old(State()), CreateIP, State(), reply)
      ensures Honoured(old(State()), CreateIP, State(), reply)
    {
      ghost var n := State();
      nextIPId := nextIPId + 1;
      var err := AddFloatingIP(FloatingIP(nextIPId, Address(nextIPId), None, None, "nova"));
      reply := Answered(err);
      ServedIsHonoured(n, CreateIP, State(), reply);
    }

    method HandleDeleteIP(id: int) returns (reply: Reply)
      modifies this
      ensures Serves(old(State()), DeleteIP(id), State(), reply)
      ensures Honoured(old(State()), DeleteIP(id), State(), reply)
    {
      ghost var n := State();
      if id !in floatingIPs {
        reply := NotFound;
      } else {
        var err := RemoveFloatingIP(id);
        reply := Answered(err);
      }
      ServedIsHonoured(n, DeleteIP(id), State(), reply);
    }

    method HandleDeleteServer(sid: string) returns (reply: Reply)
      modifies this
      ensures Serves(old(State()), DeleteServer(sid), State(), reply)
      ensures Honoured(old(State()), DeleteServer(sid), State(), reply)
    {
      ghost var n := State();
      if sid !in servers {
        reply := NotFound;
      } else {
        var err := RemoveServer(sid);
        reply := Answered(err);
      }
      ServedIsHonoured(n, DeleteServer(sid), State(), reply);
    }

    /** The server exists before its groups are joined, and stays when joining one of them fails. */
    method HandleRunServer(name: string, image: string, flavor: string, names: seq<string>) returns (reply: Reply)
      modifies this
      ensures Serves(old(State()), RunServer(name, image, flavor, names), State(), reply)
      ensures Honoured(old(State()), RunServer(name, image, flavor, names), State(), reply)
    {
      ghost var n := State();
      if name == "" || image == "" || flavor == "" {
        reply := BadRequest;
      } else {
        nextServerId := nextServerId + 1;
        var known, gids := PickGroups(names);
        if !known {
          reply := BadRequest;
        } else {
          var err := StoreServer(Itoa(nextServerId), name, gids);
          reply := Answered(err);
          PickedIsKnown(n.st, Wanted(names), gids);
        }
      }
      ServedIsHonoured(n, RunServer(name, image, flavor, names), State(), reply);
    }

    /** Stores a new server and joins its groups. */
    method StoreServer(id: string, name: string, gids: seq<int>) returns (err: Option<Failure>)
      requires id == Itoa(nextServerId)
      modifies this
      ensures (State(), Answered(err)) == StartServer(old(State()), name, gids)
    {
      err := AddServer(Server(id, name));
      if err.None? {
        err := JoinGroups(id, gids);
      }
    }

    method JoinGroups(sid: string, gids: seq<int>) returns (err: Option<Failure>)
      modifies this
      ensures Became(old(State()), JoinAll(old(Tables()), sid, gids), State(), err)
    {
      err := None;
      for i := 0 to |gids|
        invariant State() == old(State()).(st := Tables())
        invariant JoinAll(old(Tables()), sid, gids) == JoinAll(Tables(), sid, gids[i..])
      {
        assert gids[i..][1..] == gids[i + 1..];
        err := AddServerSecurityGroup(sid, gids[i]);
        if err.Some? {
          return;
        }
      }
      return None;
    }

    /** Finds all the groups named, other than the default one. */
    method PickGroups(names: seq<string>) returns (known: bool, gids: seq<int>)
      ensures known ==> Picked(Tables(), Wanted(names), gids)
      ensures !known ==> !AllKnown(Tables(), Wanted(names))
    {
      gids := [];
      for i := 0 to |names|
        invariant Picked(Tables(), Wanted(names[..i]), gids)
      {
        assert names[..i + 1][..i] == names[..i];
        if names[i] != DEFAULT_GROUP {
          var found := SecurityGroupByName(names[i]);
          FoundHasName(Tables(), names[i], found);
          if found.None? {
            WantedIncludes(names, i);
            return false, gids;
          }
          gids := gids + [found.value.id];
        }
      }
      assert names[..|names|] == names;
      return true, gids;
    }
  }

  /** The tables are those of `out`, and no counter has moved. */
  ghost predicate Became(before: NovaState, out: Outcome, after: NovaState, err: Option<Failure>) {
    after == before.(st := out.store) && err == out.error
  }

  function Answered(err: Option<Failure>): Reply {
    if err.Some? then Internal(err.value) else Accepted
  }

  lemma PickedIsKnown(st: Store, wanted: seq<string>, gids: seq<int>)
    requires Picked(st, wanted, gids)
    ensures AllKnown(st, wanted)
  {
    forall i | 0 <= i < |wanted|
      ensures HasName(st, wanted[i])
    {
      assert HasNameAndId(st, wanted[i], gids[i]);
    }
  }

  lemma FoundHasName(st: Store, name: string, found: Option<Group>)
    requires FoundGroup(st, name, found)
    ensures found.Some? ==> HasNameAndId(st, name, found.value.id)
    ensures found.None? ==> !HasName(st, name)
  {
    if found.Some? {
      var k :| k in st.groups && st.groups[k] == found.value;
    }
  }

  lemma FoundOrNot(st: Store, address: string, found: Option<FloatingIP>)
    requires FoundIP(st, address, found)
    ensures found.Some? <==> HasIP(st, address)
  {
    if found.Some? {
      var k :| k in st.ips && st.ips[k] == found.value;
    }
  }

  lemma {:induction false} WantedIncludes(names: seq<string>, i: nat)
    requires i < |names| && names[i] != DEFAULT_GROUP
    ensures names[i] in Wanted(names)
    decreases |names|
  {
    var k := |names| - 1;
    if i < k {
      WantedIncludes(names[..k], i);
    }
  }

  /** The handler's search for a rule that is fully specified as asked for. */
  method HasSameRule(rs: seq<Rule>, info: RuleInfo) returns (known: bool)
    ensures known <==> RuleExists(rs, info)
  {
    for i := 0 to |rs|
      invariant forall k :: 0 <= k < i ==> !SameRule(rs[k], info)
    {
      if SameRule(rs[i], info) {
        return true;
      }
    }
    return false;
  }

  method Find(xs: seq<int>, x: int) returns (idx: int)
    ensures idx == IndexOf(xs, x)
  {
    for i := 0 to |xs|
      invariant forall k :: 0 <= k < i ==> xs[k] != x
    {
      if xs[i] == x {
        return i;
      }
    }
    return -1;
  }

  method FindRule(rs: seq<Rule>, id: int) returns (idx: int)
    ensures idx == RuleIndex(rs, id)
  {
    for i := 0 to |rs|
      invariant forall k :: 0 <= k < i ==> rs[k].id != id
    {
      if rs[i].id == id {
        return i;
      }
    }
    return -1;
  }
}
