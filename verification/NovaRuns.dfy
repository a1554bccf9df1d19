/** Runs made of requests only, and the invariants they keep: names and addresses stay distinct, no
    group holds the same rule twice, and the counters bound the ids in use. */
module NovaRuns {
  import opened Wrappers
  import opened Decimal
  import opened NovaStore
  import opened NovaInvariants
  import opened NovaHttp
  import opened NovaRefs

  /** Two rules that the handler would have refused to put in one group: both fully specified,
      with the same protocol and ports. */
  predicate Twins(a: Rule, b: Rule) {
    && a.proto.Some? && a.fromPort.Some? && a.toPort.Some?
    && a.proto == b.proto && a.fromPort == b.fromPort && a.toPort == b.toPort
  }

  predicate NoTwins(rs: seq<Rule>) {
    forall i, j :: 0 <= i < j < |rs| ==> !Twins(rs[i], rs[j])
  }

  ghost predicate GroupsOk(groups: map<int, Group>, next: nat) {
    && (forall g, h :: g in groups && h in groups && groups[g].name == groups[h].name ==> g == h)
    && GroupIdsOk(groups, next) && (forall g :: g in groups ==> NoTwins(groups[g].rules))
  }

  predicate RulesOk(rules: map<int, Rule>, next: nat) {
    forall r :: r in rules ==> 1 <= r <= next
  }

  predicate IPsOk(ips: map<int, FloatingIP>, next: nat) {
    forall k :: k in ips ==> 1 <= k <= next && ips[k].ip == Address(k)
  }

  predicate Used(id: string, next: nat) {
    exists k: nat :: 1 <= k <= next && id == Itoa(k)
  }

  predicate ServersOk(st: Store, next: nat, nextIP: nat) {
    && (forall s :: s in st.servers ==> Used(s, next))
    && (forall s :: s in st.serverGroups ==> Used(s, next))
    && (forall s :: s in st.serverIPs ==> forall i :: 0 <= i < |st.serverIPs[s]| ==> 1 <= st.serverIPs[s][i] <= nextIP)
  }

  /** The tables and counters agree. */
  ghost predicate CoreInv(n: NovaState) {
    && RulesAgree(n.st) && ListsAgree(n.st)
    && GroupsOk(n.st.groups, n.nextGroupId)
    && RulesOk(n.st.rules, n.nextRuleId)
    && IPsOk(n.st.ips, n.nextIPId)
    && ServersOk(n.st, n.nextServerId, n.nextIPId)
  }

  /** What holds after every run of requests: besides, lists and rules name groups that were given
      out, whether or not they still exist. */
  ghost predicate HttpInv(n: NovaState) {
    CoreInv(n) && RefsOk(n.st, n.nextGroupId)
  }

  lemma NewInv(tenantId: string)
    ensures HttpInv(New(tenantId))
  {
  }

  // ---------- Groups and rules ----------

  lemma AddGroupKeepsGroupsOk(st: Store, group: Group, next: nat)
    requires GroupsOk(st.groups, next) && FoundGroup(st, group.name, None) && group.id == next + 1 && group.rules == []
    ensures GroupsOk(AddGroup(st, group).store.groups, next + 1)
  {
  }

  lemma CreateGroupKeeps(n: NovaState, name: string, description: string, found: Option<Group>)
    requires CoreInv(n) && FoundGroup(n.st, name, found)
    ensures CoreInv(HandleCreateGroup(n, name, description, found).0)
  {
    if found.None? {
      var group := Group(n.nextGroupId + 1, name, description, n.st.tenantId, []);
      AddGroupKeepsGroupsOk(n.st, group, n.nextGroupId);
      StepKeepsRules(n.st, AddingGroup(group));
      StepKeepsLists(n.st, AddingGroup(group));
      OnlyGroupsAndRules(n, n.(nextGroupId := n.nextGroupId + 1, st := AddGroup(n.st, group).store));
    }
  }

  /** A step that leaves servers and IPs alone. */
  lemma OnlyGroupsAndRules(n: NovaState, n': NovaState)
    requires IPsOk(n.st.ips, n.nextIPId) && ServersOk(n.st, n.nextServerId, n.nextIPId)
    requires n'.st.servers == n.st.servers && n'.st.ips == n.st.ips
    requires n'.st.serverGroups == n.st.serverGroups && n'.st.serverIPs == n.st.serverIPs
    requires n'.nextServerId == n.nextServerId && n'.nextIPId == n.nextIPId
    ensures IPsOk(n'.st.ips, n'.nextIPId) && ServersOk(n'.st, n'.nextServerId, n'.nextIPId)
  {
  }

  lemma DeleteGroupKeeps(n: NovaState, id: int)
    requires CoreInv(n)
    ensures CoreInv(HandleDeleteGroup(n, id).0)
  {
    StepKeepsRules(n.st, RemovingGroup(id));
    StepKeepsLists(n.st, RemovingGroup(id));
  }

  lemma AppendKeepsNoTwins(rs: seq<Rule>, rule: Rule, info: RuleInfo)
    requires NoTwins(rs) && !RuleExists(rs, info)
    requires rule.proto == NonEmpty(info.proto)
    requires rule.fromPort == NonZero(info.fromPort) && rule.toPort == NonZero(info.toPort)
    ensures NoTwins(rs + [rule])
  {
    forall i, j | 0 <= i < j < |rs| + 1
      ensures !Twins((rs + [rule])[i], (rs + [rule])[j])
    {
      if j == |rs| {
        assert !SameRule(rs[i], info);
      }
    }
  }

  lemma AddRuleKeepsGroupsOk(st: Store, id: int, info: RuleInfo, next: nat)
    requires RulesAgree(st) && GroupsOk(st.groups, next)
    requires info.parent in st.groups && !RuleExists(st.groups[info.parent].rules, info)
    ensures GroupsOk(AddRule(st, id, info).store.groups, next)
  {
    var out := AddRule(st, id, info);
    if out.error.None? {
      AppendKeepsNoTwins(st.groups[info.parent].rules, NewRule(st, id, info), info);
      assert forall g :: g in out.store.groups ==> out.store.groups[g].name == st.groups[g].name;
    }
  }

  lemma AddRuleKeepsRulesOk(st: Store, info: RuleInfo, next: nat)
    requires RulesOk(st.rules, next)
    ensures RulesOk(AddRule(st, next + 1, info).store.rules, next + 1)
  {
  }

  lemma AddRuleAlone(st: Store, id: int, info: RuleInfo)
    ensures var st' := AddRule(st, id, info).store;
            st'.servers == st.servers && st'.ips == st.ips &&
            st'.serverGroups == st.serverGroups && st'.serverIPs == st.serverIPs
  {
  }

  /** The invariant from its parts, when only groups and rules changed. */
  lemma GroupsAndRulesChanged(n: NovaState, n': NovaState)
    requires CoreInv(n) && RulesAgree(n'.st) && ListsAgree(n'.st)
    requires GroupsOk(n'.st.groups, n'.nextGroupId) && RulesOk(n'.st.rules, n'.nextRuleId)
    requires n'.st.servers == n.st.servers && n'.st.ips == n.st.ips
    requires n'.st.serverGroups == n.st.serverGroups && n'.st.serverIPs == n.st.serverIPs
    requires n'.nextServerId == n.nextServerId && n'.nextIPId == n.nextIPId
    ensures CoreInv(n')
  {
    OnlyGroupsAndRules(n, n');
  }

  lemma CreateRuleKeeps(n: NovaState, info: RuleInfo)
    requires CoreInv(n)
    ensures CoreInv(HandleCreateRule(n, info).0)
  {
    if info.parent in n.st.groups && !RuleExists(n.st.groups[info.parent].rules, info) {
      var id := n.nextRuleId + 1;
      var st' := AddRule(n.st, id, info).store;
      assert HandleCreateRule(n, info).0 == n.(nextRuleId := id, st := st');
      AddRuleKeepsRulesOk(n.st, info, n.nextRuleId);
      AddRuleKeepsGroupsOk(n.st, id, info, n.nextGroupId);
      AddRuleAgrees(n.st, id, info);
      StepKeepsLists(n.st, AddingRule(id, info));
      AddRuleAlone(n.st, id, info);
      GroupsAndRulesChanged(n, n.(nextRuleId := id, st := st'));
    }
  }

  lemma RemoveAtKeepsNoTwins(rs: seq<Rule>, i: nat)
    requires NoTwins(rs) && i < |rs|
    ensures NoTwins(RemoveAt(rs, i))
  {
    var rest := RemoveAt(rs, i);
    assert forall k :: 0 <= k < |rest| ==> rest[k] == rs[if k < i then k else k + 1];
  }

  lemma DeleteRuleKeeps(n: NovaState, id: int)
    requires CoreInv(n)
    ensures CoreInv(HandleDeleteRule(n, id).0)
  {
    StepKeepsLists(n.st, RemovingRule(id));
    if id in n.st.rules {
      RemoveRuleLeavesNoCopy(n.st, id);
      var groups := RemoveRule(n.st, id).store.groups;
      forall g | g in groups
        ensures groups[g].name == n.st.groups[g].name && NoTwins(groups[g].rules)
      {
        var i := RuleIndex(n.st.groups[g].rules, id);
        if i != -1 {
          RemoveAtKeepsNoTwins(n.st.groups[g].rules, i);
        }
      }
    }
  }

  // ---------- Floating IPs ----------

  lemma CreateIPKeeps(n: NovaState)
    requires CoreInv(n)
    ensures CoreInv(HandleCreateIP(n).0)
  {
    var id := n.nextIPId + 1;
    var ip := FloatingIP(id, Address(id), None, None, "nova");
    StepKeepsRules(n.st, AddingIP(ip));
    StepKeepsLists(n.st, AddingIP(ip));
  }

  lemma DeleteIPKeeps(n: NovaState, id: int)
    requires CoreInv(n)
    ensures CoreInv(HandleDeleteIP(n, id).0)
  {
    StepKeepsRules(n.st, RemovingIP(id));
    StepKeepsLists(n.st, RemovingIP(id));
  }

  lemma FoundIPIsKeyed(st: Store, address: string, found: Option<FloatingIP>)
    requires ListsAgree(st) && FoundIP(st, address, found) && found.Some?
    ensures found.value.id in st.ips && st.ips[found.value.id] == found.value
  {
    var k :| k in st.ips && st.ips[k] == found.value;
    assert st.ips[k].id == k;
  }

  /** One list of IPs may be replaced by another that keeps to the ids given out. */
  lemma ListKeepsServersOk(st: Store, sid: string, list: seq<int>, next: nat, nextIP: nat)
    requires ServersOk(st, next, nextIP)
    requires forall i :: 0 <= i < |list| ==> 1 <= list[i] <= nextIP
    ensures ServersOk(st.(serverIPs := st.serverIPs[sid := list]), next, nextIP)
  {
  }

  lemma AttachKeepsTables(st: Store, sid: string, id: int, next: nat, nextIP: nat)
    requires IPsOk(st.ips, nextIP) && ServersOk(st, next, nextIP)
    ensures var st' := AddServerIP(st, sid, id).store; IPsOk(st'.ips, nextIP) && ServersOk(st', next, nextIP)
  {
    var list := ListOf(st.serverIPs, sid);
    if id in st.ips {
      ListKeepsServersOk(st, sid, list + [id], next, nextIP);
    }
  }

  lemma AttachIPKeeps(n: NovaState, sid: string, address: string, found: Option<FloatingIP>)
    requires CoreInv(n) && FoundIP(n.st, address, found)
    ensures CoreInv(HandleAttachIP(n, sid, address, found).0)
  {
    if found.Some? {
      var id := found.value.id;
      AttachKeepsTables(n.st, sid, id, n.nextServerId, n.nextIPId);
      StepKeepsRules(n.st, AddingServerIP(sid, id));
      StepKeepsLists(n.st, AddingServerIP(sid, id));
      OnlyServersAndIPs(n, AddServerIP(n.st, sid, id).store);
    }
  }

  lemma DetachKeepsTables(st: Store, sid: string, id: int, next: nat, nextIP: nat)
    requires IPsOk(st.ips, nextIP) && ServersOk(st, next, nextIP)
    ensures var st' := RemoveServerIP(st, sid, id).store; IPsOk(st'.ips, nextIP) && ServersOk(st', next, nextIP)
  {
    var list := ListOf(st.serverIPs, sid);
    var i := IndexOf(list, id);
    if i != -1 {
      ListKeepsServersOk(st, sid, RemoveAt(list, i), next, nextIP);
    }
  }

  lemma DetachIPKeeps(n: NovaState, sid: string, address: string, found: Option<FloatingIP>)
    requires CoreInv(n) && FoundIP(n.st, address, found)
    ensures CoreInv(HandleDetachIP(n, sid, address, found).0)
  {
    if found.Some? {
      var id := found.value.id;
      DetachKeepsTables(n.st, sid, id, n.nextServerId, n.nextIPId);
      StepKeepsRules(n.st, RemovingServerIP(sid, id));
      StepKeepsLists(n.st, RemovingServerIP(sid, id));
      OnlyServersAndIPs(n, RemoveServerIP(n.st, sid, id).store);
    }
  }

  /** A step that leaves groups and rules alone. */
  lemma OnlyServersAndIPs(n: NovaState, st': Store)
    requires GroupsOk(n.st.groups, n.nextGroupId) && RulesOk(n.st.rules, n.nextRuleId)
    requires st'.groups == n.st.groups && st'.rules == n.st.rules
    ensures GroupsOk(st'.groups, n.nextGroupId) && RulesOk(st'.rules, n.nextRuleId)
  {
  }

  // ---------- Servers ----------

  lemma DeleteServerKeeps(n: NovaState, sid: string)
    requires CoreInv(n)
    ensures CoreInv(HandleDeleteServer(n, sid).0)
  {
    StepKeepsRules(n.st, RemovingServer(sid));
    StepKeepsLists(n.st, RemovingServer(sid));
  }

  lemma FoundGroupIsKeyed(st: Store, name: string, found: Option<Group>)
    requires RulesAgree(st) && FoundGroup(st, name, found) && found.Some?
    ensures found.value.id in st.groups && st.groups[found.value.id] == found.value
  {
    var k :| k in st.groups && st.groups[k] == found.value;
    assert st.groups[k].id == k;
  }

  lemma JoinGroupKeeps(n: NovaState, sid: string, name: string, found: Option<Group>)
    requires CoreInv(n) && FoundGroup(n.st, name, found)
    ensures CoreInv(HandleJoinGroup(n, sid, found).0)
  {
    if found.Some? {
      StepKeepsRules(n.st, AddingServerGroup(sid, found.value.id));
      StepKeepsLists(n.st, AddingServerGroup(sid, found.value.id));
    }
  }

  lemma LeaveGroupKeeps(n: NovaState, sid: string, name: string, found: Option<Group>)
    requires CoreInv(n) && FoundGroup(n.st, name, found)
    ensures CoreInv(HandleLeaveGroup(n, sid, found).0)
  {
    if found.Some? {
      StepKeepsRules(n.st, RemovingServerGroup(sid, found.value.id));
      StepKeepsLists(n.st, RemovingServerGroup(sid, found.value.id));
    }
  }

  lemma FreshServerId(n: NovaState)
    requires CoreInv(n)
    ensures var id := Itoa(n.nextServerId + 1); id !in n.st.servers && id !in n.st.serverGroups
  {
    var id := Itoa(n.nextServerId + 1);
    if Used(id, n.nextServerId) {
      var k: nat :| 1 <= k <= n.nextServerId && id == Itoa(k);
      ItoaInjective(k, n.nextServerId + 1);
    }
  }

  lemma LaterUsed(n: NovaState)
    requires ServersOk(n.st, n.nextServerId, n.nextIPId)
    ensures ServersOk(n.st, n.nextServerId + 1, n.nextIPId)
  {
    forall s | Used(s, n.nextServerId)
      ensures Used(s, n.nextServerId + 1)
    {
    }
  }

  /** Joining groups changes the server's list of groups only, and keeps what holds. */
  lemma {:induction false} JoinAllKeeps(n: NovaState, sid: string, gids: seq<int>)
    requires CoreInv(n) && Used(sid, n.nextServerId)
    ensures CoreInv(n.(st := JoinAll(n.st, sid, gids).store))
    decreases |gids|
  {
    if gids != [] {
      StepKeepsRules(n.st, AddingServerGroup(sid, gids[0]));
      StepKeepsLists(n.st, AddingServerGroup(sid, gids[0]));
      var out := AddServerGroup(n.st, sid, gids[0]);
      assert CoreInv(n.(st := out.store));
      if out.error.None? {
        JoinAllKeeps(n.(st := out.store), sid, gids[1..]);
      }
    }
  }

  lemma StartServerKeeps(n: NovaState, name: string, gids: seq<int>)
    requires CoreInv(n)
    ensures CoreInv(StartServer(n.(nextServerId := n.nextServerId + 1), name, gids).0)
  {
    var n1 := n.(nextServerId := n.nextServerId + 1);
    var id := Itoa(n1.nextServerId);
    LaterUsed(n);
    FreshServerId(n);
    assert Used(id, n1.nextServerId);
    StepKeepsRules(n.st, AddingServer(Server(id, name)));
    StepKeepsLists(n.st, AddingServer(Server(id, name)));
    JoinAllKeeps(n1.(st := AddServer(n1.st, Server(id, name)).store), id, gids);
  }

  // ---------- Every run ----------

  lemma ServingKeepsCore(n: NovaState, req: Request, n': NovaState, reply: Reply)
    requires CoreInv(n) && Serves(n, req, n', reply)
    ensures CoreInv(n')
  {
    match req {
      case RunServer(name, image, flavor, names) =>
        if Complete(name, image, flavor) {
          LaterUsed(n);
          if AllKnown(n.st, Wanted(names)) {
            var gids :| Picked(n.st, Wanted(names), gids) &&
                        (n', reply) == StartServer(n.(nextServerId := n.nextServerId + 1), name, gids);
            StartServerKeeps(n, name, gids);
          }
        }
      case DeleteServer(sid) => DeleteServerKeeps(n, sid);
      case JoinGroup(sid, name) =>
        var found :| FoundGroup(n.st, name, found) && (n', reply) == HandleJoinGroup(n, sid, found);
        JoinGroupKeeps(n, sid, name, found);
      case LeaveGroup(sid, name) =>
        var found :| FoundGroup(n.st, name, found) && (n', reply) == HandleLeaveGroup(n, sid, found);
        LeaveGroupKeeps(n, sid, name, found);
      case AttachIP(sid, addr) =>
        var found :| FoundIP(n.st, addr, found) && (n', reply) == HandleAttachIP(n, sid, addr, found);
        AttachIPKeeps(n, sid, addr, found);
      case DetachIP(sid, addr) =>
        var found :| FoundIP(n.st, addr, found) && (n', reply) == HandleDetachIP(n, sid, addr, found);
        DetachIPKeeps(n, sid, addr, found);
      case CreateGroup(name, desc) =>
        var found :| FoundGroup(n.st, name, found) && (n', reply) == HandleCreateGroup(n, name, desc, found);
        CreateGroupKeeps(n, name, desc, found);
      case DeleteGroup(id) => DeleteGroupKeeps(n, id);
      case CreateRule(info) => CreateRuleKeeps(n, info);
      case DeleteRule(id) => DeleteRuleKeeps(n, id);
      case CreateIP => CreateIPKeeps(n);
      case DeleteIP(id) => DeleteIPKeeps(n, id);
    }
  }

  lemma ServingKeepsInv(n: NovaState, req: Request, n': NovaState, reply: Reply)
    requires HttpInv(n) && Serves(n, req, n', reply)
    ensures HttpInv(n')
  {
    ServingKeepsCore(n, req, n', reply);
    ServingKeepsRefs(n, req, n', reply);
  }

  /** In every run of requests, group names and floating-IP addresses stay distinct, no group
      holds the same fully specified rule twice, and all tables agree. */
  lemma {:induction false} EveryRunKeepsInv(n: NovaState, reqs: seq<Request>, last: NovaState)
    requires HttpInv(n) && Runs(n, reqs, last)
    ensures HttpInv(last)
    decreases |reqs|
  {
    if reqs != [] {
      var n', reply :| Serves(n, reqs[0], n', reply) && Runs(n', reqs[1..], last);
      ServingKeepsInv(n, reqs[0], n', reply);
      EveryRunKeepsInv(n', reqs[1..], last);
    }
  }

  lemma AddressesDistinct(n: NovaState, j: int, k: int)
    requires HttpInv(n) && j in n.st.ips && k in n.st.ips && n.st.ips[j].ip == n.st.ips[k].ip
    ensures j == k
  {
    var p := "10.0.0.";
    assert Address(j)[|p|..] == Itoa(j) && Address(k)[|p|..] == Itoa(k);
    ItoaInjective(j, k);
  }
}
