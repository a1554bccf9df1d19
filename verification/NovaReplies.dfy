/** How requests are answered in the states that runs of requests reach: the answer is determined,
    which requests fail inside the store, and that what is added has ids beyond the counters. */
module NovaReplies {
  import opened Sequences
  import opened Wrappers
  import opened Decimal
  import opened NovaStore
  import opened NovaInvariants
  import opened NovaHttp
  import opened NovaRuns

  // ---------- Scans come to one result ----------

  lemma GroupFoundOnce(n: NovaState, name: string, a: Option<Group>, b: Option<Group>)
    requires HttpInv(n) && FoundGroup(n.st, name, a) && FoundGroup(n.st, name, b)
    ensures a == b
  {
    if a.Some? && b.Some? {
      FoundGroupIsKeyed(n.st, name, a);
      FoundGroupIsKeyed(n.st, name, b);
    }
  }

  lemma IPFoundOnce(n: NovaState, address: string, a: Option<FloatingIP>, b: Option<FloatingIP>)
    requires HttpInv(n) && FoundIP(n.st, address, a) && FoundIP(n.st, address, b)
    ensures a == b
  {
    if a.Some? && b.Some? {
      FoundIPIsKeyed(n.st, address, a);
      FoundIPIsKeyed(n.st, address, b);
      AddressesDistinct(n, a.value.id, b.value.id);
    }
  }

  lemma PickedOnce(n: NovaState, wanted: seq<string>, a: seq<int>, b: seq<int>)
    requires HttpInv(n) && Picked(n.st, wanted, a) && Picked(n.st, wanted, b)
    ensures a == b
  {
    forall i | 0 <= i < |wanted|
      ensures a[i] == b[i]
    {
      assert HasNameAndId(n.st, wanted[i], a[i]) && HasNameAndId(n.st, wanted[i], b[i]);
      var j :| j in n.st.groups && n.st.groups[j].name == wanted[i] && n.st.groups[j].id == a[i];
      var k :| k in n.st.groups && n.st.groups[k].name == wanted[i] && n.st.groups[k].id == b[i];
      assert j == k;
    }
  }

  /** Although handlers scan maps in an arbitrary order, the new state and the reply are
      determined by the state and the request. */
  lemma ServedOneWay(n: NovaState, req: Request, n1: NovaState, reply1: Reply, n2: NovaState, reply2: Reply)
    requires HttpInv(n) && Serves(n, req, n1, reply1) && Serves(n, req, n2, reply2)
    ensures n1 == n2 && reply1 == reply2
  {
    match req {
      case RunServer(name, image, flavor, names) =>
        if Complete(name, image, flavor) && AllKnown(n.st, Wanted(names)) {
          var n' := n.(nextServerId := n.nextServerId + 1);
          var a :| Picked(n.st, Wanted(names), a) && (n1, reply1) == StartServer(n', name, a);
          var b :| Picked(n.st, Wanted(names), b) && (n2, reply2) == StartServer(n', name, b);
          PickedOnce(n, Wanted(names), a, b);
        }
      case JoinGroup(sid, name) =>
        var a :| FoundGroup(n.st, name, a) && (n1, reply1) == HandleJoinGroup(n, sid, a);
        var b :| FoundGroup(n.st, name, b) && (n2, reply2) == HandleJoinGroup(n, sid, b);
        GroupFoundOnce(n, name, a, b);
      case LeaveGroup(sid, name) =>
        var a :| FoundGroup(n.st, name, a) && (n1, reply1) == HandleLeaveGroup(n, sid, a);
        var b :| FoundGroup(n.st, name, b) && (n2, reply2) == HandleLeaveGroup(n, sid, b);
        GroupFoundOnce(n, name, a, b);
      case CreateGroup(name, desc) =>
        var a :| FoundGroup(n.st, name, a) && (n1, reply1) == HandleCreateGroup(n, name, desc, a);
        var b :| FoundGroup(n.st, name, b) && (n2, reply2) == HandleCreateGroup(n, name, desc, b);
        GroupFoundOnce(n, name, a, b);
      case AttachIP(sid, addr) =>
        var a :| FoundIP(n.st, addr, a) && (n1, reply1) == HandleAttachIP(n, sid, addr, a);
        var b :| FoundIP(n.st, addr, b) && (n2, reply2) == HandleAttachIP(n, sid, addr, b);
        IPFoundOnce(n, addr, a, b);
      case DetachIP(sid, addr) =>
        var a :| FoundIP(n.st, addr, a) && (n1, reply1) == HandleDetachIP(n, sid, addr, a);
        var b :| FoundIP(n.st, addr, b) && (n2, reply2) == HandleDetachIP(n, sid, addr, b);
        IPFoundOnce(n, addr, a, b);
      case _ =>
    }
  }

  // ---------- Checks passed in the handler are enough for the store ----------

  /** A server that passes the check can be attached to the IP found for the address. */
  lemma AttachSucceeds(n: NovaState, sid: string, address: string, found: Option<FloatingIP>)
    requires HttpInv(n) && FoundIP(n.st, address, found)
    ensures !HandleAttachIP(n, sid, address, found).1.Internal?
  {
    if found.Some? {
      FoundIPIsKeyed(n.st, address, found);
    }
  }

  /** The listed IP with the address is the very one the scan finds: addresses are distinct. */
  lemma DetachSucceeds(n: NovaState, sid: string, address: string, found: Option<FloatingIP>)
    requires HttpInv(n) && FoundIP(n.st, address, found)
    ensures !HandleDetachIP(n, sid, address, found).1.Internal?
  {
    if HasServerIP(n.st, sid, address) && found.Some? {
      FoundIPIsKeyed(n.st, address, found);
      var id :| id in ListOf(n.st.serverIPs, sid) && AddressOf(n.st, id) == address;
      assert address == Address(found.value.id);
      assert id in n.st.ips;
      AddressesDistinct(n, id, found.value.id);
    }
  }

  lemma JoinSucceeds(n: NovaState, sid: string, name: string, found: Option<Group>)
    requires HttpInv(n) && FoundGroup(n.st, name, found)
    ensures !HandleJoinGroup(n, sid, found).1.Internal? && !HandleLeaveGroup(n, sid, found).1.Internal?
  {
    if found.Some? {
      FoundGroupIsKeyed(n.st, name, found);
    }
  }

  lemma CreateRuleFailsExactly(n: NovaState, info: RuleInfo)
    requires HttpInv(n)
    ensures HandleCreateRule(n, info).1.Internal? <==>
            info.parent !in n.st.groups ||
            (!RuleExists(n.st.groups[info.parent].rules, info) &&
             info.groupId.Some? && info.groupId.value !in n.st.groups)
  {
    if info.parent in n.st.groups {
      var rs := n.st.groups[info.parent].rules;
      assert EmbeddedAgree(n.st.rules, info.parent, rs);
      var i := RuleIndex(rs, n.nextRuleId + 1);
      assert i == -1;
    }
  }

  predicate Repeats(names: seq<string>) {
    exists i, j :: 0 <= i < j < |names| && names[i] == names[j]
  }

  lemma {:induction false} JoinAllSucceeds(st: Store, sid: string, gids: seq<int>)
    requires sid in st.servers && forall i :: 0 <= i < |gids| ==> gids[i] in st.groups
    ensures JoinAll(st, sid, gids).error.None? <==>
            Distinct(gids) && forall i :: 0 <= i < |gids| ==> gids[i] !in ListOf(st.serverGroups, sid)
    decreases |gids|
  {
    if gids != [] {
      var out := AddServerGroup(st, sid, gids[0]);
      if out.error.None? {
        JoinAllSucceeds(out.store, sid, gids[1..]);
        assert ListOf(out.store.serverGroups, sid) == ListOf(st.serverGroups, sid) + [gids[0]];
        assert forall i :: 0 <= i < |gids| - 1 ==> gids[1..][i] == gids[i + 1];
        assert forall i :: 1 <= i < |gids| ==> gids[i] == gids[1..][i - 1];
      }
    }
  }

  lemma PickedRepeats(n: NovaState, wanted: seq<string>, gids: seq<int>)
    requires HttpInv(n) && Picked(n.st, wanted, gids)
    ensures forall i :: 0 <= i < |gids| ==> gids[i] in n.st.groups && n.st.groups[gids[i]].name == wanted[i]
    ensures Distinct(gids) <==> !Repeats(wanted)
  {
    forall i | 0 <= i < |gids|
      ensures gids[i] in n.st.groups && n.st.groups[gids[i]].name == wanted[i]
    {
      assert HasNameAndId(n.st, wanted[i], gids[i]);
      var k :| k in n.st.groups && n.st.groups[k].name == wanted[i] && n.st.groups[k].id == gids[i];
      assert k == gids[i];
    }
  }

  /** A new server is always stored under an id of its own; starting it fails inside exactly when
      some group is named twice. */
  lemma StartFailsExactly(n: NovaState, name: string, wanted: seq<string>, gids: seq<int>)
    requires HttpInv(n) && Picked(n.st, wanted, gids)
    ensures StartServer(n.(nextServerId := n.nextServerId + 1), name, gids).1.Internal? <==> Repeats(wanted)
  {
    var id := Itoa(n.nextServerId + 1);
    FreshServerId(n);
    PickedRepeats(n, wanted, gids);
    var out := AddServer(n.st, Server(id, name));
    assert ListOf(out.store.serverGroups, id) == [];
    JoinAllSucceeds(out.store, id, gids);
  }

  /** The requests that an otherwise sound state makes fail inside the store. */
  ghost predicate FailsInside(n: NovaState, req: Request) {
    match req
    case RunServer(name, image, flavor, names) =>
      Complete(name, image, flavor) && AllKnown(n.st, Wanted(names)) && Repeats(Wanted(names))
    case CreateGroup(name, _) =>
      // the counter has come to the id of the default group, and that group is still there
      FoundGroup(n.st, name, None) && n.nextGroupId + 1 == DEFAULT_GROUP_ID && DEFAULT_GROUP_ID in n.st.groups
    case CreateRule(info) =>
      || info.parent !in n.st.groups
      || (!RuleExists(n.st.groups[info.parent].rules, info) &&
          info.groupId.Some? && info.groupId.value !in n.st.groups)
    case _ => false
  }

  /** Exactly these requests are answered with an internal error: whatever passes its handler's
      checks otherwise - in particular every joining, leaving, attaching and detaching - succeeds. */
  lemma InternalExactly(n: NovaState, req: Request, n': NovaState, reply: Reply)
    requires HttpInv(n) && Serves(n, req, n', reply)
    ensures reply.Internal? <==> FailsInside(n, req)
  {
    match req {
      case RunServer(name, image, flavor, names) =>
        if Complete(name, image, flavor) && AllKnown(n.st, Wanted(names)) {
          var gids :| Picked(n.st, Wanted(names), gids) &&
                      (n', reply) == StartServer(n.(nextServerId := n.nextServerId + 1), name, gids);
          StartFailsExactly(n, name, Wanted(names), gids);
        }
      case JoinGroup(sid, name) =>
        var found :| FoundGroup(n.st, name, found) && (n', reply) == HandleJoinGroup(n, sid, found);
        JoinSucceeds(n, sid, name, found);
      case LeaveGroup(sid, name) =>
        var found :| FoundGroup(n.st, name, found) && (n', reply) == HandleLeaveGroup(n, sid, found);
        JoinSucceeds(n, sid, name, found);
      case AttachIP(sid, addr) =>
        var found :| FoundIP(n.st, addr, found) && (n', reply) == HandleAttachIP(n, sid, addr, found);
        AttachSucceeds(n, sid, addr, found);
      case DetachIP(sid, addr) =>
        var found :| FoundIP(n.st, addr, found) && (n', reply) == HandleDetachIP(n, sid, addr, found);
        DetachSucceeds(n, sid, addr, found);
      case CreateGroup(name, desc) =>
        var found :| FoundGroup(n.st, name, found) && (n', reply) == HandleCreateGroup(n, name, desc, found);
        CreateGroupFails(n, name, desc, found);
      case CreateRule(info) => CreateRuleFailsExactly(n, info);
      case DeleteGroup(id) =>
      case _ =>
    }
  }

  lemma CreateGroupFails(n: NovaState, name: string, description: string, found: Option<Group>)
    requires HttpInv(n) && FoundGroup(n.st, name, found)
    ensures HandleCreateGroup(n, name, description, found).1.Internal? <==>
            FailsInside(n, CreateGroup(name, description))
  {
    assert n.nextGroupId + 1 in n.st.groups ==> n.nextGroupId + 1 == DEFAULT_GROUP_ID;
  }

  // ---------- Ids given out by the counters ----------

  /** Counters only grow, and what a request adds has an id beyond the counter. */
  ghost predicate NothingReturns(n: NovaState, n': NovaState) {
    && n.nextServerId <= n'.nextServerId && n.nextGroupId <= n'.nextGroupId
    && n.nextRuleId <= n'.nextRuleId && n.nextIPId <= n'.nextIPId
    && (forall s :: s in n'.st.servers && s !in n.st.servers ==> !Used(s, n.nextServerId))
    && (forall g :: g in n'.st.groups && g !in n.st.groups ==> g > n.nextGroupId)
    && (forall r :: r in n'.st.rules && r !in n.st.rules ==> r > n.nextRuleId)
    && (forall k :: k in n'.st.ips && k !in n.st.ips ==> k > n.nextIPId)
  }

  lemma NewServerIdUnused(next: nat)
    ensures !Used(Itoa(next + 1), next)
  {
    if Used(Itoa(next + 1), next) {
      var k: nat :| 1 <= k <= next && Itoa(next + 1) == Itoa(k);
      ItoaInjective(k, next + 1);
    }
  }

  lemma {:induction false} JoinAllAddsNothing(st: Store, sid: string, gids: seq<int>)
    ensures var st' := JoinAll(st, sid, gids).store;
            st'.servers == st.servers && st'.groups == st.groups && st'.rules == st.rules && st'.ips == st.ips
    decreases |gids|
  {
    if gids != [] {
      JoinAllAddsNothing(AddServerGroup(st, sid, gids[0]).store, sid, gids[1..]);
    }
  }

  lemma StartReturnsNothing(n: NovaState, name: string, gids: seq<int>)
    ensures NothingReturns(n, StartServer(n.(nextServerId := n.nextServerId + 1), name, gids).0)
  {
    NewServerIdUnused(n.nextServerId);
    var id := Itoa(n.nextServerId + 1);
    JoinAllAddsNothing(AddServer(n.st, Server(id, name)).store, id, gids);
  }

  lemma GroupsStay(st: Store, id: int, info: RuleInfo)
    requires forall g :: g in st.groups ==> st.groups[g].id == g
    ensures AddRule(st, id, info).store.groups.Keys == st.groups.Keys
    ensures RemoveRule(st, id).store.groups.Keys == st.groups.Keys
  {
  }

  lemma AddRuleAddsOne(st: Store, id: int, info: RuleInfo)
    ensures AddRule(st, id, info).store.rules.Keys <= st.rules.Keys + {id}
  {
  }

  lemma OnlyRuleAdded(n: NovaState, st': Store)
    requires st'.servers == n.st.servers && st'.ips == n.st.ips && st'.groups.Keys == n.st.groups.Keys
    requires st'.rules.Keys <= n.st.rules.Keys + {n.nextRuleId + 1}
    ensures NothingReturns(n, n.(nextRuleId := n.nextRuleId + 1, st := st'))
  {
    assert forall g :: g in st'.groups ==> g in st'.groups.Keys;
    assert forall r :: r in st'.rules ==> r in st'.rules.Keys;
  }

  lemma CreateRuleReturnsNothing(n: NovaState, info: RuleInfo)
    requires RulesAgree(n.st)
    ensures NothingReturns(n, HandleCreateRule(n, info).0)
  {
    if info.parent in n.st.groups && !RuleExists(n.st.groups[info.parent].rules, info) {
      var id := n.nextRuleId + 1;
      var st' := AddRule(n.st, id, info).store;
      assert HandleCreateRule(n, info).0 == n.(nextRuleId := id, st := st');
      GroupsStay(n.st, id, info);
      AddRuleAlone(n.st, id, info);
      AddRuleAddsOne(n.st, id, info);
      OnlyRuleAdded(n, st');
    }
  }

  lemma DeleteRuleReturnsNothing(n: NovaState, id: int)
    requires RulesAgree(n.st)
    ensures NothingReturns(n, HandleDeleteRule(n, id).0)
  {
    GroupsStay(n.st, id, RuleInfo("", 0, 0, "", None, 0));
    var st' := RemoveRule(n.st, id).store;
    assert forall g :: g in st'.groups ==> g in n.st.groups;
  }

  lemma GroupsReturnNothing(n: NovaState, sid: string, name: string, description: string, found: Option<Group>)
    ensures NothingReturns(n, HandleJoinGroup(n, sid, found).0)
    ensures NothingReturns(n, HandleLeaveGroup(n, sid, found).0)
    ensures NothingReturns(n, HandleCreateGroup(n, name, description, found).0)
  {
  }

  lemma IPsReturnNothing(n: NovaState, sid: string, address: string, found: Option<FloatingIP>)
    ensures NothingReturns(n, HandleAttachIP(n, sid, address, found).0)
    ensures NothingReturns(n, HandleDetachIP(n, sid, address, found).0)
  {
  }

  lemma ServingReturnsNothing(n: NovaState, req: Request, n': NovaState, reply: Reply)
    requires HttpInv(n) && Serves(n, req, n', reply)
    ensures NothingReturns(n, n')
  {
    match req {
      case RunServer(name, image, flavor, names) =>
        if Complete(name, image, flavor) && AllKnown(n.st, Wanted(names)) {
          var gids :| Picked(n.st, Wanted(names), gids) &&
                      (n', reply) == StartServer(n.(nextServerId := n.nextServerId + 1), name, gids);
          StartReturnsNothing(n, name, gids);
        }
      case CreateRule(info) => CreateRuleReturnsNothing(n, info);
      case DeleteRule(id) => DeleteRuleReturnsNothing(n, id);
      case JoinGroup(sid, name) =>
        var found :| FoundGroup(n.st, name, found) && (n', reply) == HandleJoinGroup(n, sid, found);
        GroupsReturnNothing(n, sid, "", "", found);
      case LeaveGroup(sid, name) =>
        var found :| FoundGroup(n.st, name, found) && (n', reply) == HandleLeaveGroup(n, sid, found);
        GroupsReturnNothing(n, sid, "", "", found);
      case AttachIP(sid, addr) =>
        var found :| FoundIP(n.st, addr, found) && (n', reply) == HandleAttachIP(n, sid, addr, found);
        IPsReturnNothing(n, sid, addr, found);
      case DetachIP(sid, addr) =>
        var found :| FoundIP(n.st, addr, found) && (n', reply) == HandleDetachIP(n, sid, addr, found);
        IPsReturnNothing(n, sid, addr, found);
      case CreateGroup(name, desc) =>
        var found :| FoundGroup(n.st, name, found) && (n', reply) == HandleCreateGroup(n, name, desc, found);
        GroupsReturnNothing(n, "", name, desc, found);
      case _ =>
    }
  }

  lemma UsedLater(id: string, a: nat, b: nat)
    requires Used(id, a) && a <= b
    ensures Used(id, b)
  {
  }

  /** What a run adds has ids beyond the counters. So the id of a server, rule or floating IP that is
      gone never comes back, and no group id up to the counter. For the default group's id, which
      is ahead of the counter at first, see NovaReturns. */
  lemma {:induction false} GoneForGood(n: NovaState, reqs: seq<Request>, last: NovaState)
    requires HttpInv(n) && Runs(n, reqs, last)
    ensures NothingReturns(n, last)
    decreases |reqs|
  {
    if reqs != [] {
      var n', reply :| Serves(n, reqs[0], n', reply) && Runs(n', reqs[1..], last);
      ServingKeepsInv(n, reqs[0], n', reply);
      ServingReturnsNothing(n, reqs[0], n', reply);
      GoneForGood(n', reqs[1..], last);
      forall s | s in last.st.servers && s !in n.st.servers
        ensures !Used(s, n.nextServerId)
      {
        if Used(s, n.nextServerId) {
          UsedLater(s, n.nextServerId, n'.nextServerId);
        }
      }
    }
  }
}
