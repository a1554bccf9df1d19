/** Group ids that the tables of the Nova service double hold on to - in the servers' lists and as
    parents of rules - whether the groups still exist or not. */
module NovaRefs {
  import opened Wrappers
  import opened Decimal
  import opened NovaStore
  import opened NovaHttp

  /** An id that has been given to a group: the default group's, or one up to the counter. */
  predicate GivenOut(g: int, next: nat) {
    g == DEFAULT_GROUP_ID || 1 <= g <= next
  }

  predicate AllGivenOut(gids: seq<int>, next: nat) {
    forall i :: 0 <= i < |gids| ==> GivenOut(gids[i], next)
  }

  predicate RefsOk(st: Store, next: nat) {
    && (forall s :: s in st.serverGroups ==> AllGivenOut(st.serverGroups[s], next))
    && (forall r :: r in st.rules ==> GivenOut(st.rules[r].parent, next))
  }

  predicate GroupIdsOk(groups: map<int, Group>, next: nat) {
    forall g :: g in groups ==> GivenOut(g, next)
  }

  lemma RefsLater(st: Store, next: nat, later: nat)
    requires RefsOk(st, next) && next <= later
    ensures RefsOk(st, later)
  {
  }

  lemma ListKeepsRefs(st: Store, sid: string, list: seq<int>, next: nat)
    requires RefsOk(st, next) && AllGivenOut(list, next)
    ensures RefsOk(st.(serverGroups := st.serverGroups[sid := list]), next)
  {
  }

  lemma JoinKeepsRefs(st: Store, sid: string, gid: int, next: nat)
    requires RefsOk(st, next) && GroupIdsOk(st.groups, next)
    ensures RefsOk(AddServerGroup(st, sid, gid).store, next)
  {
    if gid in st.groups {
      ListKeepsRefs(st, sid, ListOf(st.serverGroups, sid) + [gid], next);
    }
  }

  lemma LeaveKeepsRefs(st: Store, sid: string, gid: int, next: nat)
    requires RefsOk(st, next)
    ensures RefsOk(RemoveServerGroup(st, sid, gid).store, next)
  {
    var list := ListOf(st.serverGroups, sid);
    var i := IndexOf(list, gid);
    if i != -1 {
      ListKeepsRefs(st, sid, RemoveAt(list, i), next);
    }
  }

  lemma AddRuleKeepsRefs(st: Store, id: int, info: RuleInfo, next: nat)
    requires RefsOk(st, next) && GroupIdsOk(st.groups, next)
    ensures RefsOk(AddRule(st, id, info).store, next)
  {
  }

  lemma RemoveRuleKeepsRefs(st: Store, id: int, next: nat)
    requires RefsOk(st, next)
    ensures RefsOk(RemoveRule(st, id).store, next)
  {
  }

  lemma {:induction false} JoinAllKeepsRefs(st: Store, sid: string, gids: seq<int>, next: nat)
    requires RefsOk(st, next) && GroupIdsOk(st.groups, next)
    ensures RefsOk(JoinAll(st, sid, gids).store, next)
    decreases |gids|
  {
    if gids != [] {
      JoinKeepsRefs(st, sid, gids[0], next);
      JoinAllKeepsRefs(AddServerGroup(st, sid, gids[0]).store, sid, gids[1..], next);
    }
  }

  predicate Ok(n: NovaState) {
    RefsOk(n.st, n.nextGroupId) && GroupIdsOk(n.st.groups, n.nextGroupId)
  }

  lemma StartingKeepsRefs(n: NovaState, name: string, gids: seq<int>)
    requires Ok(n)
    ensures var n' := StartServer(n.(nextServerId := n.nextServerId + 1), name, gids).0; RefsOk(n'.st, n'.nextGroupId)
  {
    var id := Itoa(n.nextServerId + 1);
    JoinAllKeepsRefs(AddServer(n.st, Server(id, name)).store, id, gids, n.nextGroupId);
  }

  lemma GroupsKeepRefs(n: NovaState, sid: string, name: string, description: string, found: Option<Group>)
    requires Ok(n)
    ensures RefsOk(HandleJoinGroup(n, sid, found).0.st, n.nextGroupId)
    ensures RefsOk(HandleLeaveGroup(n, sid, found).0.st, n.nextGroupId)
    ensures var n' := HandleCreateGroup(n, name, description, found).0; RefsOk(n'.st, n'.nextGroupId)
  {
    if found.Some? {
      JoinKeepsRefs(n.st, sid, found.value.id, n.nextGroupId);
      LeaveKeepsRefs(n.st, sid, found.value.id, n.nextGroupId);
    } else {
      RefsLater(n.st, n.nextGroupId, n.nextGroupId + 1);
    }
  }

  lemma RulesKeepRefs(n: NovaState, info: RuleInfo, id: int)
    requires Ok(n)
    ensures RefsOk(HandleCreateRule(n, info).0.st, n.nextGroupId)
    ensures RefsOk(HandleDeleteRule(n, id).0.st, n.nextGroupId)
  {
    AddRuleKeepsRefs(n.st, n.nextRuleId + 1, info, n.nextGroupId);
    RemoveRuleKeepsRefs(n.st, id, n.nextGroupId);
  }

  lemma IPsKeepRefs(n: NovaState, sid: string, address: string, found: Option<FloatingIP>)
    requires Ok(n)
    ensures RefsOk(HandleAttachIP(n, sid, address, found).0.st, n.nextGroupId)
    ensures RefsOk(HandleDetachIP(n, sid, address, found).0.st, n.nextGroupId)
  {
  }

  lemma ServingKeepsRefs(n: NovaState, req: Request, n': NovaState, reply: Reply)
    requires Ok(n) && Serves(n, req, n', reply)
    ensures RefsOk(n'.st, n'.nextGroupId)
  {
    match req {
      case RunServer(name, image, flavor, names) =>
        if Complete(name, image, flavor) && AllKnown(n.st, Wanted(names)) {
          var gids :| Picked(n.st, Wanted(names), gids) &&
                      (n', reply) == StartServer(n.(nextServerId := n.nextServerId + 1), name, gids);
          StartingKeepsRefs(n, name, gids);
        }
      case JoinGroup(sid, name) =>
        var found :| FoundGroup(n.st, name, found) && (n', reply) == HandleJoinGroup(n, sid, found);
        GroupsKeepRefs(n, sid, "", "", found);
      case LeaveGroup(sid, name) =>
        var found :| FoundGroup(n.st, name, found) && (n', reply) == HandleLeaveGroup(n, sid, found);
        GroupsKeepRefs(n, sid, "", "", found);
      case CreateGroup(name, desc) =>
        var found :| FoundGroup(n.st, name, found) && (n', reply) == HandleCreateGroup(n, name, desc, found);
        GroupsKeepRefs(n, "", name, desc, found);
      case AttachIP(sid, addr) =>
        var found :| FoundIP(n.st, addr, found) && (n', reply) == HandleAttachIP(n, sid, addr, found);
        IPsKeepRefs(n, sid, addr, found);
      case DetachIP(sid, addr) =>
        var found :| FoundIP(n.st, addr, found) && (n', reply) == HandleDetachIP(n, sid, addr, found);
        IPsKeepRefs(n, sid, addr, found);
      case CreateRule(info) => RulesKeepRefs(n, info, 0);
      case DeleteRule(id) => RulesKeepRefs(n, RuleInfo("", 0, 0, "", None, 0), id);
      case _ =>
    }
  }
}
