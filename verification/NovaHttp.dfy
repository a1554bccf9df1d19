/** The requests of the Nova service double: what each handler checks before it calls the store,
    the counters it advances, and how it answers (testservices/novaservice/service_http.go). */
module NovaHttp {
  import opened Wrappers
  import opened Decimal
  import opened NovaStore

  datatype NovaState = NovaState(st: Store, nextServerId: nat, nextGroupId: nat, nextRuleId: nat, nextIPId: nat)

  datatype Reply = Accepted | NotFound | BadRequest | Internal(failure: Failure)

  datatype Request =
    | RunServer(name: string, image: string, flavor: string, groupNames: seq<string>)
    | DeleteServer(sid: string)
    | JoinGroup(sid: string, groupName: string)
    | LeaveGroup(sid: string, groupName: string)
    | AttachIP(sid: string, address: string)
    | DetachIP(sid: string, address: string)
    | CreateGroup(newName: string, description: string)
    | DeleteGroup(gid: int)
    | CreateRule(info: RuleInfo)
    | DeleteRule(ruleId: int)
    | CreateIP
    | DeleteIP(ipId: int)

  const DEFAULT_GROUP_ID := 999
  const DEFAULT_GROUP := "default"

  /** A new service double: one group, no servers. */
  function New(tenantId: string): NovaState {
    var group := Group(DEFAULT_GROUP_ID, DEFAULT_GROUP, "default group", tenantId, []);
    NovaState(Store(tenantId, map[], map[DEFAULT_GROUP_ID := group], map[], map[], map[], map[]), 0, 0, 0, 0)
  }

  /** The group a scan by name comes to, in whatever order the groups are visited. */
  ghost predicate FoundGroup(st: Store, name: string, found: Option<Group>) {
    match found
    case Some(g) => g.name == name && exists k :: k in st.groups && st.groups[k] == g
    case None => forall k :: k in st.groups ==> st.groups[k].name != name
  }

  ghost predicate FoundIP(st: Store, address: string, found: Option<FloatingIP>) {
    match found
    case Some(ip) => ip.ip == address && exists k :: k in st.ips && st.ips[k] == ip
    case None => forall k :: k in st.ips ==> st.ips[k].ip != address
  }

  function Answer(n: NovaState, out: Outcome): (NovaState, Reply) {
    (n.(st := out.store), if out.error.Some? then Internal(out.error.value) else Accepted)
  }

  function HandleJoinGroup(n: NovaState, sid: string, found: Option<Group>): (NovaState, Reply) {
    if sid !in n.st.servers || found.None? || HasServerGroup(n.st, sid, found.value.id) then (n, NotFound)
    else Answer(n, AddServerGroup(n.st, sid, found.value.id))
  }

  function HandleLeaveGroup(n: NovaState, sid: string, found: Option<Group>): (NovaState, Reply) {
    if sid !in n.st.servers || found.None? || !HasServerGroup(n.st, sid, found.value.id) then (n, NotFound)
    else Answer(n, RemoveServerGroup(n.st, sid, found.value.id))
  }

  function HandleAttachIP(n: NovaState, sid: string, address: string, found: Option<FloatingIP>): (NovaState, Reply) {
    if sid !in n.st.servers || HasServerIP(n.st, sid, address) || found.None? then (n, NotFound)
    else Answer(n, AddServerIP(n.st, sid, found.value.id))
  }

  function HandleDetachIP(n: NovaState, sid: string, address: string, found: Option<FloatingIP>): (NovaState, Reply) {
    if sid !in n.st.servers || !HasServerIP(n.st, sid, address) || found.None? then (n, NotFound)
    else Answer(n, RemoveServerIP(n.st, sid, found.value.id))
  }

  function HandleCreateGroup(n: NovaState, name: string, description: string, found: Option<Group>)
    : (NovaState, Reply)
  {
    if found.Some? then (n, BadRequest)
    else
      var id := n.nextGroupId + 1;
      Answer(n.(nextGroupId := id), AddGroup(n.st, Group(id, name, description, n.st.tenantId, [])))
  }

  function HandleDeleteGroup(n: NovaState, id: int): (NovaState, Reply) {
    if id !in n.st.groups then (n, NotFound) else Answer(n, RemoveGroup(n.st, n.st.groups[id].id))
  }

  /** The handler's test for "this rule already exists". */
  predicate SameRule(r: Rule, info: RuleInfo) {
    r.proto == Some(info.proto) && r.fromPort == Some(info.fromPort) && r.toPort == Some(info.toPort)
  }

  predicate RuleExists(rs: seq<Rule>, info: RuleInfo) {
    exists i :: 0 <= i < |rs| && SameRule(rs[i], info)
  }

  function HandleCreateRule(n: NovaState, info: RuleInfo): (NovaState, Reply) {
    if info.parent !in n.st.groups then (n, Internal(NoSuchGroup))
    else if RuleExists(n.st.groups[info.parent].rules, info) then (n, BadRequest)
    else
      var id := n.nextRuleId + 1;
      Answer(n.(nextRuleId := id), AddRule(n.st, id, info))
  }

  function HandleDeleteRule(n: NovaState, id: int): (NovaState, Reply) {
    if id !in n.st.rules then (n, NotFound) else Answer(n, RemoveRule(n.st, id))
  }

  function Address(id: nat): string {
    "10.0.0." + Itoa(id)
  }

  function HandleCreateIP(n: NovaState): (NovaState, Reply) {
    var id := n.nextIPId + 1;
    Answer(n.(nextIPId := id), AddIP(n.st, FloatingIP(id, Address(id), None, None, "nova")))
  }

  function HandleDeleteIP(n: NovaState, id: int): (NovaState, Reply) {
    if id !in n.st.ips then (n, NotFound) else Answer(n, RemoveIP(n.st, id))
  }

  function HandleDeleteServer(n: NovaState, id: string): (NovaState, Reply) {
    if id !in n.st.servers then (n, NotFound) else Answer(n, RemoveServer(n.st, id))
  }

  /** The groups asked for by name; the default group is assumed to exist and skipped. */
  function Wanted(names: seq<string>): seq<string> {
    if names == [] then []
    else
      var k := |names| - 1;
      Wanted(names[..k]) + if names[k] == DEFAULT_GROUP then [] else [names[k]]
  }

  predicate HasName(st: Store, name: string) {
    exists k :: k in st.groups && st.groups[k].name == name
  }

  predicate HasNameAndId(st: Store, name: string, id: int) {
    exists k :: k in st.groups && st.groups[k].name == name && st.groups[k].id == id
  }

  /** Group ids found for all the names wanted. */
  predicate Picked(st: Store, wanted: seq<string>, gids: seq<int>) {
    |gids| == |wanted| && forall i :: 0 <= i < |wanted| ==> HasNameAndId(st, wanted[i], gids[i])
  }

  predicate AllKnown(st: Store, wanted: seq<string>) {
    forall i :: 0 <= i < |wanted| ==> HasName(st, wanted[i])
  }

  /** Joins the groups in turn, stopping at the first failure. */
  function JoinAll(st: Store, sid: string, gids: seq<int>): Outcome
    decreases |gids|
  {
    if gids == [] then Done(st)
    else
      var out := AddServerGroup(st, sid, gids[0]);
      if out.error.Some? then out else JoinAll(out.store, sid, gids[1..])
  }

  function Complete(name: string, image: string, flavor: string): bool {
    name != "" && image != "" && flavor != ""
  }

  function StartServer(n: NovaState, name: string, gids: seq<int>): (NovaState, Reply) {
    var id := Itoa(n.nextServerId);
    var out := AddServer(n.st, Server(id, name));
    Answer(n, if out.error.Some? then out else JoinAll(out.store, id, gids))
  }

  /** The new state and the reply to a request; where the handler scans a map, any order may decide. */
  ghost predicate Serves(n: NovaState, req: Request, n': NovaState, reply: Reply) {
    match req
    case RunServer(name, image, flavor, names) =>
      if !Complete(name, image, flavor) then n' == n && reply == BadRequest
      else
        var n1 := n.(nextServerId := n.nextServerId + 1);
        if !AllKnown(n.st, Wanted(names)) then n' == n1 && reply == BadRequest
        else exists gids :: Picked(n.st, Wanted(names), gids) && (n', reply) == StartServer(n1, name, gids)
    case DeleteServer(sid) => (n', reply) == HandleDeleteServer(n, sid)
    case JoinGroup(sid, name) =>
      exists found :: FoundGroup(n.st, name, found) && (n', reply) == HandleJoinGroup(n, sid, found)
    case LeaveGroup(sid, name) =>
      exists found :: FoundGroup(n.st, name, found) && (n', reply) == HandleLeaveGroup(n, sid, found)
    case AttachIP(sid, addr) =>
      exists found :: FoundIP(n.st, addr, found) && (n', reply) == HandleAttachIP(n, sid, addr, found)
    case DetachIP(sid, addr) =>
      exists found :: FoundIP(n.st, addr, found) && (n', reply) == HandleDetachIP(n, sid, addr, found)
    case CreateGroup(name, desc) =>
      exists found :: FoundGroup(n.st, name, found) && (n', reply) == HandleCreateGroup(n, name, desc, found)
    case DeleteGroup(id) => (n', reply) == HandleDeleteGroup(n, id)
    case CreateRule(info) => (n', reply) == HandleCreateRule(n, info)
    case DeleteRule(id) => (n', reply) == HandleDeleteRule(n, id)
    case CreateIP => (n', reply) == HandleCreateIP(n)
    case DeleteIP(id) => (n', reply) == HandleDeleteIP(n, id)
  }

  /** A run: each request is served in the state the one before left. */
  ghost predicate Runs(n: NovaState, reqs: seq<Request>, last: NovaState)
    decreases |reqs|
  {
    if reqs == [] then n == last
    else exists n', reply :: Serves(n, reqs[0], n', reply) && Runs(n', reqs[1..], last)
  }
}
