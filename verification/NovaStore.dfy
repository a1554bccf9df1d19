/** The tables of the Nova service double and what each of its operations does to them
    (testservices/novaservice/service.go). Rules are kept twice - inside their group and in an
    index of all rules - and servers' groups and floating IPs in lists that removals of groups,
    IPs and servers leave behind. Control hooks are absent. */
module NovaStore {
  import opened Wrappers

  datatype GroupRef = GroupRef(tenantId: string, name: string)

  datatype Rule = Rule(id: int, parent: int, proto: Option<string>, fromPort: Option<int>, toPort: Option<int>,
                       cidr: Option<string>, source: GroupRef)

  /** What a caller asks for; empty text and zero ports mean "not given". */
  datatype RuleInfo = RuleInfo(proto: string, fromPort: int, toPort: int, cidr: string, groupId: Option<int>,
                               parent: int)

  datatype Group = Group(id: int, name: string, description: string, tenantId: string, rules: seq<Rule>)

  datatype FloatingIP = FloatingIP(id: int, ip: string, fixedIP: Option<string>, instanceId: Option<string>,
                                   pool: string)

  datatype Server = Server(id: string, name: string)

  datatype Store = Store(
    tenantId: string,
    servers: map<string, Server>,
    groups: map<int, Group>,
    rules: map<int, Rule>,
    ips: map<int, FloatingIP>,
    serverGroups: map<string, seq<int>>,
    serverIPs: map<string, seq<int>>)

  datatype Failure =
    | AlreadyExists | NoSuchServer | NoSuchGroup | NoSuchRule | NoSuchIP
    | RuleInGroup | UnknownSource | AlreadyMember | NotMember

  datatype Outcome = Outcome(store: Store, error: Option<Failure>)

  function Done(st: Store): Outcome {
    Outcome(st, None)
  }

  function Refuse(st: Store, f: Failure): Outcome {
    Outcome(st, Some(f))
  }

  // ---------- Lists ----------

  function IndexFrom(xs: seq<int>, x: int, i: nat): (j: int)
    requires i <= |xs|
    ensures j == -1 || (i <= j < |xs| && xs[j] == x)
    ensures forall k :: i <= k < (if j == -1 then |xs| else j) ==> xs[k] != x
    decreases |xs| - i
  {
    if i == |xs| then -1 else if xs[i] == x then i else IndexFrom(xs, x, i + 1)
  }

  /** The first position of `x`, or -1. */
  function IndexOf(xs: seq<int>, x: int): (j: int)
    ensures j == -1 || (0 <= j < |xs| && xs[j] == x)
    ensures forall k :: 0 <= k < (if j == -1 then |xs| else j) ==> xs[k] != x
    ensures j == -1 <==> x !in xs
  {
    IndexFrom(xs, x, 0)
  }

  function RuleIndexFrom(rs: seq<Rule>, id: int, i: nat): (j: int)
    requires i <= |rs|
    ensures j == -1 || (i <= j < |rs| && rs[j].id == id)
    ensures forall k :: i <= k < (if j == -1 then |rs| else j) ==> rs[k].id != id
    decreases |rs| - i
  {
    if i == |rs| then -1 else if rs[i].id == id then i else RuleIndexFrom(rs, id, i + 1)
  }

  /** The first position of a rule with this id, or -1. */
  function RuleIndex(rs: seq<Rule>, id: int): (j: int)
    ensures j == -1 || (0 <= j < |rs| && rs[j].id == id)
    ensures forall k :: 0 <= k < (if j == -1 then |rs| else j) ==> rs[k].id != id
  {
    RuleIndexFrom(rs, id, 0)
  }

  function RemoveAt<T>(xs: seq<T>, i: nat): seq<T>
    requires i < |xs|
  {
    xs[..i] + xs[i + 1..]
  }

  function ListOf(m: map<string, seq<int>>, key: string): seq<int> {
    if key in m then m[key] else []
  }

  // ---------- Servers and groups ----------

  function AddServer(st: Store, server: Server): Outcome {
    if server.id in st.servers then Refuse(st, AlreadyExists)
    else Done(st.(servers := st.servers[server.id := server]))
  }

  function RemoveServer(st: Store, id: string): Outcome {
    if id !in st.servers then Refuse(st, NoSuchServer) else Done(st.(servers := st.servers - {id}))
  }

  function AddGroup(st: Store, group: Group): Outcome {
    if group.id in st.groups then Refuse(st, AlreadyExists)
    else Done(st.(groups := st.groups[group.id := group.(tenantId := st.tenantId)]))
  }

  function RemoveGroup(st: Store, id: int): Outcome {
    if id !in st.groups then Refuse(st, NoSuchGroup) else Done(st.(groups := st.groups - {id}))
  }

  // ---------- Rules ----------

  function NonEmpty(s: string): Option<string> {
    if s != "" then Some(s) else None
  }

  function NonZero(n: int): Option<int> {
    if n != 0 then Some(n) else None
  }

  /** The rule stored for a request. */
  function NewRule(st: Store, id: int, info: RuleInfo): Rule
    requires info.groupId.Some? ==> info.groupId.value in st.groups
  {
    var source :=
      if info.groupId.None? then GroupRef("", "")
      else
        var g := st.groups[info.groupId.value];
        GroupRef(g.tenantId, g.name);
    Rule(id, info.parent, NonEmpty(info.proto), NonZero(info.fromPort), NonZero(info.toPort), NonEmpty(info.cidr),
         source)
  }

  function AddRule(st: Store, id: int, info: RuleInfo): Outcome {
    if id in st.rules then Refuse(st, AlreadyExists)
    else if info.parent !in st.groups then Refuse(st, NoSuchGroup)
    else
      var group := st.groups[info.parent];
      if RuleIndex(group.rules, id) != -1 then Refuse(st, RuleInGroup)
      else if info.groupId.Some? && info.groupId.value !in st.groups then Refuse(st, UnknownSource)
      else
        var rule := NewRule(st, id, info);
        Done(st.(groups := st.groups[group.id := group.(rules := group.rules + [rule])],
                 rules := st.rules[id := rule]))
  }

  /** The groups once a rule has been taken out of its parent, if that still exists and has it. */
  function GroupsWithout(st: Store, id: int): map<int, Group>
    requires id in st.rules
  {
    var parent := st.rules[id].parent;
    if parent !in st.groups then st.groups
    else
      var group := st.groups[parent];
      var i := RuleIndex(group.rules, id);
      if i == -1 then st.groups
      else st.groups[group.id := group.(rules := RemoveAt(group.rules, i))]
  }

  function RemoveRule(st: Store, id: int): Outcome {
    if id !in st.rules then Refuse(st, NoSuchRule)
    else Done(st.(groups := GroupsWithout(st, id), rules := st.rules - {id}))
  }

  /** What `hasSecurityGroupRule` answers; group -1 asks for the rule alone. */
  predicate HasRule(st: Store, group: int, id: int) {
    id in st.rules && (group == -1 || (group in st.groups && st.rules[id].parent == group))
  }

  // ---------- Groups of a server ----------

  function AddServerGroup(st: Store, server: string, group: int): Outcome {
    if server !in st.servers then Refuse(st, NoSuchServer)
    else if group !in st.groups then Refuse(st, NoSuchGroup)
    else if group in ListOf(st.serverGroups, server) then Refuse(st, AlreadyMember)
    else Done(st.(serverGroups := st.serverGroups[server := ListOf(st.serverGroups, server) + [group]]))
  }

  predicate HasServerGroup(st: Store, server: string, group: int) {
    server in st.servers && group in st.groups && group in ListOf(st.serverGroups, server)
  }

  function RemoveServerGroup(st: Store, server: string, group: int): Outcome {
    if server !in st.servers then Refuse(st, NoSuchServer)
    else if group !in st.groups then Refuse(st, NoSuchGroup)
    else
      var groups := ListOf(st.serverGroups, server);
      var i := IndexOf(groups, group);
      if i == -1 then Refuse(st, NotMember)
      else Done(st.(serverGroups := st.serverGroups[server := RemoveAt(groups, i)]))
  }

  // ---------- Floating IPs ----------

  const FIXED_IP := "4.3.2.1"

  function AddIP(st: Store, ip: FloatingIP): Outcome {
    if ip.id in st.ips then Refuse(st, AlreadyExists) else Done(st.(ips := st.ips[ip.id := ip]))
  }

  function RemoveIP(st: Store, id: int): Outcome {
    if id !in st.ips then Refuse(st, NoSuchIP) else Done(st.(ips := st.ips - {id}))
  }

  /** Marks the IP as attached before looking at the server's list, and keeps the mark on failure. */
  function AddServerIP(st: Store, server: string, id: int): Outcome {
    if server !in st.servers then Refuse(st, NoSuchServer)
    else if id !in st.ips then Refuse(st, NoSuchIP)
    else
      var marked := st.(ips := st.ips[id := st.ips[id].(fixedIP := Some(FIXED_IP), instanceId := Some(server))]);
      if id in ListOf(st.serverIPs, server) then Refuse(marked, AlreadyMember)
      else Done(marked.(serverIPs := st.serverIPs[server := ListOf(st.serverIPs, server) + [id]]))
  }

  /** Clears the IP's mark before looking at the server's list, and keeps it cleared on failure. */
  function RemoveServerIP(st: Store, server: string, id: int): Outcome {
    if server !in st.servers then Refuse(st, NoSuchServer)
    else if id !in st.ips then Refuse(st, NoSuchIP)
    else
      var cleared := st.(ips := st.ips[id := st.ips[id].(fixedIP := None, instanceId := None)]);
      var list := ListOf(st.serverIPs, server);
      var i := IndexOf(list, id);
      if i == -1 then Refuse(cleared, NotMember)
      else Done(cleared.(serverIPs := st.serverIPs[server := RemoveAt(list, i)]))
  }

  predicate HasIP(st: Store, address: string) {
    exists id :: id in st.ips && st.ips[id].ip == address
  }

  /** The address of a listed IP; an IP that is gone reads as one with an empty address. */
  function AddressOf(st: Store, id: int): string {
    if id in st.ips then st.ips[id].ip else ""
  }

  predicate HasServerIP(st: Store, server: string, address: string) {
    && server in st.servers && HasIP(st, address)
    && exists id :: id in ListOf(st.serverIPs, server) && AddressOf(st, id) == address
  }
}
