/** Several servers being given floating IPs at the same time: every call to the cloud is a step of
    its own, and steps of different attachments interleave. The listing used to reclaim unused IPs
    may be out of date by the time it is acted upon (provision/serverprovision.go,
    `FIPWithNova.Attach`; the scheduler runs one goroutine per request). */
module FloatingRaces {
  import opened Wrappers
  import opened Cloud
  import opened FloatingIPs

  /** Where the attachment for one server stands. */
  datatype Phase =
    | Trying(tries: nat)
    | Listing(tries: nat)
    | Reclaiming(tries: nat, todo: seq<(int, CloudIP)>)
    | Got(id: int, address: string)
    | Undoing(id: int)
    | Returned(ip: Option<int>)

  /** `workers` holds the attachment of each server. */
  datatype State = State(ips: IPs, tracked: set<string>, next: int, workers: map<string, Phase>)

  datatype Action =
    | Allocates(w: string, address: string)
    | Refused(w: string)
    | Lists(w: string, list: seq<(int, CloudIP)>)
    | Reclaims(w: string, done: bool)
    | Retries(w: string)
    | Attaches(w: string, ok: bool, takesEffect: bool)
    | Undoes(w: string, done: bool)

  ghost predicate Unused(ips: IPs, address: string) {
    forall k :: k in ips ==> ips[k].address != address
  }

  ghost predicate Enabled(s: State, a: Action) {
    && a.w in s.workers
    && var p := s.workers[a.w];
       match a
       case Allocates(_, address) => p.Trying? && Unused(s.ips, address)
       case Refused(_) => p.Trying?
       case Lists(_, list) =>
         p.Listing? && forall i :: 0 <= i < |list| ==> list[i].0 in s.ips && s.ips[list[i].0] == list[i].1
       case Reclaims(_, _) => p.Reclaiming? && p.todo != []
       case Retries(_) => p.Reclaiming? && p.todo == []
       case Attaches(_, ok, _) => p.Got? && (ok ==> !Unused(s.ips, p.address))
       case Undoes(_, _) => p.Undoing?
  }

  function AttachedTo(ips: IPs, address: string, server: string): IPs {
    map k | k in ips :: if ips[k].address == address then CloudIP(address, Some(server)) else ips[k]
  }

  function MovesTo(s: State, w: string, p: Phase): State {
    s.(workers := s.workers[w := p])
  }

  function Apply(s: State, a: Action): State
    requires Enabled(s, a)
  {
    var p := s.workers[a.w];
    match a
    case Allocates(w, address) =>
      MovesTo(s.(ips := s.ips[s.next := CloudIP(address, None)], next := s.next + 1), w, Got(s.next, address))
    case Refused(w) => MovesTo(s, w, Listing(p.tries))
    case Lists(w, list) => MovesTo(s, w, Reclaiming(p.tries, list))
    case Reclaims(w, done) =>
      var item := p.todo[0];
      MovesTo(if done && !Protected(item.1, s.tracked) then s.(ips := s.ips - {item.0}) else s,
              w, Reclaiming(p.tries, p.todo[1..]))
    case Retries(w) => MovesTo(s, w, if p.tries < 1 then Trying(p.tries + 1) else Returned(None))
    case Attaches(w, ok, takesEffect) =>
      MovesTo(if ok || takesEffect then s.(ips := AttachedTo(s.ips, p.address, w)) else s,
              w, if ok then Returned(Some(p.id)) else Undoing(p.id))
    case Undoes(w, done) => MovesTo(if done then s.(ips := s.ips - {p.id}) else s, w, Returned(None))
  }

  /** What a step does to each IP: an allocation adds one that is attached to nothing; an attachment
      attaches the one with the address, also when only its answer is lost; a deletion that is done
      removes the one, and only deletions remove any. */
  lemma StepOnIP(s: State, a: Action, k: int)
    requires Enabled(s, a)
    ensures var p, s' := s.workers[a.w], Apply(s, a);
            var now := if k in s'.ips then Some(s'.ips[k]) else None;
            var before := if k in s.ips then Some(s.ips[k]) else None;
            match a
            case Allocates(_, address) => now == if k == s.next then Some(CloudIP(address, None)) else before
            case Attaches(w, ok, takesEffect) =>
              now == if (ok || takesEffect) && before.Some? && before.value.address == p.address
                     then Some(CloudIP(p.address, Some(w))) else before
            case Reclaims(_, done) =>
              var (id, ip) := p.todo[0];
              now == if done && k == id && ip.instance.None? && ip.address !in s.tracked then None else before
            case Undoes(_, done) => now == if done && k == p.id then None else before
            case _ => now == before
  {
  }

  ghost predicate Runs(s: State, actions: seq<Action>, last: State)
    decreases |actions|
  {
    if actions == [] then s == last
    else Enabled(s, actions[0]) && Runs(Apply(s, actions[0]), actions[1..], last)
  }

  /** IPs with ids given out so far and addresses of their own. */
  ghost predicate Sound(s: State) {
    && (forall k :: k in s.ips ==> k < s.next)
    && (forall j, k :: j in s.ips && k in s.ips && s.ips[j].address == s.ips[k].address ==> j == k)
  }

  /** Every attachment is about to start. */
  ghost predicate Starts(s: State) {
    Sound(s) && forall w :: w in s.workers ==> s.workers[w] == Trying(0)
  }

  // ---------- What holds in every interleaving ----------

  /** Attached or tracked on entry. */
  predicate Entitled(start: State, k: int) {
    k in start.ips && Protected(start.ips[k], start.tracked)
  }

  /** No attachment is about to touch an IP entitled to stay. */
  ghost predicate Harmless(start: State, p: Phase) {
    match p
    case Reclaiming(_, todo) =>
      forall i :: 0 <= i < |todo| && !Protected(todo[i].1, start.tracked) ==> !Entitled(start, todo[i].0)
    case Got(id, address) =>
      && start.next <= id
      && forall k :: Entitled(start, k) ==> start.ips[k].address != address
    case Undoing(id) => start.next <= id
    case _ => true
  }

  ghost predicate KeepInv(start: State, s: State) {
    && start.next <= s.next && s.tracked == start.tracked
    && (forall k :: Entitled(start, k) ==> k < start.next && k in s.ips && s.ips[k] == start.ips[k])
    && (forall w :: w in s.workers ==> Harmless(start, s.workers[w]))
  }

  lemma StepKeepsIPs(start: State, s: State, a: Action)
    requires KeepInv(start, s) && Enabled(s, a)
    ensures forall k :: Entitled(start, k) ==> k in Apply(s, a).ips && Apply(s, a).ips[k] == start.ips[k]
  {
    assert Harmless(start, s.workers[a.w]);
  }

  lemma StepKeepsHarmless(start: State, s: State, a: Action)
    requires KeepInv(start, s) && Enabled(s, a)
    ensures Harmless(start, Apply(s, a).workers[a.w])
  {
    assert Harmless(start, s.workers[a.w]);
  }

  lemma {:induction false} RunKeeps(start: State, s: State, actions: seq<Action>, last: State)
    requires KeepInv(start, s) && Runs(s, actions, last)
    ensures KeepInv(start, last)
    decreases |actions|
  {
    if actions != [] {
      StepKeepsIPs(start, s, actions[0]);
      StepKeepsHarmless(start, s, actions[0]);
      RunKeeps(start, Apply(s, actions[0]), actions[1..], last);
    }
  }

  /** However the attachments interleave, an IP that was attached or tracked when they started is
      neither deleted nor attached elsewhere. */
  lemma {:induction false} EveryInterleavingKeepsProtected(start: State, actions: seq<Action>, last: State)
    requires Starts(start) && Runs(start, actions, last)
    ensures KeepsProtected(start.ips, last.ips, start.tracked)
  {
    RunKeeps(start, start, actions, last);
    forall k | k in start.ips && Protected(start.ips[k], start.tracked)
      ensures k in last.ips && last.ips[k] == start.ips[k]
    {
      assert Entitled(start, k);
    }
  }

  // ---------- What holds only for one attachment at a time ----------

  /** Begun and not finished. */
  predicate Busy(p: Phase) {
    p != Trying(0) && !p.Returned?
  }

  function UnderWay(s: State): set<string> {
    set w | w in s.workers && Busy(s.workers[w])
  }

  /** A run in which no more than `m` attachments are ever under way together. */
  ghost predicate LimitedRun(m: nat, s: State, actions: seq<Action>, last: State)
    decreases |actions|
  {
    && |UnderWay(s)| <= m
    && if actions == [] then s == last
       else Enabled(s, actions[0]) && LimitedRun(m, Apply(s, actions[0]), actions[1..], last)
  }

  predicate GivenTo(s: State, w: string, k: int) {
    w in s.workers && s.workers[w] == Returned(Some(k))
  }

  /** Each server that was given an IP still has it. */
  ghost predicate Served(s: State) {
    forall w, k :: GivenTo(s, w, k) ==> k in s.ips && s.ips[k].instance == Some(w)
  }

  /** However many servers there are, those given an IP keep it as long as no more than `m`
      attachments are under way together. */
  ghost predicate AlwaysServed(m: nat) {
    forall start, actions, last :: Starts(start) && LimitedRun(m, start, actions, last) ==> Served(last)
  }

  ghost predicate NobodyHas(s: State, k: int) {
    forall w :: !GivenTo(s, w, k)
  }

  /** No attachment is about to touch an IP that was given to a server. */
  ghost predicate Considerate(s: State, p: Phase) {
    match p
    case Reclaiming(_, todo) =>
      forall i :: 0 <= i < |todo| && !Protected(todo[i].1, s.tracked) ==> NobodyHas(s, todo[i].0)
    case Got(id, address) => id in s.ips && s.ips[id].address == address && NobodyHas(s, id)
    case Undoing(id) => NobodyHas(s, id)
    case _ => true
  }

  ghost predicate SerialInv(s: State) {
    && Sound(s) && Served(s)
    && (forall w :: w in s.workers ==> Considerate(s, s.workers[w]))
  }

  lemma TwoInSmallSet(ws: set<string>, v: string, w: string)
    requires |ws| <= 1 && v in ws && w in ws
    ensures v == w
  {
    assert |ws - {v}| == |ws| - 1;
    assert ws - {v} == {};
  }

  /** With one attachment under way at most, before and after a step, all others rest. */
  lemma OthersRest(s: State, a: Action, v: string)
    requires Enabled(s, a) && |UnderWay(s)| <= 1 && |UnderWay(Apply(s, a))| <= 1
    requires v in s.workers && v != a.w
    ensures !Busy(s.workers[v])
  {
    var s' := Apply(s, a);
    if Busy(s.workers[v]) {
      assert v in UnderWay(s) && v in UnderWay(s');
      if Busy(s.workers[a.w]) {
        assert a.w in UnderWay(s);
        TwoInSmallSet(UnderWay(s), v, a.w);
      } else {
        assert a.w in UnderWay(s');
        TwoInSmallSet(UnderWay(s'), v, a.w);
      }
    }
  }

  /** Who was given what does not change but for the server whose step it is. */
  lemma GivenStays(s: State, a: Action, w: string, k: int)
    requires Enabled(s, a) && w != a.w
    ensures GivenTo(Apply(s, a), w, k) <==> GivenTo(s, w, k)
  {
  }

  lemma StepKeepsServed(s: State, a: Action)
    requires SerialInv(s) && Enabled(s, a)
    ensures Served(Apply(s, a))
  {
    var s' := Apply(s, a);
    assert Considerate(s, s.workers[a.w]);
    forall w, k | GivenTo(s', w, k)
      ensures k in s'.ips && s'.ips[k].instance == Some(w)
    {
      if w != a.w {
        GivenStays(s, a, w, k);
      }
    }
  }

  lemma StepKeepsConsiderate(s: State, a: Action)
    requires SerialInv(s) && Enabled(s, a)
    ensures Considerate(Apply(s, a), Apply(s, a).workers[a.w])
  {
    var s' := Apply(s, a);
    assert Considerate(s, s.workers[a.w]);
    forall k | NobodyHas(s, k) && !GivenTo(s', a.w, k)
      ensures NobodyHas(s', k)
    {
      forall w
        ensures !GivenTo(s', w, k)
      {
        if w != a.w {
          GivenStays(s, a, w, k);
        }
      }
    }
    match a {
      case Allocates(_, _) => assert NobodyHas(s, s.next);
      case Lists(_, list) =>
        forall i | 0 <= i < |list| && !Protected(list[i].1, s.tracked)
          ensures NobodyHas(s, list[i].0)
        {
        }
      case _ =>
    }
  }

  lemma SerialStep(s: State, a: Action)
    requires SerialInv(s) && Enabled(s, a) && |UnderWay(s)| <= 1 && |UnderWay(Apply(s, a))| <= 1
    ensures SerialInv(Apply(s, a))
  {
    var s' := Apply(s, a);
    StepKeepsServed(s, a);
    forall w | w in s'.workers
      ensures Considerate(s', s'.workers[w])
    {
      if w == a.w {
        StepKeepsConsiderate(s, a);
      } else {
        OthersRest(s, a, w);
      }
    }
  }

  lemma {:induction false} SerialRun(s: State, actions: seq<Action>, last: State)
    requires SerialInv(s) && LimitedRun(1, s, actions, last)
    ensures Served(last)
    decreases |actions|
  {
    if actions != [] {
      SerialStep(s, actions[0]);
      SerialRun(Apply(s, actions[0]), actions[1..], last);
    }
  }

  lemma {:induction false} LimitedByMore(m: nat, n: nat, s: State, actions: seq<Action>, last: State)
    requires m <= n && LimitedRun(m, s, actions, last)
    ensures LimitedRun(n, s, actions, last)
    decreases |actions|
  {
    if actions != [] {
      LimitedByMore(m, n, Apply(s, actions[0]), actions[1..], last);
    }
  }

  /** The state in which nothing is allocated and all servers wait. */
  function Waiting(servers: set<string>): State {
    State(map[], {}, 0, map w | w in servers :: Trying(0))
  }

  /** A step between two of the servers, with no other begun. */
  ghost predicate OnlyTwo(s: State, v: string, w: string) {
    UnderWay(s) <= {v, w}
  }

  /** The steps between two servers `v` and `w`: the IP of `v` is listed as unused for `w` before it
      is attached, and deleted after. */
  lemma RaceRun(servers: set<string>, v: string, w: string) returns (actions: seq<Action>, last: State)
    requires v in servers && w in servers && v != w
    ensures LimitedRun(2, Waiting(servers), actions, last) && !Served(last)
  {
    var ip := CloudIP("", None);
    var s0 := Waiting(servers);
    var s1 := Apply(s0, Allocates(v, ""));
    var s2 := Apply(s1, Refused(w));
    var s3 := Apply(s2, Lists(w, [(0, ip)]));
    assert 0 in s3.ips && s3.ips[0].address == "";
    var s4 := Apply(s3, Attaches(v, true, true));
    last := Apply(s4, Reclaims(w, true));
    RunEnds(last, v, w);
    RunsFirst(s4, Reclaims(w, true), [], last, v, w);
    RunsFirst(s3, Attaches(v, true, true), [Reclaims(w, true)] + [], last, v, w);
    var tail := [Attaches(v, true, true)] + ([Reclaims(w, true)] + []);
    RunsFirst(s2, Lists(w, [(0, ip)]), tail, last, v, w);
    tail := [Lists(w, [(0, ip)])] + tail;
    RunsFirst(s1, Refused(w), tail, last, v, w);
    tail := [Refused(w)] + tail;
    RunsFirst(s0, Allocates(v, ""), tail, last, v, w);
    actions := [Allocates(v, "")] + tail;
    assert GivenTo(last, v, 0) && 0 !in last.ips;
  }

  lemma TwoAtMost(s: State, v: string, w: string)
    requires OnlyTwo(s, v, w)
    ensures |UnderWay(s)| <= 2
  {
    var ws := UnderWay(s) - {v} - {w};
    assert ws == {};
    assert |UnderWay(s) - {v}| >= |UnderWay(s)| - 1;
    assert |ws| >= |UnderWay(s) - {v}| - 1;
  }

  lemma {:induction false} RunEnds(s: State, v: string, w: string)
    requires OnlyTwo(s, v, w)
    ensures LimitedRun(2, s, [], s)
  {
    TwoAtMost(s, v, w);
  }

  lemma {:induction false} RunsFirst(s: State, a: Action, rest: seq<Action>, last: State, v: string, w: string)
    requires Enabled(s, a) && LimitedRun(2, Apply(s, a), rest, last) && OnlyTwo(s, v, w)
    ensures LimitedRun(2, s, [a] + rest, last)
  {
    TwoAtMost(s, v, w);
    assert ([a] + rest)[1..] == rest;
  }

  /** Servers that were given an IP keep it, in every run for any number of servers, exactly when
      attachments are made one after another: with two under way together, one can reclaim what the
      other has just attached. */
  lemma ServedExactly(m: nat)
    ensures AlwaysServed(m) <==> m <= 1
  {
    if m <= 1 {
      forall start, actions, last | Starts(start) && LimitedRun(m, start, actions, last)
        ensures Served(last)
      {
        LimitedByMore(m, 1, start, actions, last);
        SerialRun(start, actions, last);
      }
    } else {
      var servers := {"v", "w"};
      var actions, last := RaceRun(servers, "v", "w");
      LimitedByMore(2, m, Waiting(servers), actions, last);
      assert Starts(Waiting(servers));
    }
  }
}
