/** Authentications, timeouts, token clearing and URL look-ups interleaved. Each authentication
    runs in its own goroutine, which outlives a caller that times out; a lock protects token,
    URLs and region table while it works, but look-ups read the URLs without the lock
    (goose/client/client.go, goose/sync/timeout.go). */
module AuthProtocol {
  import opened Wrappers
  import opened Regions
  import opened Catalogue
  import opened AuthClient

  /** The client's region and the service types it requires. */
  datatype Config = Config(region: string, required: seq<string>)

  /** Where an authenticating goroutine stands. `entry` records the shared state when it took the
      lock. */
  datatype Phase =
    | Waiting
    | Calling(entry: Shared)
    | Storing(entry: Shared, details: AuthDetails)
    | Publishing(entry: Shared, details: AuthDetails)
    | Finished(ok: bool)
  {
    predicate InSection() {
      Calling? || Storing? || Publishing?
    }
  }

  /** A look-up of an endpoint URL: first the token check, then the unlocked read. */
  datatype Query =
    | Checking(t: string)
    | Reading(t: string)
    | Refused(t: string)
    | Answered(t: string, url: Option<string>)

  datatype State = State(shared: Shared, lock: Option<nat>, auths: map<nat, Phase>, callers: set<nat>,
                         queries: map<nat, Query>)

  datatype Action =
    | Spawn(id: nat)
    | TimeOut(id: nat)
    | Return(id: nat)
    | Acquire(id: nat)
    | Fail(id: nat)
    | Receive(id: nat, details: AuthDetails)
    | Resolve(id: nat, urls: ServiceURLs)
    | Reject(id: nat)
    | Publish(id: nat)
    | ClearToken
    | Ask(q: nat, t: string)
    | Check(q: nat)
    | Read(q: nat)

  function Init(override: ServiceURLs): State {
    State(Shared("", override, map[]), None, map[], {}, map[])
  }

  ghost predicate Enabled(cfg: Config, s: State, a: Action) {
    match a
    case Spawn(id) => id !in s.auths
    case TimeOut(id) => id in s.callers
    case Return(id) => id in s.callers && id in s.auths && s.auths[id].Finished?
    case Acquire(id) => id in s.auths && s.auths[id].Waiting? && s.lock.None?
    case Fail(id) => id in s.auths && s.auths[id].Calling?
    case Receive(id, details) => id in s.auths && s.auths[id].Calling?
    case Resolve(id, urls) =>
      && id in s.auths && s.auths[id].Storing?
      && (if s.shared.urls != map[] then urls == s.shared.urls
          else Resolves(s.shared.table, cfg.region, cfg.required, urls))
    case Reject(id) =>
      && id in s.auths && s.auths[id].Storing? && s.shared.urls == map[]
      && Missing(s.shared.table, cfg.region, cfg.required) != []
    case Publish(id) => id in s.auths && s.auths[id].Publishing?
    case ClearToken => s.lock.None?
    case Ask(q, t) => q !in s.queries
    case Check(q) => q in s.queries && s.queries[q].Checking? && s.lock.None?
    case Read(q) => q in s.queries && s.queries[q].Reading?
  }

  function Lookup(urls: ServiceURLs, t: string): Option<string> {
    if t in urls then Some(urls[t]) else None
  }

  ghost function Apply(cfg: Config, s: State, a: Action): State
    requires Enabled(cfg, s, a)
  {
    match a
    case Spawn(id) => s.(auths := s.auths[id := Waiting], callers := s.callers + {id})
    case TimeOut(id) => s.(callers := s.callers - {id})
    case Return(id) => s.(callers := s.callers - {id})
    case Acquire(id) =>
      if s.shared.token != "" then s.(auths := s.auths[id := Finished(true)])
      else s.(lock := Some(id), auths := s.auths[id := Calling(s.shared)])
    case Fail(id) => s.(lock := None, auths := s.auths[id := Finished(false)])
    case Receive(id, details) =>
      s.(shared := s.shared.(table := details.regionServiceURLs),
         auths := s.auths[id := Storing(s.auths[id].entry, details)])
    case Resolve(id, urls) =>
      s.(shared := s.shared.(urls := urls),
         auths := s.auths[id := Publishing(s.auths[id].entry, s.auths[id].details)])
    case Reject(id) => s.(lock := None, auths := s.auths[id := Finished(false)])
    case Publish(id) =>
      s.(shared := s.shared.(token := s.auths[id].details.token), lock := None,
         auths := s.auths[id := Finished(true)])
    case ClearToken => s.(shared := s.shared.(token := ""))
    case Ask(q, t) => s.(queries := s.queries[q := Checking(t)])
    case Check(q) =>
      var t := s.queries[q].t;
      s.(queries := s.queries[q := if s.shared.token == "" then Refused(t) else Reading(t)])
    case Read(q) =>
      var t := s.queries[q].t;
      s.(queries := s.queries[q := Answered(t, Lookup(s.shared.urls, t))])
  }

  /** All actions of a run are enabled in turn; the run ends in `last`. */
  ghost predicate Runs(cfg: Config, s: State, actions: seq<Action>, last: State)
    decreases |actions|
  {
    if actions == [] then s == last
    else Enabled(cfg, s, actions[0]) && Runs(cfg, Apply(cfg, s, actions[0]), actions[1..], last)
  }

  ghost predicate Covered(cfg: Config, urls: ServiceURLs) {
    forall t :: t in cfg.required ==> t in urls
  }

  /** What a goroutine inside the locked section knows. */
  ghost predicate PhaseInv(cfg: Config, s: State, p: Phase) {
    match p
    case Waiting => true
    case Finished(_) => true
    case Calling(entry) => s.shared == entry && entry.token == ""
    case Storing(entry, d) => s.shared == entry.(table := d.regionServiceURLs) && entry.token == ""
    case Publishing(entry, d) =>
      && entry.token == "" && s.shared.token == "" && s.shared.table == d.regionServiceURLs
      && (if entry.urls == map[] then Resolves(s.shared.table, cfg.region, cfg.required, s.shared.urls)
          else s.shared.urls == entry.urls)
  }

  ghost predicate QueryInv(cfg: Config, s: State, q: Query) {
    match q
    case Reading(_) => Covered(cfg, s.shared.urls)
    case Answered(t, url) => url.None? ==> t !in cfg.required
    case _ => true
  }

  /** Lock and phases agree. This holds whatever override the client was given. */
  ghost predicate LockInv(cfg: Config, s: State) {
    && (forall id :: id in s.auths ==> (s.auths[id].InSection() <==> s.lock == Some(id)))
    && (s.lock.Some? ==> s.lock.value in s.auths)
    && (forall id :: id in s.auths ==> PhaseInv(cfg, s, s.auths[id]))
  }

  /** The client is prepared and every look-up under way will be served. */
  ghost predicate CoverInv(cfg: Config, s: State) {
    && Prepared(cfg.required, s.shared)
    && (forall q :: q in s.queries ==> QueryInv(cfg, s, s.queries[q]))
  }

  /** An override must be absent or name a URL for every required type. */
  ghost predicate SafeOverride(cfg: Config, override: ServiceURLs) {
    override == map[] || Covered(cfg, override)
  }

  lemma InitInv(cfg: Config, override: ServiceURLs)
    ensures LockInv(cfg, Init(override))
    ensures SafeOverride(cfg, override) ==> CoverInv(cfg, Init(override))
  {
  }

  /** URLs only change from none to some, and only while the lock is held. */
  lemma UrlsGrow(cfg: Config, s: State, a: Action)
    requires Enabled(cfg, s, a)
    ensures s.shared.urls != map[] ==> Apply(cfg, s, a).shared.urls == s.shared.urls
    ensures Covered(cfg, s.shared.urls) ==> Covered(cfg, Apply(cfg, s, a).shared.urls)
  {
  }

  lemma StepKeepsPhases(cfg: Config, s: State, a: Action)
    requires LockInv(cfg, s) && Enabled(cfg, s, a)
    ensures var s' := Apply(cfg, s, a); forall id :: id in s'.auths ==> PhaseInv(cfg, s', s'.auths[id])
  {
    var s' := Apply(cfg, s, a);
    forall id | id in s'.auths
      ensures PhaseInv(cfg, s', s'.auths[id])
    {
      if id in s.auths {
        assert PhaseInv(cfg, s, s.auths[id]);
        assert s.auths[id].InSection() <==> s.lock == Some(id);
      }
    }
  }

  lemma StepKeepsLock(cfg: Config, s: State, a: Action)
    requires LockInv(cfg, s) && Enabled(cfg, s, a)
    ensures LockInv(cfg, Apply(cfg, s, a))
  {
    StepKeepsPhases(cfg, s, a);
    var s' := Apply(cfg, s, a);
    forall id | id in s'.auths
      ensures s'.auths[id].InSection() <==> s'.lock == Some(id)
    {
      if id in s.auths {
        assert s.auths[id].InSection() <==> s.lock == Some(id);
      }
    }
  }

  lemma StepKeepsCover(cfg: Config, s: State, a: Action)
    requires LockInv(cfg, s) && CoverInv(cfg, s) && Enabled(cfg, s, a)
    ensures CoverInv(cfg, Apply(cfg, s, a))
  {
    UrlsGrow(cfg, s, a);
    if a.Publish? {
      assert PhaseInv(cfg, s, s.auths[a.id]);
    }
    var s' := Apply(cfg, s, a);
    forall q | q in s'.queries
      ensures QueryInv(cfg, s', s'.queries[q])
    {
      if q in s.queries {
        assert QueryInv(cfg, s, s.queries[q]);
      }
    }
  }

  lemma {:induction false} RunKeepsLock(cfg: Config, s: State, actions: seq<Action>, last: State)
    requires LockInv(cfg, s) && Runs(cfg, s, actions, last)
    ensures LockInv(cfg, last)
    ensures s.shared.urls != map[] ==> last.shared.urls == s.shared.urls
    decreases |actions|
  {
    if actions != [] {
      StepKeepsLock(cfg, s, actions[0]);
      UrlsGrow(cfg, s, actions[0]);
      RunKeepsLock(cfg, Apply(cfg, s, actions[0]), actions[1..], last);
    }
  }

  lemma {:induction false} RunKeepsCover(cfg: Config, s: State, actions: seq<Action>, last: State)
    requires LockInv(cfg, s) && CoverInv(cfg, s) && Runs(cfg, s, actions, last)
    ensures CoverInv(cfg, last)
    decreases |actions|
  {
    if actions != [] {
      StepKeepsLock(cfg, s, actions[0]);
      StepKeepsCover(cfg, s, actions[0]);
      RunKeepsCover(cfg, Apply(cfg, s, actions[0]), actions[1..], last);
    }
  }

  // ---------- What holds in every interleaving ----------

  /** A token means every required type has a URL. */
  ghost predicate TokenSafe(cfg: Config, s: State) {
    s.shared.token != "" ==> Covered(cfg, s.shared.urls)
  }

  /** At most one call of the authenticator is in flight. */
  ghost predicate OneCall(s: State) {
    forall i, j :: i in s.auths && j in s.auths && s.auths[i].Calling? && s.auths[j].Calling? ==> i == j
  }

  /** A look-up that passed its token check finds every required type, even if the token was
      cleared in between. */
  ghost predicate QueriesServed(cfg: Config, s: State) {
    forall q :: q in s.queries && s.queries[q].Answered? && s.queries[q].t in cfg.required ==> s.queries[q].url.Some?
  }

  lemma {:induction false} OneCallInFlight(cfg: Config, override: ServiceURLs, actions: seq<Action>, s: State)
    requires Runs(cfg, Init(override), actions, s)
    ensures OneCall(s)
  {
    InitInv(cfg, override);
    RunKeepsLock(cfg, Init(override), actions, s);
  }

  lemma {:induction false} EveryInterleavingIsSafe(cfg: Config, override: ServiceURLs, actions: seq<Action>, s: State)
    requires SafeOverride(cfg, override) && Runs(cfg, Init(override), actions, s)
    ensures TokenSafe(cfg, s) && QueriesServed(cfg, s)
  {
    InitInv(cfg, override);
    RunKeepsCover(cfg, Init(override), actions, s);
    forall q | q in s.queries && s.queries[q].Answered? && s.queries[q].t in cfg.required
      ensures s.queries[q].url.Some?
    {
      assert QueryInv(cfg, s, s.queries[q]);
    }
  }

  /** Once there are URLs they are never replaced, however often tokens are cleared and renewed. */
  lemma {:induction false} UrlsAreNeverReplaced(cfg: Config, override: ServiceURLs, before: seq<Action>, s: State,
                             after: seq<Action>, last: State)
    requires Runs(cfg, Init(override), before, s) && Runs(cfg, s, after, last)
    ensures s.shared.urls != map[] ==> last.shared.urls == s.shared.urls
  {
    InitInv(cfg, override);
    RunKeepsLock(cfg, Init(override), before, s);
    RunKeepsLock(cfg, s, after, last);
  }

  /** Each authentication takes effect as one whole: whatever ran in between, when a goroutine
      finishes, the shared state and the outcome are related to the state it found on taking the lock
      just as by an uninterrupted `DoAuthenticate`. */
  lemma {:induction false} SectionIsAtomic(cfg: Config, override: ServiceURLs, actions: seq<Action>, s: State,
                                               a: Action, id: nat)
    requires Runs(cfg, Init(override), actions, s) && Enabled(cfg, s, a)
    requires id in Apply(cfg, s, a).auths && Apply(cfg, s, a).auths[id].Finished?
    ensures var s' := Apply(cfg, s, a);
            id in s.auths &&
            match s.auths[id]
            case Finished(ok) => s'.auths[id].ok == ok
            case Waiting => AuthStep(cfg.region, cfg.required, s.shared, None, s'.shared, s'.auths[id].ok)
            case Calling(entry) => AuthStep(cfg.region, cfg.required, entry, None, s'.shared, s'.auths[id].ok)
            case Storing(entry, d) => AuthStep(cfg.region, cfg.required, entry, Some(d), s'.shared, s'.auths[id].ok)
            case Publishing(entry, d) =>
              AuthStep(cfg.region, cfg.required, entry, Some(d), s'.shared, s'.auths[id].ok)
  {
    InitInv(cfg, override);
    RunKeepsLock(cfg, Init(override), actions, s);
    assert PhaseInv(cfg, s, s.auths[id]);
    if s.auths[id].Publishing? && s.auths[id].entry.urls == map[] {
      NoneMissing(s.shared.table, cfg, s.shared.urls);
    }
  }

  /** And whatever an uninterrupted `DoAuthenticate` can do, a goroutine can do whenever the lock is
      free. */
  lemma {:induction false} EveryOutcomeHappens(cfg: Config, s: State, id: nat, reply: Option<AuthDetails>,
                                                   after: Shared, ok: bool)
    returns (actions: seq<Action>, last: State)
    requires s.lock.None? && id !in s.auths && AuthStep(cfg.region, cfg.required, s.shared, reply, after, ok)
    ensures Runs(cfg, s, actions, last)
    ensures last.shared == after && last.lock.None? && id in last.auths && last.auths[id] == Finished(ok)
  {
    var s1 := Apply(cfg, s, Spawn(id));
    var s2 := Apply(cfg, s1, Acquire(id));
    if s.shared.token != "" {
      last := s2;
      assert Runs(cfg, last, [], last);
      actions := [];
    } else {
      actions, last := SectionRuns(cfg, s2, id, reply, after, ok);
    }
    RunsBackwards(cfg, s1, Acquire(id), actions, last);
    RunsBackwards(cfg, s, Spawn(id), [Acquire(id)] + actions, last);
    actions := [Spawn(id)] + ([Acquire(id)] + actions);
  }

  lemma {:induction false} SectionRuns(cfg: Config, s: State, id: nat, reply: Option<AuthDetails>, after: Shared,
                                           ok: bool)
    returns (actions: seq<Action>, last: State)
    requires id in s.auths && s.auths[id] == Calling(s.shared) && s.shared.token == "" && s.lock == Some(id)
    requires AuthStep(cfg.region, cfg.required, s.shared, reply, after, ok)
    ensures Runs(cfg, s, actions, last)
    ensures last.shared == after && last.lock.None? && id in last.auths && last.auths[id] == Finished(ok)
  {
    if reply.None? {
      last := Apply(cfg, s, Fail(id));
      assert Runs(cfg, last, [], last);
      RunsBackwards(cfg, s, Fail(id), [], last);
      actions := [Fail(id)] + [];
    } else {
      var s1 := Apply(cfg, s, Receive(id, reply.value));
      if ok {
        var s2 := Apply(cfg, s1, Resolve(id, after.urls));
        last := Apply(cfg, s2, Publish(id));
        assert Runs(cfg, last, [], last);
        RunsBackwards(cfg, s2, Publish(id), [], last);
        RunsBackwards(cfg, s1, Resolve(id, after.urls), [Publish(id)] + [], last);
        actions := [Resolve(id, after.urls)] + ([Publish(id)] + []);
      } else {
        last := Apply(cfg, s1, Reject(id));
        assert Runs(cfg, last, [], last);
        RunsBackwards(cfg, s1, Reject(id), [], last);
        actions := [Reject(id)] + [];
      }
      RunsBackwards(cfg, s, Receive(id, reply.value), actions, last);
      actions := [Receive(id, reply.value)] + actions;
    }
  }

  /** The token changes only when a goroutine publishes the one it received, or when it is cleared. */
  lemma {:induction false} TokenChanges(cfg: Config, override: ServiceURLs, actions: seq<Action>, s: State, a: Action)
    requires Runs(cfg, Init(override), actions, s) && Enabled(cfg, s, a)
    ensures var token := Apply(cfg, s, a).shared.token;
            match a
            case ClearToken => token == ""
            case Publish(id) => s.auths[id].Publishing? && token == s.auths[id].details.token
            case _ => token == s.shared.token
  {
  }

  // ---------- What look-ups answer ----------

  /** The URL a look-up has answered is the one in the table. */
  ghost predicate TrueAnswers(s: State) {
    forall q :: q in s.queries && s.queries[q].Answered? && s.queries[q].url.Some? ==>
      s.queries[q].t in s.shared.urls && s.queries[q].url.value == s.shared.urls[s.queries[q].t]
  }

  lemma StepKeepsTrue(cfg: Config, s: State, a: Action)
    requires TrueAnswers(s) && Enabled(cfg, s, a)
    ensures TrueAnswers(Apply(cfg, s, a))
  {
    UrlsGrow(cfg, s, a);
  }

  lemma {:induction false} RunKeepsTrue(cfg: Config, s: State, actions: seq<Action>, last: State)
    requires TrueAnswers(s) && Runs(cfg, s, actions, last)
    ensures TrueAnswers(last)
    decreases |actions|
  {
    if actions != [] {
      StepKeepsTrue(cfg, s, actions[0]);
      RunKeepsTrue(cfg, Apply(cfg, s, actions[0]), actions[1..], last);
    }
  }

  /** Although it is read without the lock, an endpoint URL once answered stays the right one,
      whatever authentications follow. */
  lemma {:induction false} AnswersStayTrue(cfg: Config, override: ServiceURLs, actions: seq<Action>, s: State)
    requires Runs(cfg, Init(override), actions, s)
    ensures TrueAnswers(s)
  {
    RunKeepsTrue(cfg, Init(override), actions, s);
  }

  /** A look-up with the lock free is refused if there is no token, and otherwise answers what the
      table says. */
  lemma {:induction false} LookupRuns(cfg: Config, s: State, q: nat, t: string)
    returns (actions: seq<Action>, last: State)
    requires s.lock.None? && q !in s.queries
    ensures Runs(cfg, s, actions, last) && last.shared == s.shared && q in last.queries
    ensures last.queries[q] ==
            if s.shared.token == "" then Refused(t)
            else Answered(t, if t in s.shared.urls then Some(s.shared.urls[t]) else None)
  {
    var s1 := Apply(cfg, s, Ask(q, t));
    var s2 := Apply(cfg, s1, Check(q));
    if s.shared.token == "" {
      last, actions := s2, [];
      assert Runs(cfg, last, [], last);
    } else {
      last := Apply(cfg, s2, Read(q));
      assert Runs(cfg, last, [], last);
      RunsBackwards(cfg, s2, Read(q), [], last);
      actions := [Read(q)] + [];
    }
    RunsBackwards(cfg, s1, Check(q), actions, last);
    RunsBackwards(cfg, s, Ask(q, t), [Check(q)] + actions, last);
    actions := [Ask(q, t)] + ([Check(q)] + actions);
  }

  lemma {:induction false} NoneMissing(table: RegionTable, cfg: Config, urls: ServiceURLs)
    requires Resolves(table, cfg.region, cfg.required, urls)
    ensures Missing(table, cfg.region, cfg.required) == []
  {
    var missing := Missing(table, cfg.region, cfg.required);
    if missing != [] {
      MissingAre(table, cfg.region, cfg.required, missing[0]);
      UrlsOfMeans(table, cfg.region, urls);
      assert false;
    }
  }

  /** With an override that leaves out a required type, one plain authentication breaks it, and a
      look-up of that type after it finds nothing. */
  lemma PartialOverrideRun(cfg: Config, override: ServiceURLs) returns (actions: seq<Action>, s: State)
    requires !SafeOverride(cfg, override)
    ensures Runs(cfg, Init(override), actions, s) && !TokenSafe(cfg, s) && s.lock.None? && s.queries == map[]
  {
    var d := AuthDetails("token", "", "", 0, map[]);
    var s0 := Init(override);
    var s1 := Apply(cfg, s0, Spawn(0));
    var s2 := Apply(cfg, s1, Acquire(0));
    var s3 := Apply(cfg, s2, Receive(0, d));
    var s4 := Apply(cfg, s3, Resolve(0, override));
    s := Apply(cfg, s4, Publish(0));
    assert Runs(cfg, s, [], s);
    RunsBackwards(cfg, s4, Publish(0), [], s);
    RunsBackwards(cfg, s3, Resolve(0, override), [Publish(0)], s);
    RunsBackwards(cfg, s2, Receive(0, d), [Resolve(0, override)] + [Publish(0)], s);
    var tail := [Receive(0, d)] + ([Resolve(0, override)] + [Publish(0)]);
    RunsBackwards(cfg, s1, Acquire(0), tail, s);
    RunsBackwards(cfg, s0, Spawn(0), [Acquire(0)] + tail, s);
    actions := [Spawn(0)] + ([Acquire(0)] + tail);
  }

  lemma {:induction false} RunsBackwards(cfg: Config, s: State, a: Action, rest: seq<Action>, last: State)
    requires Enabled(cfg, s, a) && Runs(cfg, Apply(cfg, s, a), rest, last)
    ensures Runs(cfg, s, [a] + rest, last)
  {
    assert ([a] + rest)[1..] == rest;
  }

  ghost predicate Reachable(cfg: Config, override: ServiceURLs, s: State) {
    exists actions :: Runs(cfg, Init(override), actions, s)
  }

  /** A token always means URLs for all required types exactly when the override, if there is
      one, covers them: an override is never completed from the catalogue. */
  lemma TokenSafetyExactly(cfg: Config, override: ServiceURLs)
    ensures (forall s :: Reachable(cfg, override, s) ==> TokenSafe(cfg, s)) <==> SafeOverride(cfg, override)
  {
    if SafeOverride(cfg, override) {
      forall s | Reachable(cfg, override, s)
        ensures TokenSafe(cfg, s)
      {
        var actions :| Runs(cfg, Init(override), actions, s);
        EveryInterleavingIsSafe(cfg, override, actions, s);
      }
    } else {
      var actions, s := PartialOverrideRun(cfg, override);
      assert Reachable(cfg, override, s) && !TokenSafe(cfg, s);
    }
  }

  lemma UnservedQuery(cfg: Config, override: ServiceURLs) returns (actions: seq<Action>, s: State)
    requires !SafeOverride(cfg, override)
    ensures Runs(cfg, Init(override), actions, s) && !QueriesServed(cfg, s)
  {
    var before, m := PartialOverrideRun(cfg, override);
    var t :| t in cfg.required && t !in m.shared.urls;
    var m1 := Apply(cfg, m, Ask(0, t));
    var m2 := Apply(cfg, m1, Check(0));
    s := Apply(cfg, m2, Read(0));
    assert Runs(cfg, s, [], s);
    RunsBackwards(cfg, m2, Read(0), [], s);
    RunsBackwards(cfg, m1, Check(0), [Read(0)] + [], s);
    RunsBackwards(cfg, m, Ask(0, t), [Check(0)] + ([Read(0)] + []), s);
    var after := [Ask(0, t)] + ([Check(0)] + ([Read(0)] + []));
    RunsConcat(cfg, Init(override), before, m, after, s);
    actions := before + after;
    assert s.queries[0] == Answered(t, None);
  }

  lemma {:induction false} RunsConcat(cfg: Config, s: State, a: seq<Action>, mid: State, b: seq<Action>, last: State)
    requires Runs(cfg, s, a, mid) && Runs(cfg, mid, b, last)
    ensures Runs(cfg, s, a + b, last)
    decreases |a|
  {
    if a == [] {
      assert a + b == b;
    } else {
      assert (a + b)[1..] == a[1..] + b;
      RunsConcat(cfg, Apply(cfg, s, a[0]), a[1..], mid, b, last);
    }
  }

  /** So do look-ups: all of them are served, in every interleaving, exactly for such overrides. */
  lemma QueriesServedExactly(cfg: Config, override: ServiceURLs)
    ensures (forall s :: Reachable(cfg, override, s) ==> QueriesServed(cfg, s)) <==> SafeOverride(cfg, override)
  {
    if SafeOverride(cfg, override) {
      forall s | Reachable(cfg, override, s)
        ensures QueriesServed(cfg, s)
      {
        var actions :| Runs(cfg, Init(override), actions, s);
        EveryInterleavingIsSafe(cfg, override, actions, s);
      }
    } else {
      var actions, s := UnservedQuery(cfg, override);
      assert Reachable(cfg, override, s) && !QueriesServed(cfg, s);
    }
  }
}
