/**
 The Agent controller as a step system: objects change at any time, events are handled late and in any order,
 and a reconcile publishes what it read some time after reading it.
 */
module Convergence {
  import opened Lists
  import opened Api
  import opened Cluster
  import opened Paths
  import opened Resolution
  import opened FieldIndex
  import opened Frame

  /** What a running reconcile has read: the Agent's version and its resolution. */
  datatype Snapshot = Snapshot(resourceVersion: string, result: Result)

  datatype State = State(
    cluster: Store,
    pending: multiset<Key>,
    queue: set<Key>,
    inflight: map<Key, Snapshot>,
    published: map<Key, Result>)

  datatype Step =
    | Put(key: Key, object: Object)
    | Delete(key: Key)
    | Handle(key: Key)
    | Begin(key: Key)
    | Finish(key: Key, written: Object)

  predicate Enabled(s: State, step: Step) {
    match step
    case Put(k, o) => ProperPart(k.name) && KindOf(o.body) == k.kind
    case Delete(k) => k in s.cluster
    case Handle(k) => k in s.pending
    case Begin(k) => k in s.queue && k !in s.inflight
    case Finish(k, o) =>
      k in s.inflight && (GetAgent(s.cluster, k).Some? ==> o.body.AgentBody? && o.body.agent == GetAgent(s.cluster, k).value)
  }

  /** The requests one event maps to; the Agent controller's own kind maps to itself, existing or not. */
  ghost function Woken(c: Store, e: Key): set<Key> {
    if e.kind == AgentKind then {e} else set a | a in c && Wakes(c, e, a)
  }

  /** A status write is refused when the Agent is gone or is no longer the version that was read. */
  predicate Conflicts(s: State, a: Key)
    requires a in s.inflight
  {
    GetAgent(s.cluster, a).None? || s.cluster[a].resourceVersion != s.inflight[a].resourceVersion
  }

  /** A status write that changes nothing is no write. */
  predicate Unmoved(s: State, a: Key)
    requires a in s.inflight
  {
    a in s.published && s.published[a] == s.inflight[a].result
  }

  /** Any other write leaves the Agent's spec, gives the object a version of the API server's choosing and raises an event. */
  ghost function Next(s: State, step: Step): State
    requires Enabled(s, step)
  {
    match step
    case Put(k, o) => s.(cluster := s.cluster[k := o], pending := s.pending + multiset{k})
    case Delete(k) => s.(cluster := s.cluster - {k}, pending := s.pending + multiset{k}, published := s.published - {k})
    case Handle(k) => s.(pending := s.pending - multiset{k}, queue := s.queue + Woken(s.cluster, k))
    case Begin(a) =>
      var spec := GetAgent(s.cluster, a);
      if spec.None? then s.(queue := s.queue - {a})
      else s.(queue := s.queue - {a},
              inflight := s.inflight[a := Snapshot(s.cluster[a].resourceVersion, Resolve(s.cluster, a.ns, spec.value))])
    case Finish(a, o) =>
      if Conflicts(s, a) then s.(inflight := s.inflight - {a}, queue := s.queue + {a})
      else if Unmoved(s, a) then s.(inflight := s.inflight - {a})
      else s.(inflight := s.inflight - {a}, published := s.published[a := s.inflight[a].result],
              cluster := s.cluster[a := o], pending := s.pending + multiset{a})
  }

  ghost predicate Run(s: State, steps: seq<Step>, t: State)
    decreases |steps|
  {
    if steps == [] then s == t else Enabled(s, steps[0]) && Run(Next(s, steps[0]), steps[1..], t)
  }

  /** A freshly started controller: every Agent's initial event is pending, whatever was published before. */
  ghost predicate Starts(s: State) {
    && ProperNames(s.cluster)
    && s.inflight == map[]
    && (forall a :: a in s.published ==> GetAgent(s.cluster, a).Some?)
    && (forall a :: a in s.cluster && a.kind == AgentKind ==> a in s.pending)
  }

  ghost predicate IsAgent(c: Store, a: Key) {
    a.kind == AgentKind && GetAgent(c, a).Some?
  }

  /** What will stand as published once the running reconcile, if any, has finished. */
  ghost predicate Current(s: State, a: Key)
    requires IsAgent(s.cluster, a)
  {
    var now := Resolve(s.cluster, a.ns, GetAgent(s.cluster, a).value);
    if a in s.inflight then s.inflight[a].result == now else a in s.published && s.published[a] == now
  }

  ghost predicate Owed(s: State, a: Key) {
    a in s.queue || exists e :: e in s.pending && Wakes(s.cluster, e, a)
  }

  ghost predicate Accounted(s: State, a: Key) {
    IsAgent(s.cluster, a) ==> Current(s, a) || Owed(s, a)
  }

  ghost predicate Inv(s: State) {
    && ProperNames(s.cluster)
    && (forall a :: a in s.published ==> IsAgent(s.cluster, a))
    && (forall a :: Accounted(s, a))
  }

  /** One change to the cluster keeps the invariant for every Agent it does not create, replace or delete. */
  lemma ChangeKeepsOwed(s: State, t: State, k: Key, a: Key)
    requires Inv(s) && ProperNames(t.cluster) && AgreeOff(s.cluster, t.cluster, k)
    requires t.pending == s.pending + multiset{k} && t.queue == s.queue
    requires (a in t.inflight <==> a in s.inflight) && (a in s.inflight ==> t.inflight[a] == s.inflight[a])
    requires a != k && IsAgent(t.cluster, a) && (a in t.published <==> a in s.published)
    requires a in s.published ==> t.published[a] == s.published[a]
    ensures Current(t, a) || Owed(t, a)
  {
    assert IsAgent(s.cluster, a) && GetAgent(s.cluster, a) == GetAgent(t.cluster, a);
    assert k in t.pending && Accounted(s, a);
    if !Wakes(t.cluster, k, a) {
      UnwokenIsUnchanged(s.cluster, t.cluster, k, a);
      if !Current(s, a) && a !in s.queue {
        var e :| e in s.pending && Wakes(s.cluster, e, a);
        WakeIsStable(s.cluster, t.cluster, k, e, a);
        assert e in t.pending;
      }
    }
  }

  lemma PutAccounts(s: State, k: Key, o: Object, a: Key)
    requires Inv(s) && Enabled(s, Put(k, o))
    ensures Accounted(Next(s, Put(k, o)), a)
  {
    var t := Next(s, Put(k, o));
    if IsAgent(t.cluster, a) {
      if a == k {
        assert k in t.pending && Wakes(t.cluster, k, a);
      } else {
        ChangeKeepsOwed(s, t, k, a);
      }
    }
  }

  lemma DeleteAccounts(s: State, k: Key, a: Key)
    requires Inv(s) && Enabled(s, Delete(k))
    ensures Accounted(Next(s, Delete(k)), a)
  {
    var t := Next(s, Delete(k));
    if IsAgent(t.cluster, a) {
      ChangeKeepsOwed(s, t, k, a);
    }
  }

  lemma PutKeepsInv(s: State, k: Key, o: Object)
    requires Inv(s) && Enabled(s, Put(k, o))
    ensures Inv(Next(s, Put(k, o)))
  {
    forall a ensures Accounted(Next(s, Put(k, o)), a) {
      PutAccounts(s, k, o, a);
    }
  }

  lemma DeleteKeepsInv(s: State, k: Key)
    requires Inv(s) && Enabled(s, Delete(k))
    ensures Inv(Next(s, Delete(k)))
  {
    forall a ensures Accounted(Next(s, Delete(k)), a) {
      DeleteAccounts(s, k, a);
    }
  }

  lemma SameCurrent(s: State, t: State, a: Key)
    requires s.cluster == t.cluster && IsAgent(s.cluster, a)
    requires a in s.inflight <==> a in t.inflight
    requires a in s.inflight ==> s.inflight[a] == t.inflight[a]
    requires a in s.published <==> a in t.published
    requires a in s.published ==> s.published[a] == t.published[a]
    ensures Current(s, a) <==> Current(t, a)
  {
  }

  lemma StillOwed(s: State, t: State, a: Key)
    requires s.cluster == t.cluster && s.pending <= t.pending && (a in s.queue ==> a in t.queue)
    ensures Owed(s, a) ==> Owed(t, a)
  {
  }

  lemma HandleKeepsInv(s: State, k: Key)
    requires Inv(s) && k in s.pending
    ensures Inv(Next(s, Handle(k)))
  {
    var t := Next(s, Handle(k));
    forall a ensures Accounted(t, a) {
      assert Accounted(s, a);
      if IsAgent(t.cluster, a) {
        SameCurrent(s, t, a);
        if Owed(s, a) && a !in s.queue {
          var e :| e in s.pending && Wakes(s.cluster, e, a);
          assert e != k ==> e in t.pending;
        }
      }
    }
  }

  lemma BeginAccounts(s: State, k: Key, a: Key)
    requires Inv(s) && Enabled(s, Begin(k))
    ensures Accounted(Next(s, Begin(k)), a)
  {
    var t := Next(s, Begin(k));
    assert Accounted(s, a);
    if a == k {
      BegunIsCurrent(s, k);
    } else if IsAgent(t.cluster, a) {
      SameCurrent(s, t, a);
      StillOwed(s, t, a);
    }
  }

  lemma BegunIsCurrent(s: State, k: Key)
    requires Enabled(s, Begin(k))
    ensures Accounted(Next(s, Begin(k)), k)
  {
  }

  lemma FinishAccounts(s: State, k: Key, o: Object, a: Key)
    requires Inv(s) && Enabled(s, Finish(k, o))
    ensures Accounted(Next(s, Finish(k, o)), a)
  {
    var t := Next(s, Finish(k, o));
    assert Accounted(s, a);
    if Conflicts(s, k) || Unmoved(s, k) {
      if IsAgent(s.cluster, a) {
        StillOwed(s, t, a);
        if a != k {
          SameCurrent(s, t, a);
        } else if !Conflicts(s, k) {
          WrittenIsCurrent(s, t, a);
        }
      }
    } else {
      WriteAccounts(s, k, o, a);
    }
  }

  /** A status write is a change of the Agent like any other: the event it raises wakes the Agent itself and no one else. */
  lemma WriteAccounts(s: State, k: Key, o: Object, a: Key)
    requires Inv(s) && Enabled(s, Finish(k, o)) && !Conflicts(s, k) && !Unmoved(s, k)
    ensures Accounted(Next(s, Finish(k, o)), a)
  {
    var t := Next(s, Finish(k, o));
    if IsAgent(t.cluster, a) {
      if a == k {
        assert k in t.pending && Wakes(t.cluster, k, a);
      } else {
        ChangeKeepsOwed(s, t, k, a);
      }
    }
  }

  /** A reconcile that finds its result already published leaves it standing. */
  lemma WrittenIsCurrent(s: State, t: State, a: Key)
    requires s.cluster == t.cluster && IsAgent(s.cluster, a)
    requires a in s.inflight && a !in t.inflight && a in t.published && t.published[a] == s.inflight[a].result
    ensures Current(s, a) <==> Current(t, a)
  {
  }

  lemma BeginKeepsInv(s: State, k: Key)
    requires Inv(s) && Enabled(s, Begin(k))
    ensures Inv(Next(s, Begin(k)))
  {
    forall a ensures Accounted(Next(s, Begin(k)), a) {
      BeginAccounts(s, k, a);
    }
  }

  lemma FinishKeepsInv(s: State, k: Key, o: Object)
    requires Inv(s) && Enabled(s, Finish(k, o))
    ensures Inv(Next(s, Finish(k, o)))
  {
    forall a ensures Accounted(Next(s, Finish(k, o)), a) {
      FinishAccounts(s, k, o, a);
    }
    FinishKeepsAgents(s, k, o);
  }

  lemma FinishKeepsAgents(s: State, k: Key, o: Object)
    requires Inv(s) && Enabled(s, Finish(k, o))
    ensures var t := Next(s, Finish(k, o)); ProperNames(t.cluster) && forall a :: a in t.published ==> IsAgent(t.cluster, a)
  {
  }

  /** Every step keeps it: an Agent whose result is not current is queued or in the image of a pending event. */
  lemma {:induction false} RunKeepsInv(s: State, steps: seq<Step>, t: State)
    requires Inv(s) && Run(s, steps, t)
    ensures Inv(t)
    decreases |steps|
  {
    if steps != [] {
      match steps[0] {
        case Put(k, o) => PutKeepsInv(s, k, o);
        case Delete(k) => DeleteKeepsInv(s, k);
        case Handle(k) => HandleKeepsInv(s, k);
        case Begin(k) => BeginKeepsInv(s, k);
        case Finish(k, o) => FinishKeepsInv(s, k, o);
      }
      RunKeepsInv(Next(s, steps[0]), steps[1..], t);
    }
  }

  lemma StartSatisfiesInv(s: State)
    requires Starts(s)
    ensures Inv(s)
  {
  }

  ghost predicate Quiet(s: State) {
    s.pending == multiset{} && s.queue == {} && s.inflight == map[]
  }

  /** Exactly the existing Agents have a published result, and it is what resolving them now would give. */
  ghost predicate AllCurrent(s: State) {
    && (forall a :: a in s.published <==> IsAgent(s.cluster, a))
    && (forall a :: a in s.published ==> s.published[a] == Resolve(s.cluster, a.ns, GetAgent(s.cluster, a).value))
  }

  lemma QuietIsCurrent(s: State)
    requires Inv(s) && Quiet(s)
    ensures AllCurrent(s)
  {
    forall a | IsAgent(s.cluster, a) ensures Current(s, a) {
      assert Accounted(s, a) && !Owed(s, a);
    }
  }

  /** Convergence over every run: whenever nothing is left to do, everything published is current. */
  lemma QuietRunsAreCurrent(s: State, steps: seq<Step>, t: State)
    requires Starts(s) && Run(s, steps, t) && Quiet(t)
    ensures AllCurrent(t)
  {
    StartSatisfiesInv(s);
    RunKeepsInv(s, steps, t);
    QuietIsCurrent(t);
  }

  // --- the controller settles once the cluster stops changing ---

  /** What resolving the Agent now would give. */
  ghost predicate UpToDate(c: Store, a: Key, r: Result) {
    IsAgent(c, a) && r == Resolve(c, a.ns, GetAgent(c, a).value)
  }

  ghost function Up(c: Store): (Key, Result) -> bool {
    (a, r) => UpToDate(c, a, r)
  }

  ghost function AgentsOf(c: Store): set<Key> {
    set a | a in c && IsAgent(c, a)
  }

  /** Running reconciles that hold an outdated result. */
  ghost function Outdated(up: (Key, Result) -> bool, inflight: map<Key, Snapshot>): set<Key> {
    set a | a in inflight && !up(a, inflight[a].result)
  }

  /** Agents whose published result is not current. */
  ghost function Behind(agents: set<Key>, up: (Key, Result) -> bool, published: map<Key, Result>): set<Key> {
    set a | a in agents && !(a in published && up(a, published[a]))
  }

  ghost function Stale(s: State): set<Key> {
    set a | a in s.inflight && Conflicts(s, a)
  }

  /** The work left: outdated results in flight, Agents behind, events, refused writes, reconciles. */
  datatype Work = Work(outdated: nat, behind: nat, events: nat, refused: nat, reconciles: nat)

  ghost function WorkOf(s: State): Work {
    var up := Up(s.cluster);
    Work(|Outdated(up, s.inflight)|, |Behind(AgentsOf(s.cluster), up, s.published)|, |s.pending|, |Stale(s)|,
         2 * |s.queue| + |s.inflight|)
  }

  /** Lexicographic order. */
  predicate Less(v: Work, w: Work) {
    if v.outdated != w.outdated then v.outdated < w.outdated
    else if v.behind != w.behind then v.behind < w.behind
    else if v.events != w.events then v.events < w.events
    else if v.refused != w.refused then v.refused < w.refused
    else v.reconciles < w.reconciles
  }

  ghost predicate ByController(step: Step) {
    step.Handle? || step.Begin? || step.Finish?
  }

  /** Every controller step lowers the measure, its own status writes and the events they raise included, so no
      controller-only run goes on forever. */
  lemma ControllerStepLowersWork(s: State, step: Step)
    requires Enabled(s, step) && ByController(step)
    ensures Less(WorkOf(Next(s, step)), WorkOf(s))
  {
    match step
    case Handle(k) => HandleLowersWork(s, k);
    case Begin(a) => BeginLowersWork(s, a);
    case Finish(a, o) =>
      if Conflicts(s, a) {
        RefusedLowersWork(s, a, o);
      } else if Unmoved(s, a) {
        UnmovedLowersWork(s, a, o);
      } else {
        WriteLowersWork(s, a, o);
      }
  }

  lemma HandleLowersWork(s: State, k: Key)
    requires Enabled(s, Handle(k))
    ensures Less(WorkOf(Next(s, Handle(k))), WorkOf(s))
  {
    var t := Next(s, Handle(k));
    assert |t.pending| < |s.pending|;
    assert WorkOf(t).outdated == WorkOf(s).outdated && WorkOf(t).behind == WorkOf(s).behind;
  }

  lemma BeginLowersWork(s: State, a: Key)
    requires Enabled(s, Begin(a))
    ensures Less(WorkOf(Next(s, Begin(a))), WorkOf(s))
  {
    var t, spec := Next(s, Begin(a)), GetAgent(s.cluster, a);
    if spec.None? {
      ForgottenLowersWork(s, t, a);
    } else {
      RunningLowersWork(s, t, a, Snapshot(s.cluster[a].resourceVersion, Resolve(s.cluster, a.ns, spec.value)));
    }
  }

  lemma ForgottenLowersWork(s: State, t: State, a: Key)
    requires a in s.queue && t == s.(queue := s.queue - {a})
    ensures Less(WorkOf(t), WorkOf(s))
  {
    assert s.queue == t.queue + {a} && a !in t.queue;
    assert Stale(t) == Stale(s);
  }

  lemma RunningLowersWork(s: State, t: State, a: Key, snap: Snapshot)
    requires a in s.queue && a !in s.inflight && t == s.(queue := s.queue - {a}, inflight := s.inflight[a := snap])
    requires GetAgent(s.cluster, a).Some? && snap.resourceVersion == s.cluster[a].resourceVersion && Up(s.cluster)(a, snap.result)
    ensures Less(WorkOf(t), WorkOf(s))
  {
    FreshFlight(Up(s.cluster), s.inflight, a, snap);
    BeginKeepsStale(s, t, a, snap);
    QueuedToFlight(s.queue, s.inflight, a, snap);
  }

  lemma QueuedToFlight(queue: set<Key>, inflight: map<Key, Snapshot>, a: Key, snap: Snapshot)
    requires a in queue && a !in inflight
    ensures |queue - {a}| == |queue| - 1 && |inflight[a := snap]| == |inflight| + 1
  {
    assert inflight[a := snap].Keys == inflight.Keys + {a};
  }

  lemma BeginKeepsStale(s: State, t: State, a: Key, snap: Snapshot)
    requires a !in s.inflight && GetAgent(s.cluster, a).Some? && snap.resourceVersion == s.cluster[a].resourceVersion
    requires t.cluster == s.cluster && t.inflight == s.inflight[a := snap]
    ensures Stale(t) == Stale(s)
  {
  }

  lemma FreshFlight(up: (Key, Result) -> bool, inflight: map<Key, Snapshot>, a: Key, snap: Snapshot)
    requires a !in inflight && up(a, snap.result)
    ensures Outdated(up, inflight[a := snap]) == Outdated(up, inflight)
  {
  }

  lemma FewerOutdated(up: (Key, Result) -> bool, inflight: map<Key, Snapshot>, a: Key)
    requires a in inflight
    ensures |Outdated(up, inflight - {a})| == |Outdated(up, inflight)| - (if up(a, inflight[a].result) then 0 else 1)
  {
    assert Outdated(up, inflight - {a}) == Outdated(up, inflight) - {a};
  }

  lemma OneLess(s: State, t: State, a: Key)
    requires a in s.inflight && t.inflight == s.inflight - {a}
    ensures |s.inflight| == |t.inflight| + 1
  {
    assert s.inflight.Keys == t.inflight.Keys + {a} && a !in t.inflight.Keys;
  }

  lemma FinishKeepsStale(s: State, t: State, a: Key)
    requires a in s.inflight && t.cluster == s.cluster && t.inflight == s.inflight - {a}
    ensures |Stale(t)| == |Stale(s)| - (if Conflicts(s, a) then 1 else 0)
  {
    assert Stale(t) == Stale(s) - {a};
  }

  lemma RefusedLowersWork(s: State, a: Key, o: Object)
    requires Enabled(s, Finish(a, o)) && Conflicts(s, a)
    ensures Less(WorkOf(Next(s, Finish(a, o))), WorkOf(s))
  {
    var t := Next(s, Finish(a, o));
    FewerOutdated(Up(s.cluster), s.inflight, a);
    FinishKeepsStale(s, t, a);
  }

  lemma UnmovedLowersWork(s: State, a: Key, o: Object)
    requires Enabled(s, Finish(a, o)) && !Conflicts(s, a) && Unmoved(s, a)
    ensures Less(WorkOf(Next(s, Finish(a, o))), WorkOf(s))
  {
    var t := Next(s, Finish(a, o));
    FewerOutdated(Up(s.cluster), s.inflight, a);
    FinishKeepsStale(s, t, a);
    OneLess(s, t, a);
  }

  lemma SameOutdated(up: (Key, Result) -> bool, now: (Key, Result) -> bool, inflight: map<Key, Snapshot>)
    requires forall a, r :: up(a, r) == now(a, r)
    ensures Outdated(now, inflight) == Outdated(up, inflight)
  {
  }

  lemma CaughtUp(agents: set<Key>, up: (Key, Result) -> bool, now: (Key, Result) -> bool, published: map<Key, Result>, a: Key, r: Result)
    requires forall b, x :: up(b, x) == now(b, x)
    requires a in agents && up(a, r) && !(a in published && up(a, published[a]))
    ensures |Behind(agents, now, published[a := r])| < |Behind(agents, up, published)|
  {
    assert Behind(agents, now, published[a := r]) == Behind(agents, up, published) - {a};
  }

  lemma OnlyOneIsUpToDate(c: Store, a: Key, r: Result, q: Result)
    requires UpToDate(c, a, r) && UpToDate(c, a, q)
    ensures r == q
  {
  }

  /** A write of a current result brings its Agent up to date; any other takes an outdated result out of flight. */
  lemma WriteLowersWork(s: State, a: Key, o: Object)
    requires Enabled(s, Finish(a, o)) && !Conflicts(s, a) && !Unmoved(s, a)
    ensures Less(WorkOf(Next(s, Finish(a, o))), WorkOf(s))
  {
    var t, r := Next(s, Finish(a, o)), s.inflight[a].result;
    var up, now := Up(s.cluster), Up(t.cluster);
    WriteKeepsUp(s.cluster, t.cluster, a, o);
    SameOutdated(up, now, t.inflight);
    FewerOutdated(up, s.inflight, a);
    if up(a, r) {
      if a in s.published && up(a, s.published[a]) {
        OnlyOneIsUpToDate(s.cluster, a, r, s.published[a]);
      }
      CaughtUp(AgentsOf(s.cluster), up, now, s.published, a, r);
    }
  }

  lemma WriteKeepsUp(c: Store, d: Store, a: Key, o: Object)
    requires GetAgent(c, a).Some? && o.body.AgentBody? && o.body.agent == GetAgent(c, a).value && d == c[a := o]
    ensures forall b, x :: Up(c)(b, x) == Up(d)(b, x)
    ensures AgentsOf(d) == AgentsOf(c) && a in AgentsOf(c)
  {
    forall b, x ensures Up(c)(b, x) == Up(d)(b, x) {
      WriteKeepsUpToDate(c, d, a, o, b, x);
    }
    WriteKeepsAgents(c, d, a, o);
  }

  lemma WriteKeepsAgents(c: Store, d: Store, a: Key, o: Object)
    requires GetAgent(c, a).Some? && o.body.AgentBody? && o.body.agent == GetAgent(c, a).value && d == c[a := o]
    ensures AgentsOf(d) == AgentsOf(c) && a in AgentsOf(c)
  {
    assert forall b :: GetAgent(d, b) == GetAgent(c, b);
  }

  lemma WriteKeepsUpToDate(c: Store, d: Store, a: Key, o: Object, b: Key, r: Result)
    requires GetAgent(c, a).Some? && o.body.AgentBody? && o.body.agent == GetAgent(c, a).value && d == c[a := o]
    ensures UpToDate(d, b, r) <==> UpToDate(c, b, r)
    ensures IsAgent(d, b) <==> IsAgent(c, b)
  {
    assert GetAgent(d, b) == GetAgent(c, b);
    if IsAgent(c, b) {
      AgentsAreNotRead(c, d, a, b.ns, GetAgent(c, b).value);
    }
  }

  /** The same Agents with the same specs, and every other object as it was. */
  ghost predicate SameButStatus(c: Store, d: Store) {
    && c.Keys == d.Keys
    && (forall k :: k in c && k.kind != AgentKind ==> d[k] == c[k])
    && (forall k :: k in c ==> GetAgent(d, k) == GetAgent(c, k))
  }

  lemma WriteKeepsSpecs(c: Store, d: Store, a: Key, o: Object)
    requires GetAgent(c, a).Some? && o.body.AgentBody? && o.body.agent == GetAgent(c, a).value && d == c[a := o]
    ensures SameButStatus(c, d)
  {
  }

  lemma ControllerKeepsCluster(s: State, step: Step)
    requires Enabled(s, step) && ByController(step)
    ensures SameButStatus(s.cluster, Next(s, step).cluster)
  {
    var t := Next(s, step);
    if t.cluster != s.cluster {
      WriteKeepsSpecs(s.cluster, t.cluster, step.key, step.written);
    }
  }

  /** What the running reconcile writes back here: the object as it is. */
  ghost function Rewritten(s: State, a: Key): Object {
    if a in s.cluster then s.cluster[a] else Object("", ConfigMapBody(map[]))
  }

  /** From every reachable state the controller alone can finish, and what it leaves published is current. */
  lemma Settles(s: State) returns (steps: seq<Step>, t: State)
    requires Inv(s)
    ensures Run(s, steps, t) && Quiet(t) && SameButStatus(s.cluster, t.cluster) && AllCurrent(t)
    ensures forall step :: step in steps ==> ByController(step)
    decreases WorkOf(s).outdated, WorkOf(s).behind, WorkOf(s).events, WorkOf(s).refused, WorkOf(s).reconciles
  {
    var step: Step;
    if k :| k in s.pending {
      step := Handle(k);
      HandleKeepsInv(s, k);
    } else if a :| a in s.inflight {
      step := Finish(a, Rewritten(s, a));
      FinishKeepsInv(s, a, Rewritten(s, a));
    } else if a :| a in s.queue {
      step := Begin(a);
      BeginKeepsInv(s, a);
    } else {
      assert s.pending == multiset{} && s.inflight == map[];
      QuietIsCurrent(s);
      return [], s;
    }
    ControllerStepLowersWork(s, step);
    ControllerKeepsCluster(s, step);
    var rest;
    rest, t := Settles(Next(s, step));
    steps := [step] + rest;
    assert steps[1..] == rest;
  }
}
