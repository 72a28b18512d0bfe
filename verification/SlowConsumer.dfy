/**
 The comment on broadcast says a slow consumer always converges. A burst shows otherwise: the frame that is dropped is
 the newest one, and nothing but a later broadcast makes up for it.
 */
module SlowConsumer {
  import opened Lists
  import opened ResourceVersion
  import opened Watch
  import opened WatchProperties

  const Agent := "default/agent"

  function Version(i: nat): Frame {
    Frame(Render(i + 1), "{}")
  }

  /** A watcher finds its Agent; then the Agent changes n times, each change stored and broadcast before any is received. */
  function Burst(n: nat): seq<Action> {
    if n == 0 then [StorePut(Agent, Version(0)), Subscribe(0, Agent), TakeSnapshot(0)]
    else Burst(n - 1) + [StorePut(Agent, Version(n)), Broadcast(Agent, Version(n))]
  }

  function Takes(n: nat): seq<Action> {
    if n == 0 then [] else [Receive(0)] + Takes(n - 1)
  }

  /** The burst, and then everything that got through is received. */
  function SlowRun(n: nat): seq<Action> {
    Burst(n) + Takes(if n <= ChannelSize then n else ChannelSize)
  }

  function Pending(n: nat): seq<Frame> {
    if n == 0 then [] else Sent(Pending(n - 1), Version(n))
  }

  function OffersMade(n: nat): seq<Offer> {
    if n == 0 then [] else OffersMade(n - 1) + [Offer(Version(n).rv, n <= ChannelSize)]
  }

  // --- runs in pieces ---

  lemma {:induction false} RunConcat(s: System, a: seq<Action>, b: seq<Action>)
    ensures Run(s, a + b) == Run(Run(s, a), b)
    ensures FaithfulRun(s, a + b) <==> FaithfulRun(s, a) && FaithfulRun(Run(s, a), b)
    decreases |a|
  {
    if a == [] {
      assert a + b == b;
    } else {
      assert (a + b)[1..] == a[1..] + b;
      RunConcat(Next(s, a[0]), a[1..], b);
    }
  }

  lemma OneAction(s: System, a: Action)
    ensures Run(s, [a]) == Next(s, a) && (FaithfulRun(s, [a]) <==> Faithful(s, a))
  {
    assert [a][1..] == [];
    assert Run(Next(s, a), []) == Next(s, a) && FaithfulRun(Next(s, a), []);
  }

  lemma TwoActions(s: System, a: Action, b: Action)
    ensures Run(s, [a, b]) == Next(Next(s, a), b)
    ensures FaithfulRun(s, [a, b]) <==> Faithful(s, a) && Faithful(Next(s, a), b)
  {
    assert [a, b] == [a] + [b];
    RunConcat(s, [a], [b]);
    OneAction(s, a);
    OneAction(Next(s, a), b);
  }

  // --- the burst ---

  lemma {:induction false} PendingSize(n: nat)
    ensures |Pending(n)| == if n <= ChannelSize then n else ChannelSize
  {
    if n > 0 {
      PendingSize(n - 1);
    }
  }

  /** After n broadcasts with nothing received: one streaming watcher, its channel filled as far as it goes. */
  ghost predicate Flooded(s: System, n: nat) {
    && SubsOf(s.subs, Agent) == {0} && s.watchers.Keys == {0}
    && s.watchers[0] == Watcher(
         Agent, Streaming, Pending(n), false, Version(0).rv, Some(Version(0).rv), [Event(Version(0))], OffersMade(n), 0)
    && HistoryOf(s, Agent) == OfferRvs(OffersMade(n))
  }

  lemma BurstStarts(v: Frame)
    requires v == Version(0)
    ensures var s := Next(Next(Next(Initially, StorePut(Agent, v)), Subscribe(0, Agent)), TakeSnapshot(0));
      Flooded(s, 0) && s.history == map[]
  {
  }

  lemma BurstGoesOn(s: System, n: nat)
    requires Flooded(s, n)
    ensures Flooded(Next(Next(s, StorePut(Agent, Version(n + 1))), Broadcast(Agent, Version(n + 1))), n + 1)
  {
    PendingSize(n);
    OfferedToOnly(Next(s, StorePut(Agent, Version(n + 1))), Version(n + 1));
    OfferRvsSnoc(OffersMade(n), Offer(Version(n + 1).rv, n + 1 <= ChannelSize));
  }

  lemma OfferedToOnly(s: System, f: Frame)
    requires SubsOf(s.subs, Agent) == {0} && s.watchers.Keys == {0}
    ensures var t := Next(s, Broadcast(Agent, f));
      && t.subs == s.subs && t.watchers.Keys == {0} && t.watchers[0] == Offered(s.watchers[0], f)
      && HistoryOf(t, Agent) == HistoryOf(s, Agent) + [f.rv]
  {
  }

  lemma {:induction false} MadeOffers(n: nat, i: nat)
    requires i < n
    ensures |OffersMade(n)| == n && OffersMade(n)[i] == Offer(Version(i + 1).rv, i < ChannelSize)
  {
    if i < n - 1 {
      MadeOffers(n - 1, i);
    } else if n > 1 {
      MadeOffers(n - 1, 0);
    }
  }

  lemma VersionLevel(i: nat)
    requires i < MaxUint64
    ensures Decimal(Version(i).rv) && Level(Version(i).rv) == i + 1
  {
    RenderRoundTrip(i + 1);
  }

  /** Everything offered so far is older than what comes next. */
  lemma OffersBelow(n: nat)
    requires n < MaxUint64
    ensures Below(OfferRvs(OffersMade(n)), n + 1)
  {
    var rvs := OfferRvs(OffersMade(n));
    if n > 0 {
      MadeOffers(n, 0);
    }
    forall i | 0 <= i < |rvs| ensures Level(rvs[i]) <= n + 1 {
      MadeOffers(n, i);
      VersionLevel(i + 1);
    }
  }

  lemma StepIsFaithful(s: System, n: nat)
    requires Flooded(s, n) && n + 1 < MaxUint64
    ensures var put, cast := StorePut(Agent, Version(n + 1)), Broadcast(Agent, Version(n + 1));
      Faithful(s, put) && Faithful(Next(s, put), cast)
  {
    OffersBelow(n);
    VersionLevel(n + 1);
    assert HistoryOf(Next(s, StorePut(Agent, Version(n + 1))), Agent) == HistoryOf(s, Agent);
  }

  lemma {:induction false} AfterBurst(n: nat)
    requires n < MaxUint64
    ensures Flooded(Run(Initially, Burst(n)), n) && FaithfulRun(Initially, Burst(n))
  {
    if n == 0 {
      BurstBegins();
    } else {
      AfterBurst(n - 1);
      OneMore(n - 1, Burst(n - 1));
    }
  }

  lemma OneMore(n: nat, before: seq<Action>)
    requires n + 1 < MaxUint64 && Flooded(Run(Initially, before), n) && FaithfulRun(Initially, before)
    ensures var now := before + [StorePut(Agent, Version(n + 1)), Broadcast(Agent, Version(n + 1))];
      Flooded(Run(Initially, now), n + 1) && FaithfulRun(Initially, now)
  {
    var s, put, cast := Run(Initially, before), StorePut(Agent, Version(n + 1)), Broadcast(Agent, Version(n + 1));
    RunConcat(Initially, before, [put, cast]);
    TwoActions(s, put, cast);
    BurstGoesOn(s, n);
    StepIsFaithful(s, n);
  }

  lemma BurstBegins()
    ensures Flooded(Run(Initially, Burst(0)), 0) && FaithfulRun(Initially, Burst(0))
  {
    var put, join, snap := StorePut(Agent, Version(0)), Subscribe(0, Agent), TakeSnapshot(0);
    var s := Next(Initially, put);
    assert Burst(0) == [put] + [join, snap];
    RunConcat(Initially, [put], [join, snap]);
    OneAction(Initially, put);
    TwoActions(s, join, snap);
    BurstStarts(Version(0));
  }

  /** Receiving as often as there are frames empties the channel and changes nothing else that matters here. */
  lemma {:induction false} AfterTakes(s: System, n: nat)
    requires 0 in s.watchers && s.watchers[0].phase == Streaming && |s.watchers[0].ch| == n
    ensures var t := Run(s, Takes(n));
      && 0 in t.watchers && Drained(t.watchers[0]) && t.history == s.history
      && t.watchers[0] == s.watchers[0].(ch := [], floor := t.watchers[0].floor, out := t.watchers[0].out)
    ensures FaithfulRun(s, Takes(n))
    decreases n
  {
    if n > 0 {
      assert Takes(n)[1..] == Takes(n - 1);
      AfterTakes(Next(s, Receive(0)), n - 1);
    }
  }

  lemma {:induction false} DecimalBurst(n: nat)
    requires n < MaxUint64
    ensures AllDecimal(Burst(n))
  {
    VersionLevel(n);
    if n > 0 {
      DecimalBurst(n - 1);
    }
  }

  lemma {:induction false} TakesAreDecimal(n: nat)
    ensures AllDecimal(Takes(n))
  {
    if n > 0 {
      TakesAreDecimal(n - 1);
    }
  }

  /** Of the burst, nothing above version nine is accepted. */
  lemma {:induction false} AcceptedAtMostNine(n: nat)
    requires n < MaxUint64
    ensures Highest(Accepted(OffersMade(n))) <= ChannelSize + 1
  {
    if n > 0 {
      AcceptedAtMostNine(n - 1);
      VersionLevel(n);
      AcceptedSnoc(OffersMade(n - 1), Offer(Version(n).rv, n <= ChannelSize));
      HighestSnoc(Accepted(OffersMade(n - 1)), Version(n).rv);
    }
  }

  /** The state in which the slow watcher has received all it was sent. */
  lemma AfterSlowRun(n: nat)
    requires n < MaxUint64
    ensures AllDecimal(SlowRun(n)) && FaithfulRun(Initially, SlowRun(n))
    ensures var t := Run(Initially, SlowRun(n));
      && 0 in t.watchers && Drained(t.watchers[0]) && t.watchers[0].key == Agent
      && t.watchers[0].offers == OffersMade(n) && t.watchers[0].snapshot == Some(Version(0).rv)
  {
    var s := Run(Initially, Burst(n));
    var k := if n <= ChannelSize then n else ChannelSize;
    AfterBurst(n);
    PendingSize(n);
    AfterTakes(s, k);
    RunConcat(Initially, Burst(n), Takes(k));
    DecimalBurst(n);
    TakesAreDecimal(k);
  }

  lemma DroppedExactly(w: Watcher, n: nat)
    requires n < MaxUint64 && w.offers == OffersMade(n) && w.snapshot == Some(Version(0).rv)
    ensures NewestDropped(w) <==> n > ChannelSize
  {
    VersionLevel(0);
    if n > 0 {
      MadeOffers(n, n - 1);
      VersionLevel(n);
      AcceptedAtMostNine(n);
    }
  }

  /** A watcher that receives nothing during a burst ends up behind, drained and connected, exactly when the burst is
      longer than its channel. */
  lemma BurstLeavesBehindExactly(n: nat)
    requires n < MaxUint64
    ensures AllDecimal(SlowRun(n)) && FaithfulRun(Initially, SlowRun(n))
    ensures var t := Run(Initially, SlowRun(n));
      && 0 in t.watchers && Drained(t.watchers[0])
      && (NewestDropped(t.watchers[0]) <==> n > ChannelSize)
      && (Below(HistoryOf(t, t.watchers[0].key), Level(t.watchers[0].floor)) <==> n <= ChannelSize)
  {
    AfterSlowRun(n);
    DroppedExactly(Run(Initially, SlowRun(n)).watchers[0], n);
    LostExactlyWhenDropped(SlowRun(n), 0);
  }

  // --- for good ---

  ghost predicate Silent(actions: seq<Action>, key: string) {
    forall a :: a in actions ==> !(a.Broadcast? && a.key == key)
  }

  /** What a watcher without pending frames keeps until something is broadcast for its key. */
  ghost predicate Stuck(s: System, id: nat, w: Watcher) {
    && id in s.watchers
    && var v := s.watchers[id];
      v.key == w.key && v.floor == w.floor && v.ch == [] && v.phase != Subscribed && v.offers == w.offers
  }

  lemma StepKeepsStuck(s: System, a: Action, id: nat, w: Watcher)
    requires HubSafe(s) && Stuck(s, id, w) && !(a.Broadcast? && a.key == w.key)
    ensures Stuck(Next(s, a), id, w) && HistoryOf(Next(s, a), w.key) == HistoryOf(s, w.key)
  {
    NextWatcher(s, a, id);
    HistoryStays(s, a, w.key);
  }

  /** Without a broadcast for its key, nothing moves a drained watcher's floor: not time, reads, other keys or the store. */
  lemma {:induction false} FloorStays(s: System, actions: seq<Action>, id: nat, w: Watcher)
    requires HubSafe(s) && Stuck(s, id, w) && Silent(actions, w.key)
    ensures var t := Run(s, actions); Stuck(t, id, w) && HistoryOf(t, w.key) == HistoryOf(s, w.key)
    decreases |actions|
  {
    if actions != [] {
      assert actions[0] in actions;
      StepKeepsHubSafe(s, actions[0]);
      StepKeepsStuck(s, actions[0], id, w);
      FloorStays(Next(s, actions[0]), actions[1..], id, w);
    }
  }

  /** The slow consumer stays behind: after a burst longer than the channel, however the run goes on, its floor is where
      it was and below the newest version until the Agent is broadcast again. */
  lemma SlowConsumerStaysBehind(n: nat, later: seq<Action>)
    requires ChannelSize < n < MaxUint64 && Silent(later, Agent)
    ensures var s, t := Run(Initially, SlowRun(n)), Run(Initially, SlowRun(n) + later);
      && 0 in s.watchers && 0 in t.watchers
      && t.watchers[0].floor == s.watchers[0].floor
      && !Below(HistoryOf(t, Agent), Level(t.watchers[0].floor))
  {
    AfterSlowRun(n);
    BurstLeavesBehindExactly(n);
    var s := Run(Initially, SlowRun(n));
    HubIsSafe(Initially, SlowRun(n));
    RunConcat(Initially, SlowRun(n), later);
    FloorStays(s, later, 0, s.watchers[0]);
  }
}
