/** What every interleaving of the watch protocol guarantees: no rollback, and exactly when an update is lost. */
module WatchProperties {
  import opened Lists
  import opened ResourceVersion
  import opened Watch

  // --- versions written to one watcher ---

  /** The versions of the events among the written items, in order. */
  function Versions(out: seq<Item>): seq<string> {
    if out == [] then []
    else
      var n := |out| - 1;
      Versions(out[..n]) + (if out[n].Event? then [out[n].frame.rv] else [])
  }

  lemma VersionsSnoc(out: seq<Item>, x: Item)
    ensures Versions(out + [x]) == Versions(out) + (if x.Event? then [x.frame.rv] else [])
  {
  }

  ghost predicate Increasing(vs: seq<string>) {
    forall i, j :: 0 <= i < j < |vs| ==> Level(vs[i]) < Level(vs[j])
  }

  /** The versions that got into the channel. */
  function Accepted(offers: seq<Offer>): seq<string> {
    if offers == [] then []
    else
      var n := |offers| - 1;
      Accepted(offers[..n]) + (if offers[n].accepted then [offers[n].rv] else [])
  }

  function Max(a: int, b: int): int {
    if a < b then b else a
  }

  function Highest(vs: seq<string>): int {
    if vs == [] then -1 else Max(Highest(vs[..|vs| - 1]), Level(vs[|vs| - 1]))
  }

  lemma AcceptedSnoc(offers: seq<Offer>, o: Offer)
    ensures Accepted(offers + [o]) == if o.accepted then Accepted(offers) + [o.rv] else Accepted(offers)
  {
  }

  lemma HighestSnoc(vs: seq<string>, v: string)
    ensures Highest(vs + [v]) == Max(Highest(vs), Level(v))
  {
  }

  lemma {:induction false} HighestCovers(vs: seq<string>, v: string)
    requires v in vs
    ensures Level(v) <= Highest(vs)
  {
    var n := |vs| - 1;
    assert vs == vs[..n] + [vs[n]];
    if v != vs[n] {
      HighestCovers(vs[..n], v);
    }
  }

  function Rvs(ch: seq<Frame>): (r: seq<string>)
    ensures |r| == |ch|
  {
    seq(|ch|, i requires 0 <= i < |ch| => ch[i].rv)
  }

  /** How many accepted frames the handler has already taken off its channel. */
  function Taken(w: Watcher): int {
    |Accepted(w.offers)| - |w.ch|
  }

  function SnapshotLevel(w: Watcher): int {
    if w.snapshot.Some? then Level(w.snapshot.value) else -1
  }

  ghost predicate DecimalWatcher(w: Watcher) {
    && (w.floor == "" || Decimal(w.floor))
    && (forall i :: 0 <= i < |w.ch| ==> Decimal(w.ch[i].rv))
  }

  /** The floor is the last version written, and the versions written so far only went up. */
  ghost predicate Ordered(w: Watcher) {
    var vs := Versions(w.out);
    && Increasing(vs)
    && w.floor == (if vs == [] then "" else vs[|vs| - 1])
  }

  /** The channel holds the accepted frames not taken yet, and the floor is the highest version seen so far. */
  ghost predicate Tracked(w: Watcher) {
    var accepted := Accepted(w.offers);
    && 0 <= Taken(w)
    && Rvs(w.ch) == accepted[Taken(w)..]
    && (w.phase == Subscribed ==> Taken(w) == 0 && w.floor == "" && w.snapshot.None?)
    && Level(w.floor) == Max(SnapshotLevel(w), Highest(accepted[..Taken(w)]))
  }

  ghost predicate Good(w: Watcher) {
    DecimalWatcher(w) && Ordered(w) && Tracked(w)
  }

  lemma NewerMeansHigher(rv: string, floor: string)
    requires Decimal(rv) && (floor == "" || Decimal(floor))
    ensures IsNewer(rv, floor) <==> Level(rv) > Level(floor)
  {
  }

  lemma WriteKeepsOrdered(w: Watcher, f: Frame, v: Watcher)
    requires Ordered(w) && DecimalWatcher(w) && Decimal(f.rv) && IsNewer(f.rv, w.floor)
    requires v.out == w.out + [Event(f)] && v.floor == f.rv
    ensures Ordered(v)
  {
  }

  lemma OfferKeepsTracked(w: Watcher, f: Frame)
    requires Tracked(w)
    ensures Tracked(Offered(w, f))
  {
    var v := Offered(w, f);
    AcceptedSnoc(w.offers, Offer(f.rv, |w.ch| < ChannelSize));
    var a, b := Accepted(w.offers), Accepted(v.offers);
    if |w.ch| < ChannelSize {
      assert b[..Taken(v)] == a[..Taken(w)];
      assert Rvs(v.ch) == Rvs(w.ch) + [f.rv];
      assert b[Taken(v)..] == a[Taken(w)..] + [f.rv];
    }
  }

  lemma OfferKeepsGood(w: Watcher, f: Frame)
    requires Good(w) && Decimal(f.rv)
    ensures Good(Offered(w, f))
  {
    OfferKeepsTracked(w, f);
  }

  lemma SnapshotKeepsGood(w: Watcher, found: Option<Frame>)
    requires Good(w) && w.phase == Subscribed && (found.Some? ==> Decimal(found.value.rv))
    ensures Good(Snapped(w, found))
  {
  }

  lemma ReceiveKeepsTracked(w: Watcher)
    requires Good(w) && w.phase == Streaming && w.ch != []
    ensures Tracked(Received(w))
  {
    var v, rv := Received(w), w.ch[0].rv;
    var a, t := Accepted(w.offers), Taken(w);
    NewerMeansHigher(rv, w.floor);
    assert a[t..][0] == Rvs(w.ch)[0] == rv;
    assert a[..t + 1] == a[..t] + [rv];
    HighestSnoc(a[..t], rv);
    assert Rvs(v.ch) == Rvs(w.ch)[1..] == a[t..][1..];
    assert a[t..][1..] == a[t + 1..];
  }

  lemma ReceiveKeepsGood(w: Watcher)
    requires Good(w) && w.phase == Streaming && w.ch != []
    ensures Good(Received(w))
  {
    ReceiveKeepsTracked(w);
    if IsNewer(w.ch[0].rv, w.floor) {
      WriteKeepsOrdered(w, w.ch[0], Received(w));
    }
  }

  // --- over every run ---

  predicate DecimalAction(a: Action) {
    match a
    case StorePut(_, f) => Decimal(f.rv)
    case Broadcast(_, f) => Decimal(f.rv)
    case _ => true
  }

  ghost predicate AllDecimal(actions: seq<Action>) {
    forall a :: a in actions ==> DecimalAction(a)
  }

  ghost predicate AllGood(s: System) {
    && (forall k :: k in s.store ==> Decimal(s.store[k].rv))
    && (forall id :: id in s.watchers ==> Good(s.watchers[id]))
  }

  lemma QuietStepsKeepGood(w: Watcher)
    requires Good(w)
    ensures Good(w.(out := w.out + [Keepalive]))
    ensures w.phase == Streaming ==> Good(w.(phase := Gone, closed := true))
  {
    VersionsSnoc(w.out, Keepalive);
  }

  lemma NewcomerIsGood(key: string, since: nat)
    ensures Good(Watcher(key, Subscribed, [], false, "", None, [], [], since))
  {
  }

  /** What an action does to one existing watcher. */
  function WatcherAfter(s: System, a: Action, w: Watcher, mine: bool, subscribed: bool): Watcher {
    match a
    case Broadcast(_, f) => if subscribed then Offered(w, f) else w
    case TakeSnapshot(_) =>
      if mine && w.phase == Subscribed then Snapped(w, if w.key in s.store then Some(s.store[w.key]) else None) else w
    case Receive(_) => if mine && w.phase == Streaming && w.ch != [] then Received(w) else w
    case Tick(_) => if mine && w.phase == Streaming then w.(out := w.out + [Keepalive]) else w
    case HangUp(_) => if mine && w.phase == Streaming then w.(phase := Gone, closed := true) else w
    case _ => w
  }

  ghost predicate Mine(a: Action, id: nat) {
    match a
    case TakeSnapshot(i) => i == id
    case Receive(i) => i == id
    case Tick(i) => i == id
    case HangUp(i) => i == id
    case _ => false
  }

  lemma NextWatcher(s: System, a: Action, id: nat)
    requires id in s.watchers
    ensures id in Next(s, a).watchers
    ensures Next(s, a).watchers[id]
         == WatcherAfter(s, a, s.watchers[id], Mine(a, id), a.Broadcast? && id in SubsOf(s.subs, a.key))
  {
  }

  lemma WatcherAfterIsGood(s: System, a: Action, w: Watcher, mine: bool, subscribed: bool)
    requires Good(w) && DecimalAction(a) && forall k :: k in s.store ==> Decimal(s.store[k].rv)
    ensures Good(WatcherAfter(s, a, w, mine, subscribed))
  {
    match a
    case Broadcast(_, f) => OfferKeepsGood(w, f);
    case TakeSnapshot(_) =>
      if w.phase == Subscribed {
        SnapshotKeepsGood(w, if w.key in s.store then Some(s.store[w.key]) else None);
      }
    case Receive(_) =>
      if w.phase == Streaming && w.ch != [] {
        ReceiveKeepsGood(w);
      }
    case Tick(_) => QuietStepsKeepGood(w);
    case HangUp(_) => QuietStepsKeepGood(w);
    case _ =>
  }

  lemma StepKeepsWatcherGood(s: System, a: Action, id: nat)
    requires AllGood(s) && DecimalAction(a) && id in Next(s, a).watchers
    ensures Good(Next(s, a).watchers[id])
  {
    if id !in s.watchers {
      NewcomerIsGood(a.key, |HistoryOf(s, a.key)|);
    } else {
      NextWatcher(s, a, id);
      WatcherAfterIsGood(s, a, s.watchers[id], Mine(a, id), a.Broadcast? && id in SubsOf(s.subs, a.key));
    }
  }

  lemma StepKeepsAllGood(s: System, a: Action)
    requires AllGood(s) && DecimalAction(a)
    ensures AllGood(Next(s, a))
  {
    forall id | id in Next(s, a).watchers ensures Good(Next(s, a).watchers[id]) {
      StepKeepsWatcherGood(s, a, id);
    }
  }

  lemma {:induction false} RunKeepsAllGood(s: System, actions: seq<Action>)
    requires AllGood(s) && AllDecimal(actions)
    ensures AllGood(Run(s, actions))
    decreases |actions|
  {
    if actions != [] {
      assert actions[0] in actions;
      StepKeepsAllGood(s, actions[0]);
      RunKeepsAllGood(Next(s, actions[0]), actions[1..]);
    }
  }

  /** No rollback: whatever is broadcast, duplicated or regressed, the versions written to a watcher strictly increase. */
  lemma NoRollback(actions: seq<Action>, id: nat)
    requires AllDecimal(actions) && id in Run(Initially, actions).watchers
    ensures Increasing(Versions(Run(Initially, actions).watchers[id].out))
  {
    RunKeepsAllGood(Initially, actions);
  }

  // --- history ---

  function OfferRvs(offers: seq<Offer>): (r: seq<string>)
    ensures |r| == |offers|
  {
    seq(|offers|, i requires 0 <= i < |offers| => offers[i].rv)
  }

  lemma OfferRvsSnoc(offers: seq<Offer>, o: Offer)
    ensures OfferRvs(offers + [o]) == OfferRvs(offers) + [o.rv]
  {
  }

  ghost predicate Remembers(s: System, w: Watcher) {
    && w.since <= |HistoryOf(s, w.key)|
    && OfferRvs(w.offers) == HistoryOf(s, w.key)[w.since..]
  }

  /** Every open watcher was offered exactly what was broadcast for its key since it subscribed. */
  ghost predicate AllRemember(s: System) {
    forall id :: id in s.watchers && !s.watchers[id].closed ==> Remembers(s, s.watchers[id])
  }

  lemma OfferKeepsRemembering(s: System, w: Watcher, f: Frame)
    requires Remembers(s, w)
    ensures Remembers(Broadcasted(s, w.key, f), Offered(w, f))
  {
  }

  /** Whatever a watcher goes through besides a broadcast to it, what it was offered stays the same. */
  lemma OffersStay(s: System, a: Action, w: Watcher, mine: bool)
    ensures var v := WatcherAfter(s, a, w, mine, false); v.offers == w.offers && v.since == w.since && v.key == w.key
  {
  }

  lemma HistoryStays(s: System, a: Action, key: string)
    requires !a.Broadcast? || a.key != key
    ensures HistoryOf(Next(s, a), key) == HistoryOf(s, key)
  {
  }

  lemma OldWatcherRemembers(s: System, a: Action, id: nat)
    requires HubSafe(s) && id in s.watchers && !s.watchers[id].closed && Remembers(s, s.watchers[id])
    ensures id in Next(s, a).watchers && Remembers(Next(s, a), Next(s, a).watchers[id])
  {
    var w := s.watchers[id];
    NextWatcher(s, a, id);
    if a.Broadcast? && a.key == w.key {
      OfferKeepsRemembering(s, w, a.frame);
    } else {
      OffersStay(s, a, w, Mine(a, id));
      HistoryStays(s, a, w.key);
    }
  }

  lemma StepKeepsWatcherRemembering(s: System, a: Action, id: nat)
    requires HubSafe(s) && AllRemember(s)
    requires id in Next(s, a).watchers && !Next(s, a).watchers[id].closed
    ensures Remembers(Next(s, a), Next(s, a).watchers[id])
  {
    if id !in s.watchers {
      assert HistoryOf(Next(s, a), a.key)[|HistoryOf(s, a.key)|..] == [];
    } else {
      NextWatcher(s, a, id);
      OldWatcherRemembers(s, a, id);
    }
  }

  lemma StepKeepsRemembering(s: System, a: Action)
    requires HubSafe(s) && AllRemember(s)
    ensures AllRemember(Next(s, a))
  {
    var t := Next(s, a);
    forall id | id in t.watchers && !t.watchers[id].closed ensures Remembers(t, t.watchers[id]) {
      StepKeepsWatcherRemembering(s, a, id);
    }
  }

  // --- faithful runs ---

  ghost predicate Below(vs: seq<string>, level: int) {
    forall i :: 0 <= i < |vs| ==> Level(vs[i]) <= level
  }

  /** The store never falls behind what was broadcast, and the informer never runs ahead of the store. */
  ghost predicate Faithful(s: System, a: Action) {
    match a
    case StorePut(k, f) => Below(HistoryOf(s, k), Level(f.rv))
    case Broadcast(k, f) =>
      && (k in s.store ==> Level(f.rv) <= Level(s.store[k].rv))
      && Below(HistoryOf(s, k), Level(f.rv))
    case _ => true
  }

  ghost predicate FaithfulRun(s: System, actions: seq<Action>)
    decreases |actions|
  {
    actions == [] || (Faithful(s, actions[0]) && FaithfulRun(Next(s, actions[0]), actions[1..]))
  }

  ghost predicate Climbing(vs: seq<string>) {
    forall i, j :: 0 <= i <= j < |vs| ==> Level(vs[i]) <= Level(vs[j])
  }

  ghost predicate SnapshotCovers(s: System, w: Watcher) {
    w.snapshot.Some? && w.since <= |HistoryOf(s, w.key)| ==>
      Below(HistoryOf(s, w.key)[..w.since], Level(w.snapshot.value))
  }

  /** Broadcasts climb, the store is at least as new, and each snapshot saw what was broadcast before the subscription. */
  ghost predicate Live(s: System) {
    && (forall k :: k in s.history ==> Climbing(s.history[k]))
    && (forall k :: k in s.store ==> Below(HistoryOf(s, k), Level(s.store[k].rv)))
    && (forall id :: id in s.watchers && !s.watchers[id].closed ==> SnapshotCovers(s, s.watchers[id]))
  }

  lemma OldWatcherStaysCovered(s: System, a: Action, id: nat)
    requires HubSafe(s) && Live(s) && id in s.watchers && !s.watchers[id].closed && Remembers(s, s.watchers[id])
    ensures id in Next(s, a).watchers && SnapshotCovers(Next(s, a), Next(s, a).watchers[id])
  {
    var t, w := Next(s, a), s.watchers[id];
    assert SnapshotCovers(s, w);
    NextWatcher(s, a, id);
    assert HistoryOf(t, w.key)[..w.since] == HistoryOf(s, w.key)[..w.since];
  }

  lemma StepKeepsSnapshotCovers(s: System, a: Action, id: nat)
    requires HubSafe(s) && AllRemember(s) && Live(s)
    requires id in Next(s, a).watchers && !Next(s, a).watchers[id].closed
    ensures SnapshotCovers(Next(s, a), Next(s, a).watchers[id])
  {
    if id in s.watchers {
      NextWatcher(s, a, id);
      OldWatcherStaysCovered(s, a, id);
    }
  }

  lemma StepKeepsClimbing(s: System, a: Action, k: string)
    requires Live(s) && Faithful(s, a) && k in Next(s, a).history
    ensures Climbing(Next(s, a).history[k])
  {
  }

  lemma StepKeepsStoreAhead(s: System, a: Action, k: string)
    requires Live(s) && Faithful(s, a) && k in Next(s, a).store
    ensures Below(HistoryOf(Next(s, a), k), Level(Next(s, a).store[k].rv))
  {
    var t := Next(s, a);
    if a.Broadcast? && a.key == k {
      assert HistoryOf(t, k) == HistoryOf(s, k) + [a.frame.rv];
    } else {
      assert HistoryOf(t, k) == HistoryOf(s, k);
    }
  }

  lemma StepKeepsLive(s: System, a: Action)
    requires HubSafe(s) && AllRemember(s) && Live(s) && Faithful(s, a)
    ensures Live(Next(s, a))
  {
    var t := Next(s, a);
    forall id | id in t.watchers && !t.watchers[id].closed ensures SnapshotCovers(t, t.watchers[id]) {
      StepKeepsSnapshotCovers(s, a, id);
    }
    forall k | k in t.history ensures Climbing(t.history[k]) {
      StepKeepsClimbing(s, a, k);
    }
    forall k | k in t.store ensures Below(HistoryOf(t, k), Level(t.store[k].rv)) {
      StepKeepsStoreAhead(s, a, k);
    }
  }

  lemma {:induction false} RunKeepsLive(s: System, actions: seq<Action>)
    requires HubSafe(s) && AllRemember(s) && Live(s) && FaithfulRun(s, actions)
    ensures var t := Run(s, actions); HubSafe(t) && AllRemember(t) && Live(t)
    decreases |actions|
  {
    if actions != [] {
      StepKeepsHubSafe(s, actions[0]);
      StepKeepsRemembering(s, actions[0]);
      StepKeepsLive(s, actions[0]);
      RunKeepsLive(Next(s, actions[0]), actions[1..]);
    }
  }

  // --- lost updates ---

  ghost predicate Drained(w: Watcher) {
    w.phase == Streaming && w.ch == []
  }

  /** The newest broadcast since subscribing found the channel full, and nothing that got through was as new. */
  ghost predicate NewestDropped(w: Watcher) {
    w.offers != [] &&
    var last := w.offers[|w.offers| - 1];
    && !last.accepted
    && Level(last.rv) > SnapshotLevel(w)
    && Level(last.rv) > Highest(Accepted(w.offers))
  }

  lemma {:induction false} AcceptedMember(offers: seq<Offer>, i: nat)
    requires i < |offers| && offers[i].accepted
    ensures offers[i].rv in Accepted(offers)
  {
    var n := |offers| - 1;
    if i < n {
      AcceptedMember(offers[..n], i);
    }
  }

  /** The floor a drained watcher has reached. */
  lemma DrainedFloor(w: Watcher)
    requires Good(w) && Drained(w)
    ensures Level(w.floor) == Max(SnapshotLevel(w), Highest(Accepted(w.offers)))
  {
    var a := Accepted(w.offers);
    assert a[..|a|] == a;
  }

  ghost predicate MissesSome(offers: seq<Offer>, level: int) {
    exists i :: 0 <= i < |offers| && Level(offers[i].rv) > level
  }

  /** When versions climb, something is missed exactly when the newest is. */
  lemma NewestDecides(offers: seq<Offer>, level: int)
    requires Climbing(OfferRvs(offers)) && offers != []
    ensures MissesSome(offers, level) <==> Level(offers[|offers| - 1].rv) > level
  {
    var rvs, n := OfferRvs(offers), |offers| - 1;
    if MissesSome(offers, level) {
      var i :| 0 <= i < |offers| && Level(offers[i].rv) > level;
      assert Level(rvs[i]) <= Level(rvs[n]);
    }
  }

  /** A drained watcher has every version broadcast since it subscribed, unless the newest one was dropped. */
  lemma BehindExactly(w: Watcher)
    requires Good(w) && Drained(w) && Climbing(OfferRvs(w.offers))
    ensures MissesSome(w.offers, Level(w.floor)) <==> NewestDropped(w)
  {
    DrainedFloor(w);
    if w.offers != [] {
      var n := |w.offers| - 1;
      NewestDecides(w.offers, Level(w.floor));
      if w.offers[n].accepted {
        AcceptedMember(w.offers, n);
        HighestCovers(Accepted(w.offers), w.offers[n].rv);
      }
    }
  }

  /** No lost update: on every faithful run, a drained watcher is at least as new as everything broadcast for its key
      since it subscribed, and ever if it found its Agent, if and only if the newest broadcast was not dropped. */
  lemma LostExactlyWhenDropped(actions: seq<Action>, id: nat)
    requires AllDecimal(actions) && FaithfulRun(Initially, actions)
    requires var t := Run(Initially, actions); id in t.watchers && Drained(t.watchers[id])
    ensures var t := Run(Initially, actions); var w := t.watchers[id];
      && w.since <= |HistoryOf(t, w.key)|
      && (Below(HistoryOf(t, w.key)[w.since..], Level(w.floor)) <==> !NewestDropped(w))
      && (w.snapshot.Some? ==> (Below(HistoryOf(t, w.key), Level(w.floor)) <==> !NewestDropped(w)))
  {
    RunKeepsAllGood(Initially, actions);
    RunKeepsLive(Initially, actions);
    var t := Run(Initially, actions);
    var w := t.watchers[id];
    var h := HistoryOf(t, w.key);
    assert Remembers(t, w) && SnapshotCovers(t, w);
    OffersClimb(w, h);
    BehindExactly(w);
    DrainedFloor(w);
    CoveredSince(w, h);
    if w.snapshot.Some? {
      CoveredInTwoParts(w, h);
    }
  }

  /** The caller's form: if no broadcast found the channel full, nothing is lost. */
  lemma NothingLostWithoutDrops(actions: seq<Action>, id: nat)
    requires AllDecimal(actions) && FaithfulRun(Initially, actions)
    requires var t := Run(Initially, actions); id in t.watchers && Drained(t.watchers[id])
    requires forall o :: o in Run(Initially, actions).watchers[id].offers ==> o.accepted
    ensures var t := Run(Initially, actions); var w := t.watchers[id];
      && w.since <= |HistoryOf(t, w.key)|
      && Below(HistoryOf(t, w.key)[w.since..], Level(w.floor))
      && (w.snapshot.Some? ==> Below(HistoryOf(t, w.key), Level(w.floor)))
  {
    LostExactlyWhenDropped(actions, id);
  }

  lemma {:induction false} AcceptedBelow(offers: seq<Offer>, level: int)
    requires level > -1 && forall i :: 0 <= i < |offers| && offers[i].accepted ==> Level(offers[i].rv) < level
    ensures Highest(Accepted(offers)) < level
  {
    if offers != [] {
      var n := |offers| - 1;
      AcceptedBelow(offers[..n], level);
      AcceptedSnoc(offers[..n], offers[n]);
      assert offers == offers[..n] + [offers[n]];
      HighestSnoc(Accepted(offers[..n]), offers[n].rv);
    }
  }

  /** When every change has a version of its own, only the last offer matters: what is lost is lost because it was refused. */
  lemma DroppedMeansRefused(w: Watcher)
    requires w.offers != [] && Increasing(OfferRvs(w.offers)) && Decimal(w.offers[|w.offers| - 1].rv)
    requires SnapshotLevel(w) < Level(w.offers[|w.offers| - 1].rv)
    ensures NewestDropped(w) <==> !w.offers[|w.offers| - 1].accepted
  {
    var n, rvs := |w.offers| - 1, OfferRvs(w.offers);
    assert forall i :: 0 <= i < |rvs| ==> rvs[i] == w.offers[i].rv;
    if !w.offers[n].accepted {
      AcceptedBelow(w.offers, Level(w.offers[n].rv));
    }
  }

  lemma CoveredSince(w: Watcher, h: seq<string>)
    requires w.since <= |h| && OfferRvs(w.offers) == h[w.since..]
    ensures Below(h[w.since..], Level(w.floor)) <==> !MissesSome(w.offers, Level(w.floor))
  {
    var rvs := OfferRvs(w.offers);
    assert forall i :: 0 <= i < |w.offers| ==> rvs[i] == w.offers[i].rv;
  }

  lemma OffersClimb(w: Watcher, h: seq<string>)
    requires Climbing(h) && w.since <= |h| && OfferRvs(w.offers) == h[w.since..]
    ensures Climbing(OfferRvs(w.offers))
  {
  }

  lemma CoveredInTwoParts(w: Watcher, h: seq<string>)
    requires w.since <= |h| && OfferRvs(w.offers) == h[w.since..]
    requires Below(h[..w.since], Level(w.floor))
    ensures Below(h, Level(w.floor)) <==> !MissesSome(w.offers, Level(w.floor))
  {
    var rvs := OfferRvs(w.offers);
    assert forall i :: 0 <= i < |w.offers| ==> rvs[i] == w.offers[i].rv == h[w.since + i];
    forall i | 0 <= i < |h| && !MissesSome(w.offers, Level(w.floor))
      ensures Level(h[i]) <= Level(w.floor)
    {
      if i < w.since {
        assert h[..w.since][i] == h[i];
      } else {
        assert h[i] == w.offers[i - w.since].rv;
      }
    }
  }

  lemma {:induction false} AcceptedPrefix(offers: seq<Offer>, j: nat)
    requires j <= |offers|
    ensures Accepted(offers[..j]) <= Accepted(offers)
  {
    if j == |offers| {
      assert offers[..j] == offers;
    } else {
      var n := |offers| - 1;
      AcceptedPrefix(offers[..n], j);
      assert offers[..n][..j] == offers[..j];
    }
  }

  /** The j-th broadcast since subscribing got into the channel and has been taken off it. */
  ghost predicate HasReceived(w: Watcher, j: nat) {
    j < |w.offers| && w.offers[j].accepted && |Accepted(w.offers[..j + 1])| <= Taken(w)
  }

  lemma ReceivedIsBelowFloor(w: Watcher, j: nat)
    requires Good(w) && HasReceived(w, j)
    ensures Level(w.offers[j].rv) <= Level(w.floor)
  {
    var upTo := w.offers[..j + 1];
    AcceptedMember(upTo, j);
    AcceptedPrefix(w.offers, j + 1);
    var taken := Accepted(w.offers)[..Taken(w)];
    assert Accepted(upTo) <= taken;
    HighestCovers(taken, w.offers[j].rv);
  }

  /** Recovery, on every faithful run: a received frame brings the floor up to every earlier broadcast, dropped or not. */
  lemma ReceivedFrameCatchesUp(actions: seq<Action>, id: nat, i: nat, j: nat)
    requires AllDecimal(actions) && FaithfulRun(Initially, actions)
    requires id in Run(Initially, actions).watchers && !Run(Initially, actions).watchers[id].closed
    requires i <= j && HasReceived(Run(Initially, actions).watchers[id], j)
    ensures var w := Run(Initially, actions).watchers[id]; Level(w.offers[i].rv) <= Level(w.floor)
  {
    RunKeepsAllGood(Initially, actions);
    RunKeepsLive(Initially, actions);
    var t := Run(Initially, actions);
    var w := t.watchers[id];
    assert Remembers(t, w);
    OffersClimb(w, HistoryOf(t, w.key));
    ReceivedIsBelowFloor(w, j);
    assert OfferRvs(w.offers)[i] == w.offers[i].rv && OfferRvs(w.offers)[j] == w.offers[j].rv;
  }
}
