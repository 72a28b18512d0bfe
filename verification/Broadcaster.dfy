/** The hub and the watch handler as the Registry runs them, updating channels and the floor in place. */
module Broadcaster {
  import opened Lists
  import opened ResourceVersion
  import W = Watch
  import D = Delivery

  class Subscriber {
    var ch: seq<W.Frame>
    var closed: bool

    constructor ()
      ensures ch == [] && !closed
    {
      ch, closed := [], false;
    }
  }

  class Hub {
    var subs: map<string, set<Subscriber>>

    ghost function Registered(): set<Subscriber>
      reads this
    {
      set k, s | k in subs && s in subs[k] :: s
    }

    /** No key without subscribers, no closed or overfull channel registered, no subscriber under two keys. */
    ghost predicate Valid()
      reads this, Registered()
    {
      && (forall k :: k in subs ==> subs[k] != {})
      && (forall k, s :: k in subs && s in subs[k] ==> s in Registered() && !s.closed && |s.ch| <= W.ChannelSize)
      && (forall k, l :: k in subs && l in subs && k != l ==> subs[k] !! subs[l])
    }

    constructor ()
      ensures Valid() && subs == map[]
    {
      subs := map[];
    }

    method Subscribe(key: string) returns (sub: Subscriber)
      requires Valid()
      modifies this
      ensures Valid()
      ensures fresh(sub) && sub.ch == [] && !sub.closed
      ensures subs == old(subs)[key := old(W.SubsOf(subs, key)) + {sub}]
    {
      sub := new Subscriber();
      var mine: set<Subscriber> := {};
      if key in subs {
        mine := subs[key];
      }
      subs := subs[key := mine + {sub}];
    }

    /** Closing a closed channel panics, and a channel closed while registered elsewhere would make a later send panic. */
    method Unsubscribe(key: string, sub: Subscriber)
      requires Valid()
      requires !sub.closed
      requires forall k :: k in subs && k != key ==> sub !in subs[k]
      modifies this, sub
      ensures Valid()
      ensures subs == W.Without(old(subs), key, sub)
      ensures sub.closed && sub.ch == old(sub.ch)
      ensures forall k :: k in subs ==> sub !in subs[k]
    {
      if key in subs {
        var left := subs[key] - {sub};
        if |left| == 0 {
          subs := subs - {key};
        } else {
          subs := subs[key := left];
        }
      }
      sub.closed := true;
    }

    /** The receiving end of a channel, registered or not. */
    method Receive(sub: Subscriber)
      requires Valid() && sub.ch != []
      modifies sub
      ensures Valid() && subs == old(subs) && sub.ch == old(sub.ch[1..]) && sub.closed == old(sub.closed)
    {
      sub.ch := sub.ch[1..];
      assert forall k, s :: k in subs && s in subs[k] ==> s in Registered();
    }

    /** Every subscriber of the key is sent the frame without blocking; nobody else's channel changes. */
    method Broadcast(key: string, f: W.Frame)
      requires Valid()
      modifies W.SubsOf(subs, key)
      ensures Valid() && subs == old(subs)
      ensures forall s :: s in W.SubsOf(subs, key) ==> s.ch == W.Sent(old(s.ch), f) && s.closed == old(s.closed)
    {
      var all := W.SubsOf(subs, key);
      var left := all;
      while left != {}
        invariant left <= all
        invariant forall s :: s in all - left ==> s.ch == W.Sent(old(s.ch), f)
        invariant forall s :: s in left ==> s.ch == old(s.ch)
        invariant forall s :: s in all ==> s.closed == old(s.closed)
        decreases left
      {
        var sub :| sub in left;
        left := left - {sub};
        if |sub.ch| < W.ChannelSize {
          sub.ch := sub.ch + [f];
        }
      }
    }
  }

  // --- the hub and the protocol ---

  /** The protocol state seen through a numbering of the subscribers: same registrations, same channels. */
  ghost predicate Mirrors(hub: Hub, s: W.System, ids: map<Subscriber, nat>)
    reads hub, ids.Keys
  {
    OneToOne(ids) && SameChannels(s.watchers, ids) && SameSubs(hub.subs, s.subs, ids)
  }

  ghost predicate OneToOne(ids: map<Subscriber, nat>) {
    forall a, b :: a in ids && b in ids && ids[a] == ids[b] ==> a == b
  }

  ghost predicate SameChannels(watchers: map<nat, W.Watcher>, ids: map<Subscriber, nat>)
    reads ids.Keys
  {
    forall a :: a in ids ==> ids[a] in watchers && watchers[ids[a]].ch == a.ch && watchers[ids[a]].closed == a.closed
  }

  ghost predicate SameSubs(subs: map<string, set<Subscriber>>, numbered: map<string, set<nat>>, ids: map<Subscriber, nat>) {
    && subs.Keys == numbered.Keys
    && (forall k :: k in subs ==> subs[k] <= ids.Keys)
    && (forall k, a :: k in subs && a in ids ==> (a in subs[k] <==> ids[a] in numbered[k]))
    && (forall k, id :: k in numbered && id in numbered[k] ==> exists a :: a in ids && ids[a] == id)
  }

  lemma JoinedSubs(subs: map<string, set<Subscriber>>, numbered: map<string, set<nat>>, ids: map<Subscriber, nat>,
                   key: string, sub: Subscriber, id: nat)
    requires SameSubs(subs, numbered, ids) && sub !in ids && forall a :: a in ids ==> ids[a] != id
    ensures SameSubs(subs[key := W.SubsOf(subs, key) + {sub}], numbered[key := W.SubsOf(numbered, key) + {id}], ids[sub := id])
  {
    var now := ids[sub := id];
    forall k, i | k in numbered && i in numbered[k] ensures exists a :: a in now && now[a] == i {
      var a: Subscriber :| a in ids && ids[a] == i;
      assert a in now && now[a] == i;
    }
    assert sub in now && now[sub] == id;
    forall k | k in subs ensures sub !in subs[k] {
      assert subs[k] <= ids.Keys;
    }
  }

  lemma LeftSubs(subs: map<string, set<Subscriber>>, numbered: map<string, set<nat>>, ids: map<Subscriber, nat>,
                 key: string, sub: Subscriber)
    requires SameSubs(subs, numbered, ids) && sub in ids
    requires forall a, b :: a in ids && b in ids && ids[a] == ids[b] ==> a == b
    ensures SameSubs(W.Without(subs, key, sub), W.Without(numbered, key, ids[sub]), ids)
  {
    if key in subs {
      var left, rest := subs[key] - {sub}, numbered[key] - {ids[sub]};
      assert left == {} <==> rest == {} by {
        if a: Subscriber :| a in left {
          assert ids[a] in rest;
        }
        if id :| id in rest {
          var a: Subscriber :| a in ids && ids[a] == id;
          assert a in left;
        }
      }
    }
  }

  lemma JoinedChannels(watchers: map<nat, W.Watcher>, ids: map<Subscriber, nat>, sub: Subscriber, id: nat, w: W.Watcher)
    requires OneToOne(ids) && SameChannels(watchers, ids) && id !in watchers && sub !in ids
    requires w.ch == sub.ch && w.closed == sub.closed
    ensures OneToOne(ids[sub := id]) && SameChannels(watchers[id := w], ids[sub := id])
  {
  }

  /** Subscribing is the protocol's join. */
  method SubscribeMirrors(hub: Hub, key: string, ghost s: W.System, ghost ids: map<Subscriber, nat>, ghost id: nat)
      returns (sub: Subscriber)
    requires hub.Valid() && Mirrors(hub, s, ids) && id !in s.watchers
    modifies hub
    ensures fresh(sub) && hub.Valid() && sub !in ids && Mirrors(hub, W.Joined(s, id, key), ids[sub := id])
  {
    ghost var subs := hub.subs;
    assert forall a :: a in ids ==> ids[a] in s.watchers;
    sub := hub.Subscribe(key);
    JoinedSubs(subs, s.subs, ids, key, sub, id);
    ghost var t := W.Joined(s, id, key);
    JoinedChannels(s.watchers, ids, sub, id, t.watchers[id]);
  }

  /** Who is offered a broadcast is the same on both sides. */
  lemma OfferedWatchers(subs: map<string, set<Subscriber>>, s: W.System, ids: map<Subscriber, nat>, key: string, f: W.Frame, a: Subscriber)
    requires SameSubs(subs, s.subs, ids) && a in ids && ids[a] in s.watchers
    ensures var t, w := W.Broadcasted(s, key, f), s.watchers[ids[a]];
      && t.subs == s.subs && ids[a] in t.watchers
      && t.watchers[ids[a]] == if a in W.SubsOf(subs, key) then W.Offered(w, f) else w
  {
  }

  /** Broadcasting is the protocol's broadcast. */
  method BroadcastMirrors(hub: Hub, key: string, f: W.Frame, ghost s: W.System, ghost ids: map<Subscriber, nat>)
    requires hub.Valid() && Mirrors(hub, s, ids)
    modifies W.SubsOf(hub.subs, key)
    ensures hub.Valid() && Mirrors(hub, W.Broadcasted(s, key, f), ids)
  {
    ghost var subs := hub.subs;
    hub.Broadcast(key, f);
    forall a | a in ids
      ensures var t := W.Broadcasted(s, key, f);
        ids[a] in t.watchers && t.watchers[ids[a]].ch == a.ch && t.watchers[ids[a]].closed == a.closed
    {
      OfferedWatchers(subs, s, ids, key, f, a);
    }
  }

  /** Unsubscribing under its own key is the protocol's leave. */
  method UnsubscribeMirrors(hub: Hub, key: string, sub: Subscriber, ghost s: W.System, ghost ids: map<Subscriber, nat>)
    requires hub.Valid() && Mirrors(hub, s, ids) && sub in ids && !sub.closed && s.watchers[ids[sub]].key == key
    requires forall k :: k in hub.subs && k != key ==> sub !in hub.subs[k]
    modifies hub, sub
    ensures hub.Valid() && Mirrors(hub, W.Left(s, ids[sub]), ids)
  {
    ghost var subs := hub.subs;
    hub.Unsubscribe(key, sub);
    LeftSubs(subs, s.subs, ids, key, sub);
  }

  // --- whole runs ---

  /** Every handler of the protocol has its subscriber. */
  ghost predicate Covers(s: W.System, ids: map<Subscriber, nat>) {
    forall id :: id in s.watchers ==> exists a :: a in ids && ids[a] == id
  }

  lemma CoversNext(s: W.System, a: W.Action, ids: map<Subscriber, nat>)
    requires Covers(s, ids) && !(a.Subscribe? && a.id !in s.watchers)
    ensures Covers(W.Next(s, a), ids)
  {
    assert W.Next(s, a).watchers.Keys == s.watchers.Keys;
  }

  lemma CoversJoined(s: W.System, id: nat, key: string, ids: map<Subscriber, nat>, sub: Subscriber)
    requires Covers(s, ids) && sub !in ids
    ensures Covers(W.Joined(s, id, key), ids[sub := id])
  {
    var now := ids[sub := id];
    forall i | i in W.Joined(s, id, key).watchers ensures exists a :: a in now && now[a] == i {
      assert sub in now && now[sub] == id;
      if i != id {
        var a: Subscriber :| a in ids && ids[a] == i;
        assert a in now && now[a] == i;
      }
    }
  }

  /** What safety of the protocol says of the subscriber of a streaming handler: open, and registered under its key alone. */
  lemma MayHangUp(hub: Hub, s: W.System, ids: map<Subscriber, nat>, sub: Subscriber)
    requires Mirrors(hub, s, ids) && W.HubSafe(s) && sub in ids && s.watchers[ids[sub]].phase == W.Streaming
    ensures !sub.closed && forall k :: k in hub.subs && k != s.watchers[ids[sub]].key ==> sub !in hub.subs[k]
  {
  }

  /** Steps that leave registrations and channels alone. */
  predicate Idle(s: W.System, a: W.Action) {
    match a
    case Broadcast(_, _) => false
    case Subscribe(id, _) => id in s.watchers
    case HangUp(id) => !(id in s.watchers && s.watchers[id].phase == W.Streaming)
    case Receive(id) => !(id in s.watchers && s.watchers[id].phase == W.Streaming && s.watchers[id].ch != [])
    case _ => true
  }

  lemma IdleMirrors(hub: Hub, s: W.System, a: W.Action, ids: map<Subscriber, nat>)
    requires Mirrors(hub, s, ids) && Idle(s, a)
    ensures Mirrors(hub, W.Next(s, a), ids)
  {
    assert W.Next(s, a).subs == s.subs;
  }

  /** A handler takes the first frame off its channel. */
  method Take(hub: Hub, sub: Subscriber, ghost s: W.System, ghost ids: map<Subscriber, nat>)
    requires hub.Valid() && Mirrors(hub, s, ids) && sub in ids && sub.ch != []
    modifies sub
    ensures hub.Valid() && Mirrors(hub, s.(watchers := s.watchers[ids[sub] := W.Received(s.watchers[ids[sub]])]), ids)
  {
    ghost var id := ids[sub];
    ghost var t := s.(watchers := s.watchers[id := W.Received(s.watchers[id])]);
    TakenWatchers(s, id);
    hub.Receive(sub);
    forall a | a in ids ensures ids[a] in t.watchers && t.watchers[ids[a]].ch == a.ch && t.watchers[ids[a]].closed == a.closed {
      assert a != sub ==> ids[a] != id;
    }
    assert SameSubs(hub.subs, t.subs, ids);
  }

  lemma TakenWatchers(s: W.System, id: nat)
    requires id in s.watchers && s.watchers[id].ch != []
    ensures var w, v := s.watchers[id], W.Received(s.watchers[id]); v.ch == w.ch[1..] && v.closed == w.closed
  {
  }

  lemma NextSteps(s: W.System, a: W.Action)
    ensures a.Broadcast? ==> W.Next(s, a) == W.Broadcasted(s, a.key, a.frame)
    ensures a.Subscribe? && !Idle(s, a) ==> W.Next(s, a) == W.Joined(s, a.id, a.key)
    ensures a.HangUp? && !Idle(s, a) ==> W.Next(s, a) == W.Left(s, a.id)
    ensures a.Receive? && !Idle(s, a) ==> W.Next(s, a) == s.(watchers := s.watchers[a.id := W.Received(s.watchers[a.id])])
  {
  }

  /** What each action of the protocol does to the hub and its channels. */
  method Step(hub: Hub, a: W.Action, s: W.System, ids: map<Subscriber, nat>) returns (now: map<Subscriber, nat>)
    requires hub.Valid() && Mirrors(hub, s, ids) && Covers(s, ids) && W.HubSafe(s)
    modifies hub, ids.Keys
    ensures hub.Valid() && Mirrors(hub, W.Next(s, a), now) && Covers(W.Next(s, a), now) && fresh(now.Keys - ids.Keys)
  {
    NextSteps(s, a);
    now := ids;
    if Idle(s, a) {
      IdleMirrors(hub, s, a, ids);
    } else if a.Broadcast? {
      assert W.SubsOf(hub.subs, a.key) <= ids.Keys;
      BroadcastMirrors(hub, a.key, a.frame, s, ids);
    } else if a.Subscribe? {
      now := Join(hub, a.id, a.key, s, ids);
      return;
    } else {
      var sub: Subscriber :| sub in ids && ids[sub] == a.id;
      if a.HangUp? {
        MayHangUp(hub, s, ids, sub);
        UnsubscribeMirrors(hub, s.watchers[a.id].key, sub, s, ids);
      } else {
        Take(hub, sub, s, ids);
      }
    }
    CoversNext(s, a, ids);
  }

  method Join(hub: Hub, id: nat, key: string, ghost s: W.System, ids: map<Subscriber, nat>) returns (now: map<Subscriber, nat>)
    requires hub.Valid() && Mirrors(hub, s, ids) && Covers(s, ids) && id !in s.watchers
    modifies hub
    ensures hub.Valid() && Mirrors(hub, W.Joined(s, id, key), now) && Covers(W.Joined(s, id, key), now) && fresh(now.Keys - ids.Keys)
  {
    var sub := SubscribeMirrors(hub, key, s, ids, id);
    CoversJoined(s, id, key, ids, sub);
    now := ids[sub := id];
  }

  /** Over every run the hub does what the protocol does: each operation is called only where it may be, so no send finds a
      closed channel and none is closed twice, and at the end the hub is the protocol's state. */
  method Serve(hub: Hub, actions: seq<W.Action>) returns (ids: map<Subscriber, nat>)
    requires hub.Valid() && hub.subs == map[]
    modifies hub
    ensures hub.Valid() && Mirrors(hub, W.Run(W.Initially, actions), ids) && W.HubSafe(W.Run(W.Initially, actions))
  {
    var s := W.Initially;
    ids := map[];
    for i := 0 to |actions|
      invariant s == W.Run(W.Initially, actions[..i])
      invariant hub.Valid() && Mirrors(hub, s, ids) && Covers(s, ids) && W.HubSafe(s) && fresh(ids.Keys)
    {
      assert actions[..i + 1] == actions[..i] + [actions[i]];
      W.RunSnoc(W.Initially, actions[..i], actions[i]);
      W.StepKeepsHubSafe(s, actions[i]);
      ids := Step(hub, actions[i], s, ids);
      s := W.Next(s, actions[i]);
    }
    assert actions[..|actions|] == actions;
  }

  // --- the handler ---

  datatype Selected = Got(frame: W.Frame) | KeepaliveDue

  ghost function Start(found: Option<W.Frame>): W.Watcher {
    W.Snapped(W.Watcher("", W.Subscribed, [], false, "", None, [], [], 0), found)
  }

  /** The loop over what select yields, in terms of the protocol's own steps. */
  ghost function After(w: W.Watcher, selected: seq<Selected>): W.Watcher {
    if selected == [] then w
    else
      var n := |selected| - 1;
      var v := After(w, selected[..n]);
      match selected[n]
      case Got(f) => W.Received(v.(ch := [f]))
      case KeepaliveDue => v.(out := v.out + [W.Keepalive])
  }

  /** The frames that came off the channel, in order. */
  function Taken(selected: seq<Selected>): seq<W.Frame> {
    if selected == [] then []
    else
      var n := |selected| - 1;
      if selected[n].Got? then Taken(selected[..n]) + [selected[n].frame] else Taken(selected[..n])
  }

  function Ticks(selected: seq<Selected>): nat {
    if selected == [] then 0
    else Ticks(selected[..|selected| - 1]) + (if selected[|selected| - 1].KeepaliveDue? then 1 else 0)
  }

  /** The loop in terms of the protocol's steps hands out the same as the reference. */
  lemma {:induction false} AfterShows(found: Option<W.Frame>, selected: seq<Selected>)
    ensures var w := After(Start(found), selected); D.Shows(w.out, w.floor, found, Taken(selected))
  {
    if selected == [] {
      D.EventsNext([], W.Keepalive);
      if found.Some? {
        D.EventsNext([], W.Event(found.value));
      }
    } else {
      var n := |selected| - 1;
      AfterShows(found, selected[..n]);
      var v := After(Start(found), selected[..n]);
      match selected[n]
      case Got(f) => D.ShowsMore(v.out, v.floor, found, Taken(selected[..n]), f);
      case KeepaliveDue => D.EventsNext(v.out, W.Keepalive);
    }
  }

  /** One connection: the snapshot if there is one, then every frame newer than the one before, whole and in order, and
      one keepalive each time it is due. */
  method HandleWatch(found: Option<W.Frame>, selected: seq<Selected>) returns (out: seq<W.Item>, lastRV: string)
    ensures D.Shows(out, lastRV, found, Taken(selected))
    ensures |out| == |D.Events(out)| + Ticks(selected)
    ensures out == After(Start(found), selected).out && lastRV == After(Start(found), selected).floor
  {
    lastRV, out := "", [];
    if found.Some? {
      out := out + [W.Event(found.value)];
      lastRV := found.value.rv;
    }
    for i := 0 to |selected|
      invariant out == After(Start(found), selected[..i]).out
      invariant lastRV == After(Start(found), selected[..i]).floor
    {
      assert selected[..i + 1][..i] == selected[..i];
      match selected[i]
      case Got(f) =>
        if !IsNewer(f.rv, lastRV) {
          continue;
        }
        lastRV := f.rv;
        out := out + [W.Event(f)];
      case KeepaliveDue =>
        out := out + [W.Keepalive];
    }
    assert selected[..|selected|] == selected;
    AfterShows(found, selected);
    AfterTicks(found, selected);
  }

  lemma {:induction false} AfterTicks(found: Option<W.Frame>, selected: seq<Selected>)
    ensures var w := After(Start(found), selected); |w.out| == |D.Events(w.out)| + Ticks(selected)
  {
    if selected == [] {
      if found.Some? {
        D.EventsNext([], W.Event(found.value));
      }
    } else {
      var n := |selected| - 1;
      AfterTicks(found, selected[..n]);
      var v := After(Start(found), selected[..n]);
      match selected[n]
      case Got(f) => D.EventsNext(v.out, W.Event(f));
      case KeepaliveDue => D.EventsNext(v.out, W.Keepalive);
    }
  }
}
