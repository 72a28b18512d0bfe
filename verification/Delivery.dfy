/** What a watcher is handed, frame by frame: which frames, in which order, each with its own configuration. */
module Delivery {
  import opened Lists
  import opened ResourceVersion
  import W = Watch
  import WP = WatchProperties

  // --- the reference: one list of frames in, one list of frames shown ---

  function FloorOf(shown: seq<W.Frame>): string {
    if shown == [] then "" else shown[|shown| - 1].rv
  }

  /** The snapshot, then each arriving frame that is newer than the last one shown. */
  function Shown(snapshot: Option<W.Frame>, frames: seq<W.Frame>): seq<W.Frame> {
    if frames == [] then if snapshot.Some? then [snapshot.value] else []
    else
      var n := |frames| - 1;
      var before := Shown(snapshot, frames[..n]);
      if IsNewer(frames[n].rv, FloorOf(before)) then before + [frames[n]] else before
  }

  lemma ShownNext(snapshot: Option<W.Frame>, frames: seq<W.Frame>, f: W.Frame)
    ensures var before := Shown(snapshot, frames);
      Shown(snapshot, frames + [f]) == if IsNewer(f.rv, FloorOf(before)) then before + [f] else before
  {
    assert (frames + [f])[..|frames|] == frames;
  }

  /** The frames among the written items, in order. */
  function Events(out: seq<W.Item>): seq<W.Frame> {
    if out == [] then []
    else
      var n := |out| - 1;
      Events(out[..n]) + (if out[n].Event? then [out[n].frame] else [])
  }

  lemma EventsNext(out: seq<W.Item>, x: W.Item)
    ensures Events(out + [x]) == Events(out) + (if x.Event? then [x.frame] else [])
  {
    assert (out + [x])[..|out|] == out;
  }

  // --- what a run sends to a watcher, read off its actions ---

  /** The broadcasts for the watcher's key that found room in its channel, in order. */
  ghost function Arrived(actions: seq<W.Action>, id: nat): seq<W.Frame> {
    if actions == [] then []
    else
      var n := |actions| - 1;
      var s := W.Run(W.Initially, actions[..n]);
      Arrived(actions[..n], id) +
      (match actions[n]
       case Broadcast(k, f) =>
         if id in s.watchers && id in W.SubsOf(s.subs, k) && |s.watchers[id].ch| < W.ChannelSize then [f] else []
       case _ => [])
  }

  /** What the store held under the watcher's key when it took its snapshot. */
  ghost function Snapshot(actions: seq<W.Action>, id: nat): Option<W.Frame> {
    if actions == [] then None
    else
      var n := |actions| - 1;
      var s := W.Run(W.Initially, actions[..n]);
      if actions[n] == W.TakeSnapshot(id) && id in s.watchers && s.watchers[id].phase == W.Subscribed
      then if s.watchers[id].key in s.store then Some(s.store[s.watchers[id].key]) else None
      else Snapshot(actions[..n], id)
  }

  // --- the invariant ---

  /** What was written is what these frames show, and the floor is the last version of it. */
  ghost predicate Shows(out: seq<W.Item>, floor: string, snapshot: Option<W.Frame>, taken: seq<W.Frame>) {
    Events(out) == Shown(snapshot, taken) && floor == FloorOf(Events(out))
  }

  /** The channel holds what arrived and was not taken; what was taken has been shown. */
  ghost predicate Follows(w: W.Watcher, snapshot: Option<W.Frame>, arrived: seq<W.Frame>) {
    && |w.ch| <= |arrived|
    && var taken := |arrived| - |w.ch|;
      && w.ch == arrived[taken..]
      && Shows(w.out, w.floor, snapshot, arrived[..taken])
      && (w.phase == W.Subscribed ==> taken == 0 && snapshot.None? && w.out == [])
  }

  lemma OfferFollows(w: W.Watcher, snapshot: Option<W.Frame>, arrived: seq<W.Frame>, f: W.Frame)
    requires Follows(w, snapshot, arrived)
    ensures Follows(W.Offered(w, f), snapshot, if |w.ch| < W.ChannelSize then arrived + [f] else arrived)
  {
    if |w.ch| < W.ChannelSize {
      var taken := |arrived| - |w.ch|;
      assert (arrived + [f])[..taken] == arrived[..taken];
      assert (arrived + [f])[taken..] == arrived[taken..] + [f];
    }
  }

  lemma SnapshotFollows(w: W.Watcher, arrived: seq<W.Frame>, found: Option<W.Frame>)
    requires Follows(w, None, arrived) && w.phase == W.Subscribed
    ensures Follows(W.Snapped(w, found), found, arrived)
  {
    assert arrived[..0] == [];
    if found.Some? {
      EventsNext(w.out, W.Event(found.value));
    }
  }

  /** One more frame, written or discarded. */
  lemma ShowsMore(out: seq<W.Item>, floor: string, snapshot: Option<W.Frame>, taken: seq<W.Frame>, f: W.Frame)
    requires Shows(out, floor, snapshot, taken)
    ensures if IsNewer(f.rv, floor) then Shows(out + [W.Event(f)], f.rv, snapshot, taken + [f])
            else Shows(out, floor, snapshot, taken + [f])
  {
    ShownNext(snapshot, taken, f);
    EventsNext(out, W.Event(f));
  }

  lemma ReceiveFollows(w: W.Watcher, snapshot: Option<W.Frame>, arrived: seq<W.Frame>)
    requires Follows(w, snapshot, arrived) && w.phase == W.Streaming && w.ch != []
    ensures Follows(W.Received(w), snapshot, arrived)
  {
    var taken, f := |arrived| - |w.ch|, w.ch[0];
    HeadTaken(w.ch, arrived, taken);
    ShowsMore(w.out, w.floor, snapshot, arrived[..taken], f);
    assert |w.ch[1..]| == |w.ch| - 1;
  }

  lemma HeadTaken(ch: seq<W.Frame>, arrived: seq<W.Frame>, taken: nat)
    requires ch != [] && taken + |ch| == |arrived| && ch == arrived[taken..]
    ensures arrived[..taken + 1] == arrived[..taken] + [ch[0]] && ch[1..] == arrived[taken + 1..]
  {
    assert arrived[taken] == ch[0];
  }

  lemma KeepaliveFollows(w: W.Watcher, snapshot: Option<W.Frame>, arrived: seq<W.Frame>)
    requires Follows(w, snapshot, arrived) && w.phase == W.Streaming
    ensures Follows(w.(out := w.out + [W.Keepalive]), snapshot, arrived)
  {
    EventsNext(w.out, W.Keepalive);
  }

  lemma GoneFollows(w: W.Watcher, snapshot: Option<W.Frame>, arrived: seq<W.Frame>)
    requires Follows(w, snapshot, arrived)
    ensures Follows(w.(phase := W.Gone, closed := true), snapshot, arrived)
  {
  }

  function Found(s: W.System, w: W.Watcher): Option<W.Frame> {
    if w.key in s.store then Some(s.store[w.key]) else None
  }

  /** A watcher and the two readings it is measured against. */
  datatype Account = Account(w: W.Watcher, snapshot: Option<W.Frame>, arrived: seq<W.Frame>)

  ghost predicate Balanced(x: Account) {
    Follows(x.w, x.snapshot, x.arrived)
  }

  /** A handler's own action. */
  function Own(s: W.System, a: W.Action, x: Account): Account {
    if a.TakeSnapshot? && x.w.phase == W.Subscribed then x.(w := W.Snapped(x.w, Found(s, x.w)), snapshot := Found(s, x.w))
    else if a.Receive? && x.w.phase == W.Streaming && x.w.ch != [] then x.(w := W.Received(x.w))
    else if a.Tick? && x.w.phase == W.Streaming then x.(w := x.w.(out := x.w.out + [W.Keepalive]))
    else if a.HangUp? && x.w.phase == W.Streaming then x.(w := x.w.(phase := W.Gone, closed := true))
    else x
  }

  lemma OwnIsBalanced(s: W.System, a: W.Action, x: Account)
    requires Balanced(x)
    ensures Balanced(Own(s, a, x))
  {
    if a.TakeSnapshot? && x.w.phase == W.Subscribed {
      SnapshotFollows(x.w, x.arrived, Found(s, x.w));
    } else if a.Receive? && x.w.phase == W.Streaming && x.w.ch != [] {
      ReceiveFollows(x.w, x.snapshot, x.arrived);
    } else if a.Tick? && x.w.phase == W.Streaming {
      KeepaliveFollows(x.w, x.snapshot, x.arrived);
    } else if a.HangUp? && x.w.phase == W.Streaming {
      GoneFollows(x.w, x.snapshot, x.arrived);
    }
  }

  lemma OwnIsTheStep(s: W.System, a: W.Action, x: Account)
    requires !a.Broadcast?
    ensures var y := Own(s, a, x);
      && y.w == WP.WatcherAfter(s, a, x.w, true, false) && y.arrived == x.arrived
      && y.snapshot == if a.TakeSnapshot? && x.w.phase == W.Subscribed then Found(s, x.w) else x.snapshot
  {
  }

  /** What an action does to one watcher, against what it adds to the two readings. */
  lemma AfterFollows(s: W.System, a: W.Action, w: W.Watcher, mine: bool, subscribed: bool, snapshot: Option<W.Frame>, arrived: seq<W.Frame>)
    requires Follows(w, snapshot, arrived) && (subscribed ==> a.Broadcast?)
    ensures Follows(
              WP.WatcherAfter(s, a, w, mine, subscribed),
              if a.TakeSnapshot? && mine && w.phase == W.Subscribed then Found(s, w) else snapshot,
              if subscribed && |w.ch| < W.ChannelSize then arrived + [a.frame] else arrived)
  {
    if subscribed {
      OfferFollows(w, snapshot, arrived, a.frame);
    } else if a.Broadcast? || !mine {
      assert WP.WatcherAfter(s, a, w, mine, subscribed) == w;
    } else {
      var x := Account(w, snapshot, arrived);
      OwnIsBalanced(s, a, x);
      OwnIsTheStep(s, a, x);
    }
  }

  /** One action, on a watcher that was there before. */
  lemma StepFollows(actions: seq<W.Action>, a: W.Action, id: nat)
    requires var s := W.Run(W.Initially, actions);
      id in s.watchers && Follows(s.watchers[id], Snapshot(actions, id), Arrived(actions, id))
    ensures var t := W.Run(W.Initially, actions + [a]);
      id in t.watchers && Follows(t.watchers[id], Snapshot(actions + [a], id), Arrived(actions + [a], id))
  {
    var s := W.Run(W.Initially, actions);
    W.RunSnoc(W.Initially, actions, a);
    WP.NextWatcher(s, a, id);
    ReadOff(actions, a, id);
    AfterFollows(s, a, s.watchers[id], WP.Mine(a, id), a.Broadcast? && id in W.SubsOf(s.subs, a.key),
                 Snapshot(actions, id), Arrived(actions, id));
  }

  /** The two readings of the actions, one action further. */
  lemma ReadOff(actions: seq<W.Action>, a: W.Action, id: nat)
    requires id in W.Run(W.Initially, actions).watchers
    ensures var s := W.Run(W.Initially, actions); var w := s.watchers[id];
      && Arrived(actions + [a], id) ==
           (if a.Broadcast? && id in W.SubsOf(s.subs, a.key) && |w.ch| < W.ChannelSize
            then Arrived(actions, id) + [a.frame] else Arrived(actions, id))
      && Snapshot(actions + [a], id) ==
           (if a == W.TakeSnapshot(id) && w.phase == W.Subscribed
            then Found(s, w) else Snapshot(actions, id))
  {
    assert (actions + [a])[..|actions|] == actions;
  }

  /** Before a watcher subscribes nothing arrives for it and it takes no snapshot. */
  lemma {:induction false} NothingBefore(actions: seq<W.Action>, id: nat)
    requires id !in W.Run(W.Initially, actions).watchers
    ensures Arrived(actions, id) == [] && Snapshot(actions, id).None?
  {
    if actions != [] {
      var n := |actions| - 1;
      assert actions == actions[..n] + [actions[n]];
      W.RunSnoc(W.Initially, actions[..n], actions[n]);
      StaysKnown(W.Run(W.Initially, actions[..n]), actions[n], id);
      NothingBefore(actions[..n], id);
    }
  }

  lemma StaysKnown(s: W.System, a: W.Action, id: nat)
    ensures id in s.watchers ==> id in W.Next(s, a).watchers
  {
  }

  lemma NewcomerFollows(actions: seq<W.Action>, a: W.Action, id: nat)
    requires id !in W.Run(W.Initially, actions).watchers && id in W.Run(W.Initially, actions + [a]).watchers
    ensures Follows(W.Run(W.Initially, actions + [a]).watchers[id], Snapshot(actions + [a], id), Arrived(actions + [a], id))
  {
    NothingBefore(actions, id);
    W.RunSnoc(W.Initially, actions, a);
    assert (actions + [a])[..|actions|] == actions;
  }

  /** Over every run a watcher has been shown exactly its snapshot and, of the frames that arrived and were taken, those
      newer than the one shown before, whole and in order; and its floor is the version shown last. */
  lemma {:induction false} ShownExactly(actions: seq<W.Action>, id: nat)
    requires id in W.Run(W.Initially, actions).watchers
    ensures Follows(W.Run(W.Initially, actions).watchers[id], Snapshot(actions, id), Arrived(actions, id))
  {
    if actions != [] {
      var n := |actions| - 1;
      assert actions == actions[..n] + [actions[n]];
      if id in W.Run(W.Initially, actions[..n]).watchers {
        ShownExactly(actions[..n], id);
        StepFollows(actions[..n], actions[n], id);
      } else {
        NewcomerFollows(actions[..n], actions[n], id);
      }
    }
  }

  // --- where a frame comes from ---

  /** The frame was broadcast for the key after the watcher subscribed under it. */
  ghost predicate BroadcastSince(actions: seq<W.Action>, id: nat, key: string, f: W.Frame) {
    exists j, i :: 0 <= j < i < |actions| && actions[j] == W.Subscribe(id, key) && actions[i] == W.Broadcast(key, f)
  }

  ghost predicate HeldAtSnapshot(actions: seq<W.Action>, id: nat, key: string, f: W.Frame) {
    exists i :: 0 <= i < |actions| && actions[i] == W.TakeSnapshot(id) &&
      var s := W.Run(W.Initially, actions[..i]); key in s.store && s.store[key] == f
  }

  lemma JoinsBySubscribing(s: W.System, a: W.Action, id: nat)
    requires id !in s.watchers && id in W.Next(s, a).watchers
    ensures a == W.Subscribe(id, W.Next(s, a).watchers[id].key)
  {
  }

  /** A watcher there is one that subscribed under its key. */
  lemma {:induction false} SubscribedUnder(actions: seq<W.Action>, id: nat)
    requires id in W.Run(W.Initially, actions).watchers
    ensures exists j :: 0 <= j < |actions| && actions[j] == W.Subscribe(id, W.Run(W.Initially, actions).watchers[id].key)
  {
    var n := |actions| - 1;
    if actions == [] {
      assert false;
    } else {
      var s := W.Run(W.Initially, actions[..n]);
      assert actions == actions[..n] + [actions[n]];
      W.RunSnoc(W.Initially, actions[..n], actions[n]);
      if id in s.watchers {
        SubscribedUnder(actions[..n], id);
        KeepsKey(s, actions[n], id);
        var j :| 0 <= j < n && actions[..n][j] == W.Subscribe(id, s.watchers[id].key);
        assert actions[j] == W.Subscribe(id, s.watchers[id].key);
      } else {
        JoinsBySubscribing(s, actions[n], id);
      }
    }
  }

  lemma KeepsKey(s: W.System, a: W.Action, id: nat)
    requires id in s.watchers
    ensures id in W.Next(s, a).watchers && W.Next(s, a).watchers[id].key == s.watchers[id].key
  {
    WP.NextWatcher(s, a, id);
  }

  lemma {:induction false} ArrivedSince(actions: seq<W.Action>, id: nat, f: W.Frame)
    requires id in W.Run(W.Initially, actions).watchers && f in Arrived(actions, id)
    ensures BroadcastSince(actions, id, W.Run(W.Initially, actions).watchers[id].key, f)
  {
    if actions == [] {
      assert false;
    } else {
      var n := |actions| - 1;
      var s, a := W.Run(W.Initially, actions[..n]), actions[n];
      assert actions == actions[..n] + [a];
      W.RunSnoc(W.Initially, actions[..n], a);
      if id in s.watchers {
        KeepsKey(s, a, id);
        ReadOff(actions[..n], a, id);
        if f in Arrived(actions[..n], id) {
          ArrivedSince(actions[..n], id, f);
          Earlier(actions[..n], a, id, s.watchers[id].key, f);
        } else {
          SubscribedUnder(actions[..n], id);
          W.HubIsSafe(W.Initially, actions[..n]);
          var j :| 0 <= j < n && actions[..n][j] == W.Subscribe(id, s.watchers[id].key);
          assert actions[j] == W.Subscribe(id, s.watchers[id].key) && actions[n] == W.Broadcast(s.watchers[id].key, f);
        }
      } else {
        NothingBefore(actions[..n], id);
      }
    }
  }

  lemma Earlier(actions: seq<W.Action>, a: W.Action, id: nat, key: string, f: W.Frame)
    requires BroadcastSince(actions, id, key, f)
    ensures BroadcastSince(actions + [a], id, key, f)
  {
    var j, i :| 0 <= j < i < |actions| && actions[j] == W.Subscribe(id, key) && actions[i] == W.Broadcast(key, f);
    assert (actions + [a])[j] == W.Subscribe(id, key) && (actions + [a])[i] == W.Broadcast(key, f);
  }

  lemma {:induction false} SnapshotHeld(actions: seq<W.Action>, id: nat)
    requires id in W.Run(W.Initially, actions).watchers && Snapshot(actions, id).Some?
    ensures HeldAtSnapshot(actions, id, W.Run(W.Initially, actions).watchers[id].key, Snapshot(actions, id).value)
  {
    if actions == [] {
      assert false;
    } else {
      var n := |actions| - 1;
      var s, a := W.Run(W.Initially, actions[..n]), actions[n];
      assert actions == actions[..n] + [a];
      W.RunSnoc(W.Initially, actions[..n], a);
      if id in s.watchers {
        KeepsKey(s, a, id);
        var key := s.watchers[id].key;
        if !(a == W.TakeSnapshot(id) && s.watchers[id].phase == W.Subscribed) {
          SnapshotHeld(actions[..n], id);
          var i :| 0 <= i < n && actions[..n][i] == W.TakeSnapshot(id) &&
            var s := W.Run(W.Initially, actions[..n][..i]); key in s.store && s.store[key] == Snapshot(actions[..n], id).value;
          assert actions[..n][..i] == actions[..i];
        }
      } else {
        NothingBefore(actions[..n], id);
      }
    }
  }

  lemma {:induction false} ShownFrom(snapshot: Option<W.Frame>, frames: seq<W.Frame>, f: W.Frame)
    requires f in Shown(snapshot, frames)
    ensures snapshot == Some(f) || f in frames
  {
    if frames != [] {
      var n := |frames| - 1;
      assert frames == frames[..n] + [frames[n]];
      if f in Shown(snapshot, frames[..n]) {
        ShownFrom(snapshot, frames[..n], f);
      }
    }
  }

  /** Every frame handed to a watcher is one of its own Agent, whole: the store held it when the snapshot was taken, or it
      was broadcast under the watcher's key since it subscribed. */
  lemma EveryFrameHasASource(actions: seq<W.Action>, id: nat, f: W.Frame)
    requires id in W.Run(W.Initially, actions).watchers && f in Events(W.Run(W.Initially, actions).watchers[id].out)
    ensures var key := W.Run(W.Initially, actions).watchers[id].key;
      HeldAtSnapshot(actions, id, key, f) || BroadcastSince(actions, id, key, f)
  {
    var w := W.Run(W.Initially, actions).watchers[id];
    var arrived := Arrived(actions, id);
    ShownExactly(actions, id);
    ShownFrom(Snapshot(actions, id), arrived[..|arrived| - |w.ch|], f);
    if Snapshot(actions, id) == Some(f) {
      SnapshotHeld(actions, id);
    } else {
      ArrivedSince(actions, id, f);
    }
  }
}
