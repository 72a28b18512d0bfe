/**
 The Registry's watch protocol: a store, an informer that broadcasts, and any number of watch handlers,
 interleaved step by step. The hub's operations are atomic because its mutex is held throughout each.
 */
module Watch {
  import opened Lists
  import opened ResourceVersion

  const ChannelSize: nat := 8

  datatype Frame = Frame(rv: string, payload: string)

  datatype Item = Event(frame: Frame) | Keepalive

  datatype Offer = Offer(rv: string, accepted: bool)

  /** Where a handler stands: before its snapshot, in its loop, or returned and unsubscribed. */
  datatype Phase = Subscribed | Streaming | Gone

  /** One handler with its subscriber channel. offers and since record history for the statements below. */
  datatype Watcher = Watcher(
    key: string,
    phase: Phase,
    ch: seq<Frame>,
    closed: bool,
    floor: string,
    snapshot: Option<string>,
    out: seq<Item>,
    offers: seq<Offer>,
    since: nat)

  datatype System = System(
    store: map<string, Frame>,
    subs: map<string, set<nat>>,
    watchers: map<nat, Watcher>,
    history: map<string, seq<string>>,
    panicked: bool)

  datatype Action =
    | StorePut(key: string, frame: Frame)
    | StoreDelete(key: string)
    | Broadcast(key: string, frame: Frame)
    | Subscribe(id: nat, key: string)
    | TakeSnapshot(id: nat)
    | Receive(id: nat)
    | Tick(id: nat)
    | HangUp(id: nat)

  const Initially := System(map[], map[], map[], map[], false)

  // --- one watcher ---

  /** A non-blocking send: a full channel drops the frame being sent. */
  function Sent(ch: seq<Frame>, f: Frame): seq<Frame> {
    if |ch| < ChannelSize then ch + [f] else ch
  }

  function Offered(w: Watcher, f: Frame): Watcher {
    w.(ch := Sent(w.ch, f), offers := w.offers + [Offer(f.rv, |w.ch| < ChannelSize)])
  }

  /** The live read before the loop; the Agent may not exist. */
  function Snapped(w: Watcher, found: Option<Frame>): Watcher {
    if found.None? then w.(phase := Streaming)
    else w.(phase := Streaming, floor := found.value.rv, snapshot := Some(found.value.rv), out := w.out + [Event(found.value)])
  }

  /** One frame off the channel: written if newer than the floor, discarded otherwise. */
  function Received(w: Watcher): Watcher
    requires w.ch != []
  {
    var f := w.ch[0];
    if IsNewer(f.rv, w.floor) then w.(ch := w.ch[1..], floor := f.rv, out := w.out + [Event(f)])
    else w.(ch := w.ch[1..])
  }

  // --- the hub's map ---

  function SubsOf<T>(subs: map<string, set<T>>, key: string): set<T> {
    if key in subs then subs[key] else {}
  }

  /** A registration removed; a key left without subscribers goes too. */
  function Without<T(==)>(subs: map<string, set<T>>, key: string, id: T): map<string, set<T>> {
    if key !in subs then subs
    else
      var left := subs[key] - {id};
      if left == {} then subs - {key} else subs[key := left]
  }

  function HistoryOf(s: System, key: string): seq<string> {
    if key in s.history then s.history[key] else []
  }

  // --- steps ---

  /** Each subscriber of the key is offered the frame; a send to a closed or unknown channel would panic. */
  function Broadcasted(s: System, key: string, f: Frame): System {
    var to := SubsOf(s.subs, key);
    s.(watchers := map id | id in s.watchers :: if id in to then Offered(s.watchers[id], f) else s.watchers[id],
       history := s.history[key := HistoryOf(s, key) + [f.rv]],
       panicked := s.panicked || exists id :: id in to && (id !in s.watchers || s.watchers[id].closed))
  }

  function Joined(s: System, id: nat, key: string): System {
    s.(subs := s.subs[key := SubsOf(s.subs, key) + {id}],
       watchers := s.watchers[id := Watcher(key, Subscribed, [], false, "", None, [], [], |HistoryOf(s, key)|)])
  }

  /** The deferred unsubscribe: drop the registration, then close the channel; closing it again would panic. */
  function Left(s: System, id: nat): System
    requires id in s.watchers
  {
    var w := s.watchers[id];
    s.(subs := Without(s.subs, w.key, id),
       watchers := s.watchers[id := w.(phase := Gone, closed := true)],
       panicked := s.panicked || w.closed)
  }

  /** What each action does; an action its handler is not ready for does nothing. */
  function Next(s: System, a: Action): System {
    match a
    case StorePut(k, f) => s.(store := s.store[k := f])
    case StoreDelete(k) => s.(store := s.store - {k})
    case Broadcast(k, f) => Broadcasted(s, k, f)
    case Subscribe(id, k) => if id in s.watchers then s else Joined(s, id, k)
    case TakeSnapshot(id) =>
      if id in s.watchers && s.watchers[id].phase == Subscribed then
        var w := s.watchers[id];
        s.(watchers := s.watchers[id := Snapped(w, if w.key in s.store then Some(s.store[w.key]) else None)])
      else s
    case Receive(id) =>
      if id in s.watchers && s.watchers[id].phase == Streaming && s.watchers[id].ch != [] then
        s.(watchers := s.watchers[id := Received(s.watchers[id])])
      else s
    case Tick(id) =>
      if id in s.watchers && s.watchers[id].phase == Streaming then
        s.(watchers := s.watchers[id := s.watchers[id].(out := s.watchers[id].out + [Keepalive])])
      else s
    case HangUp(id) => if id in s.watchers && s.watchers[id].phase == Streaming then Left(s, id) else s
  }

  function Run(s: System, actions: seq<Action>): System
    decreases |actions|
  {
    if actions == [] then s else Run(Next(s, actions[0]), actions[1..])
  }

  lemma {:induction false} RunSnoc(s: System, actions: seq<Action>, a: Action)
    ensures Run(s, actions + [a]) == Next(Run(s, actions), a)
    decreases |actions|
  {
    if actions == [] {
      assert [a][1..] == [];
      assert Run(Next(s, a), []) == Next(s, a);
    } else {
      assert (actions + [a])[1..] == actions[1..] + [a];
      RunSnoc(Next(s, actions[0]), actions[1..], a);
    }
  }

  // --- hub safety ---

  ghost predicate HubSafe(s: System) {
    && !s.panicked
    && (forall k :: k in s.subs ==> s.subs[k] != {})
    && (forall k, id :: k in s.subs && id in s.subs[k] ==> id in s.watchers && s.watchers[id].key == k && !s.watchers[id].closed)
    && (forall id :: id in s.watchers ==>
          && |s.watchers[id].ch| <= ChannelSize
          && (s.watchers[id].closed <==> s.watchers[id].phase == Gone)
          && (!s.watchers[id].closed ==> id in SubsOf(s.subs, s.watchers[id].key)))
  }

  lemma BroadcastKeepsHubSafe(s: System, key: string, f: Frame)
    requires HubSafe(s)
    ensures HubSafe(Broadcasted(s, key, f))
  {
  }

  lemma JoinKeepsHubSafe(s: System, id: nat, key: string)
    requires HubSafe(s) && id !in s.watchers
    ensures HubSafe(Joined(s, id, key))
  {
    var t := Joined(s, id, key);
    assert id in t.subs[key];
    assert forall k :: k in s.subs ==> id !in s.subs[k];
  }

  lemma LeaveKeepsHubSafe(s: System, id: nat)
    requires HubSafe(s) && id in s.watchers && !s.watchers[id].closed
    ensures HubSafe(Left(s, id))
  {
  }

  /** A step of one handler that keeps its key and leaves its channel open and within bounds. */
  lemma HandlerKeepsHubSafe(s: System, id: nat, w: Watcher)
    requires HubSafe(s) && id in s.watchers && !s.watchers[id].closed
    requires w.key == s.watchers[id].key && !w.closed && w.phase != Gone && |w.ch| <= ChannelSize
    ensures HubSafe(s.(watchers := s.watchers[id := w]))
  {
  }

  lemma StepKeepsHubSafe(s: System, a: Action)
    requires HubSafe(s)
    ensures HubSafe(Next(s, a))
  {
    if Next(s, a) != s {
      match a
      case StorePut(_, _) =>
      case StoreDelete(_) =>
      case Broadcast(k, f) => BroadcastKeepsHubSafe(s, k, f);
      case Subscribe(id, k) => JoinKeepsHubSafe(s, id, k);
      case HangUp(id) => LeaveKeepsHubSafe(s, id);
      case _ => HandlerKeepsHubSafe(s, a.id, Next(s, a).watchers[a.id]);
    }
  }

  /** No interleaving makes the hub send on a closed channel, close one twice, keep an empty key or overfill a channel. */
  lemma {:induction false} HubIsSafe(s: System, actions: seq<Action>)
    requires HubSafe(s)
    ensures HubSafe(Run(s, actions))
    decreases |actions|
  {
    if actions != [] {
      StepKeepsHubSafe(s, actions[0]);
      HubIsSafe(Next(s, actions[0]), actions[1..]);
    }
  }

  /** A broadcast to one key leaves the watchers of every other key alone. */
  lemma BroadcastIsLocal(s: System, key: string, f: Frame, id: nat)
    requires HubSafe(s) && id in s.watchers && s.watchers[id].key != key
    ensures Next(s, Broadcast(key, f)).watchers[id] == s.watchers[id]
  {
  }
}
