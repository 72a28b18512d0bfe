/** The event stream on the wire, and a client that reads it by sections 9.2.5 and 9.2.6 of the WHATWG HTML standard. */
module EventStream {
  import opened Lists
  import opened ResourceVersion
  import W = Watch
  import WP = WatchProperties
  import D = Delivery

  // --- the writer ---

  function Wire(item: W.Item): string {
    match item
    case Event(f) => "data: " + f.payload + "\n\n"
    case Keepalive => ": keepalive\n\n"
  }

  function Stream(items: seq<W.Item>): string {
    FlatMap(items, (i: W.Item) => Wire(i))
  }

  // --- the reader ---

  datatype Message = Message(kind: string, data: string)

  /** The interpretation state: the line being read, the data and event type buffers, and what was dispatched. */
  datatype Reader = Reader(line: string, afterCR: bool, data: string, kind: string, dispatched: seq<Message>)

  const ByteOrderMark := '\U{FEFF}'

  function Dispatch(r: Reader): Reader {
    if r.data == "" then r.(kind := "")
    else
      var text := if r.data[|r.data| - 1] == '\n' then r.data[..|r.data| - 1] else r.data;
      r.(data := "", kind := "", dispatched := r.dispatched + [Message(if r.kind == "" then "message" else r.kind, text)])
  }

  /** Fields other than data and event do not affect what is dispatched. */
  function ProcessField(r: Reader, field: string, value: string): Reader {
    if field == "data" then r.(data := r.data + value + "\n")
    else if field == "event" then r.(kind := value)
    else r
  }

  function Colon(line: string): nat {
    if line == "" || line[0] == ':' then 0 else 1 + Colon(line[1..])
  }

  lemma {:induction false} ColonInRange(line: string)
    ensures Colon(line) <= |line|
  {
    if line != "" && line[0] != ':' {
      ColonInRange(line[1..]);
    }
  }

  function ProcessLine(r: Reader, line: string): Reader {
    if line == "" then Dispatch(r)
    else if line[0] == ':' then r
    else
      var i := Colon(line);
      ColonInRange(line);
      if i == |line| then ProcessField(r, line, "")
      else
        var value := line[i + 1..];
        ProcessField(r, line[..i], if value != "" && value[0] == ' ' then value[1..] else value)
  }

  function EndLine(r: Reader): Reader {
    ProcessLine(r.(line := "", afterCR := false), r.line)
  }

  /** Lines end with CR, LF or CRLF. */
  function Read(r: Reader, c: char): Reader {
    if c == '\n' then if r.afterCR then r.(afterCR := false) else EndLine(r)
    else if c == '\r' then EndLine(r).(afterCR := true)
    else r.(line := r.line + [c], afterCR := false)
  }

  function Feed(r: Reader, s: string): Reader
    decreases |s|
  {
    if s == "" then r else Feed(Read(r, s[0]), s[1..])
  }

  const Fresh := Reader("", false, "", "", [])

  /** What a client dispatches from the characters received so far; an unfinished event is never dispatched. */
  function Dispatched(s: string): seq<Message> {
    Feed(Fresh, if s != "" && s[0] == ByteOrderMark then s[1..] else s).dispatched
  }

  // --- feeding ---

  lemma {:induction false} FeedConcat(r: Reader, a: string, b: string)
    ensures Feed(r, a + b) == Feed(Feed(r, a), b)
    decreases |a|
  {
    if a == "" {
      assert a + b == b;
    } else {
      assert (a + b)[1..] == a[1..] + b;
      FeedConcat(Read(r, a[0]), a[1..], b);
    }
  }

  predicate OneLine(s: string) {
    '\n' !in s && '\r' !in s
  }

  lemma {:induction false} FeedText(r: Reader, s: string)
    requires OneLine(s) && !r.afterCR
    ensures Feed(r, s) == r.(line := r.line + s)
    decreases |s|
  {
    if s == "" {
      assert r.line + s == r.line;
    } else {
      assert s[0] in s && forall c :: c in s[1..] ==> c in s;
      FeedText(Read(r, s[0]), s[1..]);
      assert r.line + [s[0]] + s[1..] == r.line + s;
    }
  }

  lemma FeedLine(r: Reader, s: string)
    requires OneLine(s) && !r.afterCR && r.line == ""
    ensures Feed(r, s + "\n") == ProcessLine(r, s)
  {
    FeedConcat(r, s, "\n");
    FeedText(r, s);
    var t := Feed(r, s);
    assert t.line == s;
    assert Feed(t, "\n") == Feed(Read(t, '\n'), "") by { assert "\n"[1..] == ""; }
    assert t.(line := "", afterCR := false) == r;
  }

  ghost predicate Idle(r: Reader) {
    r.line == "" && !r.afterCR && r.data == "" && r.kind == ""
  }

  function MessageOf(item: W.Item): seq<Message> {
    match item
    case Event(f) => [Message("message", f.payload)]
    case Keepalive => []
  }

  lemma DataLine(r: Reader, payload: string)
    requires Idle(r)
    ensures ProcessLine(r, "data: " + payload) == r.(data := payload + "\n")
  {
    var line := "data: " + payload;
    var l1 := line[1..];
    var l2 := l1[1..];
    var l3 := l2[1..];
    assert Colon(l3[1..]) == 0;
    assert Colon(l3) == 1 && Colon(l2) == 2;
    assert Colon(l1) == 3 && Colon(line) == 4;
    assert line[..4] == "data";
    assert line[5..] == " " + payload;
    assert line[5..][1..] == payload;
    assert "" + payload + "\n" == payload + "\n";
  }

  lemma BlankLine(r: Reader, payload: string)
    requires r.line == "" && !r.afterCR && r.kind == "" && r.data == payload + "\n"
    ensures ProcessLine(r, "") == r.(data := "", dispatched := r.dispatched + [Message("message", payload)])
  {
  }

  /** One written item moves an idle client to an idle client with exactly that item's message dispatched. */
  lemma FeedItem(r: Reader, item: W.Item)
    requires Idle(r) && (item.Event? ==> OneLine(item.frame.payload))
    ensures Feed(r, Wire(item)) == r.(dispatched := r.dispatched + MessageOf(item))
  {
    var text := if item.Event? then "data: " + item.frame.payload else ": keepalive";
    assert OneLine("data: ") && OneLine(": keepalive");
    assert OneLine(text);
    assert Wire(item) == (text + "\n") + ("" + "\n");
    FeedConcat(r, text + "\n", "" + "\n");
    FeedLine(r, text);
    var mid := ProcessLine(r, text);
    if item.Event? {
      DataLine(r, item.frame.payload);
      FeedLine(mid, "");
      BlankLine(mid, item.frame.payload);
    } else {
      assert mid == r;
      FeedLine(mid, "");
      assert r.dispatched + [] == r.dispatched;
    }
  }

  ghost predicate Writable(items: seq<W.Item>) {
    forall i :: 0 <= i < |items| && items[i].Event? ==> OneLine(items[i].frame.payload)
  }

  function Messages(items: seq<W.Item>): seq<Message> {
    FlatMap(items, (i: W.Item) => MessageOf(i))
  }

  lemma {:induction false} FeedStream(items: seq<W.Item>)
    requires Writable(items)
    ensures Feed(Fresh, Stream(items)) == Fresh.(dispatched := Messages(items))
  {
    if items != [] {
      var n := |items| - 1;
      FeedStream(items[..n]);
      FeedConcat(Fresh, Stream(items[..n]), Wire(items[n]));
      FeedItem(Feed(Fresh, Stream(items[..n])), items[n]);
    }
  }

  lemma {:induction false} NoMark(items: seq<W.Item>)
    ensures var s := Stream(items); s == "" || s[0] == 'd' || s[0] == ':'
  {
    if items != [] {
      NoMark(items[..|items| - 1]);
    }
  }

  /** Round trip: the client dispatches exactly the written payloads, in order, and nothing for keepalives. */
  lemma StreamRoundTrip(items: seq<W.Item>)
    requires Writable(items)
    ensures Dispatched(Stream(items)) == Messages(items)
  {
    FeedStream(items);
    NoMark(items);
  }

  // --- truncated streams ---

  /** How many items lie wholly within the first n characters. */
  function Whole(items: seq<W.Item>, n: nat): (k: nat)
    ensures k <= |items| && |Stream(items[..k])| <= n
    ensures k < |items| ==> n < |Stream(items[..k + 1])|
  {
    assert items[..|items|] == items && items[..0] == [];
    if |Stream(items)| <= n then |items|
    else
      var last := |items| - 1;
      var k := Whole(items[..last], n);
      assert items[..last][..k] == items[..k];
      assert k < last ==> items[..last][..k + 1] == items[..k + 1];
      k
  }

  /** A part of an item, however close to its end, dispatches nothing. */
  lemma PartDispatchesNothing(r: Reader, item: W.Item, n: nat)
    requires Idle(r) && (item.Event? ==> OneLine(item.frame.payload)) && n < |Wire(item)|
    ensures Feed(r, Wire(item)[..n]).dispatched == r.dispatched
  {
    var text := if item.Event? then "data: " + item.frame.payload else ": keepalive";
    assert OneLine("data: ") && OneLine(": keepalive");
    assert OneLine(text);
    assert Wire(item) == text + "\n" + "\n";
    if n <= |text| {
      assert Wire(item)[..n] == text[..n];
      assert OneLine(text[..n]);
      FeedText(r, text[..n]);
    } else {
      assert Wire(item)[..n] == text + "\n";
      FeedLine(r, text);
      if item.Event? {
        DataLine(r, item.frame.payload);
      }
    }
  }

  lemma {:induction false} StreamPrefix(items: seq<W.Item>, k: nat)
    requires k <= |items|
    ensures Stream(items[..k]) <= Stream(items)
  {
    if k == |items| {
      assert items[..k] == items;
    } else {
      var last := |items| - 1;
      StreamPrefix(items[..last], k);
      assert items[..last][..k] == items[..k];
    }
  }

  lemma StreamNext(items: seq<W.Item>, k: nat)
    requires k < |items|
    ensures Stream(items[..k + 1]) == Stream(items[..k]) + Wire(items[k])
  {
    FlatMapPrefix(items, k, (i: W.Item) => Wire(i));
  }

  /** The first n characters are the whole items within them and a part of the next. */
  lemma CutInPieces(items: seq<W.Item>, n: nat, k: nat)
    requires n <= |Stream(items)| && k == Whole(items, n)
    ensures k == |items| ==> Stream(items)[..n] == Stream(items[..k])
    ensures k < |items| ==>
              var rest := n - |Stream(items[..k])|;
              rest < |Wire(items[k])| && Stream(items)[..n] == Stream(items[..k]) + Wire(items[k])[..rest]
  {
    if k < |items| {
      StreamNext(items, k);
      StreamPrefix(items, k + 1);
      CutText(Stream(items), Stream(items[..k]), Wire(items[k]), n);
    } else {
      assert items[..k] == items;
    }
  }

  lemma CutText(s: string, a: string, b: string, n: nat)
    requires a + b <= s && |a| <= n < |a| + |b|
    ensures s[..n] == a + b[..n - |a|]
  {
    assert s[..n] == (a + b)[..n];
  }

  /** A connection cut at any character has dispatched exactly the payloads of the items wholly received. */
  lemma CutStreamIsPrefix(items: seq<W.Item>, n: nat)
    requires Writable(items) && n <= |Stream(items)|
    ensures Dispatched(Stream(items)[..n]) == Messages(items[..Whole(items, n)])
  {
    var k, s := Whole(items, n), Stream(items);
    NoMark(items);
    FeedStream(items[..k]);
    CutInPieces(items, n, k);
    if k < |items| {
      var rest := n - |Stream(items[..k])|;
      FeedConcat(Fresh, Stream(items[..k]), Wire(items[k])[..rest]);
      PartDispatchesNothing(Feed(Fresh, Stream(items[..k])), items[k], rest);
    }
  }

  lemma {:induction false} MessagesPrefix(items: seq<W.Item>, k: nat)
    requires k <= |items|
    ensures Messages(items[..k]) <= Messages(items) && WP.Versions(items[..k]) <= WP.Versions(items)
  {
    if k == |items| {
      assert items[..k] == items;
    } else {
      var last := |items| - 1;
      MessagesPrefix(items[..last], k);
      assert items[..last][..k] == items[..k];
    }
  }

  lemma {:induction false} MessagesMatchVersions(items: seq<W.Item>)
    ensures |Messages(items)| == |WP.Versions(items)|
  {
    if items != [] {
      MessagesMatchVersions(items[..|items| - 1]);
    }
  }

  /** End to end: over every run, whatever part of its stream a client has read, the configurations it was handed are
      those of the items wholly received, and their versions strictly increase. */
  lemma ClientNeverRollsBack(actions: seq<W.Action>, id: nat, n: nat)
    requires WP.AllDecimal(actions) && id in W.Run(W.Initially, actions).watchers
    requires Writable(W.Run(W.Initially, actions).watchers[id].out)
    requires n <= |Stream(W.Run(W.Initially, actions).watchers[id].out)|
    ensures var out := W.Run(W.Initially, actions).watchers[id].out;
      var whole := out[..Whole(out, n)];
      && Dispatched(Stream(out)[..n]) == Messages(whole)
      && |Messages(whole)| == |WP.Versions(whole)| && WP.Increasing(WP.Versions(whole))
  {
    var out := W.Run(W.Initially, actions).watchers[id].out;
    CutStreamIsPrefix(out, n);
    MessagesMatchVersions(out[..Whole(out, n)]);
    MessagesPrefix(out, Whole(out, n));
    WP.NoRollback(actions, id);
  }

  // --- the configurations themselves ---

  function Payloads(frames: seq<W.Frame>): (r: seq<Message>)
    ensures |r| == |frames| && forall i :: 0 <= i < |r| ==> r[i] == Message("message", frames[i].payload)
  {
    seq(|frames|, i requires 0 <= i < |frames| => Message("message", frames[i].payload))
  }

  lemma {:induction false} MessagesAreEvents(items: seq<W.Item>)
    ensures Messages(items) == Payloads(D.Events(items))
  {
    if items != [] {
      MessagesAreEvents(items[..|items| - 1]);
    }
  }

  lemma {:induction false} EventsPrefix(items: seq<W.Item>, k: nat)
    requires k <= |items|
    ensures D.Events(items[..k]) <= D.Events(items)
  {
    if k == |items| {
      assert items[..k] == items;
    } else {
      var last := |items| - 1;
      EventsPrefix(items[..last], k);
      assert items[..last][..k] == items[..k];
    }
  }

  lemma WholeStream(items: seq<W.Item>)
    ensures Whole(items, |Stream(items)|) == |items|
  {
  }

  /** End to end: over every run and cut, the client has been handed, in order and unaltered, the configurations of a first
      part of what its watcher was shown; with nothing cut off, the last one is that of the watcher's floor. */
  lemma ClientSeesExactly(actions: seq<W.Action>, id: nat, n: nat)
    requires id in W.Run(W.Initially, actions).watchers && Writable(W.Run(W.Initially, actions).watchers[id].out)
    requires n <= |Stream(W.Run(W.Initially, actions).watchers[id].out)|
    ensures var w := W.Run(W.Initially, actions).watchers[id];
      var handed := D.Events(w.out[..Whole(w.out, n)]);
      && Dispatched(Stream(w.out)[..n]) == Payloads(handed)
      && D.Follows(w, D.Snapshot(actions, id), D.Arrived(actions, id)) && handed <= D.Events(w.out)
      && (n == |Stream(w.out)| && handed != [] ==> handed[|handed| - 1].rv == w.floor)
  {
    var w := W.Run(W.Initially, actions).watchers[id];
    CutStreamIsPrefix(w.out, n);
    MessagesAreEvents(w.out[..Whole(w.out, n)]);
    EventsPrefix(w.out, Whole(w.out, n));
    D.ShownExactly(actions, id);
    WholeStream(w.out);
    assert w.out[..|w.out|] == w.out;
  }
}
