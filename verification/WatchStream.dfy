/** One client's watch: snapshot, bookmark, then the filtered live events, with
    keepalive bookmarks in between. */
module WatchStream {
  import opened Sequences
  import opened Wrappers
  import opened WatchBus

  datatype WatchFilter = WatchFilter(kind: string, namespace: Option<string>)

  predicate Matches(f: WatchFilter, e: Event) {
    if e.kind != f.kind then false
    else
      match (f.namespace, e.namespace)
      case (None, _) => true
      case (Some(want), Some(got)) => want == got
      case (Some(_), None) => false
  }

  /** How many events the broadcast buffers before a slow receiver lags. */
  const CAPACITY: nat := 1024

  /** A line of the response body. */
  datatype Line = Change(kind: string, body: string) | Bookmark

  function LiveLine(e: Event): Line {
    Change(AsWire(e.verb), e.body)
  }

  function SnapshotLines(items: seq<string>): seq<Line> {
    seq(|items|, i requires 0 <= i < |items| => Change("ADDED", items[i]))
  }

  /** `next` is the receiver's position on the broadcast, `forwarding` whether
      the live task still runs, `client` whether the client still reads. */
  datatype Watch = Watch(next: nat, forwarding: bool, client: bool, out: seq<Line>)

  /** The response as first queued, subscribed at position `from`. */
  function Opened(items: seq<string>, from: nat): Watch {
    Watch(from, true, true, SnapshotLines(items) + [Bookmark])
  }

  /** One turn of the live task; with nothing to receive it blocks. */
  function Take(w: Watch, f: WatchFilter, sent: seq<Event>): Watch {
    if !w.forwarding || w.next >= |sent| then w
    else if |sent| - w.next > CAPACITY then w.(forwarding := false)
    else if !Matches(f, sent[w.next]) then w.(next := w.next + 1)
    else if w.client then w.(next := w.next + 1, out := w.out + [LiveLine(sent[w.next])])
    else w.(forwarding := false)
  }

  function KeepAlive(w: Watch): Watch {
    if w.client then w.(out := w.out + [Bookmark]) else w
  }

  class Watcher {
    const filter: WatchFilter
    var next: nat
    var forwarding: bool
    var client: bool
    var out: seq<Line>

    ghost function View(): Watch
      reads this
    {
      Watch(next, forwarding, client, out)
    }

    /** Subscribes at the end of the broadcast, then queues the snapshot. */
    constructor (items: seq<string>, filter: WatchFilter, bus: Bus)
      ensures this.filter == filter && View() == Opened(items, |bus.sent|)
    {
      this.filter := filter;
      next, forwarding, client := |bus.sent|, true, true;
      out := [];
      new;
      for i := 0 to |items|
        invariant View() == Watch(|bus.sent|, true, true, SnapshotLines(items)[..i])
        invariant this.filter == filter
      {
        out := out + [Change("ADDED", items[i])];
      }
      out := out + [Bookmark];
    }

    /** The two reasons to stop at the next event. */
    ghost predicate Stops(sent: seq<Event>)
      reads this
    {
      next < |sent| && (|sent| - next > CAPACITY || (!client && Matches(filter, sent[next])))
    }

    method Poll(bus: Bus)
      modifies this
      ensures View() == Take(old(View()), filter, bus.sent)
    {
      if !forwarding || next >= |bus.sent| {
        return;
      }
      if |bus.sent| - next > CAPACITY {
        forwarding := false;
        return;
      }
      var e := bus.sent[next];
      if Matches(filter, e) {
        if !client {
          forwarding := false;
          return;
        }
        out := out + [Change(AsWire(e.verb), e.body)];
      }
      next := next + 1;
    }

    /** The live task until it would block. It stops for good only when it lags, or
        finds the client gone when it has a line to send. */
    method Drain(bus: Bus)
      modifies this
      ensures forwarding ==> next >= |bus.sent|
      ensures old(forwarding) && !forwarding ==> Stops(bus.sent)
      ensures client == old(client) && (!old(forwarding) ==> View() == old(View()))
      ensures old(next) <= next
      ensures old(next) <= |bus.sent| ==>
        next <= |bus.sent| && out == old(out) + Forwarded(filter, bus.sent, old(next), next)
    {
      while forwarding && next < |bus.sent|
        invariant old(next) <= next
        invariant old(next) <= |bus.sent| ==>
          next <= |bus.sent| && out == old(out) + Forwarded(filter, bus.sent, old(next), next)
        invariant old(forwarding) && !forwarding ==> Stops(bus.sent)
        invariant client == old(client) && (!old(forwarding) ==> View() == old(View()))
        decreases |bus.sent| - next, forwarding
      {
        Poll(bus);
      }
    }

    method Tick()
      modifies this
      ensures View() == KeepAlive(old(View()))
    {
      if client {
        out := out + [Bookmark];
      }
    }
  }

  /** The lines of the matching events at positions lo..hi. */
  function Forwarded(f: WatchFilter, sent: seq<Event>, lo: nat, hi: nat): seq<Line>
    requires hi <= |sent|
    decreases hi
  {
    if hi <= lo then []
    else Forwarded(f, sent, lo, hi - 1) + if Matches(f, sent[hi - 1]) then [LiveLine(sent[hi - 1])] else []
  }

  /** A line sequence without its bookmarks. */
  function Changes(lines: seq<Line>): seq<Line> {
    if lines == [] then []
    else Changes(lines[..|lines| - 1]) + if lines[|lines| - 1].Change? then [lines[|lines| - 1]] else []
  }

  lemma ChangesAppend(lines: seq<Line>, line: Line)
    ensures Changes(lines + [line]) == Changes(lines) + if line.Change? then [line] else []
  {
    assert (lines + [line])[..|lines|] == lines;
  }

  lemma {:induction false} ChangesOnly(lines: seq<Line>)
    requires forall l | l in lines :: l.Change?
    ensures Changes(lines) == lines
  {
    if lines != [] {
      ChangesOnly(lines[..|lines| - 1]);
    }
  }

  lemma {:induction false} ForwardedLater(f: WatchFilter, sent: seq<Event>, more: seq<Event>, lo: nat, hi: nat)
    requires hi <= |sent|
    ensures Forwarded(f, sent + more, lo, hi) == Forwarded(f, sent, lo, hi)
    decreases hi
  {
    if lo < hi {
      ForwardedLater(f, sent, more, lo, hi - 1);
    }
  }

  lemma {:induction false} ForwardedSplit(f: WatchFilter, sent: seq<Event>, lo: nat, mid: nat, hi: nat)
    requires lo <= mid <= hi <= |sent|
    ensures Forwarded(f, sent, lo, hi) == Forwarded(f, sent, lo, mid) + Forwarded(f, sent, mid, hi)
    decreases hi
  {
    if mid < hi {
      ForwardedSplit(f, sent, lo, mid, hi - 1);
    }
  }

  // ---------------------------------------------------------------------
  // Runs
  // ---------------------------------------------------------------------

  datatype Feed = Feed(sent: seq<Event>, watch: Watch)

  datatype FeedStep = Broadcast(event: Event) | Poll | Tick | HangUp

  function Step(s: Feed, f: WatchFilter, step: FeedStep): Feed {
    match step
    case Broadcast(e) => s.(sent := s.sent + [e])
    case Poll => s.(watch := Take(s.watch, f, s.sent))
    case Tick => s.(watch := KeepAlive(s.watch))
    case HangUp => s.(watch := s.watch.(client := false))
  }

  function RunFeed(s: Feed, f: WatchFilter, steps: seq<FeedStep>, n: nat): Feed
    requires n <= |steps|
  {
    if n == 0 then s else Step(RunFeed(s, f, steps, n - 1), f, steps[n - 1])
  }

  /** The client has been sent its snapshot, then without gap, duplicate or
      reordering the matching events from the subscription up to the receiver's
      position. */
  predicate GapFree(s: Feed, f: WatchFilter, items: seq<string>, from: nat) {
    from <= s.watch.next <= |s.sent| &&
    Changes(s.watch.out) == SnapshotLines(items) + Forwarded(f, s.sent, from, s.watch.next)
  }

  lemma OpenedGapFree(f: WatchFilter, items: seq<string>, sent: seq<Event>)
    ensures GapFree(Feed(sent, Opened(items, |sent|)), f, items, |sent|)
  {
    ChangesAppend(SnapshotLines(items), Bookmark);
    ChangesOnly(SnapshotLines(items));
  }

  /** Forwarding one more matching event extends both sides by its line. */
  lemma ForwardOne(out: seq<Line>, f: WatchFilter, sent: seq<Event>, head: seq<Line>, from: nat, next: nat)
    requires from <= next < |sent| && Matches(f, sent[next]) && Changes(out) == head + Forwarded(f, sent, from, next)
    ensures Changes(out + [LiveLine(sent[next])]) == head + Forwarded(f, sent, from, next + 1)
  {
    ChangesAppend(out, LiveLine(sent[next]));
    Associate(head, Forwarded(f, sent, from, next), [LiveLine(sent[next])]);
  }

  lemma TakeGapFree(w: Watch, f: WatchFilter, sent: seq<Event>, items: seq<string>, from: nat)
    requires GapFree(Feed(sent, w), f, items, from) && w.next < |sent|
    ensures GapFree(Feed(sent, Take(w, f, sent)), f, items, from)
  {
    if Matches(f, sent[w.next]) {
      ForwardOne(w.out, f, sent, SnapshotLines(items), from, w.next);
    }
  }

  lemma StepGapFree(s: Feed, f: WatchFilter, items: seq<string>, from: nat, step: FeedStep)
    requires GapFree(s, f, items, from)
    ensures GapFree(Step(s, f, step), f, items, from)
    ensures s.sent <= Step(s, f, step).sent
  {
    match step
    case Broadcast(e) => ForwardedLater(f, s.sent, [e], from, s.watch.next);
    case Poll =>
      if s.watch.next < |s.sent| {
        TakeGapFree(s.watch, f, s.sent, items, from);
      }
    case Tick => ChangesAppend(s.watch.out, Bookmark);
    case HangUp =>
  }

  /** Every run of a watch is gap free. */
  lemma {:induction false} RunGapFree(sent: seq<Event>, items: seq<string>, f: WatchFilter, steps: seq<FeedStep>,
                                      n: nat)
    requires n <= |steps|
    ensures GapFree(RunFeed(Feed(sent, Opened(items, |sent|)), f, steps, n), f, items, |sent|)
    ensures sent <= RunFeed(Feed(sent, Opened(items, |sent|)), f, steps, n).sent
  {
    if n == 0 {
      OpenedGapFree(f, items, sent);
    } else {
      RunGapFree(sent, items, f, steps, n - 1);
      StepGapFree(RunFeed(Feed(sent, Opened(items, |sent|)), f, steps, n - 1), f, items, |sent|, steps[n - 1]);
    }
  }

  /** Once the live task has stopped, no run adds another change: but while the
      client reads, the keepalive task still writes bookmarks, so a lagged
      stream does not end. */
  lemma {:induction false} StoppedStreamGoesOn(s: Feed, f: WatchFilter, steps: seq<FeedStep>, n: nat)
    requires !s.watch.forwarding && n <= |steps|
    ensures
      var after := RunFeed(s, f, steps, n);
      Changes(after.watch.out) == Changes(s.watch.out) && !after.watch.forwarding &&
      (after.watch.client ==> Step(after, f, Tick).watch.out == after.watch.out + [Bookmark])
  {
    if n > 0 {
      StoppedStreamGoesOn(s, f, steps, n - 1);
      ChangesAppend(RunFeed(s, f, steps, n - 1).watch.out, Bookmark);
    }
  }

  /** The snapshot was read when the broadcast was `listed` long. The client
      misses nothing since then exactly when no matching event fell between the
      read and the subscription. */
  lemma ListThenSubscribe(f: WatchFilter, sent: seq<Event>, listed: nat, from: nat, next: nat)
    requires listed <= from <= next <= |sent|
    ensures Forwarded(f, sent, from, next) == Forwarded(f, sent, listed, next)
       <==> forall k | listed <= k < from :: !Matches(f, sent[k])
  {
    ForwardedSplit(f, sent, listed, from, next);
    ForwardedNothing(f, sent, listed, from);
    assert |Forwarded(f, sent, listed, next)| == |Forwarded(f, sent, listed, from)| + |Forwarded(f, sent, from, next)|;
  }

  lemma {:induction false} ForwardedNothing(f: WatchFilter, sent: seq<Event>, lo: nat, hi: nat)
    requires hi <= |sent|
    ensures Forwarded(f, sent, lo, hi) == [] <==> forall k | lo <= k < hi :: !Matches(f, sent[k])
    decreases hi
  {
    if lo < hi {
      ForwardedNothing(f, sent, lo, hi - 1);
    }
  }

  // ---------------------------------------------------------------------
  // What a watch is about
  // ---------------------------------------------------------------------

  /** A watch begins with every object of the snapshot, as added and in order, and one
      bookmark; then it waits for the next event. */
  lemma OpensWith(items: seq<string>, from: nat)
    ensures
      var w := Opened(items, from);
      w.next == from && w.forwarding && w.client && |w.out| == |items| + 1 && w.out[|items|] == Bookmark &&
      forall i | 0 <= i < |items| :: w.out[i] == Change("ADDED", items[i])
  {
  }

  /** An event of the kind, in the namespace if one is asked for; an object without a
      namespace is in none. */
  predicate IsWanted(f: WatchFilter, e: Event) {
    e.kind == f.kind && (f.namespace.None? || e.namespace == f.namespace)
  }

  /** The line tells of the event. */
  ghost predicate Tells(line: Line, e: Event) {
    line == Change(if e.verb.Added? then "ADDED" else if e.verb.Modified? then "MODIFIED" else "DELETED", e.body)
  }

  /** The positions of the wanted events, in order. */
  function Positions(f: WatchFilter, sent: seq<Event>, lo: nat, hi: nat): (at: seq<nat>)
    requires hi <= |sent|
    ensures forall i | 0 <= i < |at| :: lo <= at[i] < hi && IsWanted(f, sent[at[i]])
    ensures forall i, j | 0 <= i < j < |at| :: at[i] < at[j]
    decreases hi
  {
    if hi <= lo then []
    else
      var before := Positions(f, sent, lo, hi - 1);
      if IsWanted(f, sent[hi - 1]) then before + [hi - 1] else before
  }

  lemma {:induction false} AllPositions(f: WatchFilter, sent: seq<Event>, lo: nat, hi: nat, k: nat)
    requires lo <= k < hi <= |sent| && IsWanted(f, sent[k])
    ensures k in Positions(f, sent, lo, hi)
    decreases hi
  {
    if k < hi - 1 {
      AllPositions(f, sent, lo, hi - 1, k);
    }
  }

  /** The lines at these positions. */
  ghost predicate TellOf(lines: seq<Line>, sent: seq<Event>, at: seq<nat>) {
    |lines| == |at| && forall i | 0 <= i < |at| :: at[i] < |sent| && Tells(lines[i], sent[at[i]])
  }

  /** The lines forwarded tell, in order, of exactly the events that are wanted. */
  lemma {:induction false} ForwardedTells(f: WatchFilter, sent: seq<Event>, lo: nat, hi: nat)
    requires hi <= |sent|
    ensures TellOf(Forwarded(f, sent, lo, hi), sent, Positions(f, sent, lo, hi))
    decreases hi
  {
    if lo < hi {
      ForwardedTells(f, sent, lo, hi - 1);
      assert Tells(LiveLine(sent[hi - 1]), sent[hi - 1]);
    }
  }

  /** While the client reads, the live task goes on as long as it is at most 1024 events
      behind, and stops at once if it is further. Once the client is gone it stops
      at the first event it would send. */
  lemma TakeStopsWhen(w: Watch, f: WatchFilter, sent: seq<Event>)
    requires w.forwarding && w.next < |sent|
    ensures
      var after, behind := Take(w, f, sent), |sent| - w.next;
      (after.forwarding <==> behind <= 1024 && (w.client || !IsWanted(f, sent[w.next]))) &&
      (after.forwarding ==> after.next == w.next + 1) && (!after.forwarding ==> after == w.(forwarding := false))
  {
  }
}
