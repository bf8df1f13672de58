// Live execution events: bounded drop-oldest inboxes, a replay ring, and the
// client that switches from replay to live.
module Streaming {
  datatype Kind = ExecutionFinished | Progress(name: string)

  datatype Event = Event(execution: int, kind: Kind, sequence: nat)

  // The newest n.
  function LastOf<T>(s: seq<T>, n: nat): seq<T> {
    if |s| <= n then s else s[|s| - n..]
  }

  function NewerThan(events: seq<Event>, after: int): seq<Event> {
    if events == [] then []
    else
      var front := NewerThan(events[..|events| - 1], after);
      var last := events[|events| - 1];
      if last.sequence > after then front + [last] else front
  }

  predicate HasFinished(events: seq<Event>) {
    exists i :: 0 <= i < |events| && events[i].kind == ExecutionFinished
  }

  // ------------------------------------------------------------------
  // One inbox
  // ------------------------------------------------------------------

  datatype Inbox = Inbox(queue: seq<Event>, dropped: nat)

  // The oldest goes when there is no room.
  function Offer(inbox: Inbox, capacity: nat, e: Event): Inbox {
    if |inbox.queue| < capacity || inbox.queue == [] then inbox.(queue := inbox.queue + [e])
    else Inbox(inbox.queue[1..] + [e], inbox.dropped + 1)
  }

  // What went in and what came out.
  datatype Feed = Feed(inbox: Inbox, offered: seq<Event>, consumed: seq<Event>)

  datatype FeedAction = Arrive(e: Event) | Consume

  function FeedStep(f: Feed, capacity: nat, a: FeedAction): Feed {
    match a
    case Arrive(e) => f.(inbox := Offer(f.inbox, capacity, e), offered := f.offered + [e])
    case Consume =>
      if f.inbox.queue == [] then f
      else f.(inbox := f.inbox.(queue := f.inbox.queue[1..]), consumed := f.consumed + [f.inbox.queue[0]])
  }

  function Fed(capacity: nat, actions: seq<FeedAction>): Feed {
    if actions == [] then Feed(Inbox([], 0), [], [])
    else FeedStep(Fed(capacity, actions[..|actions| - 1]), capacity, actions[|actions| - 1])
  }

  // s is t without some of its entries.
  ghost predicate Thinned<T>(s: seq<T>, t: seq<T>) {
    if t == [] then s == []
    else
      var front := t[..|t| - 1];
      Thinned(s, front) || (s != [] && s[|s| - 1] == t[|t| - 1] && Thinned(s[..|s| - 1], front))
  }

  ghost predicate Conserved(f: Feed, capacity: nat) {
    && |f.inbox.queue| <= capacity
    && |f.consumed| + f.inbox.dropped + |f.inbox.queue| == |f.offered|
    && f.inbox.queue == LastOf(f.offered, |f.inbox.queue|)
    && Thinned(f.consumed, f.offered[..|f.offered| - |f.inbox.queue|])
    && (f.inbox.dropped == 0 ==> f.consumed + f.inbox.queue == f.offered)
  }

  lemma ThinnedWith<T>(s: seq<T>, t: seq<T>, x: T)
    requires Thinned(s, t)
    ensures Thinned(s + [x], t + [x])
  {
    assert (s + [x])[..|s|] == s && (t + [x])[..|t|] == t;
  }

  // The first of the last goes over to the rest.
  lemma NextOfLast<T>(s: seq<T>, q: seq<T>)
    requires 0 < |q| <= |s| && q == LastOf(s, |q|)
    ensures s[..|s| - |q| + 1] == s[..|s| - |q|] + [q[0]] && q[1..] == LastOf(s, |q| - 1)
  {
  }

  lemma ConsumeKeepsConserved(f: Feed, capacity: nat)
    requires Conserved(f, capacity)
    ensures Conserved(FeedStep(f, capacity, Consume), capacity)
  {
    if f.inbox.queue != [] {
      var q := f.inbox.queue;
      var cut := |f.offered| - |q|;
      NextOfLast(f.offered, q);
      ThinnedWith(f.consumed, f.offered[..cut], q[0]);
      assert f.consumed + q == (f.consumed + [q[0]]) + q[1..];
    }
  }

  lemma ArriveKeepsConserved(f: Feed, capacity: nat, e: Event)
    requires Conserved(f, capacity) && capacity > 0
    ensures Conserved(FeedStep(f, capacity, Arrive(e)), capacity)
  {
    var q := f.inbox.queue;
    if |q| < capacity {
      assert (f.offered + [e])[..|f.offered| - |q|] == f.offered[..|f.offered| - |q|];
      assert f.consumed + (q + [e]) == (f.consumed + q) + [e];
    } else {
      var cut := |f.offered| - |q|;
      ThinnedBy(f.consumed, f.offered[..cut], (f.offered + [e])[..cut + 1]);
    }
  }

  lemma ThinnedBy<T>(s: seq<T>, t: seq<T>, longer: seq<T>)
    requires Thinned(s, t) && |longer| == |t| + 1 && longer[..|t|] == t
    ensures Thinned(s, longer)
  {
  }

  // Over every run: the queue is a suffix of what was offered, consumed events
  // come out in order and before everything queued, and nothing is lost
  // uncounted.
  lemma {:induction false} EveryFeedIsConserved(capacity: nat, actions: seq<FeedAction>)
    requires capacity > 0
    ensures Conserved(Fed(capacity, actions), capacity)
  {
    if actions != [] {
      var front := actions[..|actions| - 1];
      EveryFeedIsConserved(capacity, front);
      match actions[|actions| - 1]
      case Arrive(e) => ArriveKeepsConserved(Fed(capacity, front), capacity, e);
      case Consume => ConsumeKeepsConserved(Fed(capacity, front), capacity);
    }
  }

  // ------------------------------------------------------------------
  // One execution and one client of its stream
  // ------------------------------------------------------------------

  datatype Channel = Channel(sequence: nat, ring: seq<Event>)

  function Publish(c: Channel, execution: int, size: nat, kind: Kind): (Channel, Event) {
    var e := Event(execution, kind, c.sequence + 1);
    (Channel(c.sequence + 1, LastOf(c.ring + [e], size)), e)
  }

  datatype Phase = Away | Subscribed | Open | Closed

  // since and baseline: how much had been published, and which number drawn,
  // on subscribing; upTo: how much on replaying; seen: while still listening.
  datatype Client = Client(phase: Phase, inbox: Inbox, received: seq<Event>, farewell: bool,
                           since: nat, baseline: nat, upTo: nat, after: nat, seen: nat)

  datatype World = World(channel: Channel, log: seq<Event>, client: Client)

  datatype Action =
    | Announce(kind: Kind)
    | Draw                                        // another client's farewell frame takes a number
    | Subscribe
    | Replay(after: nat, alreadyFinished: bool)
    | Take
    | Disconnect

  datatype Sizes = Sizes(execution: int, ring: nat, inbox: nat)

  const NOBODY := Client(Away, Inbox([], 0), [], false, 0, 0, 0, 0, 0)

  function Deliver(c: Client, capacity: nat, e: Event): Client {
    if c.phase == Subscribed || c.phase == Open then
      c.(inbox := Offer(c.inbox, capacity, e), seen := c.seen + 1)
    else c
  }

  function Step(w: World, z: Sizes, a: Action): World {
    var c := w.client;
    match a
    case Announce(kind) =>
      var (channel, e) := Publish(w.channel, z.execution, z.ring, kind);
      World(channel, w.log + [e], Deliver(c, z.inbox, e))
    case Draw => w.(channel := w.channel.(sequence := w.channel.sequence + 1))
    case Subscribe =>
      if c.phase != Away then w
      else w.(client := c.(phase := Subscribed, since := |w.log|, baseline := w.channel.sequence, seen := |w.log|))
    case Replay(after, alreadyFinished) =>
      if c.phase != Subscribed then w
      else
        var missed := NewerThan(w.channel.ring, after);
        var d := c.(received := missed, upTo := |w.log|, after := after);
        if HasFinished(missed) then w.(client := d.(phase := Closed))
        else if alreadyFinished then
          w.(client := d.(phase := Closed, farewell := true),
             channel := w.channel.(sequence := w.channel.sequence + 1))
        else w.(client := d.(phase := Open))
    case Take =>
      if c.phase != Open || c.inbox.queue == [] then w
      else
        var e := c.inbox.queue[0];
        w.(client := c.(inbox := c.inbox.(queue := c.inbox.queue[1..]), received := c.received + [e],
                        phase := if e.kind == ExecutionFinished then Closed else Open))
    case Disconnect => if c.phase == Open then w.(client := c.(phase := Closed)) else w
  }

  function Played(z: Sizes, actions: seq<Action>): World {
    if actions == [] then World(Channel(0, []), [], NOBODY)
    else Step(Played(z, actions[..|actions| - 1]), z, actions[|actions| - 1])
  }

  // ------------------------------------------------------------------
  // What every run keeps
  // ------------------------------------------------------------------

  ghost predicate Increasing(events: seq<Event>) {
    forall i, j :: 0 <= i < j < |events| ==> events[i].sequence < events[j].sequence
  }

  ghost predicate Upto(events: seq<Event>, top: nat) {
    forall i :: 0 <= i < |events| ==> events[i].sequence <= top
  }

  ghost predicate Beyond(events: seq<Event>, bottom: int) {
    forall i :: 0 <= i < |events| ==> events[i].sequence > bottom
  }

  ghost predicate Buffered(w: World, z: Sizes) {
    && w.channel.ring == LastOf(w.log, z.ring)
    && Increasing(w.log) && Upto(w.log, w.channel.sequence)
  }

  // Where the client came in.
  ghost predicate Placed(c: Client, log: seq<Event>) {
    && c.since <= c.seen <= |log|
    && Upto(log[..c.since], c.baseline) && Beyond(log[c.since..], c.baseline)
  }

  // All that the client was ever due: its replay, then what was published
  // while it listened.
  function Due(c: Client, log: seq<Event>, ring: nat): seq<Event>
    requires c.since <= c.seen <= |log| && c.upTo <= |log|
  {
    NewerThan(LastOf(log[..c.upTo], ring), c.after) + log[c.since..c.seen]
  }

  ghost predicate Listening(c: Client, log: seq<Event>) {
    && Placed(c, log) && c.seen == |log| && c.received == []
    && (c.inbox.dropped == 0 ==> c.inbox.queue == log[c.since..])
  }

  ghost predicate Served(c: Client, log: seq<Event>, ring: nat) {
    && Placed(c, log) && c.since <= c.upTo <= c.seen
    && (c.inbox.dropped == 0 ==> c.received + c.inbox.queue == Due(c, log, ring))
  }

  ghost predicate Tracked(c: Client, log: seq<Event>, ring: nat) {
    match c.phase
    case Away => c == NOBODY
    case Subscribed => Listening(c, log)
    case Open => Served(c, log, ring) && c.seen == |log|
    case Closed => Served(c, log, ring)
  }

  lemma LastOfMore<T>(s: seq<T>, n: nat, x: T)
    ensures LastOf(LastOf(s, n) + [x], n) == LastOf(s + [x], n)
  {
  }

  lemma StepKeepsBuffered(w: World, z: Sizes, a: Action)
    requires Buffered(w, z)
    ensures Buffered(Step(w, z, a), z)
  {
    if a.Announce? {
      var (channel, e) := Publish(w.channel, z.execution, z.ring, a.kind);
      LastOfMore(w.log, z.ring, e);
      assert Increasing(w.log + [e]) && Upto(w.log + [e], channel.sequence);
    }
  }

  // Another event does not move the place where the client came in.
  lemma PlacedLater(c: Client, log: seq<Event>, e: Event)
    requires Placed(c, log) && e.sequence > c.baseline
    ensures Placed(c, log + [e])
    ensures (log + [e])[..c.since] == log[..c.since] && (log + [e])[c.since..] == log[c.since..] + [e]
  {
  }

  lemma OpenLater(c: Client, log: seq<Event>, e: Event, capacity: nat, ring: nat)
    requires Served(c, log, ring) && c.phase == Open && c.seen == |log| && e.sequence > c.baseline
    ensures Served(Deliver(c, capacity, e), log + [e], ring)
  {
    var d := Deliver(c, capacity, e);
    PlacedLater(c, log, e);
    assert (log + [e])[..c.upTo] == log[..c.upTo];
    assert (log + [e])[c.since..d.seen] == log[c.since..c.seen] + [e];
    if d.inbox.dropped == 0 {
      assert d.received + d.inbox.queue == (c.received + c.inbox.queue) + [e];
      assert Due(d, log + [e], ring) == Due(c, log, ring) + [e];
    }
  }

  lemma ClosedLater(c: Client, log: seq<Event>, e: Event, ring: nat)
    requires Served(c, log, ring) && e.sequence > c.baseline
    ensures Served(c, log + [e], ring)
  {
    PlacedLater(c, log, e);
    assert (log + [e])[..c.upTo] == log[..c.upTo];
    assert (log + [e])[c.since..c.seen] == log[c.since..c.seen];
  }

  lemma SubscribedLater(c: Client, log: seq<Event>, e: Event, capacity: nat)
    requires Listening(c, log) && c.phase == Subscribed && e.sequence > c.baseline
    ensures Listening(Deliver(c, capacity, e), log + [e])
  {
    PlacedLater(c, log, e);
  }

  lemma AnnounceKeepsTracked(w: World, z: Sizes, kind: Kind)
    requires Tracked(w.client, w.log, z.ring) && w.client.baseline <= w.channel.sequence
    ensures var v := Step(w, z, Announce(kind)); Tracked(v.client, v.log, z.ring)
  {
    var e := Publish(w.channel, z.execution, z.ring, kind).1;
    match w.client.phase
    case Away =>
    case Subscribed => SubscribedLater(w.client, w.log, e, z.inbox);
    case Open => OpenLater(w.client, w.log, e, z.inbox, z.ring);
    case Closed => ClosedLater(w.client, w.log, e, z.ring);
  }

  lemma ReplayKeepsTracked(w: World, z: Sizes, after: nat, alreadyFinished: bool)
    requires Buffered(w, z) && Tracked(w.client, w.log, z.ring)
    ensures var v := Step(w, z, Replay(after, alreadyFinished)); Tracked(v.client, v.log, z.ring)
  {
    if w.client.phase == Subscribed {
      var c := Step(w, z, Replay(after, alreadyFinished)).client;
      assert w.log[..|w.log|] == w.log && w.log[c.since..|w.log|] == w.log[c.since..];
      assert Served(c, w.log, z.ring);
    }
  }

  lemma TakeKeepsTracked(w: World, z: Sizes)
    requires Tracked(w.client, w.log, z.ring)
    ensures var v := Step(w, z, Take); Tracked(v.client, v.log, z.ring)
  {
    var c := w.client;
    if c.phase == Open && c.inbox.queue != [] {
      assert c.received + c.inbox.queue == (c.received + [c.inbox.queue[0]]) + c.inbox.queue[1..];
      var d := Step(w, z, Take).client;
      assert Served(d, w.log, z.ring);
    }
  }

  lemma SubscribeKeepsTracked(w: World, z: Sizes)
    requires Buffered(w, z) && Tracked(w.client, w.log, z.ring)
    ensures var v := Step(w, z, Subscribe); Tracked(v.client, v.log, z.ring)
  {
    assert w.log[..|w.log|] == w.log;
  }

  lemma {:induction false} EveryRunIsTracked(z: Sizes, actions: seq<Action>)
    ensures var w := Played(z, actions);
      Buffered(w, z) && Tracked(w.client, w.log, z.ring) && w.client.baseline <= w.channel.sequence
  {
    if actions != [] {
      var front := actions[..|actions| - 1];
      var w := Played(z, front);
      EveryRunIsTracked(z, front);
      StepKeepsBuffered(w, z, actions[|actions| - 1]);
      match actions[|actions| - 1]
      case Announce(kind) => AnnounceKeepsTracked(w, z, kind);
      case Draw =>
      case Subscribe => SubscribeKeepsTracked(w, z);
      case Replay(after, alreadyFinished) => ReplayKeepsTracked(w, z, after, alreadyFinished);
      case Take => TakeKeepsTracked(w, z);
      case Disconnect =>
    }
  }

  // ------------------------------------------------------------------
  // The switch from replay to live
  // ------------------------------------------------------------------

  // Nothing newer than after had left the ring.
  predicate Covers(log: seq<Event>, ring: nat, after: int) {
    |log| > ring ==> log[|log| - ring - 1].sequence <= after
  }

  lemma {:induction false} NewerThanAppend(s: seq<Event>, t: seq<Event>, after: int)
    ensures NewerThan(s + t, after) == NewerThan(s, after) + NewerThan(t, after)
  {
    if t == [] {
      assert s + t == s;
    } else {
      NewerThanAppend(s, t[..|t| - 1], after);
      assert (s + t)[..|s + t| - 1] == s + t[..|t| - 1];
    }
  }

  lemma {:induction false} AllNewer(s: seq<Event>, after: int)
    requires Beyond(s, after)
    ensures NewerThan(s, after) == s
  {
    if s != [] {
      AllNewer(s[..|s| - 1], after);
    }
  }

  lemma {:induction false} NewerThanHolds(s: seq<Event>, after: int)
    ensures forall x :: x in NewerThan(s, after) <==> x in s && x.sequence > after
  {
    if s != [] {
      NewerThanHolds(s[..|s| - 1], after);
      assert s == s[..|s| - 1] + [s[|s| - 1]];
    }
  }

  lemma {:induction false} NewerThanIncreases(s: seq<Event>, after: int)
    requires Increasing(s)
    ensures Increasing(NewerThan(s, after))
  {
    if s != [] {
      var front, last := s[..|s| - 1], s[|s| - 1];
      NewerThanIncreases(front, after);
      var n := NewerThan(front, after);
      forall i | 0 <= i < |n| ensures n[i].sequence < last.sequence {
        NewerThanHolds(front, after);
        assert n[i] in front;
        var j :| 0 <= j < |front| && front[j] == n[i];
        assert s[j] == front[j];
      }
    }
  }

  lemma {:induction false} NewerThanIsEmpty(s: seq<Event>, after: int)
    requires Increasing(s)
    ensures NewerThan(s, after) == [] <==> s == [] || s[|s| - 1].sequence <= after
  {
    if s != [] {
      NewerThanIsEmpty(s[..|s| - 1], after);
    }
  }

  // The ring replays all that is newer exactly when it covers it.
  lemma RingReplaysAllIff(log: seq<Event>, ring: nat, after: int)
    requires Increasing(log)
    ensures NewerThan(LastOf(log, ring), after) == NewerThan(log, after) <==> Covers(log, ring, after)
  {
    if |log| > ring {
      var cut := |log| - ring;
      assert log == log[..cut] + log[cut..];
      NewerThanAppend(log[..cut], log[cut..], after);
      NewerThanIsEmpty(log[..cut], after);
      assert NewerThan(log[..cut], after) != [] ==>
        |NewerThan(log, after)| > |NewerThan(log[cut..], after)|;
    }
  }

  // An event published between subscribing and replaying comes twice.
  lemma BetweenComesTwice(log: seq<Event>, ring: nat, after: int, since: nat, upTo: nat)
    requires Increasing(log) && since < upTo <= |log| && Beyond(log[since..], after) && ring > 0
    ensures !Increasing(NewerThan(LastOf(log[..upTo], ring), after) + log[since..])
  {
    var held := LastOf(log[..upTo], ring);
    assert held[|held| - 1] == log[upTo - 1] == log[since..][upTo - 1 - since];
    var replay := NewerThan(held, after);
    assert replay[|replay| - 1] == log[upTo - 1];
    var all := replay + log[since..];
    assert all[|replay| - 1] == log[upTo - 1] && all[|replay|] == log[since];
  }

  lemma NewerSwitchIff(log: seq<Event>, ring: nat, after: int, since: nat, upTo: nat)
    requires Increasing(log) && since <= upTo <= |log| && Beyond(log[since..], after) && ring > 0
    ensures NewerThan(LastOf(log[..upTo], ring), after) + log[since..] == NewerThan(log, after)
            <==> since == upTo && Covers(log[..upTo], ring, after)
  {
    var all := NewerThan(LastOf(log[..upTo], ring), after) + log[since..];
    if since < upTo {
      NewerThanIncreases(log, after);
      BetweenComesTwice(log, ring, after, since, upTo);
      assert !Increasing(all);
    } else {
      assert log == log[..upTo] + log[upTo..];
      NewerThanAppend(log[..upTo], log[upTo..], after);
      AllNewer(log[upTo..], after);
      RingReplaysAllIff(log[..upTo], ring, after);
      SameRest(NewerThan(LastOf(log[..upTo], ring), after), NewerThan(log[..upTo], after), log[upTo..]);
    }
  }

  lemma SameRest(x: seq<Event>, y: seq<Event>, z: seq<Event>)
    ensures x + z == y + z <==> x == y
  {
    assert x + z == y + z ==> |x| == |y| && x == (x + z)[..|x|] == (y + z)[..|x|] == y;
  }

  lemma {:induction false} SomeNotNewer(s: seq<Event>, after: int)
    requires s != [] && s[0].sequence <= after
    ensures |NewerThan(s, after)| < |s|
  {
    if |s| > 1 {
      SomeNotNewer(s[..|s| - 1], after);
    }
  }

  // What comes before an event that is not newer is not newer either.
  lemma {:induction false} NothingBefore(log: seq<Event>, after: int, since: nat)
    requires Increasing(log) && since < |log| && log[since].sequence <= after
    ensures NewerThan(log[..since], after) == []
  {
    if since > 0 {
      assert log[..since][..since - 1] == log[..since - 1];
      NothingBefore(log, after, since - 1);
    }
  }

  // An older event that the client hears live is one too many.
  lemma OlderComesLive(log: seq<Event>, ring: nat, after: int, since: nat, upTo: nat)
    requires Increasing(log) && since < |log| && since <= upTo <= |log| && log[since].sequence <= after
    ensures NewerThan(LastOf(log[..upTo], ring), after) + log[since..] != NewerThan(log, after)
  {
    var live := log[since..];
    assert log == log[..since] + live;
    NewerThanAppend(log[..since], live, after);
    NothingBefore(log, after, since);
    assert live[0] == log[since];
    SomeNotNewer(live, after);
    assert |NewerThan(log, after)| < |live|;
  }

  lemma SwitchIsSeamlessIff(log: seq<Event>, ring: nat, after: int, since: nat, upTo: nat)
    requires Increasing(log) && since <= upTo <= |log| && ring > 0
    ensures NewerThan(LastOf(log[..upTo], ring), after) + log[since..] == NewerThan(log, after) <==>
      since == upTo && Covers(log[..upTo], ring, after) && (since < |log| ==> log[since].sequence > after)
  {
    if since < |log| && log[since].sequence <= after {
      OlderComesLive(log, ring, after, since, upTo);
    } else {
      forall i | 0 <= i < |log[since..]| ensures log[since..][i].sequence > after {
        assert i > 0 ==> log[since].sequence < log[since + i].sequence;
      }
      NewerSwitchIff(log, ring, after, since, upTo);
    }
  }

  // The replay and the switch to live leave nothing out and repeat nothing.
  predicate Seamless(c: Client, log: seq<Event>, ring: nat)
    requires c.since <= c.upTo <= c.seen <= |log|
  {
    && c.since == c.upTo && Covers(log[..c.upTo], ring, c.after)
    && (c.since < c.seen ==> log[c.since].sequence > c.after)
  }

  // A client that dropped nothing is given every newer event exactly once and
  // in order if and only if nothing was published between its subscribing and
  // its replaying, the ring still held all that was newer, and the first event
  // it heard live was newer too.
  lemma StreamIsSeamlessIff(z: Sizes, actions: seq<Action>)
    requires z.ring > 0
    requires var c := Played(z, actions).client; (c.phase == Open || c.phase == Closed) && c.inbox.dropped == 0
    ensures var w := Played(z, actions);
      var c := w.client;
      c.since <= c.upTo <= c.seen <= |w.log|
      && (c.received + c.inbox.queue == NewerThan(w.log[..c.seen], c.after) <==> Seamless(c, w.log, z.ring))
  {
    EveryRunIsTracked(z, actions);
    var w := Played(z, actions);
    var c := w.client;
    var heard := w.log[..c.seen];
    assert heard[..c.upTo] == w.log[..c.upTo] && heard[c.since..] == w.log[c.since..c.seen];
    SwitchIsSeamlessIff(heard, z.ring, c.after, c.since, c.upTo);
  }

  lemma ThreeActions(z: Sizes, a: Action, b: Action, c: Action)
    ensures Played(z, [a, b, c]) == Step(Step(Step(Played(z, []), z, a), z, b), z, c)
  {
    assert [a, b, c][..2] == [a, b] && [a, b][..1] == [a] && [a][..0] == [];
    assert Played(z, [a]) == Step(Played(z, []), z, a);
    assert Played(z, [a, b]) == Step(Played(z, [a]), z, b);
  }

  // The one event published between subscribing and replaying is sent twice,
  // whatever the sizes.
  lemma BetweenIsSentTwice(z: Sizes, name: string)
    requires z.ring > 0 && z.inbox > 0
    ensures var w := Played(z, [Subscribe, Announce(Progress(name)), Replay(0, false)]);
      var e := Event(z.execution, Progress(name), 1);
      w.log == [e] && w.client.received == [e] && w.client.inbox == Inbox([e], 0) && w.client.phase == Open
  {
    var e, heard := Event(z.execution, Progress(name), 1), NOBODY.(phase := Subscribed);
    ThreeActions(z, Subscribe, Announce(Progress(name)), Replay(0, false));
    AnnounceFirst(z, heard, name, e);
    ReplayOne(z, heard.(inbox := Inbox([e], 0), seen := 1), e);
  }

  lemma AnnounceFirst(z: Sizes, c: Client, name: string, e: Event)
    requires z.ring > 0 && z.inbox > 0
    requires c == NOBODY.(phase := Subscribed) && e == Event(z.execution, Progress(name), 1)
    ensures Step(World(Channel(0, []), [], c), z, Announce(Progress(name))) ==
            World(Channel(1, [e]), [e], c.(inbox := Inbox([e], 0), seen := 1))
  {
    assert [] + [e] == [e];
  }

  lemma ReplayOne(z: Sizes, c: Client, e: Event)
    requires c.phase == Subscribed && e.sequence == 1 && e.kind != ExecutionFinished
    ensures Step(World(Channel(1, [e]), [e], c), z, Replay(0, false)) ==
            World(Channel(1, [e]), [e], c.(phase := Open, received := [e], upTo := 1, after := 0))
  {
    assert [e][..0] == [] && NewerThan([e], 0) == [e];
  }

  // ------------------------------------------------------------------
  // Numbers
  // ------------------------------------------------------------------

  // Numbers that no published event carries.
  function Farewells(z: Sizes, actions: seq<Action>): nat {
    if actions == [] then 0
    else
      var front := actions[..|actions| - 1];
      var a := actions[|actions| - 1];
      Farewells(z, front)
      + (if a.Draw? then 1 else 0)
      + (if a.Replay? && Played(z, front).client.phase == Subscribed && Step(Played(z, front), z, a).client.farewell
         then 1 else 0)
  }

  lemma {:induction false} NumbersAreDrawnOnce(z: Sizes, actions: seq<Action>)
    ensures Played(z, actions).channel.sequence == |Played(z, actions).log| + Farewells(z, actions)
    ensures Played(z, actions).client.phase == Away || Played(z, actions).client.phase == Subscribed ==>
              !Played(z, actions).client.farewell
  {
    if actions != [] {
      NumbersAreDrawnOnce(z, actions[..|actions| - 1]);
    }
  }

  lemma {:induction false} NumberedFromOne(z: Sizes, actions: seq<Action>)
    requires Farewells(z, actions) == 0
    ensures forall i :: 0 <= i < |Played(z, actions).log| ==> Played(z, actions).log[i].sequence == i + 1
  {
    if actions != [] {
      NumberedFromOne(z, actions[..|actions| - 1]);
      NumbersAreDrawnOnce(z, actions[..|actions| - 1]);
    }
  }

  lemma {:induction false} NumberedTail(log: seq<Event>, after: nat)
    requires forall i :: 0 <= i < |log| ==> log[i].sequence == i + 1
    ensures NewerThan(log, after) == if after <= |log| then log[after..] else []
  {
    if log != [] {
      var front := log[..|log| - 1];
      NumberedTail(front, after);
      if after < |log| {
        assert log[after..] == front[after..] + [log[|log| - 1]];
      } else {
        assert NewerThan(front, after) == [];
      }
    }
  }

  // With no farewell drawn: after + 1, after + 2, ... with no gap and no
  // duplicate, through the switch and up to wherever the client has read.
  lemma ReceivesConsecutiveNumbers(z: Sizes, actions: seq<Action>)
    requires z.ring > 0 && Farewells(z, actions) == 0
    requires var w := Played(z, actions);
      var c := w.client;
      (c.phase == Open || c.phase == Closed) && c.inbox.dropped == 0 && c.since == c.upTo
      && c.upTo <= c.after + z.ring && (c.since == c.seen || c.after <= c.since)
    ensures var c := Played(z, actions).client;
      forall i :: 0 <= i < |c.received| ==> c.received[i].sequence == c.after + 1 + i
  {
    var w := Played(z, actions);
    var c := w.client;
    NumberedFromOne(z, actions);
    StreamIsSeamlessIff(z, actions);
    assert Seamless(c, w.log, z.ring) by {
      assert c.upTo > z.ring ==> w.log[..c.upTo][c.upTo - z.ring - 1].sequence == c.upTo - z.ring;
    }
    NumberedPrefix(w.log[..c.seen], c.after, c.received, c.inbox.queue);
  }

  lemma NumberedPrefix(log: seq<Event>, after: nat, received: seq<Event>, queue: seq<Event>)
    requires forall i :: 0 <= i < |log| ==> log[i].sequence == i + 1
    requires received + queue == NewerThan(log, after)
    ensures forall i :: 0 <= i < |received| ==> received[i].sequence == after + 1 + i
  {
    NumberedTail(log, after);
    forall i | 0 <= i < |received| ensures received[i].sequence == after + 1 + i {
      assert received[i] == (received + queue)[i];
    }
  }

  // ------------------------------------------------------------------
  // Ending
  // ------------------------------------------------------------------

  // Nothing follows the end of the execution: a client still reading has not
  // been shown it, and one that said farewell never will be.
  ghost predicate EndsProperly(c: Client) {
    && (c.phase == Open ==> !Ends(c.received) && !c.farewell)
    && (c.farewell ==> c.phase == Closed && !Ends(c.received))
  }

  // The end is among the events.
  ghost predicate Ends(events: seq<Event>) {
    exists e :: e in events && e.kind.ExecutionFinished?
  }

  // The end was published, and not before the position.
  ghost predicate EndsAfter(log: seq<Event>, after: int) {
    exists e :: e in log && e.kind.ExecutionFinished? && e.sequence > after
  }

  lemma FinishedIffEnds(events: seq<Event>)
    ensures HasFinished(events) <==> Ends(events)
  {
    if HasFinished(events) {
      var i :| 0 <= i < |events| && events[i].kind == ExecutionFinished;
      assert events[i] in events;
    }
    if e :| e in events && e.kind.ExecutionFinished? {
      var i :| 0 <= i < |events| && events[i] == e;
      assert events[i].kind == ExecutionFinished;
    }
  }

  lemma NewerEnds(log: seq<Event>, after: int)
    ensures HasFinished(NewerThan(log, after)) <==> EndsAfter(log, after)
  {
    FinishedIffEnds(NewerThan(log, after));
    NewerThanHolds(log, after);
  }

  // Nothing is sent to a client that has closed.
  lemma {:induction false} ClosedHearsNothing(z: Sizes, actions: seq<Action>, more: seq<Action>)
    requires Played(z, actions).client.phase == Closed
    ensures Played(z, actions + more).client == Played(z, actions).client
  {
    if more == [] {
      assert actions + more == actions;
    } else {
      var front := more[..|more| - 1];
      assert (actions + more)[..|actions + more| - 1] == actions + front;
      ClosedHearsNothing(z, actions, front);
    }
  }

  // A client that disconnects while it listens has heard all it ever will.
  lemma DisconnectIsFinal(z: Sizes, actions: seq<Action>, more: seq<Action>)
    requires Played(z, actions).client.phase == Open
    ensures var c := Played(z, actions + [Disconnect] + more).client;
      c.phase == Closed && c.received == Played(z, actions).client.received
  {
    assert (actions + [Disconnect])[..|actions|] == actions;
    ClosedHearsNothing(z, actions + [Disconnect], more);
  }

  lemma {:induction false} EveryStreamEndsProperly(z: Sizes, actions: seq<Action>)
    ensures EndsProperly(Played(z, actions).client)
  {
    if actions != [] {
      EveryStreamEndsProperly(z, actions[..|actions| - 1]);
    }
  }

  // A replay that shows the end of the execution, or finds the execution over,
  // closes the stream; nothing else about it does.
  lemma ReplayClosesIff(w: World, z: Sizes, after: nat, alreadyFinished: bool)
    requires Buffered(w, z) && w.client.phase == Subscribed && Covers(w.log, z.ring, after)
    ensures Step(w, z, Replay(after, alreadyFinished)).client.phase == Closed <==>
      alreadyFinished || EndsAfter(w.log, after)
  {
    NewerEnds(w.log, after);
    RingReplaysAllIff(w.log, z.ring, after);
  }

  // An open client that missed nothing has the end in its queue exactly when
  // the end was published after its position.
  lemma EndIsQueuedIff(z: Sizes, actions: seq<Action>)
    requires z.ring > 0
    requires var w := Played(z, actions);
      var c := w.client;
      c.phase == Open && c.inbox.dropped == 0
      && c.since <= c.upTo <= c.seen <= |w.log| && Seamless(c, w.log, z.ring)
    ensures var w := Played(z, actions);
      Ends(w.client.inbox.queue) <==> EndsAfter(w.log, w.client.after)
  {
    EveryRunIsTracked(z, actions);
    EveryStreamEndsProperly(z, actions);
    StreamIsSeamlessIff(z, actions);
    var w := Played(z, actions);
    var c := w.client;
    assert w.log[..c.seen] == w.log;
    NewerEnds(w.log, c.after);
    FinishedIffEnds(c.received + c.inbox.queue);
    assert forall e :: e in c.received + c.inbox.queue <==> e in c.received || e in c.inbox.queue;
  }

  // The client reads n events.
  function Reads(w: World, z: Sizes, n: nat): World
    decreases n
  {
    if n == 0 then w else Reads(Step(w, z, Take), z, n - 1)
  }

  // A client with the end in its queue closes by reading what it has.
  lemma {:induction false} ReadingEnds(w: World, z: Sizes, n: nat)
    requires w.client.phase == Open && Ends(w.client.inbox.queue) && n == |w.client.inbox.queue|
    decreases n
    ensures Reads(w, z, n).client.phase == Closed
  {
    var queue := w.client.inbox.queue;
    assert queue == [queue[0]] + queue[1..];
    if queue[0].kind == ExecutionFinished {
      ClosedStays(Step(w, z, Take), z, n - 1);
    } else {
      ReadingEnds(Step(w, z, Take), z, n - 1);
    }
  }

  lemma {:induction false} ClosedStays(w: World, z: Sizes, n: nat)
    requires w.client.phase == Closed
    decreases n
    ensures Reads(w, z, n) == w
  {
    if n > 0 {
      ClosedStays(Step(w, z, Take), z, n - 1);
    }
  }
}
