// The event broker and the stream of one client over mutable queues and
// buffers. Their steps are those of Streaming.
module Broker {
  import opened Collections
  import opened Streaming

  class Subscription {
    const execution: Option<int>  // None: every execution
    const capacity: nat
    var queue: seq<Event>
    var dropped: nat
    ghost var offered: seq<Event>
    ghost var consumed: seq<Event>

    function View(): Inbox
      reads this
    {
      Inbox(queue, dropped)
    }

    ghost function History(): Feed
      reads this
    {
      Feed(View(), offered, consumed)
    }

    ghost predicate Valid()
      reads this
    {
      0 < capacity && |queue| <= capacity
    }

    constructor (execution: Option<int>, capacity: nat)
      requires capacity > 0
      ensures this.execution == execution && this.capacity == capacity
      ensures Valid() && History() == Fed(capacity, [])
    {
      this.execution, this.capacity := execution, capacity;
      queue, dropped := [], 0;
      offered, consumed := [], [];
    }

    method Offer(e: Event)
      requires Valid()
      modifies this
      ensures Valid() && History() == FeedStep(old(History()), capacity, Arrive(e))
      ensures old(Conserved(History(), capacity)) ==> Conserved(History(), capacity)
    {
      if Conserved(History(), capacity) {
        ArriveKeepsConserved(History(), capacity, e);
      }
      offered := offered + [e];
      if |queue| < capacity {
        queue := queue + [e];
        return;
      }
      queue := queue[1..];
      dropped := dropped + 1;
      queue := queue + [e];
    }

    method Get() returns (e: Event)
      requires Valid() && queue != []
      modifies this
      ensures e == old(queue[0])
      ensures Valid() && History() == FeedStep(old(History()), capacity, Consume)
      ensures old(Conserved(History(), capacity)) ==> Conserved(History(), capacity)
    {
      if Conserved(History(), capacity) {
        ConsumeKeepsConserved(History(), capacity);
      }
      e := queue[0];
      queue := queue[1..];
      consumed := consumed + [e];
    }
  }

  class ExecutionBroker {
    const ringSize: nat
    const queueSize: nat
    var sequences: map<int, nat>
    var buffers: map<int, seq<Event>>
    var byExecution: map<int, set<Subscription>>
    var everywhere: set<Subscription>

    function ChannelOf(execution: int): Channel
      reads this
    {
      Channel(if execution in sequences then sequences[execution] else 0,
              if execution in buffers then buffers[execution] else [])
    }

    function Following(execution: int): set<Subscription>
      reads this
    {
      if execution in byExecution then byExecution[execution] else {}
    }

    function Targets(execution: int): set<Subscription>
      reads this
    {
      Following(execution) + everywhere
    }

    // Configured sizes have floors.
    constructor (bufferSize: int, streamQueueSize: int)
      ensures ringSize >= 16 && queueSize >= 8
      ensures ringSize == if bufferSize < 16 then 16 else bufferSize
      ensures queueSize == if streamQueueSize < 8 then 8 else streamQueueSize
      ensures forall x :: ChannelOf(x) == Channel(0, []) && Targets(x) == {}
    {
      ringSize := if bufferSize < 16 then 16 else bufferSize;
      queueSize := if streamQueueSize < 8 then 8 else streamQueueSize;
      sequences, buffers, byExecution, everywhere := map[], map[], map[], {};
    }

    // size 0 asks for the configured one.
    method Subscribe(execution: Option<int>, size: nat) returns (s: Subscription)
      requires queueSize > 0
      modifies this`byExecution, this`everywhere
      ensures fresh(s) && s.Valid() && s.History() == Fed(s.capacity, [])
      ensures s.execution == execution && s.capacity == if size != 0 then size else queueSize
      ensures execution == None ==> everywhere == old(everywhere) + {s} && byExecution == old(byExecution)
      ensures execution.Some? ==> everywhere == old(everywhere)
      ensures execution.Some? ==>
                forall x :: Following(x) == old(Following(x)) + if Some(x) == execution then {s} else {}
    {
      s := new Subscription(execution, if size != 0 then size else queueSize);
      if execution == None {
        everywhere := everywhere + {s};
      } else {
        byExecution := byExecution[execution.value := Following(execution.value) + {s}];
      }
    }

    method Unsubscribe(s: Subscription)
      modifies this`byExecution, this`everywhere
      ensures s.execution == None ==> everywhere == old(everywhere) - {s} && byExecution == old(byExecution)
      ensures s.execution.Some? ==> everywhere == old(everywhere)
      ensures s.execution.Some? ==>
                forall x :: Following(x) == old(Following(x)) - if Some(x) == s.execution then {s} else {}
    {
      if s.execution == None {
        everywhere := everywhere - {s};
      } else {
        var x := s.execution.value;
        if x in byExecution {
          byExecution := byExecution[x := byExecution[x] - {s}];
          if byExecution[x] == {} {
            byExecution := byExecution - {x};
          }
        }
      }
    }

    method NextSequence(execution: int) returns (n: nat)
      modifies this`sequences
      ensures n == old(ChannelOf(execution)).sequence + 1
      ensures ChannelOf(execution) == old(ChannelOf(execution)).(sequence := n)
      ensures forall x :: x != execution ==> ChannelOf(x) == old(ChannelOf(x))
    {
      n := (if execution in sequences then sequences[execution] else 0) + 1;
      sequences := sequences[execution := n];
    }

    // Every follower of the execution is offered the event, once.
    method Announce(execution: int, kind: Kind) returns (e: Event)
      requires forall s :: s in Targets(execution) ==> s.Valid()
      modifies this`sequences, this`buffers, Targets(execution)
      ensures (ChannelOf(execution), e) == Publish(old(ChannelOf(execution)), execution, ringSize, kind)
      ensures forall x :: x != execution ==> ChannelOf(x) == old(ChannelOf(x))
      ensures forall s :: s in Targets(execution) ==>
                s.Valid() && s.History() == FeedStep(old(s.History()), s.capacity, Arrive(e))
    {
      var n := NextSequence(execution);
      e := Event(execution, kind, n);
      Remember(e);
      OfferAll(Targets(execution), e);
    }

    // Appending to a deque that holds no more than its maximum.
    method Remember(e: Event)
      modifies this`buffers
      ensures ChannelOf(e.execution) ==
                old(ChannelOf(e.execution)).(ring := LastOf(old(ChannelOf(e.execution)).ring + [e], ringSize))
      ensures forall x :: x != e.execution ==> ChannelOf(x) == old(ChannelOf(x))
    {
      var buffer := if e.execution in buffers then buffers[e.execution] else [];
      buffer := buffer + [e];
      if |buffer| > ringSize {
        buffer := buffer[|buffer| - ringSize..];
      }
      buffers := buffers[e.execution := buffer];
    }

    static method OfferAll(targets: set<Subscription>, e: Event)
      requires forall s :: s in targets ==> s.Valid()
      modifies targets
      ensures forall s :: s in targets ==>
                s.Valid() && s.History() == FeedStep(old(s.History()), s.capacity, Arrive(e))
    {
      var rest := targets;
      while rest != {}
        invariant rest <= targets
        invariant forall s :: s in rest ==> s.Valid() && s.History() == old(s.History())
        invariant forall s :: s in targets - rest ==>
                    s.Valid() && s.History() == FeedStep(old(s.History()), s.capacity, Arrive(e))
      {
        var s :| s in rest;
        s.Offer(e);
        rest := rest - {s};
      }
    }

    method ReplayEvents(execution: int, after: nat) returns (missed: seq<Event>)
      ensures missed == NewerThan(ChannelOf(execution).ring, after)
    {
      var buffer := if execution in buffers then buffers[execution] else [];
      missed := [];
      for k := 0 to |buffer|
        invariant missed == NewerThan(buffer[..k], after)
      {
        assert buffer[..k + 1][..k] == buffer[..k];
        if buffer[k].sequence > after {
          missed := missed + [buffer[k]];
        }
      }
      assert buffer[..|buffer|] == buffer;
    }

    // Numbering starts over once the last follower of an execution is gone.
    method Cleanup(execution: int)
      modifies this`sequences, this`buffers
      ensures ChannelOf(execution) ==
                if Following(execution) != {} then old(ChannelOf(execution)) else Channel(0, [])
      ensures forall x :: x != execution ==> ChannelOf(x) == old(ChannelOf(x))
    {
      if Following(execution) != {} {
        return;
      }
      buffers := buffers - {execution};
      sequences := sequences - {execution};
    }
  }

  // What the program holds of a world.
  datatype Glimpse = Glimpse(channel: Channel, phase: Phase, inbox: Inbox, received: seq<Event>, farewell: bool)

  function GlimpseOf(w: World): Glimpse {
    Glimpse(w.channel, w.client.phase, w.client.inbox, w.client.received, w.client.farewell)
  }

  // The client knows the channel until it closes.
  predicate Matches(g: Glimpse, w: World) {
    && g == GlimpseOf(w).(channel := g.channel)
    && (g.phase != Closed ==> g.channel == w.channel)
  }

  // One execution and the generator behind one client's stream of it. actions
  // is what has happened so far: the class stays with the machine of Streaming.
  class EventStream {
    const broker: ExecutionBroker
    const execution: int
    var subscription: Subscription?
    var phase: Phase
    var received: seq<Event>
    var farewell: bool
    ghost var actions: seq<Action>

    function Sizing(): Sizes {
      Sizes(execution, broker.ringSize, broker.queueSize)
    }

    // The state of the machine.
    ghost function Machine(): World
      reads this
    {
      Played(Sizing(), actions)
    }

    ghost function Mine(): set<Subscription>
      reads this
    {
      if subscription == null then {} else {subscription}
    }

    // The subscription is followed as long as the client listens.
    ghost predicate Attached()
      reads this, broker, Mine()
    {
      && (phase == Away <==> subscription == null)
      && (subscription != null ==>
            && subscription.Valid() && subscription.execution == Some(execution)
            && subscription.capacity == broker.queueSize
            && (phase == Closed <==> subscription !in broker.Following(execution)))
    }

    ghost function Held(): Glimpse
      reads this, broker, Mine()
    {
      Glimpse(broker.ChannelOf(execution), phase,
              if subscription == null then Inbox([], 0) else subscription.View(), received, farewell)
    }

    // All that hear of the execution are in order.
    ghost predicate Orderly()
      reads this, broker, broker.Targets(execution)
    {
      && broker.queueSize > 0
      && (forall s :: s in broker.everywhere ==> s.execution == None)
      && (forall s :: s in broker.Targets(execution) ==> s.Valid())
    }

    ghost predicate Valid()
      reads this, broker, Mine(), broker.Targets(execution)
    {
      Orderly() && Attached() && Matches(Held(), Machine())
    }

    // The last one to leave takes ring and numbering along.
    ghost predicate CleanedUp()
      reads this, broker
    {
      broker.ChannelOf(execution) == if broker.Following(execution) != {} then Machine().channel else Channel(0, [])
    }

    constructor (broker: ExecutionBroker, execution: int)
      requires broker.queueSize > 0 && broker.ChannelOf(execution) == Channel(0, [])
      requires forall s :: s in broker.everywhere ==> s.execution == None
      requires forall s :: s in broker.Targets(execution) ==> s.Valid()
      ensures this.broker == broker && this.execution == execution && phase == Away
      ensures Valid() && actions == []
    {
      this.broker, this.execution := broker, execution;
      subscription, phase, received, farewell := null, Away, [], false;
      actions := [];
    }

    // One more action of the machine.
    lemma PlayedNext(a: Action)
      ensures Played(Sizing(), actions + [a]) == Streaming.Step(Machine(), Sizing(), a)
    {
      assert (actions + [a])[..|actions|] == actions;
    }

    method Subscribe()
      requires Valid() && phase == Away
      modifies this, broker`byExecution, broker`everywhere
      ensures Valid() && actions == old(actions) + [Action.Subscribe]
    {
      PlayedNext(Action.Subscribe);
      SubscribeStep(Held(), Machine(), Sizing());
      actions := actions + [Action.Subscribe];
      Follow();
    }

    method Follow()
      requires Orderly() && Attached() && phase == Away
      modifies this`phase, this`subscription, broker`byExecution, broker`everywhere
      ensures Orderly() && Attached()
      ensures Held() == old(Held()).(phase := Subscribed)
    {
      var s := broker.Subscribe(Some(execution), 0);
      assert s.View() == Inbox([], 0);
      phase, subscription := Subscribed, s;
    }

    // The execution publishes an event; the client hears it while it listens.
    method Announce(kind: Kind)
      requires Valid()
      modifies this`actions, broker`sequences, broker`buffers, broker.Targets(execution)
      ensures Valid() && actions == old(actions) + [Action.Announce(kind)]
    {
      PlayedNext(Action.Announce(kind));
      AnnounceStep(Held(), Machine(), Sizing(), kind);
      actions := actions + [Action.Announce(kind)];
      var _ := broker.Announce(execution, kind);
      assert Orderly();
      assert Attached();
      assert Held() == Announced(old(Held()), Sizing(), kind);
    }

    // Another client's farewell frame takes a number.
    method Draw()
      requires Valid()
      modifies this`actions, broker`sequences
      ensures Valid() && actions == old(actions) + [Action.Draw]
    {
      PlayedNext(Action.Draw);
      actions := actions + [Action.Draw];
      var _ := broker.NextSequence(execution);
      assert Orderly();
      assert Attached();
      assert Held() == old(Held()).(channel := broker.ChannelOf(execution));
    }

    method Backfill(after: nat, alreadyFinished: bool)
      requires Valid() && phase == Subscribed
      modifies this, broker`sequences, broker`buffers, broker`byExecution, broker`everywhere
      ensures Valid() && actions == old(actions) + [Replay(after, alreadyFinished)]
      ensures phase == Closed ==> CleanedUp()
    {
      PlayedNext(Replay(after, alreadyFinished));
      NoFarewellYet(Sizing(), actions);
      ReplayStep(Held(), Machine(), Sizing(), after, alreadyFinished);
      actions := actions + [Replay(after, alreadyFinished)];
      var over := CatchUp(after, alreadyFinished);
      if over {
        Close();
      } else {
        phase := Open;
      }
    }

    // The replay and, for a run that is over, the synthetic end.
    method CatchUp(after: nat, alreadyFinished: bool) returns (over: bool)
      requires Orderly() && Attached() && phase == Subscribed && !farewell
      modifies this`received, this`farewell, broker`sequences
      ensures Orderly() && Attached()
      ensures over <==> Replayed(old(Held()), after, alreadyFinished).phase == Closed
      ensures Held() == Replayed(old(Held()), after, alreadyFinished).(phase := Subscribed)
    {
      var missed := broker.ReplayEvents(execution, after);
      var replayedTerminal := Send(missed);
      if !replayedTerminal && alreadyFinished {
        var _ := broker.NextSequence(execution);
        farewell := true;
      }
      over := replayedTerminal || alreadyFinished;
    }

    // Every missed event goes out; whether the end was among them.
    method Send(missed: seq<Event>) returns (replayedTerminal: bool)
      modifies this`received
      ensures received == missed && (replayedTerminal <==> HasFinished(missed))
    {
      received, replayedTerminal := [], false;
      for k := 0 to |missed|
        invariant received == missed[..k]
        invariant replayedTerminal <==> HasFinished(missed[..k])
      {
        received := received + [missed[k]];
        FinishedAppend(missed[..k], missed[k]);
        assert missed[..k + 1] == missed[..k] + [missed[k]];
        if missed[k].kind == ExecutionFinished {
          replayedTerminal := true;
        }
      }
      assert missed[..|missed|] == missed;
    }

    // Stops listening and cleans up, as the generator does however it returns.
    method Close()
      requires Orderly() && Attached() && (phase == Subscribed || phase == Open)
      modifies this`phase, broker`sequences, broker`buffers, broker`byExecution, broker`everywhere
      ensures Orderly() && Attached() && broker.everywhere == old(broker.everywhere)
      ensures broker.Following(execution) == old(broker.Following(execution)) - {subscription}
      ensures Held() == old(Held()).(phase := Closed, channel := broker.ChannelOf(execution))
      ensures broker.ChannelOf(execution) ==
                if broker.Following(execution) != {} then old(broker.ChannelOf(execution)) else Channel(0, [])
    {
      phase := Closed;
      broker.Unsubscribe(subscription);
      broker.Cleanup(execution);
    }

    method Next()
      requires Valid() && phase == Open && subscription.queue != []
      modifies this, subscription, broker`sequences, broker`buffers, broker`byExecution, broker`everywhere
      ensures Valid() && actions == old(actions) + [Take]
      ensures phase == Closed ==> CleanedUp()
    {
      PlayedNext(Take);
      actions := actions + [Take];
      var over := Receive();
      if over {
        Close();
      }
    }

    // One frame from the queue; whether it is the last.
    method Receive() returns (over: bool)
      requires Orderly() && Attached() && phase == Open && subscription.queue != []
      modifies this`received, subscription
      ensures Orderly() && Attached()
      ensures var e := old(subscription.queue[0]);
        && (over <==> e.kind == ExecutionFinished)
        && Held() == old(Held()).(received := old(received) + [e],
                                  inbox := old(subscription.View()).(queue := old(subscription.queue)[1..]))
    {
      var e := subscription.Get();
      received := received + [e];
      over := e.kind == ExecutionFinished;
    }

    // The client leaves.
    method Disconnect()
      requires Valid() && phase == Open
      modifies this, broker`sequences, broker`buffers, broker`byExecution, broker`everywhere
      ensures Valid() && actions == old(actions) + [Action.Disconnect]
      ensures CleanedUp()
    {
      PlayedNext(Action.Disconnect);
      actions := actions + [Action.Disconnect];
      Close();
    }
  }

  lemma SubscribeStep(g: Glimpse, w: World, z: Sizes)
    requires Matches(g, w) && g.phase == Away
    ensures Matches(g.(phase := Subscribed), Step(w, z, Subscribe))
  {
  }

  // What an announcement does to the glimpse.
  function Announced(g: Glimpse, z: Sizes, kind: Kind): Glimpse {
    var (channel, e) := Publish(g.channel, z.execution, z.ring, kind);
    g.(channel := channel,
       inbox := if g.phase == Subscribed || g.phase == Open then Offer(g.inbox, z.inbox, e) else g.inbox)
  }

  lemma AnnounceStep(g: Glimpse, w: World, z: Sizes, kind: Kind)
    requires Matches(g, w)
    ensures Matches(Announced(g, z, kind), Step(w, z, Announce(kind)))
  {
  }

  // What the replay does to it, but for the cleanup.
  function Replayed(g: Glimpse, after: nat, alreadyFinished: bool): Glimpse {
    var missed := NewerThan(g.channel.ring, after);
    var over := HasFinished(missed);
    var closed := if over || alreadyFinished then Closed else Open;
    if !over && alreadyFinished
    then Glimpse(g.channel.(sequence := g.channel.sequence + 1), closed, g.inbox, missed, true)
    else Glimpse(g.channel, closed, g.inbox, missed, false)
  }

  lemma ReplayStep(g: Glimpse, w: World, z: Sizes, after: nat, alreadyFinished: bool)
    requires Matches(g, w) && g.phase == Subscribed && !g.farewell
    ensures Replayed(g, after, alreadyFinished) == GlimpseOf(Step(w, z, Replay(after, alreadyFinished)))
  {
  }

  lemma NoFarewellYet(z: Sizes, actions: seq<Action>)
    ensures Played(z, actions).client.phase == Subscribed ==> !Played(z, actions).client.farewell
  {
    NumbersAreDrawnOnce(z, actions);
  }

  lemma FinishedAppend(events: seq<Event>, e: Event)
    ensures HasFinished(events + [e]) <==> HasFinished(events) || e.kind == ExecutionFinished
  {
    if i :| 0 <= i < |events| && events[i].kind == ExecutionFinished {
      assert (events + [e])[i].kind == ExecutionFinished;
    }
    assert (events + [e])[|events|] == e;
  }
}
