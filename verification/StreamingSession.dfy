/** The session object behind the streaming protocol: every method is a step of it. */
module StreamingSessions {
  import opened Monitors
  import opened Streaming

  type Chunk = seq<Byte>

  /** The text of all chunks up to one. */
  ghost function Joined(chunks: seq<Chunk>): seq<Byte> {
    if chunks == [] then [] else Joined(chunks[..|chunks| - 1]) + chunks[|chunks| - 1]
  }

  lemma JoinedOneMore(chunks: seq<Chunk>, data: Chunk)
    ensures Joined(chunks + [data]) == Joined(chunks) + data
  {
    assert (chunks + [data])[..|chunks|] == chunks;
  }

  /** The queued data are the chunks with the queued numbers. */
  ghost predicate Carries(queue: seq<Chunk>, numbers: seq<nat>, chunks: seq<Chunk>) {
    && |queue| == |numbers|
    && forall k | 0 <= k < |numbers| :: 1 <= numbers[k] <= |chunks| && queue[k] == chunks[numbers[k] - 1]
  }

  lemma CarriesMore(queue: seq<Chunk>, numbers: seq<nat>, chunks: seq<Chunk>, data: Chunk)
    requires Carries(queue, numbers, chunks)
    ensures Carries(queue, numbers, chunks + [data])
  {
  }

  lemma CarriesHead(queue: seq<Chunk>, numbers: seq<nat>, chunks: seq<Chunk>)
    requires Carries(queue, numbers, chunks) && numbers != []
    ensures queue != [] && Carries([queue[0]], [numbers[0]], chunks) && Carries(queue[1..], numbers[1..], chunks)
  {
  }

  lemma CarriesOffer(queue: seq<Chunk>, numbers: seq<nat>, chunks: seq<Chunk>, n: nat)
    requires Carries(queue, numbers, chunks) && 1 <= n <= |chunks|
    ensures Carries(Offer(queue, chunks[n - 1]), Offer(numbers, n), chunks)
  {
  }

  /** A subscriber's channel.  Sending on or closing a closed channel panics, hence the preconditions. */
  class Subscriber {
    var queue: seq<Chunk>
    var closed: bool
    ghost const client: int

    constructor (ghost client: int)
      ensures queue == [] && !closed && this.client == client
    {
      queue, closed, this.client := [], false, client;
    }

    method TrySend(data: Chunk)
      requires !closed
      modifies this
      ensures queue == Offer(old(queue), data) && !closed
    {
      if |queue| < QUEUE_SIZE { queue := queue + [data]; }
    }

    method Close()
      requires !closed
      modifies this
      ensures closed && queue == old(queue)
    {
      closed := true;
    }

    /** What the forwarding loop takes next. */
    method Receive() returns (data: Chunk)
      requires queue != []
      modifies this
      ensures [data] + queue == old(queue) && closed == old(closed)
    {
      data := queue[0];
      queue := queue[1..];
    }
  }

  /** A local or remote terminal session; the two kinds share this part word for word. */
  class Session {
    const monitor: Monitor
    var closed: bool
    var subscribers: set<Subscriber>
    ghost var state: State
    ghost var chunks: seq<Chunk>                // every chunk read so far
    ghost var channels: map<int, Subscriber>    // the channel of every client that has subscribed
    ghost var created: set<Subscriber>

    /** The channel is in the state of its client. */
    ghost predicate Stands(c: int)
      requires c in channels && c in state.clients
      reads this, channels[c]
    {
      && channels[c].client == c
      && channels[c].closed == !state.clients[c].open
      && Carries(channels[c].queue, state.clients[c].queue, chunks)
    }

    ghost predicate Valid()
      reads this, created, monitor, monitor.buf
    {
      && Invariant(state)
      && monitor.Valid() && monitor.stream == Joined(chunks) && |chunks| == state.written
      && closed == state.closed
      && (forall c | c in channels :: channels[c] in created && c in state.clients && Stands(c))
      && (forall c | c in state.clients :: c in channels <==> state.clients[c].stage != Looking)
      && (forall c | c in state.registered :: c in channels && channels[c] in subscribers)
      && (forall sub | sub in subscribers ::
            sub.client in channels && channels[sub.client] == sub && sub.client in state.registered)
    }

    constructor (size: nat)
      requires 0 < size
      ensures Valid() && state == START && chunks == [] && monitor.size == size
      ensures fresh(monitor) && fresh(monitor.buf)
    {
      monitor := new Monitor(size);
      closed, subscribers := false, {};
      state, chunks, channels, created := START, [], map[], {};
      new;
      StartIsFine();
    }

    /** A client looks: the end of everything read so far. */
    method GetSnapshot(ghost c: int) returns (content: seq<Byte>)
      requires Valid() && c !in state.clients
      modifies this`state
      ensures Valid() && state == Apply(old(state), TakeSnapshot(c))
      ensures content == Last(Joined(chunks), monitor.size)
    {
      hide Invariant, Carries;
      content := monitor.Content();
      StepKeepsInvariant(state, TakeSnapshot(c));
      state := Apply(state, TakeSnapshot(c));
    }

    method Subscribe(ghost c: int) returns (sub: Subscriber)
      requires Valid() && Enabled(state, Event.Subscribe(c))
      modifies this
      ensures Valid() && state == Apply(old(state), Event.Subscribe(c)) && chunks == old(chunks)
      ensures fresh(sub) && sub.client == c && c in channels && channels[c] == sub
    {
      hide Session.Valid, Apply, Enabled;
      sub := new Subscriber(c);
      Register(sub);
    }

    method Register(sub: Subscriber)
      requires Valid() && sub !in created && Enabled(state, Event.Subscribe(sub.client))
      requires sub.queue == [] && !sub.closed
      modifies this`state, this`subscribers, this`channels, this`created
      ensures Valid() && state == Apply(old(state), Event.Subscribe(sub.client))
      ensures sub.client in channels && channels[sub.client] == sub
    {
      hide Invariant, Carries, Apply;
      StepKeepsInvariant(state, Event.Subscribe(sub.client));
      Subscribing(state, sub.client);
      NothingCarried(chunks);
      FreshClientIsIdle(state, sub.client);
      created := created + {sub};
      channels := channels[sub.client := sub];
      subscribers := subscribers + {sub};
      state := Apply(state, Event.Subscribe(sub.client));
    }

    /** The channel is no longer registered, and stays open if it was. */
    method Unsubscribe(sub: Subscriber)
      requires Valid() && sub.client in channels && channels[sub.client] == sub
      requires Enabled(state, Event.Unsubscribe(sub.client))
      modifies this`state, this`subscribers
      ensures Valid() && state == Apply(old(state), Event.Unsubscribe(sub.client))
      ensures subscribers == old(subscribers) - {sub}
    {
      hide Invariant, Carries;
      StepKeepsInvariant(state, Event.Unsubscribe(sub.client));
      subscribers := subscribers - {sub};
      state := Apply(state, Event.Unsubscribe(sub.client));
    }

    /** The forwarding loop of a client takes its next chunk: the one with the number at the head of its queue. */
    method Receive(sub: Subscriber) returns (data: Chunk)
      requires Valid() && sub.client in channels && channels[sub.client] == sub
      requires Enabled(state, Event.Receive(sub.client))
      modifies this`state, sub
      ensures Valid() && state == Apply(old(state), Event.Receive(sub.client))
      ensures Carries([data], [old(state.clients[sub.client].queue[0])], chunks)
    {
      hide Invariant, Carries;
      StepKeepsInvariant(state, Event.Receive(sub.client));
      CarriesHead(sub.queue, state.clients[sub.client].queue, chunks);
      data := sub.Receive();
      state := Apply(state, Event.Receive(sub.client));
    }

    method WriteToMonitor(data: Chunk)
      requires Valid() && Enabled(state, WriteChunk)
      modifies this`state, this`chunks, monitor, monitor.buf
      ensures Valid() && state == Apply(old(state), WriteChunk) && chunks == old(chunks) + [data]
      ensures |chunks| == state.written
    {
      hide Invariant, Carries;
      StepKeepsInvariant(state, WriteChunk);
      forall c | c in channels ensures Carries(channels[c].queue, state.clients[c].queue, chunks + [data]) {
        CarriesMore(channels[c].queue, state.clients[c].queue, chunks, data);
      }
      monitor.Write(data);
      JoinedOneMore(chunks, data);
      chunks := chunks + [data];
      state := Apply(state, WriteChunk);
    }

    /** Offers to every registered channel once; none of them is closed. */
    method OfferAll(data: Chunk)
      requires forall sub | sub in subscribers :: !sub.closed
      modifies subscribers
      ensures forall sub | sub in subscribers :: sub.queue == Offer(old(sub.queue), data) && !sub.closed
    {
      var todo := subscribers;
      while todo != {}
        invariant todo <= subscribers
        invariant forall sub | sub in subscribers :: !sub.closed
        invariant forall sub | sub in subscribers ::
          sub.queue == if sub in todo then old(sub.queue) else Offer(old(sub.queue), data)
        decreases todo
      {
        var sub :| sub in todo;
        sub.TrySend(data);
        todo := todo - {sub};
      }
    }

    /** The last chunk written goes to everybody who is registered. */
    method Broadcast(data: Chunk)
      requires Valid() && Enabled(state, BroadcastChunk) && data == chunks[state.written - 1]
      modifies this`state, subscribers
      ensures Valid() && state == Apply(old(state), BroadcastChunk)
    {
      hide Invariant, Carries;
      RegisteredAreOpen(state);
      StepKeepsInvariant(state, BroadcastChunk);
      forall c | c in state.registered ensures
        Carries(Offer(channels[c].queue, data), Offer(state.clients[c].queue, state.written), chunks)
      {
        CarriesOffer(channels[c].queue, state.clients[c].queue, chunks, state.written);
      }
      OfferAll(data);
      state := Apply(state, BroadcastChunk);
    }

    /** What the reader does with one chunk: remember it, then pass it on. */
    method FeedOutput(data: Chunk)
      requires Valid() && Enabled(state, WriteChunk)
      modifies this`state, this`chunks, monitor, monitor.buf, subscribers
      ensures Valid() && state == Apply(Apply(old(state), WriteChunk), BroadcastChunk)
      ensures chunks == old(chunks) + [data]
    {
      hide Session.Valid;
      WriteToMonitor(data);
      Broadcast(data);
    }

    /** Closes and forgets all registered channels; both closers end with this. */
    method Sweep()
      requires forall sub | sub in subscribers :: !sub.closed
      modifies this`subscribers, subscribers
      ensures subscribers == {}
      ensures forall sub | sub in old(subscribers) :: sub.closed && sub.queue == old(sub.queue)
    {
      while subscribers != {}
        invariant subscribers <= old(subscribers)
        invariant forall sub | sub in old(subscribers) :: sub.queue == old(sub.queue)
        invariant forall sub | sub in old(subscribers) :: sub.closed <==> sub !in subscribers
        decreases subscribers
      {
        var sub :| sub in subscribers;
        sub.Close();
        subscribers := subscribers - {sub};
      }
    }

    /** The reader meets the end of input. */
    method EndInput()
      requires Valid() && Enabled(state, EndOfInput)
      modifies this`state, this`subscribers, subscribers
      ensures Valid() && state == Apply(old(state), EndOfInput) && subscribers == {}
    {
      hide Invariant, Carries;
      RegisteredAreOpen(state);
      StepKeepsInvariant(state, EndOfInput);
      Sweep();
      state := Apply(state, EndOfInput);
    }

    method Close()
      requires Valid()
      modifies this`closed, this`state, this`subscribers, subscribers
      ensures Valid() && state == Apply(old(state), CloseSession)
      ensures old(closed) ==> subscribers == old(subscribers)
    {
      hide Invariant, Carries;
      RegisteredAreOpen(state);
      StepKeepsInvariant(state, CloseSession);
      if closed { return; }
      closed := true;
      Sweep();
      state := Apply(state, CloseSession);
    }

    /** The process ends: the session counts as closed, and no channel is. */
    method Exited()
      requires Valid()
      modifies this`closed, this`state
      ensures Valid() && state == Apply(old(state), ProcessExit)
    {
      hide Invariant, Carries;
      StepKeepsInvariant(state, ProcessExit);
      closed := true;
      state := Apply(state, ProcessExit);
    }
  }

  lemma RegisteredAreOpen(s: State)
    requires Invariant(s)
    ensures forall c | c in s.registered :: c in s.clients && s.clients[c].open && s.clients[c].stage == Subscribed
  {
  }

  lemma NothingCarried(chunks: seq<Chunk>)
    ensures Carries([], [], chunks)
  {
  }

  lemma Subscribing(s: State, c: int)
    requires Enabled(s, Event.Subscribe(c))
    ensures var t := Apply(s, Event.Subscribe(c));
      && t.written == s.written && t.closed == s.closed && t.registered == s.registered + {c}
      && t.clients.Keys == s.clients.Keys
      && (forall d | d in s.clients && d != c :: t.clients[d] == s.clients[d])
      && t.clients[c].stage == Subscribed && t.clients[c].open && t.clients[c].queue == s.clients[c].queue
  {
  }

  lemma FreshClientIsIdle(s: State, c: int)
    requires Invariant(s) && c in s.clients && s.clients[c].stage == Looking
    ensures s.clients[c].queue == []
  {
    assert Delivered(s.clients[c]) == [];
  }

  /** A session over its whole input, with nobody listening: a later snapshot is the end of all of it. */
  method FeedAll(session: Session, chunks: seq<Chunk>, ghost c: int) returns (snapshot: seq<Byte>)
    requires session.Valid() && session.state == START && session.chunks == []
    modifies session, session.monitor, session.monitor.buf
    ensures session.Valid() && session.chunks == chunks
    ensures snapshot == Last(Joined(chunks), session.monitor.size)
  {
    for i := 0 to |chunks|
      invariant session.Valid() && session.chunks == chunks[..i]
      invariant session.state == START.(written := i, sent := i)
    {
      session.FeedOutput(chunks[i]);
      assert chunks[..i + 1] == chunks[..i] + [chunks[i]];
    }
    snapshot := session.GetSnapshot(c);
  }
}
