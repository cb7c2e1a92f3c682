/** Terminal output streamed to any number of slow clients, as a protocol.

  One reader writes each chunk to the monitor and then offers it to every subscriber's bounded queue.
  A client takes a snapshot of the monitor first and subscribes second.  Two closers, the reader at end
  of input and an explicit close, sweep the subscribers in either order.  Chunks are numbered from 1. */
module Streaming {
  import opened Runs

  const QUEUE_SIZE := 256

  /** A full queue drops what it is offered. */
  function Offer<T>(queue: seq<T>, x: T): seq<T> {
    if |queue| < QUEUE_SIZE then queue + [x] else queue
  }

  datatype Stage = Looking | Subscribed | Left

  /** A client: the number of the last chunk in its snapshot, the number of the last chunk broadcast
    before it subscribed and the last one while it was registered, and what happened to those between. */
  datatype Client = Client(stage: Stage, snapshot: nat, joined: nat, upto: nat,
                           queue: seq<nat>, received: seq<nat>, dropped: nat, open: bool)

  datatype State = State(written: nat, sent: nat, readerDone: bool, closed: bool,
                         clients: map<int, Client>, registered: set<int>)

  datatype Event =
    | WriteChunk | BroadcastChunk | EndOfInput
    | CloseSession | ProcessExit
    | TakeSnapshot(c: int) | Subscribe(c: int) | Receive(c: int) | Unsubscribe(c: int)

  const START := State(0, 0, false, false, map[], {})

  /** The reader alternates writing and broadcasting; a client takes its steps in order. */
  predicate Enabled(s: State, e: Event) {
    match e
    case WriteChunk => !s.readerDone && s.written == s.sent
    case BroadcastChunk => !s.readerDone && s.written == s.sent + 1
    case EndOfInput => !s.readerDone && s.written == s.sent
    case CloseSession | ProcessExit => true
    case TakeSnapshot(c) => c !in s.clients
    case Subscribe(c) => c in s.clients && s.clients[c].stage == Looking
    case Receive(c) => c in s.clients && s.clients[c].stage == Subscribed && s.clients[c].queue != []
    case Unsubscribe(c) => c in s.clients && s.clients[c].stage == Subscribed
  }

  /** An enabled event panics if it touches a closed channel. */
  predicate Panics(s: State, e: Event) {
    && (e.BroadcastChunk? || e.EndOfInput? || (e.CloseSession? && !s.closed))
    && exists c | c in s.registered :: c in s.clients && !s.clients[c].open
  }

  function Delivered(cl: Client): seq<nat> { cl.received + cl.queue }

  function Offered(cl: Client, n: nat): Client {
    cl.(queue := Offer(cl.queue, n), upto := n,
        dropped := if |cl.queue| < QUEUE_SIZE then cl.dropped else cl.dropped + 1)
  }

  function Swept(s: State): State {
    s.(registered := {},
       clients := map c | c in s.clients ::
         if c in s.registered then s.clients[c].(open := false) else s.clients[c])
  }

  function Apply(s: State, e: Event): State
    requires Enabled(s, e)
  {
    match e
    case WriteChunk => s.(written := s.written + 1)
    case BroadcastChunk =>
      s.(sent := s.written,
         clients := map c | c in s.clients ::
           if c in s.registered then Offered(s.clients[c], s.written) else s.clients[c])
    case EndOfInput => Swept(s).(readerDone := true)
    case CloseSession => if s.closed then s else Swept(s).(closed := true)
    case ProcessExit => s.(closed := true)
    case TakeSnapshot(c) =>
      s.(clients := s.clients[c := Client(Looking, s.written, 0, 0, [], [], 0, false)])
    case Subscribe(c) =>
      s.(clients := s.clients[c := s.clients[c].(stage := Subscribed, joined := s.sent, upto := s.sent, open := true)],
         registered := s.registered + {c})
    case Receive(c) =>
      var cl := s.clients[c];
      s.(clients := s.clients[c := cl.(received := cl.received + [cl.queue[0]], queue := cl.queue[1..])])
    case Unsubscribe(c) =>
      s.(clients := s.clients[c := s.clients[c].(stage := Left)], registered := s.registered - {c})
  }

  ghost predicate Increasing(s: seq<nat>) {
    forall i, j | 0 <= i < j < |s| :: s[i] < s[j]
  }

  /** What a client is given of the chunks after `lo` up to `hi`: in order, all but the dropped ones, and always the
    first of them. */
  ghost predicate Numbered(numbers: seq<nat>, lo: nat, hi: nat, dropped: nat) {
    && Increasing(numbers)
    && (forall i | 0 <= i < |numbers| :: lo < numbers[i] <= hi)
    && |numbers| + dropped == hi - lo
    && (hi > lo ==> numbers != [] && numbers[0] == lo + 1)
  }

  ghost predicate GoodClient(s: State, cl: Client) {
    && cl.snapshot <= s.written
    && |cl.queue| <= QUEUE_SIZE
    && (cl.stage == Looking ==> Delivered(cl) == [] && cl.joined == cl.upto == cl.dropped == 0)
    && (cl.stage != Looking ==> cl.snapshot <= cl.joined + 1)
    && cl.joined <= cl.upto <= s.sent
    && Numbered(Delivered(cl), cl.joined, cl.upto, cl.dropped)
  }

  ghost predicate Invariant(s: State) {
    && s.sent <= s.written <= s.sent + 1
    && (s.readerDone ==> s.written == s.sent)
    && (forall c | c in s.registered ::
          c in s.clients && s.clients[c].stage == Subscribed && s.clients[c].open && s.clients[c].upto == s.sent)
    && (forall c | c in s.clients :: GoodClient(s, s.clients[c]))
  }

  lemma OfferKeepsGood(s: State, cl: Client)
    requires GoodClient(s, cl) && cl.stage == Subscribed && cl.upto == s.sent && s.written == s.sent + 1
    ensures GoodClient(s.(sent := s.written), Offered(cl, s.written))
  {
    hide Numbered;
    OneMoreNumber(Delivered(cl), cl.joined, cl.upto, cl.dropped);
    if |cl.queue| < QUEUE_SIZE {
      assert Delivered(Offered(cl, s.written)) == Delivered(cl) + [s.written];
    }
  }

  lemma OneMoreNumber(numbers: seq<nat>, lo: nat, hi: nat, dropped: nat)
    requires Numbered(numbers, lo, hi, dropped) && lo <= hi
    ensures Numbered(numbers + [hi + 1], lo, hi + 1, dropped)
    ensures numbers != [] ==> Numbered(numbers, lo, hi + 1, dropped + 1)
  {
  }

  lemma ReceiveKeepsGood(s: State, cl: Client)
    requires GoodClient(s, cl) && cl.queue != []
    ensures GoodClient(s, cl.(received := cl.received + [cl.queue[0]], queue := cl.queue[1..]))
  {
    hide Numbered;
    assert Delivered(cl.(received := cl.received + [cl.queue[0]], queue := cl.queue[1..])) == Delivered(cl);
  }

  lemma GoodStaysGood(s: State, t: State, cl: Client)
    requires GoodClient(s, cl) && s.written <= t.written && s.sent <= t.sent
    ensures GoodClient(t, cl)
  {
  }

  /** Every step keeps the invariant, and the invariant rules out panics. */
  lemma StepKeepsInvariant(s: State, e: Event)
    requires Invariant(s) && Enabled(s, e)
    ensures !Panics(s, e) && Invariant(Apply(s, e))
  {
    hide GoodClient, Offered;
    var t := Apply(s, e);
    forall c | c in t.clients ensures GoodClient(t, t.clients[c]) {
      ClientStaysGood(s, e, c);
    }
    if e.BroadcastChunk? {
      forall c | c in s.registered
        ensures t.clients[c].upto == t.sent && t.clients[c].open && t.clients[c].stage == Subscribed
      {
        OfferedFields(s.clients[c], s.written);
      }
    }
  }

  lemma OfferedFields(cl: Client, n: nat)
    ensures Offered(cl, n).upto == n && Offered(cl, n).open == cl.open && Offered(cl, n).stage == cl.stage
  {
  }

  lemma ClientStaysGood(s: State, e: Event, c: int)
    requires Invariant(s) && Enabled(s, e) && c in Apply(s, e).clients
    ensures GoodClient(Apply(s, e), Apply(s, e).clients[c])
  {
    hide GoodClient, Offered;
    match e
    case WriteChunk | ProcessExit => GoodStaysGood(s, Apply(s, e), s.clients[c]);
    case BroadcastChunk =>
      if c in s.registered {
        OfferKeepsGood(s, s.clients[c]);
        GoodStaysGood(s.(sent := s.written), Apply(s, e), Offered(s.clients[c], s.written));
      } else {
        GoodStaysGood(s, Apply(s, e), s.clients[c]);
      }
    case EndOfInput | CloseSession =>
      ClosingKeepsGood(s, s.clients[c]);
      GoodStaysGood(s, Apply(s, e), Apply(s, e).clients[c]);
    case TakeSnapshot(d) => 
      if c == d { NewIsGood(Apply(s, e)); } else { GoodStaysGood(s, Apply(s, e), s.clients[c]); }
    case Subscribe(d) =>
      if c == d { SubscribingKeepsGood(s, s.clients[c]); }
      GoodStaysGood(s, Apply(s, e), Apply(s, e).clients[c]);
    case Receive(d) =>
      if c == d { ReceiveKeepsGood(s, s.clients[c]); }
      GoodStaysGood(s, Apply(s, e), Apply(s, e).clients[c]);
    case Unsubscribe(d) =>
      if c == d { LeavingKeepsGood(s, s.clients[c]); }
      GoodStaysGood(s, Apply(s, e), Apply(s, e).clients[c]);
  }

  lemma ClosingKeepsGood(s: State, cl: Client)
    requires GoodClient(s, cl)
    ensures GoodClient(s, cl.(open := false))
  {
    hide Numbered;
    assert Delivered(cl.(open := false)) == Delivered(cl);
  }

  lemma NewIsGood(s: State)
    ensures GoodClient(s, Client(Looking, s.written, 0, 0, [], [], 0, false))
  {
  }

  lemma SubscribingKeepsGood(s: State, cl: Client)
    requires GoodClient(s, cl) && cl.stage == Looking && s.written <= s.sent + 1
    ensures GoodClient(s, cl.(stage := Subscribed, joined := s.sent, upto := s.sent, open := true))
  {
  }

  lemma LeavingKeepsGood(s: State, cl: Client)
    requires GoodClient(s, cl) && cl.stage == Subscribed
    ensures GoodClient(s, cl.(stage := Left))
  {
    hide Numbered;
    assert Delivered(cl.(stage := Left)) == Delivered(cl);
  }

  predicate StepTo(s: State, e: Event, t: State) { Enabled(s, e) && t == Apply(s, e) }

  ghost predicate Run(states: seq<State>, events: seq<Event>) { IsRun(StepTo, states, events) }

  lemma {:induction false} RunsKeepInvariant(states: seq<State>, events: seq<Event>, i: nat)
    requires Run(states, events) && states[0] == START && i < |states|
    ensures Invariant(states[i])
  {
    hide Invariant;
    if i == 0 {
      StartIsFine();
    } else {
      RunsKeepInvariant(states, events, i - 1);
      assert StepAt(StepTo, states, events, i - 1);
      StepKeepsInvariant(states[i - 1], events[i - 1]);
    }
  }

  lemma StartIsFine()
    ensures Invariant(START)
  {
  }

  /** A bounded queue, strictly increasing numbers, none before the snapshot, and only the first perhaps in it. */
  ghost predicate IsSafe(s: State, cl: Client) {
    && |cl.queue| <= 256
    && Increasing(Delivered(cl))
    && (forall k | 0 <= k < |Delivered(cl)| :: cl.snapshot <= Delivered(cl)[k] <= s.sent)
    && (forall k | 0 < k < |Delivered(cl)| :: cl.snapshot < Delivered(cl)[k])
  }

  /** In every interleaving: no panic, bounded queues, and what a client is given has strictly increasing
    numbers, none before the last chunk of its snapshot, so at most that one is repeated. */
  lemma StreamingIsSafe(states: seq<State>, events: seq<Event>, i: nat)
    requires Run(states, events) && states[0] == START && i < |states|
    ensures i < |events| ==> !Panics(states[i], events[i])
    ensures forall c | c in states[i].clients :: IsSafe(states[i], states[i].clients[c])
  {
    hide GoodClient, Increasing, Delivered, Apply, Enabled, Panics;
    RunsKeepInvariant(states, events, i);
    if i < |events| {
      assert StepAt(StepTo, states, events, i);
      StepKeepsInvariant(states[i], events[i]);
    }
    forall c | c in states[i].clients ensures IsSafe(states[i], states[i].clients[c]) {
      GoodIsSafe(states[i], states[i].clients[c]);
    }
  }

  lemma GoodIsSafe(s: State, cl: Client)
    requires GoodClient(s, cl)
    ensures IsSafe(s, cl)
  {
    NumbersFollowSnapshot(s, cl);
  }

  lemma NumbersFollowSnapshot(s: State, cl: Client)
    requires GoodClient(s, cl)
    ensures forall k | 0 <= k < |Delivered(cl)| :: cl.snapshot <= Delivered(cl)[k] <= s.sent
    ensures forall k | 0 < k < |Delivered(cl)| :: cl.snapshot < Delivered(cl)[k]
  {
    hide Delivered;
    forall k | 0 < k < |Delivered(cl)| ensures cl.snapshot < Delivered(cl)[k] {
      assert Delivered(cl)[0] < Delivered(cl)[k];
    }
  }

  lemma {:induction false} IncreasingFillsRange(s: seq<nat>, lo: nat, hi: nat)
    requires Increasing(s) && lo <= hi && |s| == hi - lo
    requires forall i | 0 <= i < |s| :: lo < s[i] <= hi
    ensures forall i | 0 <= i < |s| :: s[i] == lo + 1 + i
  {
    if s != [] {
      var n := |s| - 1;
      IncreasingBelow(s, lo, n);
      forall i | 0 <= i < n ensures lo < s[i] <= hi - 1 { assert s[i] < s[n]; }
      IncreasingFillsRange(s[..n], lo, hi - 1);
    }
  }

  /** An increasing sequence above `lo` has its k-th element above lo + k. */
  lemma {:induction false} IncreasingBelow(s: seq<nat>, lo: nat, k: nat)
    requires Increasing(s) && k < |s| && forall i | 0 <= i < |s| :: lo < s[i]
    ensures lo + k < s[k]
  {
    if k > 0 {
      IncreasingBelow(s, lo, k - 1);
      assert s[k - 1] < s[k];
    }
  }

  /** Of the chunks broadcast while a client was registered, as many are missing as were dropped; with
    none dropped it is given all of them.  What is then lost lies between its snapshot and its
    subscription: chunk n is in neither exactly when snapshot < n <= joined. */
  lemma LostExactlyBetween(states: seq<State>, events: seq<Event>, i: nat, c: int, n: nat)
    requires Run(states, events) && states[0] == START && i < |states|
    requires c in states[i].clients && states[i].clients[c].stage != Looking
    requires states[i].clients[c].dropped == 0 && n <= states[i].clients[c].upto
    ensures var cl := states[i].clients[c];
      (n > cl.snapshot && n !in Delivered(cl)) <==> cl.snapshot < n <= cl.joined
  {
    RunsKeepInvariant(states, events, i);
    var cl := states[i].clients[c];
    IncreasingFillsRange(Delivered(cl), cl.joined, cl.upto);
    if n > cl.joined {
      assert Delivered(cl)[n - cl.joined - 1] == n;
    }
  }

  /** Conservation for every client at every moment. */
  lemma NothingElseIsLost(states: seq<State>, events: seq<Event>, i: nat, c: int)
    requires Run(states, events) && states[0] == START && i < |states| && c in states[i].clients
    ensures var cl := states[i].clients[c];
      |cl.received| + |cl.queue| + cl.dropped == cl.upto - cl.joined
  {
    RunsKeepInvariant(states, events, i);
  }

  ghost predicate Reachable(s: State) { Runs.Reachable(StepTo, START, s) }

  lemma Started()
    ensures Reachable(START)
  {
    Runs.StartIsReachable<State, Event>(StepTo, START);
  }

  lemma Reached(s: State, e: Event)
    requires Reachable(s) && Enabled(s, e)
    ensures Reachable(Apply(s, e))
  {
    Runs.StepIsReachable(StepTo, START, s, e, Apply(s, e));
  }

  // ----- Which chunks are dropped -----

  /** Chunk n was broadcast at step k, and then 256 chunks were waiting for the client. */
  ghost predicate FullAt(states: seq<State>, events: seq<Event>, k: int, c: int, n: nat) {
    && 0 <= k < |events| && k < |states|
    && events[k].BroadcastChunk? && states[k].written == n
    && c in states[k].clients && |states[k].clients[c].queue| == 256
  }

  lemma RunHasStates(states: seq<State>, events: seq<Event>)
    requires Run(states, events)
    ensures |states| == |events| + 1
  {
  }

  lemma {:induction false} BroadcastIsSent(states: seq<State>, events: seq<Event>, k: nat, i: nat)
    requires Run(states, events) && k < i < |states| && events[k].BroadcastChunk?
    ensures states[k].written <= states[i].sent
    decreases i
  {
    assert StepAt(StepTo, states, events, i - 1);
    if k < i - 1 {
      BroadcastIsSent(states, events, k, i - 1);
      SentGrows(states[i - 1], events[i - 1]);
    }
  }

  lemma SentGrows(s: State, e: Event)
    requires Enabled(s, e)
    ensures s.sent <= Apply(s, e).sent || s.written <= Apply(s, e).sent
    ensures !e.BroadcastChunk? ==> Apply(s, e).sent == s.sent
  {
  }

  /** What one step does to what a client is given of chunk n. */
  lemma StepGives(s: State, e: Event, c: int, n: nat)
    requires Invariant(s) && Enabled(s, e) && c in Apply(s, e).clients
    requires var cl := Apply(s, e).clients[c]; cl.joined < n <= cl.upto
    ensures c in s.clients
    ensures n in Delivered(Apply(s, e).clients[c]) <==>
      if e.BroadcastChunk? && n == s.written then |s.clients[c].queue| != 256 else n in Delivered(s.clients[c])
    ensures !(e.BroadcastChunk? && n == s.written) ==> s.clients[c].joined < n <= s.clients[c].upto
  {
    hide Invariant, GoodClient, Delivered, Offered;
    if c in s.clients { ClientFacts(s, c); }
    match e
    case BroadcastChunk => OfferGives(s.clients[c], s.written);
    case Receive(d) =>
      if c == d {
        ReceivingGivesNothing(s.clients[c]);
      }
    case _ => OnlyMarked(s, e, c);
  }

  lemma OfferGives(cl: Client, n: nat)
    requires |cl.queue| <= 256
    ensures Offered(cl, n).joined == cl.joined && Offered(cl, n).upto == n
    ensures forall m :: m in Delivered(Offered(cl, n)) <==> m in Delivered(cl) || (m == n && |cl.queue| != 256)
  {
    if |cl.queue| < 256 {
      assert Delivered(Offered(cl, n)) == Delivered(cl) + [n];
    } else {
      assert Delivered(Offered(cl, n)) == Delivered(cl);
    }
  }

  lemma ReceivingGivesNothing(cl: Client)
    requires cl.queue != []
    ensures Delivered(cl.(received := cl.received + [cl.queue[0]], queue := cl.queue[1..])) == Delivered(cl)
  {
  }

  /** The other steps leave what a client was given. */
  lemma OnlyMarked(s: State, e: Event, c: int)
    requires Enabled(s, e) && !e.BroadcastChunk? && !e.Receive? && c in Apply(s, e).clients
    ensures var cl := Apply(s, e).clients[c];
      cl.joined < cl.upto ==>
        && c in s.clients && Delivered(cl) == Delivered(s.clients[c])
        && cl.joined == s.clients[c].joined && cl.upto == s.clients[c].upto
  {
  }

  lemma ClientFacts(s: State, c: int)
    requires Invariant(s) && c in s.clients
    ensures var cl := s.clients[c];
      && cl.upto <= s.sent && |cl.queue| <= 256
      && (c in s.registered ==> cl.upto == s.sent)
      && forall n | n in Delivered(cl) :: n <= cl.upto
  {
    assert GoodClient(s, s.clients[c]);
  }

  /** Of the chunks broadcast while it was registered, a client misses exactly those at whose broadcast 256 others
    were waiting for it. */
  lemma {:induction false} MissedIffFull(states: seq<State>, events: seq<Event>, i: nat, c: int, n: nat)
    requires Run(states, events) && states[0] == START && i < |states| && c in states[i].clients
    requires states[i].clients[c].joined < n <= states[i].clients[c].upto
    ensures n !in Delivered(states[i].clients[c]) <==> exists k | 0 <= k < i :: FullAt(states, events, k, c, n)
  {
    hide Invariant, Delivered, Apply, Enabled;
    RunHasStates(states, events);
    var s, e := states[i - 1], events[i - 1];
    RunsKeepInvariant(states, events, i - 1);
    assert StepAt(StepTo, states, events, i - 1);
    StepGives(s, e, c, n);
    if e.BroadcastChunk? && n == s.written {
      assert FullAt(states, events, i - 1, c, n) <==> |s.clients[c].queue| == 256;
      forall k | 0 <= k < i - 1 ensures !FullAt(states, events, k, c, n) {
        if events[k].BroadcastChunk? {
          BroadcastIsSent(states, events, k, i - 1);
          SentBeforeWritten(s, e);
        }
      }
    } else {
      MissedIffFull(states, events, i - 1, c, n);
      assert !FullAt(states, events, i - 1, c, n);
    }
  }

  lemma SentBeforeWritten(s: State, e: Event)
    requires Enabled(s, e) && e.BroadcastChunk?
    ensures s.sent < s.written
  {
  }

  /** A client that never has 256 chunks waiting is given every chunk broadcast while it is registered. */
  lemma ReadersMissNothing(states: seq<State>, events: seq<Event>, i: nat, c: int, n: nat)
    requires Run(states, events) && states[0] == START && i < |states| && c in states[i].clients
    requires forall k | 0 <= k < i && c in states[k].clients :: |states[k].clients[c].queue| < 256
    requires states[i].clients[c].joined < n <= states[i].clients[c].upto
    ensures n in Delivered(states[i].clients[c])
  {
    hide Delivered, Run;
    RunHasStates(states, events);
    MissedIffFull(states, events, i, c, n);
  }

  /** The loss between snapshot and subscription does happen. */
  lemma SnapshotGapHappens()
    ensures exists s: State, c ::
      && Reachable(s) && c in s.clients
      && s.clients[c].dropped == 0 && s.clients[c].snapshot < 1 <= s.clients[c].joined
      && Delivered(s.clients[c]) == [2]
  {
    hide Reachable;
    Started();
    Reached(START, TakeSnapshot(7));
    var s1 := Apply(START, TakeSnapshot(7));
    Reached(s1, WriteChunk);
    var s2 := Apply(s1, WriteChunk);
    Reached(s2, BroadcastChunk);
    var s3 := Apply(s2, BroadcastChunk);
    Reached(s3, Subscribe(7));
    var s4 := Apply(s3, Subscribe(7));
    Reached(s4, WriteChunk);
    var s5 := Apply(s4, WriteChunk);
    Reached(s5, BroadcastChunk);
    var s6 := Apply(s5, BroadcastChunk);
    assert s6.clients[7] == Client(Subscribed, 0, 1, 2, [2], [], 0, true);
    assert Delivered(s6.clients[7]) == [2];
  }

  /** The repetition happens too: snapshot and subscription between the write and the broadcast. */
  lemma RepetitionHappens()
    ensures exists s: State, c ::
      Reachable(s) && c in s.clients && s.clients[c].snapshot == 1 && Delivered(s.clients[c]) == [1]
  {
    hide Reachable;
    Started();
    Reached(START, WriteChunk);
    var s1 := Apply(START, WriteChunk);
    Reached(s1, TakeSnapshot(7));
    var s2 := Apply(s1, TakeSnapshot(7));
    Reached(s2, Subscribe(7));
    var s3 := Apply(s2, Subscribe(7));
    Reached(s3, BroadcastChunk);
    var s4 := Apply(s3, BroadcastChunk);
    assert s4.clients[7] == Client(Subscribed, 1, 0, 1, [1], [], 0, true);
    assert Delivered(s4.clients[7]) == [1];
  }

  /** The last chunk of a snapshot comes again exactly when its client subscribed between that chunk's write and its
    broadcast, and that broadcast has been: the first offer meets an empty queue and is never dropped. */
  lemma RepeatedIffJoinedBefore(states: seq<State>, events: seq<Event>, i: nat, c: int)
    requires Run(states, events) && states[0] == START && i < |states| && c in states[i].clients
    ensures var cl := states[i].clients[c];
      && (cl.snapshot in Delivered(cl) <==> cl.joined + 1 == cl.snapshot && cl.upto > cl.joined)
      && (cl.snapshot in Delivered(cl) ==> Delivered(cl)[0] == cl.snapshot)
  {
    RunsKeepInvariant(states, events, i);
    var cl := states[i].clients[c];
    NumbersFollowSnapshot(states[i], cl);
    if cl.snapshot in Delivered(cl) {
      var k :| 0 <= k < |Delivered(cl)| && Delivered(cl)[k] == cl.snapshot;
    }
  }

  /** Once both closers are through, nobody offers or closes anything any more: a client that is registered then
    waits for as long as it stays, in every continuation, and is given nothing new. */
  lemma {:induction false} LateSubscriberIsNeverClosed(states: seq<State>, events: seq<Event>, i: nat, c: int)
    requires Run(states, events) && i < |states| && Invariant(states[0])
    requires states[0].readerDone && states[0].closed && c in states[0].registered
    requires Unsubscribe(c) !in events
    ensures states[i].readerDone && states[i].closed && c in states[i].registered
    ensures c in states[i].clients && states[i].clients[c].open && states[i].clients[c].stage == Subscribed
    ensures Delivered(states[i].clients[c]) == Delivered(states[0].clients[c])
  {
    hide Invariant, GoodClient;
    if i > 0 {
      LateSubscriberIsNeverClosed(states, events, i - 1, c);
      assert events[i - 1] in events;
      assert StepAt(StepTo, states, events, i - 1);
    } else {
      RegisteredIsOpen(states[0], c);
    }
  }

  lemma RegisteredIsOpen(s: State, c: int)
    requires Invariant(s) && c in s.registered
    ensures c in s.clients && s.clients[c].open && s.clients[c].stage == Subscribed
  {
  }

  /** A run from s at whose end the client's channel is closed, although it has stayed. */
  ghost predicate ClosedBy(s: State, states: seq<State>, events: seq<Event>, c: int) {
    && Run(states, events) && states[0] == s && Unsubscribe(c) !in events
    && c in states[|events|].clients && !states[|events|].clients[c].open
  }

  /** A registered client that stays can still be closed exactly as long as one of the closers is not through: the
    reader at the end of input, or a close of a session that does not count as closed.  A process exit makes the
    session count as closed without closing any channel. */
  lemma CanBeClosedIff(s: State, c: int)
    requires Invariant(s) && c in s.registered
    ensures (exists states, events :: ClosedBy(s, states, events, c)) <==> !(s.readerDone && s.closed)
  {
    hide Invariant, GoodClient, Run;
    RegisteredIsOpen(s, c);
    if s.readerDone && s.closed {
      forall states, events | ClosedBy(s, states, events, c) ensures false {
        RunHasStates(states, events);
        LateSubscriberIsNeverClosed(states, events, |events|, c);
      }
    } else if !s.closed {
      OneStepRun(s, CloseSession);
      assert ClosedBy(s, [s, Apply(s, CloseSession)], [CloseSession], c);
    } else {
      WrittenOrSent(s);
      if s.written == s.sent {
        OneStepRun(s, EndOfInput);
        assert ClosedBy(s, [s, Apply(s, EndOfInput)], [EndOfInput], c);
      } else {
        var t := Apply(s, BroadcastChunk);
        TwoStepRun(s, BroadcastChunk, EndOfInput);
        assert ClosedBy(s, [s, t, Apply(t, EndOfInput)], [BroadcastChunk, EndOfInput], c);
      }
    }
  }

  lemma WrittenOrSent(s: State)
    requires Invariant(s)
    ensures s.written == s.sent || s.written == s.sent + 1
  {
  }

  lemma OneStepRun(s: State, e: Event)
    requires Enabled(s, e)
    ensures Run([s, Apply(s, e)], [e])
  {
    assert StepAt(StepTo, [s, Apply(s, e)], [e], 0);
  }

  lemma TwoStepRun(s: State, e: Event, f: Event)
    requires Enabled(s, e) && Enabled(Apply(s, e), f)
    ensures Run([s, Apply(s, e), Apply(Apply(s, e), f)], [e, f])
  {
    hide Apply;
    var states := [s, Apply(s, e), Apply(Apply(s, e), f)];
    assert StepAt(StepTo, states, [e, f], 0);
    assert StepAt(StepTo, states, [e, f], 1);
  }

  /** After a process exit the session counts as closed: a close then closes nothing. */
  lemma ExitLeavesOpen(s: State)
    ensures var t := Apply(s, ProcessExit);
      t.clients == s.clients && t.registered == s.registered && t.closed && Apply(t, CloseSession) == t
  {
  }

  ghost predicate IsGone(s: State, c: int) {
    c in s.clients && c !in s.registered && s.clients[c].stage != Looking
  }

  lemma GoneStaysGone(s: State, e: Event, c: int)
    requires IsGone(s, c) && Enabled(s, e)
    ensures IsGone(Apply(s, e), c) && Delivered(Apply(s, e).clients[c]) == Delivered(s.clients[c])
  {
    hide Delivered, Offered;
    if e == Receive(c) { ReceivingGivesNothing(s.clients[c]); }
    if e != Receive(c) { SameDelivered(s.clients[c], Apply(s, e).clients[c]); }
  }

  lemma SameDelivered(a: Client, b: Client)
    ensures a.received == b.received && a.queue == b.queue ==> Delivered(a) == Delivered(b)
  {
  }

  /** A client that has left, or whose channel is closed, is offered nothing more, in any continuation. */
  lemma {:induction false} GoneIsOfferedNothing(states: seq<State>, events: seq<Event>, i: nat, c: int)
    requires Run(states, events) && i < |states| && IsGone(states[0], c)
    ensures IsGone(states[i], c) && Delivered(states[i].clients[c]) == Delivered(states[0].clients[c])
  {
    hide IsGone, Delivered, Apply, Enabled;
    if i > 0 {
      GoneIsOfferedNothing(states, events, i - 1, c);
      assert StepAt(StepTo, states, events, i - 1);
      GoneStaysGone(states[i - 1], events[i - 1], c);
    }
  }

  lemma LeavingUnregisters(s: State, c: int)
    requires Enabled(s, Unsubscribe(c))
    ensures var t := Apply(s, Unsubscribe(c));
      IsGone(t, c) && t.clients[c].stage == Left && Delivered(t.clients[c]) == Delivered(s.clients[c])
  {
  }

  /** Such a client there is: it looks and subscribes after the end of input and a close. */
  lemma LateSubscriberIsReached()
    ensures exists s: State, c ::
      && Reachable(s) && s.readerDone && s.closed && c in s.registered
      && c in s.clients && s.clients[c].open && s.clients[c].stage == Subscribed && s.clients[c].queue == []
  {
    hide Reachable;
    Started();
    Reached(START, EndOfInput);
    var s1 := Apply(START, EndOfInput);
    Reached(s1, CloseSession);
    var s2 := Apply(s1, CloseSession);
    Reached(s2, TakeSnapshot(7));
    var s3 := Apply(s2, TakeSnapshot(7));
    Reached(s3, Subscribe(7));
    var s4 := Apply(s3, Subscribe(7));
    assert 7 in s4.registered && s4.clients[7] == Client(Subscribed, 0, 0, 0, [], [], 0, true);
  }
}
