/** The reconnect loop of a lost host: exponential backoff under a deadline. */
module Reconnects {

  // In seconds.
  const MAX_DURATION := 300.0
  const FIRST_DELAY := 3.0
  const MAX_DELAY := 30.0

  type Span = x: real | x >= 0.0

  /** What an attempt meets: the host was removed, its configuration is gone, or a connect of some length. */
  datatype Attempt = HostGone | NoConfig | Failed(duration: Span) | Connected(duration: Span)

  /** One turn of the loop: by how much the sleep overruns, and the attempt after it. */
  datatype Round = Round(late: Span, attempt: Attempt)

  datatype Outcome = GaveUp | HostRemoved | ConfigMissing | Reconnected

  function Min(a: real, b: real): real { if a < b then a else b }

  /** The delay before attempt number k, counting from 0. */
  function DelayBefore(k: nat): real {
    if k == 0 then FIRST_DELAY else Min(DelayBefore(k - 1) * 2.0, MAX_DELAY)
  }

  /** The least time that can have passed when attempt number k begins. */
  function EarliestStart(k: nat): real {
    if k == 0 then DelayBefore(0) else EarliestStart(k - 1) + DelayBefore(k)
  }

  lemma {:induction false} DelaysGrowWithinBounds(k: nat)
    ensures 3.0 <= DelayBefore(k) <= DelayBefore(k + 1) <= 30.0
  {
    if k > 0 { DelaysGrowWithinBounds(k - 1); }
  }

  lemma {:induction false} LateStarts(k: nat)
    requires 4 <= k
    ensures DelayBefore(k) == MAX_DELAY && EarliestStart(k) == 75.0 + 30.0 * (k - 4) as real
  {
    if k == 4 {
      assert DelayBefore(1) == 6.0 && DelayBefore(2) == 12.0 && DelayBefore(3) == 24.0 && DelayBefore(4) == 30.0;
      assert EarliestStart(0) == 3.0 && EarliestStart(1) == 9.0 && EarliestStart(2) == 21.0 && EarliestStart(3) == 45.0;
    } else {
      LateStarts(k - 1);
    }
  }

  /** The thirteenth attempt cannot begin before the deadline, the twelfth can. */
  lemma TwelveFit(k: nat)
    ensures EarliestStart(k) <= 300.0 <==> k < 12
  {
    if k < 4 {
      LateStarts(4);
      EarlierStarts(k, 4);
    } else {
      LateStarts(k);
    }
  }

  lemma {:induction false} EarlierStarts(j: nat, k: nat)
    requires j <= k
    ensures EarliestStart(j) <= EarliestStart(k)
  {
    if j < k {
      EarlierStarts(j, k - 1);
      DelaysGrowWithinBounds(k);
    }
  }

  /** Every attempt fails at once and no sleep overruns: the most attempts there can be. */
  ghost predicate Hopeless(world: int -> Round) {
    forall k :: world(k) == Round(0.0, Failed(0.0))
  }

  lemma HopelessAt(world: int -> Round, k: nat)
    ensures Hopeless(world) ==> world(k) == Round(0.0, Failed(0.0))
  {
  }

  lemma FirstStart()
    ensures DelayBefore(0) == FIRST_DELAY && EarliestStart(0) == FIRST_DELAY
  {
  }

  lemma NextStart(k: nat)
    ensures EarliestStart(k + 1) == EarliestStart(k) + DelayBefore(k + 1)
    ensures DelayBefore(k + 1) == Min(DelayBefore(k) * 2.0, MAX_DELAY)
  {
  }

  /** How long an attempt takes. */
  function Taken(attempt: Attempt): real {
    match attempt
    case HostGone | NoConfig => 0.0
    case Failed(duration) => duration
    case Connected(duration) => duration
  }

  /** The time when turn k has slept: all sleeps with their overruns, and the attempts in between. */
  function SleptUntil(world: int -> Round, k: nat): real {
    (if k == 0 then 0.0 else SleptUntil(world, k - 1) + Taken(world(k - 1).attempt)) + DelayBefore(k) + world(k).late
  }

  lemma SleptNext(world: int -> Round, k: nat)
    ensures k == 0 ==> SleptUntil(world, 0) == DelayBefore(0) + world(0).late
    ensures k > 0 ==>
      SleptUntil(world, k) == SleptUntil(world, k - 1) + Taken(world(k - 1).attempt) + DelayBefore(k) + world(k).late
  {
  }

  /** `world(k)` is what turn k meets. */
  method ReconnectLoop(world: int -> Round)
    returns (outcome: Outcome, attempts: nat, delays: seq<real>)
    ensures attempts <= 12
    ensures attempts <= |delays| <= attempts + 1
    ensures forall i | 0 <= i < |delays| :: delays[i] == DelayBefore(i)
    ensures outcome == Reconnected <==> attempts > 0 && world(attempts - 1).attempt.Connected?
    ensures forall i | 0 <= i < attempts ::
      world(i).attempt.Failed? || (i == attempts - 1 && world(i).attempt.Connected?)
    ensures forall i | 0 <= i < attempts :: SleptUntil(world, i) <= 300.0
    ensures outcome == GaveUp <==> |delays| > attempts && SleptUntil(world, attempts) > 300.0
    ensures outcome == HostRemoved ==> world(attempts).attempt.HostGone?
    ensures outcome == ConfigMissing ==> world(attempts).attempt.NoConfig?
    ensures Hopeless(world) ==> outcome == GaveUp && attempts == 12
  {
    hide DelayBefore, EarliestStart, Hopeless, SleptUntil;
    FirstStart();
    var delay, now := FIRST_DELAY, 0.0;
    attempts, delays := 0, [];
    while true
      invariant |delays| == attempts && delay == DelayBefore(attempts)
      invariant forall i | 0 <= i < |delays| :: delays[i] == DelayBefore(i)
      invariant forall i | 0 <= i < attempts :: world(i).attempt.Failed?
      invariant forall i | 0 <= i < attempts :: SleptUntil(world, i) <= 300.0
      invariant now == if attempts == 0 then 0.0
                       else SleptUntil(world, attempts - 1) + Taken(world(attempts - 1).attempt)
      invariant now + delay >= EarliestStart(attempts)
      invariant Hopeless(world) ==> now + delay == EarliestStart(attempts)
      invariant attempts <= 12 && FIRST_DELAY <= delay
      decreases 13 - attempts
    {
      HopelessAt(world, attempts);
      SleptNext(world, attempts);
      NextStart(attempts);
      DelaysGrowWithinBounds(attempts);
      TwelveFit(attempts);
      delays := delays + [delay];
      now := now + delay + world(attempts).late;
      if now > MAX_DURATION { return GaveUp, attempts, delays; }
      match world(attempts).attempt
      case HostGone => return HostRemoved, attempts, delays;
      case NoConfig => return ConfigMissing, attempts, delays;
      case Connected(_) => return Reconnected, attempts + 1, delays;
      case Failed(duration) =>
        now := now + duration;
        attempts := attempts + 1;
        delay := Min(delay * 2.0, MAX_DELAY);
    }
  }

  /** Delays stay between 3 and 30 seconds and never decrease, whatever the attempts take. */
  lemma DelaysOfAnyRun(delays: seq<real>)
    requires forall i | 0 <= i < |delays| :: delays[i] == DelayBefore(i)
    ensures forall i | 0 <= i < |delays| :: 3.0 <= delays[i] <= 30.0
    ensures forall i, j | 0 <= i <= j < |delays| :: delays[i] <= delays[j]
  {
    forall i | 0 <= i < |delays| ensures 3.0 <= delays[i] <= 30.0 { DelaysGrowWithinBounds(i); }
    forall i, j | 0 <= i <= j < |delays| ensures delays[i] <= delays[j] { DelaysMonotone(i, j); }
  }

  lemma {:induction false} DelaysMonotone(i: nat, j: nat)
    requires i <= j
    ensures DelayBefore(i) <= DelayBefore(j)
  {
    if i < j {
      DelaysMonotone(i, j - 1);
      DelaysGrowWithinBounds(j - 1);
    }
  }
}
