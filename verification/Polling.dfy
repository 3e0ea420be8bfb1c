/** The deadline-bounded polling loops, on a real-valued monotonic clock. */
module Polling {
  import opened Wrappers
  import opened Acme

  // ---------------------------------------------------------------- what decides a poll

  /** What a polled status means to its loop. */
  datatype Verdict = Success | Failure | Waiting

  /** `poll_authorization`. */
  function JudgeAuthz(status: AuthzStatus): Verdict {
    match status
    case AuthzValid => Success
    case AuthzPending => Waiting
    case _ => Failure
  }

  /** `poll_order`. */
  function JudgeOrder(status: OrderStatus): Verdict {
    match status
    case OrderValid => Success
    case OrderInvalid => Failure
    case _ => Waiting
  }

  /** `_poll_order_ready`. */
  function JudgeReady(status: OrderStatus): Verdict {
    match status
    case OrderPending => Waiting
    case OrderInvalid => Failure
    case _ => Success
  }

  // ---------------------------------------------------------------- time

  /** A duration. */
  type Span = r: real | r >= 0.0

  /** What the outside world does in one turn of a loop: how long the request takes, what it
      answers (`None` when it raises), the parsed `Retry-After` header, how long passes
      between the two clock readings, and by how much the sleep overruns. */
  datatype Turn<S> = Turn(latency: Span, answer: Option<S>, retryAfter: Option<Span>, pause: Span, overrun: Span)

  function Max(a: real, b: real): real { if a >= b then a else b }
  function Min(a: real, b: real): real { if a <= b then a else b }

  /** The sleep chosen from the configured interval, the header, and the time remaining. */
  function Delay(interval: real, retryAfter: Option<Span>, remaining: real): real {
    var wanted := if retryAfter.Some? then Max(1.0, retryAfter.value) else interval;
    Min(wanted, Max(0.1, remaining))
  }

  function Ceil(x: real): int {
    -((-x).Floor)
  }

  /** The least time a sleep can take. */
  function Step(interval: real): real {
    Min(interval, 0.1)
  }

  /** A sleep lasts at least the minimal step and is never planned past the deadline, or
      past a tenth of a second from now. */
  lemma DelayBounds(interval: real, retryAfter: Option<Span>, now: real, deadline: real)
    requires interval > 0.0
    ensures var delay := Delay(interval, retryAfter, deadline - now);
            && Step(interval) <= delay
            && now + delay <= Max(deadline, now + 0.1)
  {
  }

  /** Every sleep takes time exactly when the configured interval is positive. */
  lemma ProgressNeedsInterval(interval: real)
    ensures (forall retryAfter: Option<Span>, remaining: real :: Delay(interval, retryAfter, remaining) > 0.0) <==>
            interval > 0.0
  {
    if interval <= 0.0 { assert Delay(interval, None, 1.0) <= 0.0; }
  }

  // ---------------------------------------------------------------- when a loop ends

  /** When the next request starts, after one that started at `started` and did not end the
      loop; a sleep for no time or less returns at once. */
  function Next<S>(turn: Turn<S>, started: real, timeout: real, interval: real): real {
    var asleep := started + turn.latency + turn.pause;
    asleep + Max(0.0, Delay(interval, turn.retryAfter, timeout - asleep)) + turn.overrun
  }

  /** When the next request starts after a `Retry-After`: that much later and at least a second,
      whatever the interval, but no later than the deadline, unless less than a tenth of a
      second is left until then. */
  lemma RetryAfterHonoured<S>(turn: Turn<S>, started: real, timeout: real, interval: real)
    requires turn.retryAfter.Some?
    ensures var asleep := started + turn.latency + turn.pause;
            var asked := if turn.retryAfter.value >= 1.0 then turn.retryAfter.value else 1.0;
            Next(turn, started, timeout, interval) - turn.overrun ==
            if asleep + asked <= timeout then asleep + asked
            else if asleep + 0.1 <= timeout then timeout
            else asleep + 0.1
  {
  }

  /** And without one: an interval later, within the same limits. */
  lemma IntervalHonoured<S>(turn: Turn<S>, started: real, timeout: real, interval: real)
    requires turn.retryAfter.None? && interval >= 0.0
    ensures var asleep := started + turn.latency + turn.pause;
            Next(turn, started, timeout, interval) - turn.overrun ==
            if asleep + interval <= timeout || interval <= 0.1 then asleep + interval
            else if asleep + 0.1 <= timeout then timeout
            else asleep + 0.1
  {
  }

  /** When the i-th request starts, if the loop gets that far, in time since the loop began. */
  function StartOf<S>(world: nat -> Turn<S>, timeout: real, interval: real, i: nat): real {
    if i == 0 then 0.0 else Next(world(i - 1), StartOf(world, timeout, interval, i - 1), timeout, interval)
  }

  /** The i-th request ends the loop: it fails, its answer decides, or its deadline is over. */
  predicate Stops<S>(world: nat -> Turn<S>, judge: S -> Verdict, timeout: real, interval: real, i: nat) {
    || world(i).answer.None? || judge(world(i).answer.value) != Waiting
    || StartOf(world, timeout, interval, i) + world(i).latency >= timeout
  }

  ghost predicate Ends<S>(world: nat -> Turn<S>, judge: S -> Verdict, timeout: real, interval: real) {
    exists i: nat :: Stops(world, judge, timeout, interval, i)
  }

  /** The i-th request is the first to end the loop. */
  ghost predicate StopsFirst<S>(world: nat -> Turn<S>, judge: S -> Verdict, timeout: real, interval: real, i: nat) {
    && Stops(world, judge, timeout, interval, i)
    && forall j: nat :: j < i ==> !Stops(world, judge, timeout, interval, j)
  }

  /** Every turn takes at least this time, in its sleep or in its request. */
  ghost predicate TakesTime<S>(world: nat -> Turn<S>, interval: real, least: real) {
    least > 0.0 && (least <= Step(interval) || forall i: nat :: least <= world(i).latency)
  }

  /** The most requests a loop can make whose turns take at least this time. */
  function MostPolls(timeout: real, least: real): (polls: nat)
    requires least > 0.0
    ensures polls >= 1
  {
    var quotient := Ceil(timeout / least);
    if quotient < 0 then 1 else quotient + 1
  }

  lemma EnoughPolls(timeout: real, least: real)
    requires least > 0.0
    ensures (MostPolls(timeout, least) - 1) as real * least >= timeout
  {
    var quotient := timeout / least;
    assert quotient * least == timeout;
    assert quotient <= Ceil(quotient) as real;
    ProductMonotone(quotient, (MostPolls(timeout, least) - 1) as real, least);
  }

  lemma ProductMonotone(a: real, b: real, step: real)
    requires a <= b && step > 0.0
    ensures a * step <= b * step
  {
  }

  lemma NextLater<S>(turn: Turn<S>, started: real, timeout: real, interval: real, least: real)
    requires least > 0.0 && (least <= Step(interval) || least <= turn.latency)
    ensures Next(turn, started, timeout, interval) >= started + least
  {
  }

  lemma {:induction false} StartsLate<S>(world: nat -> Turn<S>, timeout: real, interval: real, least: real, i: nat)
    requires TakesTime(world, interval, least)
    ensures StartOf(world, timeout, interval, i) >= i as real * least
  {
    hide Next, Step;
    if i > 0 {
      StartsLate(world, timeout, interval, least, i - 1);
      NextLater(world(i - 1), StartOf(world, timeout, interval, i - 1), timeout, interval, least);
      assert i as real * least == (i - 1) as real * least + least;
    }
  }

  lemma PositiveLeast<S>(world: nat -> Turn<S>, interval: real, least: real)
    requires TakesTime(world, interval, least)
    ensures least > 0.0
  {
  }

  /** A loop whose turns take time ends, whatever the answers: it makes at most `MostPolls`
      requests. */
  lemma EndsInTime<S>(world: nat -> Turn<S>, judge: S -> Verdict, timeout: real, interval: real, least: real)
    requires TakesTime(world, interval, least)
    ensures least > 0.0 && Stops(world, judge, timeout, interval, MostPolls(timeout, least) - 1)
  {
    hide MostPolls, StartOf, TakesTime;
    PositiveLeast(world, interval, least);
    var last: nat := MostPolls(timeout, least) - 1;
    EnoughPolls(timeout, least);
    StartsLate(world, timeout, interval, least, last);
    assert StartOf(world, timeout, interval, last) + world(last).latency >= timeout;
  }

  lemma FirstWithin<S>(world: nat -> Turn<S>, judge: S -> Verdict, timeout: real, interval: real, least: real, i: nat)
    requires TakesTime(world, interval, least) && StopsFirst(world, judge, timeout, interval, i)
    ensures least > 0.0 && i + 1 <= MostPolls(timeout, least)
  {
    hide Stops, TakesTime, MostPolls;
    EndsInTime(world, judge, timeout, interval, least);
  }

  /** The last request starts no later than this: a tenth of a second past the timeout, apart
      from what the clock readings and the sleep before it overran. */
  lemma LatestStart<S>(world: nat -> Turn<S>, judge: S -> Verdict, timeout: real, interval: real, i: nat)
    requires StopsFirst(world, judge, timeout, interval, i)
    ensures StartOf(world, timeout, interval, i)
            <= if i == 0 then 0.0 else timeout + 0.1 + world(i - 1).pause + world(i - 1).overrun
  {
    if i > 0 { assert !Stops(world, judge, timeout, interval, i - 1); }
  }

  /** A world whose order stays pending, and where nothing takes any time. */
  function Idle(): nat -> Turn<OrderStatus> {
    _ => Turn(0.0, Some(OrderPending), None, 0.0, 0.0)
  }

  lemma {:induction false} IdleStandsStill(timeout: real, interval: real, i: nat)
    requires interval <= 0.0
    ensures StartOf(Idle(), timeout, interval, i) == 0.0
  {
    if i > 0 { IdleStandsStill(timeout, interval, i - 1); }
  }

  /** The loop of `poll_order` ends in every world and for every timeout exactly when the
      configured interval is positive: otherwise the clock may stand still. */
  lemma EndsAlways(interval: real)
    ensures (forall world: nat -> Turn<OrderStatus>, timeout: real :: Ends(world, JudgeOrder, timeout, interval))
            <==> interval > 0.0
  {
    hide TakesTime, StartOf;
    if interval > 0.0 {
      forall world: nat -> Turn<OrderStatus>, timeout: real ensures Ends(world, JudgeOrder, timeout, interval) {
        IntervalTakesTime(world, interval);
        EndsInTime(world, JudgeOrder, timeout, interval, Step(interval));
      }
    } else {
      forall i: nat ensures !Stops(Idle(), JudgeOrder, 1.0, interval, i) { IdleStandsStill(1.0, interval, i); }
      assert !Ends(Idle(), JudgeOrder, 1.0, interval);
    }
  }

  lemma IntervalTakesTime<S>(world: nat -> Turn<S>, interval: real)
    requires interval > 0.0
    ensures TakesTime(world, interval, Step(interval))
  {
  }

  // ---------------------------------------------------------------- the loop

  datatype PollResult<S> = Reached(status: S) | Refused(status: S) | TimedOut(status: S) | RequestFailed

  /** Nothing but the answer of the last turn decides the result. */
  predicate Decides<S(==)>(turn: Turn<S>, judge: S -> Verdict, result: PollResult<S>) {
    match result
    case Reached(status) => turn.answer == Some(status) && judge(status) == Success
    case Refused(status) => turn.answer == Some(status) && judge(status) == Failure
    case TimedOut(status) => turn.answer == Some(status) && judge(status) == Waiting
    case RequestFailed => turn.answer.None?
  }

  /** The body shared by `poll_authorization`, `poll_order` and `_poll_order_ready`. It is
      called where it ends at all, at the latest with request `bound`; it ends with the first
      request that can end it, and its result is what that request's answer means. */
  method Poll<S(==,!new)>(world: nat -> Turn<S>, judge: S -> Verdict, start: real, timeout: real, interval: real,
                          ghost bound: nat)
    returns (result: PollResult<S>, polls: nat, now: real)
    requires Stops(world, judge, timeout, interval, bound)
    ensures 1 <= polls <= bound + 1
    ensures StopsFirst(world, judge, timeout, interval, polls - 1)
    ensures Decides(world(polls - 1), judge, result)
    ensures now == start + StartOf(world, timeout, interval, polls - 1) + world(polls - 1).latency
  {
    hide Delay;
    polls, now := 0, start;
    while true
      invariant now == start + StartOf(world, timeout, interval, polls)
      invariant forall i: nat :: i < polls ==> !Stops(world, judge, timeout, interval, i)
      invariant polls <= bound
      decreases bound - polls
    {
      var turn := world(polls);
      polls := polls + 1;
      now := now + turn.latency;
      if turn.answer.None? {
        return RequestFailed, polls, now;
      }
      var status := turn.answer.value;
      match judge(status) {
        case Success => return Reached(status), polls, now;
        case Failure => return Refused(status), polls, now;
        case Waiting =>
      }
      if now - start >= timeout {
        return TimedOut(status), polls, now;
      }
      now := now + turn.pause;
      var delay := Delay(interval, turn.retryAfter, timeout - (now - start));
      now := now + Max(0.0, delay) + turn.overrun;
    }
  }

  // ---------------------------------------------------------------- DNS propagation

  /** One turn of the propagation wait: how long the checker takes, what it says (`None` when
      it raises), and by how much the sleep overruns. */
  datatype Check = Check(latency: Span, visible: Option<bool>, overrun: Span)

  /** A turn of a loop that reads the clock once and knows no `Retry-After`. */
  function TurnOf(check: Check): Turn<bool> {
    Turn(check.latency, check.visible, None, 0.0, check.overrun)
  }

  function TurnsOf(world: nat -> Check): nat -> Turn<bool> {
    (i: nat) => TurnOf(world(i))
  }

  function JudgeVisible(visible: bool): Verdict {
    if visible then Success else Waiting
  }

  /** `_wait_for_propagation`: the same loop, for a checker instead of the server. */
  method WaitForPropagation(world: nat -> Check, start: real, timeout: real, interval: real, ghost bound: nat)
    returns (result: PollResult<bool>, checks: nat, now: real)
    requires Stops(TurnsOf(world), JudgeVisible, timeout, interval, bound)
    ensures 1 <= checks <= bound + 1
    ensures StopsFirst(TurnsOf(world), JudgeVisible, timeout, interval, checks - 1)
    ensures Decides(TurnOf(world(checks - 1)), JudgeVisible, result)
    ensures now == start + StartOf(TurnsOf(world), timeout, interval, checks - 1) + world(checks - 1).latency
  {
    hide Delay;
    checks, now := 0, start;
    while true
      invariant now == start + StartOf(TurnsOf(world), timeout, interval, checks)
      invariant forall i: nat :: i < checks ==> !Stops(TurnsOf(world), JudgeVisible, timeout, interval, i)
      invariant checks <= bound
      decreases bound - checks
    {
      var turn := world(checks);
      checks := checks + 1;
      now := now + turn.latency;
      if turn.visible.None? {
        return RequestFailed, checks, now;
      }
      if turn.visible.value {
        return Reached(true), checks, now;
      }
      var elapsed := now - start;
      if elapsed >= timeout {
        return TimedOut(false), checks, now;
      }
      var delay := Delay(interval, None, timeout - elapsed);
      now := now + Max(0.0, delay) + turn.overrun;
    }
  }
}
