/**
  The limiter of authentication attempts: an expiring counter per key, and what the attempts it
  admits add up to over time.
  */
module RateLimit {
  import opened Wrappers

  /** Milliseconds on the store's clock. */
  type Instant = int

  datatype Counter = Counter(attempts: nat, expiresAt: Instant)

  /** One increment and the count it returned. */
  datatype Hit = Hit(key: string, at: Instant, attempts: nat)

  /** INCR on a live key, or on one that has expired or never existed; EXPIRE on the first attempt. */
  function Bump(c: Option<Counter>, at: Instant, window: nat): Counter {
    if c.Some? && at < c.value.expiresAt then c.value.(attempts := c.value.attempts + 1)
    else Counter(1, at + 1000 * window)
  }

  /** What the store holds for a key after a log of increments. */
  function CounterAfter(log: seq<Hit>, key: string, window: nat): (r: Option<Counter>)
    ensures r.Some? ==> r.value.attempts > 0
  {
    if log == [] then None
    else
      var hit, before := log[|log| - 1], CounterAfter(log[..|log| - 1], key, window);
      if hit.key == key then Some(Bump(before, hit.at, window)) else before
  }

  predicate HitFits(before: seq<Hit>, hit: Hit, window: nat) {
    && (before != [] ==> before[|before| - 1].at <= hit.at)
    && hit.attempts == Bump(CounterAfter(before, hit.key, window), hit.at, window).attempts
  }

  /** A log the store can have produced: clock never going back, counts as the store returns them. */
  predicate Faithful(log: seq<Hit>, window: nat) {
    log == [] || (Faithful(log[..|log| - 1], window) && HitFits(log[..|log| - 1], log[|log| - 1], window))
  }

  /** Attempts on `key` that passed the limit at an instant in [from, to). */
  function Admitted(log: seq<Hit>, key: string, maximum: nat, from: Instant, to: Instant): nat {
    if log == [] then 0
    else
      var hit := log[|log| - 1];
      Admitted(log[..|log| - 1], key, maximum, from, to)
      + if hit.key == key && hit.attempts <= maximum && from <= hit.at < to then 1 else 0
  }

  /** Attempts on `key` that passed the limit and were counted in the window ending at `end`. */
  function AdmittedInWindow(log: seq<Hit>, key: string, maximum: nat, window: nat, end: Instant): nat {
    if log == [] then 0
    else
      var hit := log[|log| - 1];
      AdmittedInWindow(log[..|log| - 1], key, maximum, window, end)
      + if hit.key == key && hit.attempts <= maximum
           && Bump(CounterAfter(log[..|log| - 1], key, window), hit.at, window).expiresAt == end then 1 else 0
  }

  function Min(a: nat, b: nat): nat {
    if a <= b then a else b
  }

  // ----- per window ----------------------------------------------------------------------------

  /** Windows seen so far end no later than the current one, whose admissions are its count, capped. */
  predicate WindowBound(log: seq<Hit>, key: string, maximum: nat, window: nat, end: Instant) {
    var seen := AdmittedInWindow(log, key, maximum, window, end);
    match CounterAfter(log, key, window)
    case None => seen == 0
    case Some(c) =>
      && seen <= maximum
      && (end == c.expiresAt ==> seen <= Min(c.attempts, maximum))
      && (end > c.expiresAt ==> seen == 0)
  }

  /** In each window, at most `maximum` attempts on a key are admitted. */
  lemma {:induction false} AtMostMaximumPerWindow(log: seq<Hit>, key: string, maximum: nat, window: nat, end: Instant)
    requires Faithful(log, window) && window > 0
    ensures WindowBound(log, key, maximum, window, end)
    ensures AdmittedInWindow(log, key, maximum, window, end) <= maximum
  {
    if log != [] {
      AtMostMaximumPerWindow(log[..|log| - 1], key, maximum, window, end);
    }
  }

  /** All attempts on `key`, admitted or not, that were counted in the window ending at `end`. */
  function HitsInWindow(log: seq<Hit>, key: string, window: nat, end: Instant): nat {
    if log == [] then 0
    else
      var hit := log[|log| - 1];
      HitsInWindow(log[..|log| - 1], key, window, end)
      + if hit.key == key && Bump(CounterAfter(log[..|log| - 1], key, window), hit.at, window).expiresAt == end
        then 1 else 0
  }

  /** The counter is the number of attempts in its window, and all but what exceeds the maximum were admitted. */
  lemma {:induction false} AdmittedWhileBelow(log: seq<Hit>, key: string, maximum: nat, window: nat, end: Instant)
    requires Faithful(log, window) && window > 0
    ensures match CounterAfter(log, key, window)
      case None => HitsInWindow(log, key, window, end) == 0
      case Some(c) =>
        && (end == c.expiresAt ==> HitsInWindow(log, key, window, end) == c.attempts)
        && (end > c.expiresAt ==> HitsInWindow(log, key, window, end) == 0)
    ensures AdmittedInWindow(log, key, maximum, window, end) == Min(HitsInWindow(log, key, window, end), maximum)
  {
    if log != [] { AdmittedWhileBelow(log[..|log| - 1], key, maximum, window, end); }
  }

  // ----- any interval ----------------------------------------------------------------------------

  /**
    The admissions in an interval that starts at `from` and is `length` long, where length is the
    window, or the window with both end points. A window that first before the interval has spent
    its first attempt outside it; a window that first inside it outlives it.
    */
  predicate IntervalBound(
    log: seq<Hit>, key: string, maximum: nat, window: nat, from: Instant, closed: nat)
  {
    var span := 1000 * window;
    var seen := Admitted(log, key, maximum, from, from + span + closed);
    && seen <= 2 * maximum - 1 + closed
    && (match CounterAfter(log, key, window)
        case None => seen == 0
        case Some(c) =>
          log != [] &&
          var start := c.expiresAt - span;
          && c.attempts >= 1 && start <= log[|log| - 1].at
          && (c.expiresAt <= from ==> seen == 0)
          && (start < from ==> seen <= Min(c.attempts, maximum) - 1)
          && (start == from ==> seen <= Min(c.attempts, maximum))
          && (from < start < from + span ==> seen <= maximum - 1 + Min(c.attempts, maximum))
          && (start == from + span && closed == 1 ==> seen <= maximum + Min(c.attempts, maximum)))
  }

  lemma {:induction false} AtMostTwiceInAnyInterval(
    log: seq<Hit>, key: string, maximum: nat, window: nat, from: Instant, closed: nat)
    requires Faithful(log, window) && window > 0 && maximum > 0 && closed <= 1
    ensures IntervalBound(log, key, maximum, window, from, closed)
  {
    if log != [] {
      AtMostTwiceInAnyInterval(log[..|log| - 1], key, maximum, window, from, closed);
    }
  }

  // ----- the bounds are reached ----------------------------------------------------------------

  function Burst(log: seq<Hit>, key: string, at: Instant, n: nat, window: nat): seq<Hit> {
    if n == 0 then log
    else
      var before := Burst(log, key, at, n - 1, window);
      before + [Hit(key, at, Bump(CounterAfter(before, key, window), at, window).attempts)]
  }

  lemma {:induction false} BurstIsFaithful(log: seq<Hit>, key: string, at: Instant, n: nat, window: nat)
    requires Faithful(log, window) && (log != [] ==> log[|log| - 1].at <= at)
    ensures var burst := Burst(log, key, at, n, window);
      Faithful(burst, window) && (burst != [] ==> burst[|burst| - 1].at <= at)
  {
    if n > 0 {
      BurstIsFaithful(log, key, at, n - 1, window);
      var burst := Burst(log, key, at, n, window);
      assert burst[..|burst| - 1] == Burst(log, key, at, n - 1, window);
    }
  }

  /** In a live window a burst counts on; all of it is admitted while the count stays within the maximum. */
  lemma {:induction false} BurstCounts(
    log: seq<Hit>, key: string, at: Instant, n: nat, window: nat, maximum: nat, from: Instant, to: Instant)
    requires CounterAfter(log, key, window).Some? && at < CounterAfter(log, key, window).value.expiresAt
    requires CounterAfter(log, key, window).value.attempts + n <= maximum
    ensures var c, burst := CounterAfter(log, key, window).value, Burst(log, key, at, n, window);
      && CounterAfter(burst, key, window) == Some(Counter(c.attempts + n, c.expiresAt))
      && Admitted(burst, key, maximum, from, to)
         == Admitted(log, key, maximum, from, to) + if from <= at < to then n else 0
  {
    if n > 0 {
      BurstCounts(log, key, at, n - 1, window, maximum, from, to);
      var burst := Burst(log, key, at, n, window);
      assert burst[..|burst| - 1] == Burst(log, key, at, n - 1, window);
    }
  }

  lemma OpeningCounts(
    log: seq<Hit>, key: string, at: Instant, window: nat, maximum: nat, from: Instant, to: Instant)
    requires CounterAfter(log, key, window).Some? ==> CounterAfter(log, key, window).value.expiresAt <= at
    requires maximum > 0
    ensures var burst := Burst(log, key, at, 1, window);
      && CounterAfter(burst, key, window) == Some(Counter(1, at + 1000 * window))
      && Admitted(burst, key, maximum, from, to)
         == Admitted(log, key, maximum, from, to) + if from <= at < to then 1 else 0
  {
    assert Burst(log, key, at, 0, window) == log;
    var burst := Burst(log, key, at, 1, window);
    assert burst[..|burst| - 1] == log;
  }

  lemma NothingYet(key: string, maximum: nat, window: nat)
    ensures Faithful([], window) && CounterAfter([], key, window) == None
    ensures forall from, to :: Admitted([], key, maximum, from, to) == 0
  {
  }

  /** For every maximum and window there is a run that admits exactly as many as the bounds allow. */
  lemma BoundsAreReached(key: string, maximum: nat, window: nat, closed: nat)
    returns (log: seq<Hit>, from: Instant)
    requires maximum > 0 && window > 0 && closed <= 1
    ensures Faithful(log, window)
    ensures Admitted(log, key, maximum, from, from + 1000 * window + closed) == 2 * maximum - 1 + closed
  {
    hide Burst, Admitted, CounterAfter, Faithful;
    NothingYet(key, maximum, window);
    var span := 1000 * window;
    from := if closed == 1 then 0 else span - 1;
    var to := from + span + closed;
    var first := Burst([], key, 0, 1, window);
    BurstIsFaithful([], key, 0, 1, window);
    OpeningCounts([], key, 0, window, maximum, from, to);
    var filled := Burst(first, key, from, maximum - 1, window);
    BurstIsFaithful(first, key, from, maximum - 1, window);
    BurstCounts(first, key, from, maximum - 1, window, maximum, from, to);
    var reopened := Burst(filled, key, span, 1, window);
    BurstIsFaithful(filled, key, span, 1, window);
    OpeningCounts(filled, key, span, window, maximum, from, to);
    log := Burst(reopened, key, span, maximum - 1, window);
    BurstIsFaithful(reopened, key, span, maximum - 1, window);
    BurstCounts(reopened, key, span, maximum - 1, window, maximum, from, to);
  }
}
