/** The limiter in front of login, registration and refresh, and its counting store. */
module RateLimiter {
  import opened Wrappers
  import opened RateLimit

  datatype Scope = LoginIp | LoginAccount | RegisterIp | RefreshIp

  function ScopeName(scope: Scope): string {
    match scope
    case LoginIp => "login-ip"
    case LoginAccount => "login-account"
    case RegisterIp => "register-ip"
    case RefreshIp => "refresh-ip"
  }

  function KeyFor(scope: Scope, subject: string, digest: string -> string): string {
    "invora:rate-limit:auth:" + ScopeName(scope) + ":" + digest(ScopeName(scope) + ":" + subject)
  }

  /** Whatever the digest does, two scopes never share a counter. */
  lemma ScopesAreSeparate(a: Scope, b: Scope, x: string, y: string, digest: string -> string)
    requires a != b
    ensures KeyFor(a, x, digest) != KeyFor(b, y, digest)
  {
    var prefix := "invora:rate-limit:auth:";
    var k, l := KeyFor(a, x, digest), KeyFor(b, y, digest);
    assert |prefix| == 23;
    assert k[23..25] == ScopeName(a)[..2] && l[23..25] == ScopeName(b)[..2];
    assert k[29] == (ScopeName(a) + ":")[6] && l[29] == (ScopeName(b) + ":")[6];
    assert k[25] == ScopeName(a)[2] && l[25] == ScopeName(b)[2];
  }

  /** Within a scope, two subjects share a counter only if their digests coincide. */
  lemma SubjectsAreSeparate(scope: Scope, x: string, y: string, digest: string -> string)
    requires KeyFor(scope, x, digest) == KeyFor(scope, y, digest)
    ensures digest(ScopeName(scope) + ":" + x) == digest(ScopeName(scope) + ":" + y)
    ensures (forall s, t :: digest(s) == digest(t) ==> s == t) ==> x == y
  {
    var prefix := "invora:rate-limit:auth:" + ScopeName(scope) + ":";
    var a, b := ScopeName(scope) + ":" + x, ScopeName(scope) + ":" + y;
    assert KeyFor(scope, x, digest)[|prefix|..] == digest(a) && KeyFor(scope, y, digest)[|prefix|..] == digest(b);
    if forall s, t :: digest(s) == digest(t) ==> s == t {
      assert a == b;
      assert a[|ScopeName(scope)| + 1..] == x && b[|ScopeName(scope)| + 1..] == y;
    }
  }

  /** The counter that an increment at this instant leads to. */
  function NextCount(log: seq<Hit>, key: string, at: Instant, window: nat): Counter {
    Bump(CounterAfter(log, key, window), at, window)
  }

  lemma CounterAfterHit(log: seq<Hit>, hit: Hit, key: string, window: nat)
    ensures CounterAfter(log + [hit], key, window)
         == if hit.key == key then Some(NextCount(log, key, hit.at, window))
            else CounterAfter(log, key, window)
  {
    assert (log + [hit])[..|log|] == log;
  }

  datatype Limit = Limit(key: string, maximum: nat)

  /** How one call to the store ends: it ran at an instant, or it could not be reached. */
  datatype Reply = Reached(at: Instant) | Unreachable

  datatype Verdict = Allowed | Exceeded(retryAfter: nat) | Unavailable

  /** max(1, TTL): the store rounds the remaining milliseconds to the nearest second. */
  function RetryAfter(c: Counter, at: Instant): nat {
    var ttl := (c.expiresAt - at + 500) / 1000;
    if ttl < 1 then 1 else ttl
  }

  /** A caller is told to wait between one second and the whole window, and waiting that long plus a half is enough. */
  lemma RetryAfterIsUseful(c: Option<Counter>, at: Instant, window: nat)
    requires window > 0 && (c.Some? ==> c.value.expiresAt <= at + 1000 * window)
    ensures var now := Bump(c, at, window);
      1 <= RetryAfter(now, at) <= window && now.expiresAt <= at + 1000 * RetryAfter(now, at) + 500
  {
  }

  datatype Outcome = Outcome(verdict: Verdict, log: seq<Hit>)

  /** Limits are counted in order, and counting stops at the first one that is exceeded. */
  function Enforcement(log: seq<Hit>, limits: seq<Limit>, replies: seq<Reply>, window: nat): Outcome
    requires |replies| == |limits|
    decreases |limits|
  {
    if limits == [] then Outcome(Allowed, log)
    else match replies[0]
      case Unreachable => Outcome(Unavailable, log)
      case Reached(at) =>
        var counter := NextCount(log, limits[0].key, at, window);
        var more := log + [Hit(limits[0].key, at, counter.attempts)];
        if counter.attempts > limits[0].maximum then Outcome(Exceeded(RetryAfter(counter, at)), more)
        else Enforcement(more, limits[1..], replies[1..], window)
  }

  /** The store's clock does not run backwards. */
  predicate InOrder(log: seq<Hit>, replies: seq<Reply>) {
    && (forall i, j :: (0 <= i < j < |replies| && replies[i].Reached? && replies[j].Reached?)
          ==> replies[i].at <= replies[j].at)
    && (log != [] ==> forall i :: 0 <= i < |replies| && replies[i].Reached? ==> log[|log| - 1].at <= replies[i].at)
  }

  lemma {:induction false} EnforcementIsFaithful(log: seq<Hit>, limits: seq<Limit>, replies: seq<Reply>, window: nat)
    requires |replies| == |limits| && Faithful(log, window) && InOrder(log, replies)
    ensures Faithful(Enforcement(log, limits, replies, window).log, window)
    decreases |limits|
  {
    if limits != [] && replies[0].Reached? {
      var counter := NextCount(log, limits[0].key, replies[0].at, window);
      var more := log + [Hit(limits[0].key, replies[0].at, counter.attempts)];
      assert more[..|more| - 1] == log;
      EnforcementIsFaithful(more, limits[1..], replies[1..], window);
    }
  }

  /** A call leaves every counter alone that none of its limits is about. */
  lemma {:induction false} OtherKeysUntouched(
    log: seq<Hit>, limits: seq<Limit>, replies: seq<Reply>, window: nat, key: string)
    requires |replies| == |limits| && forall i :: 0 <= i < |limits| ==> limits[i].key != key
    ensures CounterAfter(Enforcement(log, limits, replies, window).log, key, window) == CounterAfter(log, key, window)
    decreases |limits|
  {
    if limits != [] && replies[0].Reached? {
      var hit := Hit(limits[0].key, replies[0].at, NextCount(log, limits[0].key, replies[0].at, window).attempts);
      CounterAfterHit(log, hit, key, window);
      OtherKeysUntouched(log + [hit], limits[1..], replies[1..], window, key);
    }
  }

  /** This attempt would be beyond the maximum of its own counter: as many were made in its live window already. */
  predicate Exceeds(log: seq<Hit>, limit: Limit, at: Instant, window: nat) {
    match CounterAfter(log, limit.key, window)
    case None => 1 > limit.maximum
    case Some(c) => (if at < c.expiresAt then c.attempts + 1 else 1) > limit.maximum
  }

  predicate Passes(log: seq<Hit>, limit: Limit, reply: Reply, window: nat) {
    reply.Reached? && !Exceeds(log, limit, reply.at, window)
  }

  lemma PassesElsewhere(log: seq<Hit>, hit: Hit, limit: Limit, reply: Reply, window: nat)
    requires limit.key != hit.key
    ensures Passes(log + [hit], limit, reply, window) == Passes(log, limit, reply, window)
  {
    CounterAfterHit(log, hit, limit.key, window);
  }

  /**
    The first limit that does not pass, by its own counter before the call, decides: the call is
    refused if that counter is beyond its maximum, and let through if every limit passes.
    */
  lemma {:induction false} VerdictExactly(
    log: seq<Hit>, limits: seq<Limit>, replies: seq<Reply>, window: nat, first: nat)
    requires |replies| == |limits| && first <= |limits|
    requires forall i, j :: 0 <= i < j < |limits| ==> limits[i].key != limits[j].key
    requires forall i :: 0 <= i < first ==> Passes(log, limits[i], replies[i], window)
    requires first < |limits| ==> !Passes(log, limits[first], replies[first], window)
    ensures Enforcement(log, limits, replies, window).verdict
         == if first == |limits| then Allowed
            else if replies[first].Unreachable? then Unavailable
            else Exceeded(RetryAfter(NextCount(log, limits[first].key, replies[first].at, window), replies[first].at))
    decreases |limits|
  {
    if first > 0 {
      assert Passes(log, limits[0], replies[0], window);
      var hit := Hit(limits[0].key, replies[0].at, NextCount(log, limits[0].key, replies[0].at, window).attempts);
      forall i | 1 <= i < |limits|
        ensures Passes(log + [hit], limits[1..][i - 1], replies[1..][i - 1], window)
             == Passes(log, limits[i], replies[i], window)
      {
        PassesElsewhere(log, hit, limits[i], replies[i], window);
      }
      hide Passes;
      VerdictExactly(log + [hit], limits[1..], replies[1..], window, first - 1);
      if first < |limits| { CounterAfterHit(log, hit, limits[first].key, window); }
    }
  }

  /** What one address or account did never counts against another, for a digest without collisions. */
  lemma OtherSubjectsUntouched(
    log: seq<Hit>, scope: Scope, subject: string, limits: seq<Limit>, subjects: seq<string>, replies: seq<Reply>,
    window: nat, digest: string -> string)
    requires |replies| == |limits| == |subjects| && forall s, t :: digest(s) == digest(t) ==> s == t
    requires forall i :: 0 <= i < |limits| ==>
      exists other :: limits[i].key == KeyFor(other, subjects[i], digest) && (other != scope || subjects[i] != subject)
    ensures var key := KeyFor(scope, subject, digest);
      CounterAfter(Enforcement(log, limits, replies, window).log, key, window) == CounterAfter(log, key, window)
  {
    var key := KeyFor(scope, subject, digest);
    forall i | 0 <= i < |limits| ensures limits[i].key != key {
      var other :| limits[i].key == KeyFor(other, subjects[i], digest) && (other != scope || subjects[i] != subject);
      if other != scope {
        ScopesAreSeparate(other, scope, subjects[i], subject, digest);
      } else if limits[i].key == key {
        SubjectsAreSeparate(scope, subjects[i], subject, digest);
      }
    }
    OtherKeysUntouched(log, limits, replies, window, key);
  }

  // ----- whole histories -----------------------------------------------------------------------------

  datatype Call = Call(limits: seq<Limit>, replies: seq<Reply>)

  /** Every call of a history, one after the other. */
  function History(log: seq<Hit>, calls: seq<Call>, window: nat): seq<Hit>
    requires forall i :: 0 <= i < |calls| ==> |calls[i].limits| == |calls[i].replies|
    decreases |calls|
  {
    if calls == [] then log
    else History(Enforcement(log, calls[0].limits, calls[0].replies, window).log, calls[1..], window)
  }

  /** Whatever happens meanwhile, a counter that no call is about stays what it was. */
  lemma {:induction false} OtherCallsUntouched(log: seq<Hit>, calls: seq<Call>, window: nat, key: string)
    requires forall i :: 0 <= i < |calls| ==> |calls[i].limits| == |calls[i].replies|
    requires forall i, k :: 0 <= i < |calls| && 0 <= k < |calls[i].limits| ==> calls[i].limits[k].key != key
    ensures CounterAfter(History(log, calls, window), key, window) == CounterAfter(log, key, window)
    decreases |calls|
  {
    if calls != [] {
      OtherKeysUntouched(log, calls[0].limits, calls[0].replies, window, key);
      OtherCallsUntouched(
        Enforcement(log, calls[0].limits, calls[0].replies, window).log, calls[1..], window, key);
    }
  }

  /** Some limit of the call is about `key` with this maximum and was counted in [from, to). */
  predicate Concerns(call: Call, limit: Limit, from: Instant, to: Instant)
    requires |call.limits| == |call.replies|
  {
    exists i :: 0 <= i < |call.limits| && call.limits[i] == limit
      && call.replies[i].Reached? && from <= call.replies[i].at < to
  }

  /** Calls that were let through although `limit` applied to them in [from, to). */
  function LetThrough(log: seq<Hit>, calls: seq<Call>, limit: Limit, window: nat, from: Instant, to: Instant): nat
    requires forall i :: 0 <= i < |calls| ==> |calls[i].limits| == |calls[i].replies|
    decreases |calls|
  {
    if calls == [] then 0
    else
      var outcome := Enforcement(log, calls[0].limits, calls[0].replies, window);
      (if outcome.verdict == Allowed && Concerns(calls[0], limit, from, to) then 1 else 0)
      + LetThrough(outcome.log, calls[1..], limit, window, from, to)
  }

  /** A call adds to the admitted attempts on a key, by at least one if it was let through under that limit. */
  lemma {:induction false} AllowedCallsAreAdmitted(
    log: seq<Hit>, limits: seq<Limit>, replies: seq<Reply>, limit: Limit, window: nat, from: Instant, to: Instant)
    requires |replies| == |limits|
    ensures var outcome := Enforcement(log, limits, replies, window);
      Admitted(outcome.log, limit.key, limit.maximum, from, to)
      >= Admitted(log, limit.key, limit.maximum, from, to)
         + if outcome.verdict == Allowed && Concerns(Call(limits, replies), limit, from, to) then 1 else 0
    decreases |limits|
  {
    if limits != [] && replies[0].Reached? {
      var counter := NextCount(log, limits[0].key, replies[0].at, window);
      var more := log + [Hit(limits[0].key, replies[0].at, counter.attempts)];
      assert more[..|more| - 1] == log;
      AllowedCallsAreAdmitted(more, limits[1..], replies[1..], limit, window, from, to);
      if Concerns(Call(limits, replies), limit, from, to) {
        ConcernsHeadOrTail(Call(limits, replies), limit, from, to);
      }
    }
  }

  lemma ConcernsHeadOrTail(call: Call, limit: Limit, from: Instant, to: Instant)
    requires |call.limits| == |call.replies| && Concerns(call, limit, from, to)
    ensures (call.limits[0] == limit && call.replies[0].Reached? && from <= call.replies[0].at < to)
         || Concerns(Call(call.limits[1..], call.replies[1..]), limit, from, to)
  {
    var i :| 0 <= i < |call.limits| && call.limits[i] == limit
      && call.replies[i].Reached? && from <= call.replies[i].at < to;
    if i > 0 {
      assert call.limits[1..][i - 1] == limit && call.replies[1..][i - 1] == call.replies[i];
    }
  }

  lemma {:induction false} LetThroughIsAdmitted(
    log: seq<Hit>, calls: seq<Call>, limit: Limit, window: nat, from: Instant, to: Instant)
    requires forall i :: 0 <= i < |calls| ==> |calls[i].limits| == |calls[i].replies|
    ensures Admitted(History(log, calls, window), limit.key, limit.maximum, from, to)
         >= Admitted(log, limit.key, limit.maximum, from, to) + LetThrough(log, calls, limit, window, from, to)
    decreases |calls|
  {
    if calls != [] {
      var outcome := Enforcement(log, calls[0].limits, calls[0].replies, window);
      AllowedCallsAreAdmitted(log, calls[0].limits, calls[0].replies, limit, window, from, to);
      LetThroughIsAdmitted(outcome.log, calls[1..], limit, window, from, to);
    }
  }

  /** The clock across a whole history. */
  ghost predicate ClockForward(log: seq<Hit>, calls: seq<Call>, window: nat)
    requires forall i :: 0 <= i < |calls| ==> |calls[i].limits| == |calls[i].replies|
    decreases |calls|
  {
    calls == [] ||
    (InOrder(log, calls[0].replies)
     && ClockForward(Enforcement(log, calls[0].limits, calls[0].replies, window).log, calls[1..], window))
  }

  lemma {:induction false} HistoryIsFaithful(log: seq<Hit>, calls: seq<Call>, window: nat)
    requires forall i :: 0 <= i < |calls| ==> |calls[i].limits| == |calls[i].replies|
    requires Faithful(log, window) && ClockForward(log, calls, window)
    ensures Faithful(History(log, calls, window), window)
    decreases |calls|
  {
    if calls != [] {
      EnforcementIsFaithful(log, calls[0].limits, calls[0].replies, window);
      HistoryIsFaithful(
        Enforcement(log, calls[0].limits, calls[0].replies, window).log, calls[1..], window);
    }
  }

  /**
    Over any history of calls of any kind, in any interval as long as the window, fewer than twice
    the maximum are let through for one IP address or account (exactly twice if both ends count).
    */
  lemma LetThroughIsBounded(calls: seq<Call>, limit: Limit, window: nat, from: Instant, closed: nat)
    requires forall i :: 0 <= i < |calls| ==> |calls[i].limits| == |calls[i].replies|
    requires ClockForward([], calls, window) && window > 0 && limit.maximum > 0 && closed <= 1
    ensures LetThrough([], calls, limit, window, from, from + 1000 * window + closed) <= 2 * limit.maximum - 1 + closed
  {
    HistoryIsFaithful([], calls, window);
    LetThroughIsAdmitted([], calls, limit, window, from, from + 1000 * window + closed);
    AtMostTwiceInAnyInterval(History([], calls, window), limit.key, limit.maximum, window, from, closed);
  }

  // ----- login ----------------------------------------------------------------------------------------

  function OrUnknown(clientIp: Option<string>): string {
    if clientIp.Some? && clientIp.value != "" then clientIp.value else "unknown"
  }

  /** Clients without an address share the one subject "unknown"; any other is its own. */
  lemma SubjectOfClient(clientIp: Option<string>)
    ensures clientIp == None || clientIp == Some("") ==> OrUnknown(clientIp) == "unknown"
    ensures clientIp != None && clientIp != Some("") ==> Some(OrUnknown(clientIp)) == clientIp
  {
  }

  /** A login refused by the limit on its IP address does not touch the counter of the account. */
  lemma RefusedIpSparesAccount(
    log: seq<Hit>, ip: string, account: string, digest: string -> string,
    maxIp: nat, maxAccount: nat, replies: seq<Reply>, window: nat)
    requires |replies| == 2
    ensures var ipLimit := Limit(KeyFor(LoginIp, ip, digest), maxIp);
      var accountLimit := Limit(KeyFor(LoginAccount, account, digest), maxAccount);
      var outcome := Enforcement(log, [ipLimit, accountLimit], replies, window);
      var byIp := replies[0].Unreachable? || NextCount(log, ipLimit.key, replies[0].at, window).attempts > maxIp;
      && (byIp ==> CounterAfter(outcome.log, accountLimit.key, window) == CounterAfter(log, accountLimit.key, window))
      && (!byIp && replies[1].Reached? ==>
            CounterAfter(outcome.log, accountLimit.key, window)
            == Some(NextCount(log, accountLimit.key, replies[1].at, window)))
  {
    ScopesAreSeparate(LoginIp, LoginAccount, ip, account, digest);
    TwoLimits(
      log, Limit(KeyFor(LoginIp, ip, digest), maxIp), Limit(KeyFor(LoginAccount, account, digest), maxAccount),
      replies, window);
  }

  lemma TwoLimits(log: seq<Hit>, a: Limit, b: Limit, replies: seq<Reply>, window: nat)
    requires |replies| == 2 && a.key != b.key
    ensures var outcome := Enforcement(log, [a, b], replies, window);
      var stops := replies[0].Unreachable? || NextCount(log, a.key, replies[0].at, window).attempts > a.maximum;
      && (stops ==> CounterAfter(outcome.log, b.key, window) == CounterAfter(log, b.key, window))
      && (!stops && replies[1].Reached? ==>
            CounterAfter(outcome.log, b.key, window) == Some(NextCount(log, b.key, replies[1].at, window)))
  {
    if replies[0].Reached? {
      var hit := Hit(a.key, replies[0].at, NextCount(log, a.key, replies[0].at, window).attempts);
      CounterAfterHit(log, hit, b.key, window);
      assert [a, b][1..] == [b];
      if replies[1].Reached? {
        OneLimit(log + [hit], b, replies[1..], window);
      }
    }
  }

  lemma OneLimit(log: seq<Hit>, b: Limit, replies: seq<Reply>, window: nat)
    requires |replies| == 1 && replies[0].Reached?
    ensures CounterAfter(Enforcement(log, [b], replies, window).log, b.key, window)
         == Some(NextCount(log, b.key, replies[0].at, window))
  {
    var hit := Hit(b.key, replies[0].at, NextCount(log, b.key, replies[0].at, window).attempts);
    CounterAfterHit(log, hit, b.key, window);
    assert Enforcement(log + [hit], [], [], window).log == log + [hit];
    assert [b][1..] == [] && replies[1..] == [];
  }

  // ----- the store and the limiter ---------------------------------------------------------------------

  /** Redis keeps an expired counter until it is next touched. */
  class CounterStore {
    var counters: map<string, Counter>
    ghost var log: seq<Hit>

    ghost predicate Valid(window: nat)
      reads this
    {
      Faithful(log, window) && forall key: string :: Lookup(counters, key) == CounterAfter(log, key, window)
    }

    constructor ()
      ensures log == [] && forall window :: Valid(window)
    {
      counters, log := map[], [];
    }

    /** The Lua script: INCR, EXPIRE on the first attempt, TTL. */
    method Increment(key: string, window: nat, at: Instant) returns (attempts: nat, retryAfter: nat)
      requires Valid(window) && window > 0 && (log != [] ==> log[|log| - 1].at <= at)
      modifies this
      ensures Valid(window)
      ensures log == old(log) + [Hit(key, at, attempts)]
      ensures var c := NextCount(old(log), key, at, window);
        attempts == c.attempts && retryAfter == RetryAfter(c, at) && at < c.expiresAt
    {
      ghost var c := NextCount(log, key, at, window);
      assert Lookup(counters, key) == CounterAfter(log, key, window);
      var previous := 0;
      var expiresAt := at + 1000 * window;
      if key in counters && at < counters[key].expiresAt {
        previous := counters[key].attempts;
        expiresAt := counters[key].expiresAt;
      }
      attempts := previous + 1;
      if attempts == 1 {
        expiresAt := at + 1000 * window;
      }
      assert Counter(attempts, expiresAt) == c;
      ghost var before, kept := log, counters;
      counters := counters[key := Counter(attempts, expiresAt)];
      retryAfter := RetryAfter(Counter(attempts, expiresAt), at);
      log := log + [Hit(key, at, attempts)];
      StoreAfterHit(before, Hit(key, at, attempts), kept, window);
    }
  }

  lemma StoreAfterHit(log: seq<Hit>, hit: Hit, counters: map<string, Counter>, window: nat)
    requires Faithful(log, window) && HitFits(log, hit, window)
    requires forall key: string :: Lookup(counters, key) == CounterAfter(log, key, window)
    ensures Faithful(log + [hit], window)
    ensures forall key: string ::
      Lookup(counters[hit.key := NextCount(log, hit.key, hit.at, window)], key)
      == CounterAfter(log + [hit], key, window)
  {
    assert (log + [hit])[..|log|] == log;
    forall key: string
      ensures Lookup(counters[hit.key := NextCount(log, hit.key, hit.at, window)], key)
           == CounterAfter(log + [hit], key, window)
    {
      CounterAfterHit(log, hit, key, window);
      assert Lookup(counters, key) == CounterAfter(log, key, window);
    }
  }

  datatype Settings = Settings(
    enabled: bool, window: nat, loginPerIp: nat, loginPerAccount: nat, registerPerIp: nat, refreshPerIp: nat)

  class AuthRateLimiter {
    const store: CounterStore
    const settings: Settings
    const digest: string -> string

    constructor (store: CounterStore, settings: Settings, digest: string -> string)
      ensures this.store == store && this.settings == settings && this.digest == digest
    {
      this.store, this.settings, this.digest := store, settings, digest;
    }

    /** _enforce: one increment per limit until one is exceeded; nothing at all when disabled. */
    method Enforce(limits: seq<Limit>, replies: seq<Reply>) returns (verdict: Verdict)
      requires |replies| == |limits| && settings.window > 0
      requires store.Valid(settings.window) && InOrder(store.log, replies)
      modifies store
      ensures store.Valid(settings.window)
      ensures !settings.enabled ==> verdict == Allowed && store.log == old(store.log)
      ensures settings.enabled ==>
        Outcome(verdict, store.log) == Enforcement(old(store.log), limits, replies, settings.window)
    {
      if !settings.enabled {
        return Allowed;
      }
      for i := 0 to |limits|
        invariant store.Valid(settings.window)
        invariant Enforcement(store.log, limits[i..], replies[i..], settings.window)
               == Enforcement(old(store.log), limits, replies, settings.window)
        invariant InOrder(store.log, replies[i..])
      {
        if replies[i].Unreachable? {
          return Unavailable;
        }
        assert replies[i..][0] == replies[i] && limits[i..][0] == limits[i];
        assert replies[i..][1..] == replies[i + 1..] && limits[i..][1..] == limits[i + 1..];
        var attempts, retryAfter := store.Increment(limits[i].key, settings.window, replies[i].at);
        if attempts > limits[i].maximum {
          return Exceeded(retryAfter);
        }
      }
      return Allowed;
    }

    method EnforceLogin(clientIp: Option<string>, account: string, replies: seq<Reply>) returns (verdict: Verdict)
      requires |replies| == 2 && settings.window > 0
      requires store.Valid(settings.window) && InOrder(store.log, replies)
      modifies store
      ensures store.Valid(settings.window)
      ensures !settings.enabled ==> verdict == Allowed && store.log == old(store.log)
      ensures settings.enabled ==>
        Outcome(verdict, store.log) == Enforcement(
          old(store.log),
          [Limit(KeyFor(LoginIp, OrUnknown(clientIp), digest), settings.loginPerIp),
           Limit(KeyFor(LoginAccount, account, digest), settings.loginPerAccount)],
          replies, settings.window)
    {
      verdict := Enforce(
        [Limit(KeyFor(LoginIp, OrUnknown(clientIp), digest), settings.loginPerIp),
         Limit(KeyFor(LoginAccount, account, digest), settings.loginPerAccount)],
        replies);
    }

    method EnforceRegistration(clientIp: Option<string>, replies: seq<Reply>) returns (verdict: Verdict)
      requires |replies| == 1 && settings.window > 0
      requires store.Valid(settings.window) && InOrder(store.log, replies)
      modifies store
      ensures store.Valid(settings.window)
      ensures !settings.enabled ==> verdict == Allowed && store.log == old(store.log)
      ensures settings.enabled ==>
        Outcome(verdict, store.log) == Enforcement(
          old(store.log), [Limit(KeyFor(RegisterIp, OrUnknown(clientIp), digest), settings.registerPerIp)],
          replies, settings.window)
    {
      verdict := Enforce([Limit(KeyFor(RegisterIp, OrUnknown(clientIp), digest), settings.registerPerIp)], replies);
    }

    method EnforceRefresh(clientIp: Option<string>, replies: seq<Reply>) returns (verdict: Verdict)
      requires |replies| == 1 && settings.window > 0
      requires store.Valid(settings.window) && InOrder(store.log, replies)
      modifies store
      ensures store.Valid(settings.window)
      ensures !settings.enabled ==> verdict == Allowed && store.log == old(store.log)
      ensures settings.enabled ==>
        Outcome(verdict, store.log) == Enforcement(
          old(store.log), [Limit(KeyFor(RefreshIp, OrUnknown(clientIp), digest), settings.refreshPerIp)],
          replies, settings.window)
    {
      verdict := Enforce([Limit(KeyFor(RefreshIp, OrUnknown(clientIp), digest), settings.refreshPerIp)], replies);
    }
  }
}
