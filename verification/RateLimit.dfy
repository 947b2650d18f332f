/** The fixed-window rate limiter (rate-limit.rules.ts, rate-limit.service.ts). Instants are milliseconds. */
module RateLimit {
  import opened Wrappers
  import opened Division

  type Key = string

  type Window = w: nat | w > 0 witness 1

  datatype Rule = Rule(windowSeconds: Window, max: int)

  /* ---------------------------------------------------------------------- */
  /* Rules                                                                  */
  /* ---------------------------------------------------------------------- */

  function WindowMs(rule: Rule): (w: int)
    ensures w >= 1000
  {
    rule.windowSeconds * 1000
  }

  function WindowStart(now: int, rule: Rule): int {
    now / WindowMs(rule) * WindowMs(rule)
  }

  function WindowEnd(start: int, rule: Rule): int {
    start + WindowMs(rule)
  }

  predicate IsAllowed(count: int, rule: Rule) {
    count <= rule.max
  }

  function CeilDiv(n: int, d: int): int
    requires d > 0
  {
    -(-n / d)
  }

  function RetryAfterSeconds(now: int, start: int, rule: Rule): int {
    var seconds := CeilDiv(WindowEnd(start, rule) - now, 1000);
    if seconds > 1 then seconds else 1
  }

  /** Every instant lies in its own window. */
  lemma InOwnWindow(now: int, rule: Rule)
    ensures WindowStart(now, rule) <= now < WindowEnd(WindowStart(now, rule), rule)
  {
    DivBounds(now, WindowMs(rule));
  }

  /** A window starts at a whole multiple of its length; exactly one multiple is near enough to an instant. */
  lemma WindowIsMultiple(now: int, rule: Rule, k: int)
    ensures var w := 1000 * rule.windowSeconds;
            k * w <= now < k * w + w <==> WindowStart(now, rule) == k * w && k == now / w
  {
    var w := WindowMs(rule);
    DivBounds(now, w);
    if k * w <= now < k * w + w {
      QuotientUnique(k, now / w, now, w);
    }
  }

  /** An instant less than one window after the start of a window is in that window. */
  lemma SameWindow(a: int, b: int, rule: Rule)
    requires WindowStart(a, rule) <= b < WindowEnd(WindowStart(a, rule), rule)
    ensures WindowStart(b, rule) == WindowStart(a, rule)
  {
    var w := WindowMs(rule);
    DivBounds(b, w);
    QuotientUnique(b / w, a / w, b, w);
  }

  lemma QuotientUnique(p: int, q: int, n: int, w: int)
    requires w > 0 && p * w <= n < p * w + w && q * w <= n < q * w + w
    ensures p == q
  {
    Below(p, q, w);
    Below(q, p, w);
  }

  lemma Below(p: int, q: int, w: int)
    requires w > 0
    ensures p < q ==> p * w + w <= q * w
  {
    if p < q {
      var k := q - p - 1;
      assert q * w == p * w + w + k * w;
    }
  }

  /** The next window starts where this one ends. */
  lemma NextWindow(a: int, rule: Rule)
    ensures WindowStart(WindowEnd(WindowStart(a, rule), rule), rule) == WindowEnd(WindowStart(a, rule), rule)
  {
    var w := WindowMs(rule);
    var q := a / w;
    assert q * w + w == (q + 1) * w;
    QuotientUnique(((q + 1) * w) / w, q + 1, (q + 1) * w, w) by {
      DivBounds((q + 1) * w, w);
    }
  }

  /**
   Retry-After is between one second and one window, and is the least whole number of seconds that reaches the next
   window.
   */
  lemma RetryAfterIsLeast(now: int, rule: Rule)
    ensures var start := WindowStart(now, rule);
            var seconds := RetryAfterSeconds(now, start, rule);
            && 1 <= seconds <= rule.windowSeconds
            && now + 1000 * seconds >= WindowEnd(start, rule)
            && forall s :: 0 <= s < seconds ==> now + 1000 * s < WindowEnd(start, rule)
  {
    hide WindowStart;
    InOwnWindow(now, rule);
  }

  /* ---------------------------------------------------------------------- */
  /* The counter table                                                      */
  /* ---------------------------------------------------------------------- */

  datatype CounterId = CounterId(key: Key, windowStart: int)

  datatype Counter = Counter(count: nat, expiresAt: int)

  type Counters = map<CounterId, Counter>

  datatype Outcome = Outcome(count: nat, limit: int, allowed: bool, resetAt: int, retryAfterSeconds: int)

  datatype Consumed = Consumed(counters: Counters, outcome: Outcome)

  /** The upsert of one request, and what the caller is told. */
  function Consume(counters: Counters, key: Key, rule: Rule, now: int): Consumed {
    var start := WindowStart(now, rule);
    var id := CounterId(key, start);
    var row := if id in counters then counters[id].(count := counters[id].count + 1)
               else Counter(1, WindowEnd(start, rule));
    Consumed(counters[id := row],
             Outcome(row.count, rule.max, IsAllowed(row.count, rule), WindowEnd(start, rule),
                     RetryAfterSeconds(now, start, rule)))
  }

  /** Deletes the rows that expired before `at`. */
  function Prune(counters: Counters, at: int): Counters {
    map id | id in counters && counters[id].expiresAt >= at :: counters[id]
  }

  /* ---------------------------------------------------------------------- */
  /* Runs, with an unpruned log of all requests                             */
  /* ---------------------------------------------------------------------- */

  datatype Request = Request(key: Key, at: int, outcome: Outcome)

  /** `log` and `clock` are history: every request so far, and the latest time seen. */
  datatype State = State(counters: Counters, log: seq<Request>, clock: int)

  datatype Step =
    | Hit(key: Key, at: int)
    | PruneStep(at: int)

  /** Each key has one rule; the source derives both from the same scope. */
  type Policy = Key -> Rule

  function Do(s: State, step: Step, policy: Policy): State {
    match step
    case Hit(key, at) =>
      var c := Consume(s.counters, key, policy(key), at);
      State(c.counters, s.log + [Request(key, at, c.outcome)], at)
    case PruneStep(at) => s.(counters := Prune(s.counters, at), clock := at)
  }

  function Run(s: State, steps: seq<Step>, policy: Policy): State
    decreases |steps|
  {
    if steps == [] then s else Run(Do(s, steps[0], policy), steps[1..], policy)
  }

  /** Time never runs backwards. */
  predicate InOrder(clock: int, steps: seq<Step>)
    decreases |steps|
  {
    steps != [] ==> clock <= steps[0].at && InOrder(steps[0].at, steps[1..])
  }

  function Start(clock: int): State {
    State(map[], [], clock)
  }

  predicate InWindow(r: Request, key: Key, start: int, policy: Policy) {
    r.key == key && WindowStart(r.at, policy(key)) == start
  }

  /** How many requests of the log fall into a window of a key. */
  function Requests(log: seq<Request>, key: Key, start: int, policy: Policy): nat {
    if log == [] then 0
    else
      var n := |log| - 1;
      Requests(log[..n], key, start, policy) + (if InWindow(log[n], key, start, policy) then 1 else 0)
  }

  /** The answer to a request is the number of its window's requests up to itself. */
  predicate AnswerOk(log: seq<Request>, j: nat, policy: Policy)
    requires j < |log|
  {
    var r := log[j];
    var rule := policy(r.key);
    var start := WindowStart(r.at, rule);
    && r.outcome.count == Requests(log[..j], r.key, start, policy) + 1
    && r.outcome.allowed == IsAllowed(r.outcome.count, rule)
    && r.outcome.limit == rule.max
    && r.outcome.resetAt == WindowEnd(start, rule)
    && r.outcome.retryAfterSeconds == RetryAfterSeconds(r.at, start, rule)
  }

  predicate AnswersOk(log: seq<Request>, policy: Policy) {
    forall j :: 0 <= j < |log| ==> AnswerOk(log, j, policy)
  }

  /** A row that is still in the table holds the number of requests logged for it, at least one. */
  predicate RowsOk(s: State, policy: Policy) {
    forall id :: id in s.counters ==>
      && s.counters[id] == Counter(Requests(s.log, id.key, id.windowStart, policy),
                                   WindowEnd(id.windowStart, policy(id.key)))
      && s.counters[id].count > 0
  }

  /** A window that has requests and is not over is in the table. */
  ghost predicate NothingMissing(s: State, policy: Policy) {
    forall key, start :: Requests(s.log, key, start, policy) > 0 && WindowEnd(start, policy(key)) >= s.clock ==>
                           CounterId(key, start) in s.counters
  }

  ghost predicate Inv(s: State, policy: Policy) {
    RowsOk(s, policy) && NothingMissing(s, policy) && AnswersOk(s.log, policy)
  }

  lemma HitKeepsInv(s: State, key: Key, at: int, policy: Policy)
    requires Inv(s, policy) && s.clock <= at
    ensures Inv(Do(s, Hit(key, at), policy), policy)
  {
    hide WindowStart, RetryAfterSeconds;
    var t := Do(s, Hit(key, at), policy);
    var rule := policy(key);
    var start := WindowStart(at, rule);
    var id := CounterId(key, start);
    InOwnWindow(at, rule);
    assert t.log[..|s.log|] == s.log;
    assert id !in s.counters ==> Requests(s.log, key, start, policy) == 0;
    forall j | 0 <= j < |t.log|
      ensures AnswerOk(t.log, j, policy)
    {
      if j < |s.log| {
        assert AnswerOk(s.log, j, policy);
        assert t.log[..j] == s.log[..j];
      }
    }
  }

  lemma DoKeepsInv(s: State, step: Step, policy: Policy)
    requires Inv(s, policy) && s.clock <= step.at
    ensures Inv(Do(s, step, policy), policy) && Do(s, step, policy).clock == step.at
  {
    match step
    case Hit(key, at) => HitKeepsInv(s, key, at, policy);
    case PruneStep(at) =>
  }

  lemma {:induction false} RunKeepsInv(s: State, steps: seq<Step>, policy: Policy)
    requires Inv(s, policy) && InOrder(s.clock, steps)
    ensures Inv(Run(s, steps, policy), policy)
    decreases |steps|
  {
    hide Inv, Do;
    if steps == [] {
    } else {
      DoKeepsInv(s, steps[0], policy);
      RunKeepsInv(Do(s, steps[0], policy), steps[1..], policy);
    }
  }

  /** Pruning loses nothing: exactly the first `max` requests of every window are allowed. */
  lemma FirstMaxAllowed(clock: int, steps: seq<Step>, policy: Policy, j: nat)
    requires InOrder(clock, steps)
    requires j < |Run(Start(clock), steps, policy).log|
    ensures var log := Run(Start(clock), steps, policy).log;
            var rule := policy(log[j].key);
            log[j].outcome.allowed
            <==> Requests(log[..j], log[j].key, WindowStart(log[j].at, rule), policy) < rule.max
  {
    hide Run;
    RunKeepsInv(Start(clock), steps, policy);
    assert AnswerOk(Run(Start(clock), steps, policy).log, j, policy);
  }

  /**
   What every caller is told: the number of the request in its window, the limit, when the next window starts, and the
   least number of seconds until then.
   */
  lemma CallerTold(clock: int, steps: seq<Step>, policy: Policy, j: nat)
    requires InOrder(clock, steps)
    requires j < |Run(Start(clock), steps, policy).log|
    ensures var log := Run(Start(clock), steps, policy).log;
            var at, rule, told := log[j].at, policy(log[j].key), log[j].outcome;
            && told.count == Requests(log[..j], log[j].key, WindowStart(at, rule), policy) + 1
            && told.limit == rule.max && (told.allowed <==> told.count <= rule.max)
            && at < told.resetAt <= at + 1000 * rule.windowSeconds
            && WindowStart(told.resetAt, rule) == told.resetAt
            && at + 1000 * told.retryAfterSeconds >= told.resetAt
            && forall s :: 0 <= s < told.retryAfterSeconds ==> at + 1000 * s < told.resetAt
  {
    hide Run, WindowStart, RetryAfterSeconds;
    RunKeepsInv(Start(clock), steps, policy);
    var log := Run(Start(clock), steps, policy).log;
    assert AnswerOk(log, j, policy);
    InOwnWindow(log[j].at, policy(log[j].key));
    NextWindow(log[j].at, policy(log[j].key));
    RetryAfterIsLeast(log[j].at, policy(log[j].key));
  }

  /** After pruning, the table has exactly the windows that had a request and are not over. */
  lemma PrunedTable(clock: int, steps: seq<Step>, policy: Policy, at: int, id: CounterId)
    requires InOrder(clock, steps) && Run(Start(clock), steps, policy).clock <= at
    ensures var s := Run(Start(clock), steps, policy);
            id in Do(s, PruneStep(at), policy).counters
            <==> Requests(s.log, id.key, id.windowStart, policy) > 0 && WindowEnd(id.windowStart, policy(id.key)) >= at
  {
    hide Run;
    RunKeepsInv(Start(clock), steps, policy);
  }

  /* ---------------------------------------------------------------------- */
  /* A bound over any interval of one window's length                       */
  /* ---------------------------------------------------------------------- */

  function Max0(n: int): nat {
    if n < 0 then 0 else n
  }

  function AllowedInWindow(log: seq<Request>, key: Key, start: int, policy: Policy): nat {
    if log == [] then 0
    else
      var n := |log| - 1;
      AllowedInWindow(log[..n], key, start, policy)
      + (if InWindow(log[n], key, start, policy) && log[n].outcome.allowed then 1 else 0)
  }

  /** Allowed requests of a key at instants from `from`, and before `to`. */
  function AllowedBetween(log: seq<Request>, key: Key, from: int, to: int): nat {
    if log == [] then 0
    else
      var n := |log| - 1;
      AllowedBetween(log[..n], key, from, to)
      + (if log[n].key == key && from <= log[n].at < to && log[n].outcome.allowed then 1 else 0)
  }

  lemma AnswersPrefix(log: seq<Request>, n: nat, policy: Policy)
    requires AnswersOk(log, policy) && n <= |log|
    ensures AnswersOk(log[..n], policy)
  {
    forall j | 0 <= j < n
      ensures AnswerOk(log[..n], j, policy)
    {
      assert AnswerOk(log, j, policy);
      assert log[..n][..j] == log[..j];
    }
  }

  lemma {:induction false} WindowBound(log: seq<Request>, key: Key, start: int, policy: Policy)
    requires AnswersOk(log, policy)
    ensures AllowedInWindow(log, key, start, policy) <= Requests(log, key, start, policy)
    ensures AllowedInWindow(log, key, start, policy) <= Max0(policy(key).max)
    decreases |log|
  {
    hide WindowStart, RetryAfterSeconds;
    if log == [] {
    } else {
      var n := |log| - 1;
      AnswersPrefix(log, n, policy);
      WindowBound(log[..n], key, start, policy);
      assert AnswerOk(log, n, policy);
    }
  }

  /** Instants within one window's length of `from` lie in two windows. */
  lemma TwoWindows(from: int, at: int, rule: Rule)
    requires from <= at < from + WindowMs(rule)
    ensures var start := WindowStart(from, rule);
            WindowStart(at, rule) == start || WindowStart(at, rule) == WindowEnd(start, rule)
  {
    var start := WindowStart(from, rule);
    InOwnWindow(from, rule);
    NextWindow(from, rule);
    if at < WindowEnd(start, rule) {
      SameWindow(from, at, rule);
    } else {
      SameWindow(WindowEnd(start, rule), at, rule);
    }
  }

  lemma {:induction false} SlidingBound(log: seq<Request>, key: Key, from: int, policy: Policy)
    requires AnswersOk(log, policy)
    ensures var start := WindowStart(from, policy(key));
            AllowedBetween(log, key, from, from + WindowMs(policy(key)))
            <= AllowedInWindow(log, key, start, policy)
               + AllowedInWindow(log, key, WindowEnd(start, policy(key)), policy)
    decreases |log|
  {
    hide WindowStart, RetryAfterSeconds;
    if log == [] {
    } else {
      var n := |log| - 1;
      AnswersPrefix(log, n, policy);
      SlidingBound(log[..n], key, from, policy);
      if log[n].key == key && from <= log[n].at < from + WindowMs(policy(key)) {
        TwoWindows(from, log[n].at, policy(key));
      }
    }
  }

  /** Any half-open interval of one window's length sees at most twice `max` allowed requests of a key. */
  lemma AtMostTwiceMax(clock: int, steps: seq<Step>, policy: Policy, key: Key, from: int)
    requires InOrder(clock, steps)
    ensures AllowedBetween(Run(Start(clock), steps, policy).log, key, from, from + WindowMs(policy(key)))
            <= 2 * Max0(policy(key).max)
  {
    hide Run, WindowStart;
    RunKeepsInv(Start(clock), steps, policy);
    var log := Run(Start(clock), steps, policy).log;
    var start := WindowStart(from, policy(key));
    SlidingBound(log, key, from, policy);
    WindowBound(log, key, start, policy);
    WindowBound(log, key, WindowEnd(start, policy(key)), policy);
  }

  /* ---------------------------------------------------------------------- */
  /* The bound is reached                                                   */
  /* ---------------------------------------------------------------------- */

  function Hits(key: Key, at: int, n: nat): seq<Step> {
    seq(n, _ => Hit(key, at))
  }

  lemma {:induction false} RunConcat(s: State, a: seq<Step>, b: seq<Step>, policy: Policy)
    ensures Run(s, a + b, policy) == Run(Run(s, a, policy), b, policy)
    decreases |a|
  {
    hide Do;
    if a == [] {
      assert a + b == b;
    } else {
      assert (a + b)[1..] == a[1..] + b;
      RunConcat(Do(s, a[0], policy), a[1..], b, policy);
    }
  }

  /** n requests at one instant are all allowed while their window has room. */
  lemma {:induction false} HitsAllowed(s: State, key: Key, at: int, n: nat, policy: Policy, from: int, to: int)
    requires Inv(s, policy) && s.clock <= at && from <= at < to
    requires Requests(s.log, key, WindowStart(at, policy(key)), policy) + n <= policy(key).max
    ensures var t := Run(s, Hits(key, at, n), policy);
            && Inv(t, policy) && (n > 0 ==> t.clock == at) && (n == 0 ==> t == s)
            && AllowedBetween(t.log, key, from, to) == AllowedBetween(s.log, key, from, to) + n
            && forall start :: start != WindowStart(at, policy(key)) ==>
                 Requests(t.log, key, start, policy) == Requests(s.log, key, start, policy)
    decreases n
  {
    hide WindowStart, Inv;
    if n == 0 {
    } else {
      var next := Do(s, Hit(key, at), policy);
      DoKeepsInv(s, Hit(key, at), policy);
      assert next.log[..|s.log|] == s.log;
      assert AnswerOk(next.log, |s.log|, policy) by { AnswersInInv(next, policy); }
      assert Hits(key, at, n)[1..] == Hits(key, at, n - 1);
      HitsAllowed(next, key, at, n - 1, policy, from, to);
    }
  }

  lemma AnswersInInv(s: State, policy: Policy)
    requires Inv(s, policy)
    ensures AnswersOk(s.log, policy)
  {
  }

  lemma StartIsEmpty(clock: int, policy: Policy, key: Key, from: int, to: int)
    ensures Inv(Start(clock), policy) && Start(clock).clock == clock
    ensures AllowedBetween(Start(clock).log, key, from, to) == 0
    ensures forall start :: Requests(Start(clock).log, key, start, policy) == 0
  {
  }

  lemma {:induction false} HitsInOrder(clock: int, key: Key, at: int, n: nat, rest: seq<Step>)
    requires clock <= at && InOrder(at, rest)
    ensures InOrder(clock, Hits(key, at, n) + rest)
    decreases n
  {
    var steps := Hits(key, at, n) + rest;
    if n == 0 {
      assert steps == rest;
    } else {
      HitsInOrder(at, key, at, n - 1, rest);
      assert steps[1..] == Hits(key, at, n - 1) + rest;
    }
  }

  /** `max` requests in the last millisecond of a window, and `max` in the first of the next. */
  function AroundBoundary(key: Key, from: int, policy: Policy): seq<Step>
    requires policy(key).max >= 0
  {
    var boundary := WindowEnd(WindowStart(from, policy(key)), policy(key));
    Hits(key, boundary - 1, policy(key).max) + Hits(key, boundary, policy(key).max)
  }

  lemma BoundaryInside(from: int, rule: Rule)
    requires WindowStart(from, rule) != from
    ensures var boundary := WindowEnd(WindowStart(from, rule), rule);
            && from <= boundary - 1 && boundary < from + WindowMs(rule)
            && WindowStart(boundary - 1, rule) == WindowStart(from, rule) != boundary
            && WindowStart(boundary, rule) == boundary
  {
    InOwnWindow(from, rule);
    NextWindow(from, rule);
    SameWindow(from, WindowEnd(WindowStart(from, rule), rule) - 1, rule);
  }

  /** Two bursts in two windows are both allowed. */
  lemma TwoBursts(policy: Policy, key: Key, clock: int, a: int, b: int, n: nat, from: int, to: int)
    requires clock <= a <= b && from <= a && b < to && n == policy(key).max
    requires WindowStart(a, policy(key)) != WindowStart(b, policy(key))
    ensures AllowedBetween(Run(Start(clock), Hits(key, a, n) + Hits(key, b, n), policy).log, key, from, to) == n + n
  {
    hide *;
    StartIsEmpty(clock, policy, key, from, to);
    HitsAllowed(Start(clock), key, a, n, policy, from, to);
    var s := Run(Start(clock), Hits(key, a, n), policy);
    HitsAllowed(s, key, b, n, policy, from, to);
    RunConcat(Start(clock), Hits(key, a, n), Hits(key, b, n), policy);
  }

  lemma BurstsInOrder(key: Key, clock: int, a: int, b: int, n: nat)
    requires clock <= a <= b
    ensures InOrder(clock, Hits(key, a, n) + Hits(key, b, n))
  {
    hide *;
    NothingInOrder(b);
    HitsInOrder(a, key, b, n, []);
    assert Hits(key, b, n) + [] == Hits(key, b, n);
    HitsInOrder(clock, key, a, n, Hits(key, b, n));
  }

  /** An interval that does not start with a window contains a boundary, around which twice `max` requests pass. */
  lemma TwiceMaxReached(policy: Policy, key: Key, from: int, clock: int)
    requires policy(key).max >= 0 && WindowStart(from, policy(key)) != from && clock <= from
    ensures var steps := AroundBoundary(key, from, policy);
            && InOrder(clock, steps)
            && AllowedBetween(Run(Start(clock), steps, policy).log, key, from, from + WindowMs(policy(key)))
               == 2 * policy(key).max
  {
    var boundary := WindowEnd(WindowStart(from, policy(key)), policy(key));
    var n: nat := policy(key).max;
    assert AroundBoundary(key, from, policy) == Hits(key, boundary - 1, n) + Hits(key, boundary, n);
    hide *;
    BoundaryInside(from, policy(key));
    BurstsInOrder(key, clock, boundary - 1, boundary, n);
    TwoBursts(policy, key, clock, boundary - 1, boundary, n, from, from + WindowMs(policy(key)));
  }

  lemma NothingInOrder(clock: int)
    ensures InOrder(clock, [])
  {
  }

  lemma {:induction false} AlignedBound(log: seq<Request>, key: Key, from: int, policy: Policy)
    requires AnswersOk(log, policy) && WindowStart(from, policy(key)) == from
    ensures AllowedBetween(log, key, from, from + WindowMs(policy(key))) <= AllowedInWindow(log, key, from, policy)
    decreases |log|
  {
    hide WindowStart, RetryAfterSeconds;
    if log == [] {
    } else {
      var n := |log| - 1;
      AnswersPrefix(log, n, policy);
      AlignedBound(log[..n], key, from, policy);
      if log[n].key == key && from <= log[n].at < from + WindowMs(policy(key)) {
        SameWindow(from, log[n].at, policy(key));
      }
    }
  }

  /** An interval that is a window of the limiter sees at most `max` allowed requests of a key. */
  lemma AlignedAtMostMax(clock: int, steps: seq<Step>, policy: Policy, key: Key, from: int)
    requires InOrder(clock, steps) && WindowStart(from, policy(key)) == from
    ensures AllowedBetween(Run(Start(clock), steps, policy).log, key, from, from + WindowMs(policy(key)))
            <= Max0(policy(key).max)
  {
    hide Run, WindowStart;
    RunKeepsInv(Start(clock), steps, policy);
    var log := Run(Start(clock), steps, policy).log;
    AlignedBound(log, key, from, policy);
    WindowBound(log, key, from, policy);
  }

  /** Every run, from whatever time on, allows at most `max` requests of the key in one window's length after `from`. */
  ghost predicate LimitHolds(policy: Policy, key: Key, from: int) {
    forall clock, steps :: InOrder(clock, steps) ==> WithinMax(clock, steps, policy, key, from)
  }

  predicate WithinMax(clock: int, steps: seq<Step>, policy: Policy, key: Key, from: int) {
    AllowedBetween(Run(Start(clock), steps, policy).log, key, from, from + WindowMs(policy(key)))
    <= Max0(policy(key).max)
  }

  /** The limit holds over exactly the intervals that start with a window, and over all if it allows no request. */
  lemma LimitHoldsIff(policy: Policy, key: Key, from: int)
    ensures LimitHolds(policy, key, from) <==> WindowStart(from, policy(key)) == from || policy(key).max <= 0
  {
    hide WindowStart, Run, InOrder, AllowedBetween, AroundBoundary;
    if WindowStart(from, policy(key)) == from || policy(key).max <= 0 {
      forall clock, steps | InOrder(clock, steps)
        ensures WithinMax(clock, steps, policy, key, from)
      {
        if policy(key).max <= 0 {
          AtMostTwiceMax(clock, steps, policy, key, from);
        } else {
          AlignedAtMostMax(clock, steps, policy, key, from);
        }
      }
    } else {
      TwiceMaxReached(policy, key, from, from);
      assert !WithinMax(from, AroundBoundary(key, from, policy), policy, key, from);
    }
  }

  /* ---------------------------------------------------------------------- */
  /* Enforcing several limits on one request                                */
  /* ---------------------------------------------------------------------- */

  /** One check: its key, the time it is made, and the time of the opportunistic pruning when there is one. */
  datatype Check = Check(key: Key, now: int, pruneAt: Option<int>)

  predicate ChecksInOrder(clock: int, checks: seq<Check>)
    decreases |checks|
  {
    checks != [] ==>
      && clock <= checks[0].now <= After(checks[0])
      && ChecksInOrder(After(checks[0]), checks[1..])
  }

  function After(check: Check): int {
    check.pruneAt.GetOr(check.now)
  }

  function ConsumeStep(s: State, check: Check, policy: Policy): State {
    var t := Do(s, Hit(check.key, check.now), policy);
    if check.pruneAt.Some? then Do(t, PruneStep(check.pruneAt.value), policy) else t
  }

  datatype Enforced = Enforced(state: State, retryAfter: Option<int>)

  /** Consumes the checks in order and stops at the first one that is exhausted. */
  function Enforce(s: State, checks: seq<Check>, policy: Policy): Enforced
    decreases |checks|
  {
    if checks == [] then Enforced(s, None)
    else
      var t := ConsumeStep(s, checks[0], policy);
      var outcome := t.log[|s.log|].outcome;
      if outcome.allowed then Enforce(t, checks[1..], policy) else Enforced(t, Some(outcome.retryAfterSeconds))
  }

  /**
   The checks before the refused one are consumed and were allowed, the refused one is consumed and names its own
   Retry-After, and the checks after it are not consumed; without a refusal all are consumed and allowed.
   */
  lemma {:induction false} EnforceStops(s: State, checks: seq<Check>, policy: Policy) returns (added: seq<Request>)
    ensures var e := Enforce(s, checks, policy);
            && e.state.log == s.log + added
            && |added| <= |checks|
            && (forall j :: 0 <= j < |added| ==> added[j].key == checks[j].key && added[j].at == checks[j].now)
            && (forall j :: 0 <= j < |added| ==>
                  (added[j].outcome.allowed <==> e.retryAfter.None? || j < |added| - 1))
            && (match e.retryAfter
                case None => |added| == |checks|
                case Some(seconds) => |added| >= 1 && seconds == added[|added| - 1].outcome.retryAfterSeconds)
    decreases |checks|
  {
    hide Consume;
    added := [];
    if checks == [] {
    } else {
      var t := ConsumeStep(s, checks[0], policy);
      var first := t.log[|s.log|];
      assert t.log == s.log + [first];
      if first.outcome.allowed {
        var rest := EnforceStops(t, checks[1..], policy);
        added := [first] + rest;
        assert s.log + added == t.log + rest;
      } else {
        added := [first];
      }
    }
  }

  /* ---------------------------------------------------------------------- */
  /* The service                                                            */
  /* ---------------------------------------------------------------------- */

  class Limiter {
    var counters: Counters
    const policy: Policy
    /** The log and the clock that the table is measured against. */
    ghost var state: State

    ghost predicate Valid()
      reads this
    {
      state.counters == counters && Inv(state, policy)
    }

    constructor (policy: Policy, ghost clock: int)
      ensures Valid() && state == Start(clock) && this.policy == policy
    {
      this.policy := policy;
      counters := map[];
      state := Start(clock);
    }

    method PruneExpired(at: int)
      requires Valid() && state.clock <= at
      modifies this
      ensures Valid() && state == Do(old(state), PruneStep(at), policy)
    {
      DoKeepsInv(state, PruneStep(at), policy);
      counters := map id | id in counters && counters[id].expiresAt >= at :: counters[id];
      state := Do(state, PruneStep(at), policy);
    }

    method ConsumeRateLimit(check: Check) returns (outcome: Outcome)
      requires Valid() && state.clock <= check.now <= After(check)
      modifies this
      ensures Valid() && state == ConsumeStep(old(state), check, policy)
      ensures state.clock == After(check)
      ensures outcome == state.log[|old(state).log|].outcome
      ensures outcome.allowed <==>
                Requests(old(state).log, check.key, WindowStart(check.now, policy(check.key)), policy)
                  < policy(check.key).max
    {
      hide Inv, WindowStart, RetryAfterSeconds, Requests;
      var rule := policy(check.key);
      var start := WindowStart(check.now, rule);
      var id := CounterId(check.key, start);
      ghost var s := state;
      DoKeepsInv(s, Hit(check.key, check.now), policy);
      if id in counters {
        counters := counters[id := counters[id].(count := counters[id].count + 1)];
      } else {
        counters := counters[id := Counter(1, WindowEnd(start, rule))];
      }
      var count := counters[id].count;
      state := Do(s, Hit(check.key, check.now), policy);
      assert AnswerOk(state.log, |s.log|, policy) by { AnswersInInv(state, policy); }
      assert state.log[..|s.log|] == s.log;
      outcome := Outcome(count, rule.max, IsAllowed(count, rule), WindowEnd(start, rule),
                         RetryAfterSeconds(check.now, start, rule));
      if check.pruneAt.Some? {
        PruneExpired(check.pruneAt.value);
      }
    }

    method EnforceRateLimits(checks: seq<Check>) returns (retryAfter: Option<int>)
      requires Valid() && ChecksInOrder(state.clock, checks)
      modifies this
      ensures Valid() && Enforced(state, retryAfter) == Enforce(old(state), checks, policy)
    {
      hide Inv, ConsumeStep;
      for i := 0 to |checks|
        invariant Valid() && ChecksInOrder(state.clock, checks[i..])
        invariant Enforce(state, checks[i..], policy) == Enforce(old(state), checks, policy)
      {
        assert checks[i..][0] == checks[i] && checks[i..][1..] == checks[i + 1..];
        var outcome := ConsumeRateLimit(checks[i]);
        if !outcome.allowed {
          return Some(outcome.retryAfterSeconds);
        }
      }
      return None;
    }
  }
}
