/** Letting events through while a bucket holds tokens, and dropping the rest. */
module RateLimiting {
  import opened Prelude

  const EVENTS_PER_SECOND: u32 := 2000
  const BURST: u32 := 4000

  /** A limiter's settings, and what changes as it is used. */
  datatype Limit = Limit(capacity: real, refill: real)
  {
    /** What a span of time puts into the bucket. */
    function Worth(elapsed: real): real {
      elapsed * refill
    }
  }

  datatype Bucket = Bucket(tokens: real, last: real)

  predicate Positive(l: Limit) {
    0.0 <= l.capacity && 0.0 <= l.refill
  }

  /** What is in the bucket once time has moved on to `now`. An instant before
      the last one counts as no time passed. */
  function Refilled(l: Limit, b: Bucket, now: real): real {
    var elapsed := if now < b.last then 0.0 else now - b.last;
    Min(b.tokens + l.Worth(elapsed), l.capacity)
  }

  function Allow(l: Limit, b: Bucket, now: real): (Bucket, bool) {
    var level := Refilled(l, b, now);
    if level >= 1.0 then (Bucket(level - 1.0, now), true) else (Bucket(level, now), false)
  }

  function Min(x: real, y: real): real {
    if x < y then x else y
  }

  class RateLimiter {
    const capacity: real
    const refill: real
    var tokens: real
    var last: real

    function Settings(): Limit {
      Limit(capacity, refill)
    }

    function View(): Bucket
      reads this
    {
      Bucket(tokens, last)
    }

    constructor (eventsPerSecond: u32, burst: u32, now: real)
      ensures Settings() == Limit(burst as real, eventsPerSecond as real) && Positive(Settings())
      ensures View() == Bucket(capacity, now)
    {
      capacity, refill := burst as real, eventsPerSecond as real;
      tokens, last := burst as real, now;
    }

    method AllowAt(now: real) returns (allowed: bool)
      modifies this
      ensures (View(), allowed) == Allow(Settings(), old(View()), now)
    {
      var elapsed := if now < last then 0.0 else now - last;
      assert Settings().Worth(elapsed) == elapsed * refill;
      last := now;
      tokens := Min(tokens + elapsed * refill, capacity);
      if tokens >= 1.0 {
        tokens := tokens - 1.0;
        allowed := true;
      } else {
        allowed := false;
      }
    }
  }

  /** A call at an instant before the last one finds what was left, no more and no
      less, and time then runs from that instant. */
  lemma GoingBackRefillsNothing(l: Limit, b: Bucket, now: real)
    requires now <= b.last && b.tokens <= l.capacity
    ensures var (n, allowed) := Allow(l, b, now);
            && (allowed <==> b.tokens >= 1.0) && n.last == now
            && n.tokens == b.tokens - if allowed then 1.0 else 0.0
  {
    assert l.Worth(0.0) == 0.0;
  }

  // ---- A whole stream of calls, from a full bucket ----

  /** Times in order, none before the limiter was made. */
  predicate InOrder(start: real, times: seq<real>) {
    && (forall i | 0 <= i < |times| :: start <= times[i])
    && (forall i, j | 0 <= i <= j < |times| :: times[i] <= times[j])
  }

  datatype Stream = Stream(limit: Limit, start: real, times: seq<real>)
  {
    predicate Valid() {
      Positive(limit) && InOrder(start, times)
    }

    function After(n: nat): Bucket
      requires n <= |times|
    {
      if n == 0 then Bucket(limit.capacity, start) else Allow(limit, After(n - 1), times[n - 1]).0
    }

    /** What is in the bucket just before call `j` is decided. */
    function Level(j: nat): real
      requires j < |times|
    {
      Refilled(limit, After(j), times[j])
    }

    predicate Admitted(j: nat)
      requires j < |times|
    {
      Allow(limit, After(j), times[j]).1
    }

    /** How many of the calls `i..j` were admitted. */
    function Passed(i: nat, j: nat): nat
      requires i <= j <= |times|
      decreases j
    {
      if i == j then 0 else Passed(i, j - 1) + if Admitted(j - 1) then 1 else 0
    }

    /** What the limit grants to events between calls `i` and `j`: the burst, and
        the rate times the time between them. */
    function Allowance(i: nat, j: nat): real
      requires i < |times| && j < |times|
    {
      limit.capacity + limit.refill * (times[j] - times[i])
    }

    /** What window `i..j` still leaves of its allowance before call `j`. */
    function Slack(i: nat, j: nat): real
      requires i <= j < |times|
    {
      Allowance(i, j) - Passed(i, j) as real
    }

    /** What the time since the last call is worth. */
    function Grant(j: nat): real
      requires 0 < j < |times|
    {
      limit.Worth(times[j] - times[j - 1])
    }

    /** What both the level and each window's slack change by before call `j`. */
    function Shift(j: nat): real
      requires 0 < j < |times|
    {
      Grant(j) - if Admitted(j - 1) then 1.0 else 0.0
    }

    predicate WithinLimit(i: nat, j: nat)
      requires i <= j < |times|
    {
      (j - i + 1) as real <= Allowance(i, j)
    }
  }

  /** Time only ever adds, and adds the same taken at once or in two parts. */
  lemma WorthAddsUp(l: Limit, a: real, b: real, c: real)
    requires Positive(l) && a <= b <= c
    ensures l.Worth(c - a) == l.Worth(b - a) + l.Worth(c - b)
    ensures l.Worth(c - b) >= 0.0
  {
  }

  lemma AllowanceGrows(s: Stream, i: nat, j: nat)
    requires s.Valid() && i < j < |s.times|
    ensures s.Allowance(i, j) == s.Allowance(i, j - 1) + s.Grant(j)
    ensures s.Allowance(i, j - 1) <= s.Allowance(i, j)
  {
    AllowanceIs(s, i, j);
    AllowanceIs(s, i, j - 1);
    hide Limit.Worth, Stream.Allowance;
    WorthAddsUp(s.limit, s.times[i], s.times[j - 1], s.times[j]);
  }

  lemma AllowanceIs(s: Stream, i: nat, j: nat)
    requires i < |s.times| && j < |s.times|
    ensures s.Allowance(i, j) == s.limit.capacity + s.limit.Worth(s.times[j] - s.times[i])
  {
  }

  lemma {:induction false} LastIsThePreviousCall(s: Stream, j: nat)
    requires s.Valid() && 0 < j <= |s.times|
    ensures s.After(j).last == s.times[j - 1]
    ensures s.After(j).tokens == s.Level(j - 1) - if s.Admitted(j - 1) then 1.0 else 0.0
  {
    hide Limit.Worth;
  }

  /** From one call to the next the level changes as every slack does, except
      that it stops at the bucket's capacity. */
  lemma LevelStep(s: Stream, j: nat)
    requires s.Valid() && 0 < j < |s.times|
    ensures s.Level(j) == Min(s.Level(j - 1) + s.Shift(j), s.limit.capacity)
  {
    hide *;
    LastIsThePreviousCall(s, j);
    RefilledAtCall(s, j);
    ShiftIs(s, j);
    assert s.Level(j - 1) + s.Shift(j) == s.After(j).tokens + s.Grant(j);
  }

  lemma RefilledAtCall(s: Stream, j: nat)
    requires s.Valid() && 0 < j < |s.times| && s.After(j).last == s.times[j - 1]
    ensures s.Level(j) == Min(s.After(j).tokens + s.Grant(j), s.limit.capacity)
  {
    hide Limit.Worth;
    assert s.times[j - 1] <= s.times[j];
    hide Stream.After, Refilled, Stream.Valid;
    RefillFrom(s.limit, s.After(j), s.times[j - 1], s.times[j]);
  }

  lemma ShiftIs(s: Stream, j: nat)
    requires 0 < j < |s.times|
    ensures s.Shift(j) == s.Grant(j) - if s.Admitted(j - 1) then 1.0 else 0.0
  {
    hide Limit.Worth;
  }

  lemma RefillFrom(l: Limit, b: Bucket, last: real, now: real)
    requires b.last == last <= now
    ensures Refilled(l, b, now) == Min(b.tokens + l.Worth(now - last), l.capacity)
  {
    hide Limit.Worth;
  }

  lemma SlackStep(s: Stream, i: nat, j: nat)
    requires s.Valid() && i < j < |s.times|
    ensures s.Slack(i, j) == s.Slack(i, j - 1) + s.Shift(j)
  {
    hide Limit.Worth;
    AllowanceGrows(s, i, j);
  }

  lemma WindowOfOne(s: Stream, j: nat)
    requires j < |s.times|
    ensures s.Slack(j, j) == s.limit.capacity
  {
  }

  /** A level is the tightest slack of all windows ending at call `j`. */
  ghost predicate Tightest(s: Stream, j: nat, level: real)
    requires j < |s.times|
  {
    && (forall i: nat | i <= j :: level <= s.Slack(i, j))
    && (exists i: nat :: i <= j && level == s.Slack(i, j))
  }

  lemma TightestCarries(s: Stream, j: nat, level: real)
    requires s.Valid() && 0 < j < |s.times| && Tightest(s, j - 1, level)
    ensures Tightest(s, j, Min(level + s.Shift(j), s.limit.capacity))
  {
    hide Limit.Worth;
    var next := Min(level + s.Shift(j), s.limit.capacity);
    WindowOfOne(s, j);
    var k: nat :| k <= j - 1 && level == s.Slack(k, j - 1);
    SlackStep(s, k, j);
    assert next == s.Slack(k, j) || next == s.Slack(j, j);
    forall i: nat | i <= j ensures next <= s.Slack(i, j) {
      if i < j {
        SlackStep(s, i, j);
      }
    }
  }

  /** What is in the bucket is the tightest slack of all windows ending here. */
  lemma {:induction false} LevelIsTightestSlack(s: Stream, j: nat)
    requires s.Valid() && j < |s.times|
    ensures Tightest(s, j, s.Level(j))
  {
    hide Limit.Worth;
    if j == 0 {
      WindowOfOne(s, 0);
      WorthAddsUp(s.limit, s.start, s.start, s.times[0]);
    } else {
      LevelIsTightestSlack(s, j - 1);
      LevelStep(s, j);
      TightestCarries(s, j, s.Level(j - 1));
    }
  }

  /** Each event is let through exactly when that keeps every window ending with
      it within its allowance: never one too many, and never one too few. */
  lemma AdmitsExactly(s: Stream, j: nat)
    requires s.Valid() && j < |s.times|
    ensures s.Admitted(j) <==> forall i: nat | i <= j :: s.Passed(i, j) as real + 1.0 <= s.Allowance(i, j)
  {
    hide Limit.Worth;
    LevelIsTightestSlack(s, j);
    if s.Admitted(j) {
      forall i: nat | i <= j ensures s.Passed(i, j) as real + 1.0 <= s.Allowance(i, j) {
        assert s.Level(j) <= s.Slack(i, j);
      }
    } else {
      var i: nat :| i <= j && s.Level(j) == s.Slack(i, j);
      assert !(s.Passed(i, j) as real + 1.0 <= s.Allowance(i, j));
    }
  }

  /** No window of calls, wherever it starts and ends, admits more than the burst
      plus the rate times its length. */
  lemma {:induction false} EveryWindowIsLimited(s: Stream, i: nat, j: nat)
    requires s.Valid() && i <= j < |s.times|
    ensures s.Passed(i, j + 1) as real <= s.Allowance(i, j)
    decreases j
  {
    hide Limit.Worth;
    if s.Admitted(j) {
      AdmitsExactly(s, j);
      assert s.Passed(i, j) as real + 1.0 <= s.Allowance(i, j);
    } else if i < j {
      EveryWindowIsLimited(s, i, j - 1);
      AllowanceGrows(s, i, j);
    } else {
      WindowOfOne(s, j);
    }
  }

  /** A stream passes without a drop exactly when each of its windows, counted
      whole, is within the limit. */
  lemma PassesUndroppedIff(s: Stream)
    requires s.Valid()
    ensures (forall j: nat | j < |s.times| :: s.Admitted(j)) <==>
            (forall i: nat, j: nat | i <= j < |s.times| :: s.WithinLimit(i, j))
  {
    hide Limit.Worth;
    if forall j: nat | j < |s.times| :: s.Admitted(j) {
      forall i: nat, j: nat | i <= j < |s.times| ensures s.WithinLimit(i, j) {
        AllPassed(s, i, j);
        AdmitsExactly(s, j);
      }
    }
    if forall i: nat, j: nat | i <= j < |s.times| :: s.WithinLimit(i, j) {
      forall j: nat | j < |s.times| ensures s.Admitted(j) {
        AdmitsExactly(s, j);
        forall i: nat | i <= j ensures s.Passed(i, j) as real + 1.0 <= s.Allowance(i, j) {
          AtMostAll(s, i, j);
          assert s.WithinLimit(i, j);
        }
      }
    }
  }

  lemma {:induction false} AtMostAll(s: Stream, i: nat, j: nat)
    requires i <= j <= |s.times|
    ensures s.Passed(i, j) <= j - i
    decreases j
  {
    if i == j {
    } else {
      AtMostAll(s, i, j - 1);
    }
  }

  lemma {:induction false} AllPassed(s: Stream, i: nat, j: nat)
    requires i <= j <= |s.times| && forall k: nat | k < |s.times| :: s.Admitted(k)
    ensures s.Passed(i, j) == j - i
    decreases j
  {
    if i == j {
    } else {
      AllPassed(s, i, j - 1);
    }
  }
}
