/**
 * How many attempts on a key the limiter lets through in an interval as long as its window, depending on
 * how far clock readings may come out of order and on whether sweeps happen.
 */
module LimiterBound {
  import opened RateLimiter

  /** A key with its maximum and window, how far readings lag, and the interval [from, from + window). */
  datatype Scope = Scope(key: string, maximum: int, window: int, lag: int, from: int)

  predicate Inside(c: Scope, at: int) {
    c.from <= at < c.from + c.window
  }

  /** Every attempt on the key uses the one maximum. */
  predicate OneMaximum(c: Scope, es: seq<Event>) {
    forall e :: e in es && e.Attempt? && e.key == c.key ==> e.maximum == c.maximum
  }

  predicate NoClear(c: Scope, es: seq<Event>) {
    forall e :: e in es && e.Clear? ==> e.key != c.key
  }

  /** The event is an attempt on the key that is allowed at a reading inside the interval. */
  predicate Counts(c: Scope, m: Buckets, lazy: bool, e: Event) {
    e.Attempt? && e.key == c.key && Inside(c, e.at) && Answer(m, c.window, lazy, e)
  }

  function AllowedIn(c: Scope, m: Buckets, lazy: bool, es: seq<Event>): nat
    decreases |es|
  {
    if es == [] then 0
    else (if Counts(c, m, lazy, es[0]) then 1 else 0) + AllowedIn(c, Step(m, c.window, lazy, es[0]), lazy, es[1..])
  }

  /** A stored bucket of the key was opened by an attempt and is not overfull. */
  predicate BucketOk(c: Scope, m: Buckets, hi: int) {
    c.key in m ==> 1 <= m[c.key].count <= c.maximum && m[c.key].started <= hi
  }

  // ----- budgets -----

  /** The bucket opened at `s` can be in use inside the interval. */
  predicate Reaches(c: Scope, s: int) {
    c.from - c.window < s < c.from + c.window + c.lag
  }

  /** The most a bucket opened at `s` lets through inside: all but its first attempt, which comes at `s`. */
  function Worth(c: Scope, s: int): int {
    if Inside(c, s) then c.maximum else if Reaches(c, s) then c.maximum - 1 else 0
  }

  /** What a stored bucket can still let through inside. */
  function Left(c: Scope, b: Bucket): int {
    if Reaches(c, b.started) then c.maximum - b.count else 0
  }

  ghost predicate Falls(f: int -> int, p: int, q: int) {
    p <= q ==> f(q) <= f(p)
  }

  ghost predicate Pays(c: Scope, f: int -> int, spacing: int, s: int) {
    Worth(c, s) + f(s + spacing) <= f(s)
  }

  /**
   * `f(p)` suffices for all buckets opened at `p` or later, when each comes at least `spacing` after the
   * one before it.
   */
  ghost predicate Budget(c: Scope, f: int -> int, spacing: int) {
    && (forall p, q :: Falls(f, p, q))
    && (forall s :: Pays(c, f, spacing, s))
    && (forall p :: f(p) >= 0)
  }

  predicate Sensible(c: Scope, lazy: bool, spacing: int) {
    && c.window > 0 && c.lag >= 0 && c.maximum >= 1
    && spacing <= c.window && (lazy ==> spacing <= c.window - c.lag)
  }

  /** What the limiter can still let through inside after readings up to `hi`. */
  function Room(c: Scope, f: int -> int, spacing: int, m: Buckets, hi: int): int {
    if c.key in m then Left(c, m[c.key]) + f(m[c.key].started + spacing) else f(hi - c.lag)
  }

  /** An attempt on another key leaves the bucket, or sweeps it away once its window is over. */
  lemma OthersLeaveRoom(c: Scope, f: int -> int, spacing: int, m: Buckets, hi: int, lazy: bool, e: Event)
    requires Budget(c, f, spacing) && Sensible(c, lazy, spacing) && BucketOk(c, m, hi) && e.key != c.key
    ensures BucketOk(c, Step(m, c.window, lazy, e), Latest(hi, e))
    ensures Room(c, f, spacing, Step(m, c.window, lazy, e), Latest(hi, e)) <= Room(c, f, spacing, m, hi)
  {
    var hi' := Latest(hi, e);
    assert Falls(f, hi - c.lag, hi' - c.lag);
    if c.key in m {
      assert Falls(f, m[c.key].started + spacing, hi' - c.lag);
    }
  }

  /** An attempt judged by a new bucket. */
  lemma OpeningUsesRoom(c: Scope, f: int -> int, spacing: int, m: Buckets, hi: int, lazy: bool, at: int)
    requires Budget(c, f, spacing) && Sensible(c, lazy, spacing) && BucketOk(c, m, hi) && hi - c.lag <= at
    requires c.key !in m || Expired(m[c.key], c.window, at)
    ensures var e := Attempt(c.key, c.maximum, at);
            var t := Step(m, c.window, lazy, e);
            && t[c.key] == Bucket(at, 1)
            && (if Counts(c, m, lazy, e) then 1 else 0) + Room(c, f, spacing, t, Latest(hi, e))
               <= Room(c, f, spacing, m, hi)
  {
    assert Pays(c, f, spacing, at);
    assert Falls(f, hi - c.lag, at);
    if c.key in m {
      assert Falls(f, m[c.key].started + spacing, at);
    }
  }

  lemma OwnUsesRoom(c: Scope, f: int -> int, spacing: int, m: Buckets, hi: int, lazy: bool, at: int)
    requires Budget(c, f, spacing) && Sensible(c, lazy, spacing) && BucketOk(c, m, hi) && hi - c.lag <= at
    ensures var e := Attempt(c.key, c.maximum, at);
            var t := Step(m, c.window, lazy, e);
            && BucketOk(c, t, Latest(hi, e))
            && (if Counts(c, m, lazy, e) then 1 else 0) + Room(c, f, spacing, t, Latest(hi, e))
               <= Room(c, f, spacing, m, hi)
  {
    if c.key !in m || Expired(m[c.key], c.window, at) {
      OpeningUsesRoom(c, f, spacing, m, hi, lazy, at);
    }
  }

  lemma {:induction false} RoomBounds(c: Scope, f: int -> int, spacing: int, m: Buckets, hi: int, lazy: bool,
                                      es: seq<Event>)
    requires Budget(c, f, spacing) && Sensible(c, lazy, spacing) && BucketOk(c, m, hi)
    requires Lagged(es, hi, c.lag) && OneMaximum(c, es) && NoClear(c, es)
    ensures AllowedIn(c, m, lazy, es) <= Room(c, f, spacing, m, hi)
    decreases |es|
  {
    if es != [] {
      var e := es[0];
      assert e in es;
      if e.key == c.key {
        OwnUsesRoom(c, f, spacing, m, hi, lazy, e.at);
      } else {
        OthersLeaveRoom(c, f, spacing, m, hi, lazy, e);
      }
      RoomBounds(c, f, spacing, Step(m, c.window, lazy, e), Latest(hi, e), lazy, es[1..]);
    }
  }

  lemma StepKeepsBucketOk(c: Scope, m: Buckets, hi: int, lazy: bool, e: Event)
    requires BucketOk(c, m, hi) && c.maximum >= 1 && c.window > 0
    requires e.Attempt? && e.key == c.key ==> e.maximum == c.maximum
    ensures BucketOk(c, Step(m, c.window, lazy, e), Latest(hi, e))
  {
  }

  lemma {:induction false} RunKeepsBucketOk(c: Scope, m: Buckets, hi: int, lazy: bool, es: seq<Event>)
    requires BucketOk(c, m, hi) && OneMaximum(c, es) && c.maximum >= 1 && c.window > 0
    ensures BucketOk(c, Run(m, c.window, lazy, es), LatestOf(hi, es))
    decreases |es|
  {
    if es != [] {
      assert es[0] in es;
      StepKeepsBucketOk(c, m, hi, lazy, es[0]);
      RunKeepsBucketOk(c, Step(m, c.window, lazy, es[0]), Latest(hi, es[0]), lazy, es[1..]);
    }
  }

  /** A trace of the limiter: anything, then events between two clears of the key. */
  predicate Trace(c: Scope, before: seq<Event>, between: seq<Event>, start: int) {
    && Lagged(before, start, c.lag) && Lagged(between, LatestOf(start, before), c.lag)
    && OneMaximum(c, before) && OneMaximum(c, between) && NoClear(c, between)
  }

  /** A budget that never exceeds `bound` bounds every trace. */
  lemma BudgetBounds(c: Scope, f: int -> int, spacing: int, lazy: bool, before: seq<Event>, between: seq<Event>,
                     start: int, bound: int)
    requires Budget(c, f, spacing) && Sensible(c, lazy, spacing) && Trace(c, before, between, start)
    requires forall p :: f(p) <= bound
    ensures AllowedIn(c, Run(map[], c.window, lazy, before), lazy, between) <= bound
  {
    var m, hi := Run(map[], c.window, lazy, before), LatestOf(start, before);
    RunKeepsBucketOk(c, map[], start, lazy, before);
    RoomBounds(c, f, spacing, m, hi, lazy, between);
    if c.key in m {
      assert Pays(c, f, spacing, m[c.key].started);
    }
  }

  // ----- without sweeps -----

  /** The budget when buckets are a whole window apart. */
  function Spaced(c: Scope, p: int): int {
    var end := c.from + c.window;
    if p >= end + c.lag then 0
    else if p >= end then c.maximum - 1
    else if p >= c.from then (if p < c.from + c.lag then 2 * c.maximum - 1 else c.maximum)
    else if c.lag <= 1 then 2 * c.maximum - 1
    else 3 * c.maximum - 2
  }

  lemma SpacedIsBudget(c: Scope)
    requires c.window > 0 && 0 <= c.lag <= c.window && c.maximum >= 1
    ensures Budget(c, p => Spaced(c, p), c.window)
  {
  }

  /**
   * With readings in order, whatever came before and whatever other keys do meanwhile: between two clears
   * of a key every half-open interval as long as the window lets through at most 2 * maximum - 1.
   */
  lemma WindowBound(c: Scope, before: seq<Event>, between: seq<Event>, start: int)
    requires c.window > 0 && c.maximum >= 1 && c.lag == 0 && Trace(c, before, between, start)
    ensures AllowedIn(c, Run(map[], c.window, true, before), true, between) <= 2 * c.maximum - 1
  {
    SpacedIsBudget(c);
    BudgetBounds(c, p => Spaced(c, p), c.window, true, before, between, start, 2 * c.maximum - 1);
  }

  /** With readings out of order by up to a window, but no sweep, a third bucket can take part. */
  lemma LaggingBound(c: Scope, before: seq<Event>, between: seq<Event>, start: int)
    requires c.window > 0 && c.maximum >= 1 && 0 <= c.lag <= c.window && Trace(c, before, between, start)
    ensures AllowedIn(c, Run(map[], c.window, false, before), false, between)
         <= if c.lag <= 1 then 2 * c.maximum - 1 else 3 * c.maximum - 2
  {
    SpacedIsBudget(c);
    BudgetBounds(c, p => Spaced(c, p), c.window, false, before, between, start,
                 if c.lag <= 1 then 2 * c.maximum - 1 else 3 * c.maximum - 2);
  }

  // ----- with sweeps -----

  /** The budget when a sweep may bring the next bucket forward by the lag, and that is a quarter of a window. */
  function Swept3(c: Scope, p: int): int {
    var end := c.from + c.window;
    if p >= end + c.lag then 0
    else if p >= end then c.maximum - 1
    else if p >= c.from + 2 * c.lag then c.maximum
    else if p >= c.from + c.lag then 2 * c.maximum - 1
    else if p > c.from - c.lag then 2 * c.maximum
    else 3 * c.maximum - 1
  }

  lemma Swept3IsBudget(c: Scope)
    requires c.maximum >= 1 && 1 <= c.lag && 4 * c.lag <= c.window + 1
    ensures Budget(c, p => Swept3(c, p), c.window - c.lag)
  {
  }

  /** With readings out of order by up to about a quarter of the window, sweeps included. */
  lemma SweepingBound(c: Scope, before: seq<Event>, between: seq<Event>, start: int)
    requires c.maximum >= 1 && 1 <= c.lag && 4 * c.lag <= c.window + 1 && Trace(c, before, between, start)
    ensures AllowedIn(c, Run(map[], c.window, true, before), true, between) <= 3 * c.maximum - 1
  {
    Swept3IsBudget(c);
    BudgetBounds(c, p => Swept3(c, p), c.window - c.lag, true, before, between, start, 3 * c.maximum - 1);
  }

  /** How many points at least `d` apart fit a stretch of `length`. */
  function Points(length: int, d: int): nat
    requires d > 0
    decreases if length > 0 then length else 0
  {
    if length <= 0 then 0 else 1 + Points(length - d, d)
  }

  lemma {:induction false} PointsGrow(a: int, b: int, d: int)
    requires d > 0 && a <= b
    ensures Points(a, d) <= Points(b, d)
    decreases if b > 0 then b else 0
  {
    if a > 0 {
      PointsGrow(a - d, b - d, d);
    }
  }

  /** The budget for any lag: a full bucket at every point the next one can be brought forward to. */
  function Greedy(c: Scope, p: int): int {
    if c.lag >= c.window then 0 else c.maximum * Points(Stretch(c, p), c.window - c.lag)
  }

  /** Where buckets opened at `p` or later can still take part. */
  function Stretch(c: Scope, p: int): int {
    c.from + c.window + c.lag - if p <= c.from - c.window then c.from - c.window + 1 else p
  }

  lemma Times(k: int, a: nat, b: nat)
    requires k >= 0 && a <= b
    ensures 0 <= k * a <= k * b
  {
    assert k * (b - a) >= 0;
  }

  lemma GreedyFalls(c: Scope, p: int, q: int)
    requires c.maximum >= 1 && 0 <= c.lag < c.window && p <= q
    ensures 0 <= Greedy(c, q) <= Greedy(c, p)
  {
    var d := c.window - c.lag;
    PointsGrow(Stretch(c, q), Stretch(c, p), d);
    Times(c.maximum, Points(Stretch(c, q), d), Points(Stretch(c, p), d));
  }

  lemma GreedyPays(c: Scope, s: int)
    requires c.maximum >= 1 && 0 <= c.lag < c.window
    ensures Worth(c, s) + Greedy(c, s + (c.window - c.lag)) <= Greedy(c, s)
  {
    var d := c.window - c.lag;
    if Reaches(c, s) {
      var rest := Points(Stretch(c, s + d), d);
      assert Points(Stretch(c, s), d) == 1 + rest;
      assert c.maximum * (1 + rest) == c.maximum + c.maximum * rest;
    } else {
      GreedyFalls(c, s, s + d);
    }
  }

  lemma GreedyIsBudget(c: Scope)
    requires c.maximum >= 1 && 0 <= c.lag < c.window
    ensures Budget(c, p => Greedy(c, p), c.window - c.lag)
  {
    var f, d := (p: int) => Greedy(c, p), c.window - c.lag;
    forall p, q ensures Falls(f, p, q) {
      if p <= q { GreedyFalls(c, p, q); }
    }
    forall s ensures Pays(c, f, d, s) {
      GreedyPays(c, s);
    }
    forall p ensures f(p) >= 0 {
      GreedyFalls(c, p, p);
    }
  }

  /** For every lag below the window there is a bound, sweeps included. */
  lemma AnyLagBound(c: Scope, before: seq<Event>, between: seq<Event>, start: int)
    requires c.maximum >= 1 && 0 <= c.lag < c.window && Trace(c, before, between, start)
    ensures AllowedIn(c, Run(map[], c.window, true, before), true, between)
         <= c.maximum * Points(2 * c.window + c.lag - 1, c.window - c.lag)
  {
    var f, first := (p: int) => Greedy(c, p), c.from - c.window;
    GreedyIsBudget(c);
    forall p ensures f(p) <= f(first) {
      if p >= first { GreedyFalls(c, first, p); }
    }
    BudgetBounds(c, f, c.window - c.lag, true, before, between, start, f(first));
  }
}
