/**
 * The fixed-window attempt limiter of the server (internal/server/server.go): buckets per key, swept
 * lazily once there are many. Times are instants of a clock that never runs backwards.
 */
module RateLimiter {
  datatype Bucket = Bucket(started: int, count: int)

  type Buckets = map<string, Bucket>

  const SWEEP_ABOVE: nat := 4096

  predicate Expired(b: Bucket, window: int, now: int) {
    now - b.started >= window
  }

  function Swept(m: Buckets, window: int, now: int): Buckets {
    if |m| > SWEEP_ABOVE then map k | k in m && !Expired(m[k], window, now) :: m[k] else m
  }

  /** The bucket an attempt is judged by: the stored one while its window lasts, else an empty new one. */
  function Current(m: Buckets, key: string, window: int, now: int): Bucket {
    if key in m && !Expired(m[key], window, now) then m[key] else Bucket(now, 0)
  }

  predicate Allows(m: Buckets, key: string, maximum: int, window: int, now: int) {
    Current(m, key, window, now).count < maximum
  }

  /** The attempt itself, without the sweep. */
  function Counted(m: Buckets, key: string, maximum: int, window: int, now: int): Buckets {
    var b := Current(m, key, window, now);
    if b.count < maximum then m[key := Bucket(b.started, b.count + 1)] else m
  }

  function Attempted(m: Buckets, key: string, maximum: int, window: int, now: int): Buckets {
    Counted(Swept(m, window, now), key, maximum, window, now)
  }

  class Limiter {
    var limits: Buckets

    constructor ()
      ensures limits == map[]
    {
      limits := map[];
    }

    method Sweep(window: int, now: int)
      modifies this
      ensures limits == map k | k in old(limits) && !Expired(old(limits)[k], window, now) :: old(limits)[k]
    {
      var unseen := limits.Keys;
      while unseen != {}
        invariant unseen <= old(limits).Keys
        invariant forall k :: k in limits <==>
                    k in old(limits) && (k in unseen || !Expired(old(limits)[k], window, now))
        invariant forall k :: k in limits ==> limits[k] == old(limits)[k]
        decreases unseen
      {
        var k :| k in unseen;
        if Expired(limits[k], window, now) {
          limits := limits - {k};
        }
        unseen := unseen - {k};
      }
    }

    method AllowAttempt(key: string, maximum: int, window: int, now: int) returns (allowed: bool)
      modifies this
      ensures limits == Attempted(old(limits), key, maximum, window, now)
      ensures allowed == Allows(Swept(old(limits), window, now), key, maximum, window, now)
    {
      if |limits| > SWEEP_ABOVE {
        Sweep(window, now);
      }
      var b := if key in limits then limits[key] else Bucket(now, 0);
      if Expired(b, window, now) {
        b := Bucket(now, 0);
      }
      if b.count >= maximum {
        return false;
      }
      b := b.(count := b.count + 1);
      limits := limits[key := b];
      return true;
    }

    method ClearAttempts(key: string)
      modifies this
      ensures limits == old(limits) - {key}
    {
      limits := limits - {key};
    }
  }

  // ----- traces -----

  /** What happens to the table under its lock, in that order; `at` is the clock reading of an attempt. */
  datatype Event = Attempt(key: string, maximum: int, at: int) | Clear(key: string)

  /** The largest reading so far. */
  function Latest(hi: int, e: Event): int {
    if e.Attempt? && e.at > hi then e.at else hi
  }

  function LatestOf(hi: int, es: seq<Event>): int
    decreases |es|
  {
    if es == [] then hi else LatestOf(Latest(hi, es[0]), es[1..])
  }

  /**
   * The clock is read before the lock is taken, so readings may come out of order: each is at most `lag`
   * behind the largest one before it. With `lag == 0` they are in order.
   */
  predicate Lagged(es: seq<Event>, hi: int, lag: int)
    decreases |es|
  {
    es == [] || ((es[0].Attempt? ==> hi - lag <= es[0].at) && Lagged(es[1..], Latest(hi, es[0]), lag))
  }

  /** One event; `lazy` says whether the limiter sweeps. */
  function Step(m: Buckets, window: int, lazy: bool, e: Event): Buckets {
    match e
    case Attempt(key, maximum, at) =>
      if lazy then Attempted(m, key, maximum, window, at) else Counted(m, key, maximum, window, at)
    case Clear(key) => m - {key}
  }

  /** The answer of an attempt, as the limiter that sweeps or never sweeps gives it. */
  predicate Answer(m: Buckets, window: int, lazy: bool, e: Event)
    requires e.Attempt?
  {
    Allows(if lazy then Swept(m, window, e.at) else m, e.key, e.maximum, window, e.at)
  }

  function Answers(m: Buckets, window: int, lazy: bool, es: seq<Event>): seq<bool>
    decreases |es|
  {
    if es == [] then []
    else (if es[0].Attempt? then [Answer(m, window, lazy, es[0])] else [])
         + Answers(Step(m, window, lazy, es[0]), window, lazy, es[1..])
  }

  function Run(m: Buckets, window: int, lazy: bool, es: seq<Event>): Buckets
    decreases |es|
  {
    if es == [] then m else Run(Step(m, window, lazy, es[0]), window, lazy, es[1..])
  }

  // ----- when the sweep is invisible -----

  /** `a` is `b` without some buckets whose window is over. */
  ghost predicate Thinner(a: Buckets, b: Buckets, window: int, now: int) {
    && (forall k :: k in a ==> k in b && a[k] == b[k])
    && (forall k :: k in b && k !in a ==> Expired(b[k], window, now))
  }

  lemma StepStaysThinner(a: Buckets, b: Buckets, window: int, now: int, e: Event)
    requires Thinner(a, b, window, now) && (e.Attempt? ==> now <= e.at)
    ensures Thinner(Step(a, window, true, e), Step(b, window, false, e), window, Latest(now, e))
    ensures e.Attempt? ==> Answer(a, window, true, e) == Answer(b, window, false, e)
  {
    if e.Attempt? {
      var a' := Swept(a, window, e.at);
      assert Thinner(a', b, window, e.at);
      assert Current(a', e.key, window, e.at) == Current(b, e.key, window, e.at);
    }
  }

  lemma {:induction false} ThinnerAnswersAlike(a: Buckets, b: Buckets, window: int, now: int, es: seq<Event>)
    requires Thinner(a, b, window, now) && Lagged(es, now, 0)
    ensures Answers(a, window, true, es) == Answers(b, window, false, es)
    decreases |es|
  {
    if es != [] {
      StepStaysThinner(a, b, window, now, es[0]);
      ThinnerAnswersAlike(Step(a, window, true, es[0]), Step(b, window, false, es[0]), window,
                          Latest(now, es[0]), es[1..]);
    }
  }

  /** As long as all callers use one window and readings are in order, the limiter answers as if it never swept. */
  lemma SweepIsInvisible(window: int, now: int, es: seq<Event>)
    requires Lagged(es, now, 0)
    ensures Answers(map[], window, true, es) == Answers(map[], window, false, es)
  {
    ThinnerAnswersAlike(map[], map[], window, now, es);
  }

  /**
   * In general a sweep made with `window` at the reading `swept` changes the answer for a key judged by
   * `other` at the reading `now` if and only if that key is full and its bucket is over for the one and
   * not for the other. With one window that takes a reading from before the sweep's.
   */
  lemma SweepShowsIff(m: Buckets, key: string, maximum: int, window: int, swept: int, other: int, now: int)
    requires |m| > SWEEP_ABOVE && key in m && maximum > 0
    ensures Allows(Swept(m, window, swept), key, maximum, other, now) != Allows(m, key, maximum, other, now)
       <==> m[key].count >= maximum && Expired(m[key], window, swept) && !Expired(m[key], other, now)
  {
  }

  /** A table that never grows beyond 4096 keys. */
  predicate Uncrowded(m: Buckets, window: int, es: seq<Event>)
    decreases |es|
  {
    |m| <= SWEEP_ABOVE && (es == [] || Uncrowded(Step(m, window, true, es[0]), window, es[1..]))
  }

  lemma {:induction false} UncrowdedNeverSweeps(m: Buckets, window: int, es: seq<Event>)
    requires Uncrowded(m, window, es)
    ensures Run(m, window, true, es) == Run(m, window, false, es)
    ensures Answers(m, window, true, es) == Answers(m, window, false, es)
    decreases |es|
  {
    if es != [] {
      UncrowdedNeverSweeps(Step(m, window, true, es[0]), window, es[1..]);
    }
  }
}
