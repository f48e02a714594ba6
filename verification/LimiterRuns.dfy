/**
 * Runs of the limiter that reach its bounds, runs in which a sweep shows, and what follows from them: the
 * exact lag up to which there is a bound at all and up to which the sweep is invisible.
 */
module LimiterRuns {
  import opened RateLimiter
  import opened LimiterBound

  // ----- traces in pieces -----

  lemma {:induction false} AllowedInPieces(c: Scope, m: Buckets, lazy: bool, a: seq<Event>, b: seq<Event>)
    ensures Run(m, c.window, lazy, a + b) == Run(Run(m, c.window, lazy, a), c.window, lazy, b)
    ensures AllowedIn(c, m, lazy, a + b)
         == AllowedIn(c, m, lazy, a) + AllowedIn(c, Run(m, c.window, lazy, a), lazy, b)
    decreases |a|
  {
    if a == [] {
      assert a + b == b;
    } else {
      assert (a + b)[0] == a[0] && (a + b)[1..] == a[1..] + b;
      AllowedInPieces(c, Step(m, c.window, lazy, a[0]), lazy, a[1..], b);
    }
  }

  lemma {:induction false} LaggedInPieces(a: seq<Event>, b: seq<Event>, hi: int, lag: int)
    requires Lagged(a, hi, lag) && Lagged(b, LatestOf(hi, a), lag)
    ensures Lagged(a + b, hi, lag) && LatestOf(hi, a + b) == LatestOf(LatestOf(hi, a), b)
    decreases |a|
  {
    if a == [] {
      assert a + b == b;
    } else {
      assert (a + b)[0] == a[0] && (a + b)[1..] == a[1..] + b;
      LaggedInPieces(a[1..], b, Latest(hi, a[0]), lag);
    }
  }

  /** Attempts only, all with the one maximum, each at most the lag behind. */
  predicate Proper(c: Scope, es: seq<Event>, hi: int) {
    Lagged(es, hi, c.lag) && forall e :: e in es ==> e.Attempt? && e.maximum == c.maximum
  }

  /**
   * A trace that leads from table `m` and latest reading `hi` to `t` and `hi'` and lets `n` attempts on the
   * key through inside.
   */
  predicate Leads(c: Scope, lazy: bool, m: Buckets, hi: int, es: seq<Event>, t: Buckets, hi': int, n: int) {
    && Proper(c, es, hi) && LatestOf(hi, es) == hi'
    && Run(m, c.window, lazy, es) == t && AllowedIn(c, m, lazy, es) == n
  }

  lemma Chain(c: Scope, lazy: bool, m: Buckets, hi: int, a: seq<Event>, t: Buckets, hi': int, n: int,
              b: seq<Event>, t': Buckets, hi'': int, n': int)
    requires Leads(c, lazy, m, hi, a, t, hi', n) && Leads(c, lazy, t, hi', b, t', hi'', n')
    ensures Leads(c, lazy, m, hi, a + b, t', hi'', n + n')
  {
    AllowedInPieces(c, m, lazy, a, b);
    LaggedInPieces(a, b, hi, c.lag);
  }

  function Later(x: int, y: int): int {
    if x < y then y else x
  }

  // ----- repeated attempts on the key -----

  function Repeated(c: Scope, at: int, n: nat): seq<Event> {
    if n == 0 then [] else [Attempt(c.key, c.maximum, at)] + Repeated(c, at, n - 1)
  }

  /** The other keys' buckets that are not over at `at` are as before. */
  ghost predicate OthersStay(c: Scope, m: Buckets, t: Buckets, at: int) {
    forall k :: k in m && k != c.key && !Expired(m[k], c.window, at) ==> k in t && t[k] == m[k]
  }

  lemma OneAttempt(c: Scope, lazy: bool, m: Buckets, hi: int, at: int)
    requires c.window > 0 && hi - c.lag <= at && Current(m, c.key, c.window, at).count < c.maximum
    ensures var e := Attempt(c.key, c.maximum, at);
            var b := Current(m, c.key, c.window, at);
            var t := Step(m, c.window, lazy, e);
            && OthersStay(c, m, t, at) && c.key in t && t[c.key] == Bucket(b.started, b.count + 1)
            && !Expired(t[c.key], c.window, at) && Answer(m, c.window, lazy, e)
  {
  }

  /** `n` attempts at one reading that the bucket has room for. */
  lemma {:induction false} Burst(c: Scope, lazy: bool, m: Buckets, hi: int, at: int, n: nat) returns (t: Buckets)
    requires c.window > 0 && hi - c.lag <= at && c.lag >= 0
    requires Current(m, c.key, c.window, at).count + n <= c.maximum
    ensures Leads(c, lazy, m, hi, Repeated(c, at, n), t, if n == 0 then hi else Later(hi, at),
                  if Inside(c, at) then n else 0)
    ensures OthersStay(c, m, t, at)
    ensures if n == 0 then t == m
            else c.key in t && t[c.key] == var b := Current(m, c.key, c.window, at); Bucket(b.started, b.count + n)
    decreases n
  {
    if n == 0 {
      t := m;
    } else {
      var e := Attempt(c.key, c.maximum, at);
      var next := Step(m, c.window, lazy, e);
      OneAttempt(c, lazy, m, hi, at);
      t := Burst(c, lazy, next, Later(hi, at), at, n - 1);
      assert Repeated(c, at, n)[1..] == Repeated(c, at, n - 1);
    }
  }

  /** A trace from the empty table goes on with a burst. */
  lemma ThenBurst(c: Scope, lazy: bool, start: int, es: seq<Event>, m: Buckets, hi: int, n: int, at: int, k: nat)
    returns (t: Buckets)
    requires Leads(c, lazy, map[], start, es, m, hi, n)
    requires c.window > 0 && hi - c.lag <= at && c.lag >= 0
    requires Current(m, c.key, c.window, at).count + k <= c.maximum
    ensures Leads(c, lazy, map[], start, es + Repeated(c, at, k), t, if k == 0 then hi else Later(hi, at),
                  n + if Inside(c, at) then k else 0)
    ensures OthersStay(c, m, t, at)
    ensures if k == 0 then t == m
            else c.key in t && t[c.key] == var b := Current(m, c.key, c.window, at); Bucket(b.started, b.count + k)
  {
    t := Burst(c, lazy, m, hi, at, k);
    Chain(c, lazy, map[], start, es, m, hi, n, Repeated(c, at, k), t, if k == 0 then hi else Later(hi, at),
          if Inside(c, at) then k else 0);
  }

  // ----- the bounds without sweeps -----

  /** A bucket opened as early as it can still take part, and filled up once the interval begins. */
  function OneBucket(c: Scope): seq<Event>
    requires c.maximum >= 1
  {
    Repeated(c, c.from - c.window + 1, 1) + Repeated(c, c.from, c.maximum - 1)
  }

  /** A full bucket opens right after it. */
  function TwoBuckets(c: Scope): seq<Event>
    requires c.maximum >= 1
  {
    OneBucket(c) + Repeated(c, c.from + 1, c.maximum)
  }

  /** A third bucket, opened after the interval by a reading that runs ahead of the others. */
  function ThreeBuckets(c: Scope): seq<Event>
    requires c.maximum >= 1
  {
    TwoBuckets(c) + Repeated(c, c.from + c.window + 1, 1) + Repeated(c, c.from + c.window - 1, c.maximum - 1)
  }

  /** The reading after `OneBucket`. */
  function Filled(c: Scope): int {
    if c.maximum == 1 then c.from - c.window + 1 else c.from
  }

  lemma OneBucketLeads(c: Scope, lazy: bool) returns (t: Buckets)
    requires c.maximum >= 1 && c.window >= 2 && c.lag >= 0
    ensures Leads(c, lazy, map[], c.from - c.window + 1, OneBucket(c), t, Filled(c), c.maximum - 1)
    ensures c.key in t && t[c.key] == Bucket(c.from - c.window + 1, c.maximum)
  {
    var first := c.from - c.window + 1;
    var a := Burst(c, lazy, map[], first, first, 1);
    t := ThenBurst(c, lazy, first, Repeated(c, first, 1), a, first, 0, c.from, c.maximum - 1);
  }

  lemma TwoBucketsLead(c: Scope, lazy: bool) returns (t: Buckets)
    requires c.maximum >= 1 && c.window >= 2 && c.lag >= 0
    ensures Leads(c, lazy, map[], c.from - c.window + 1, TwoBuckets(c), t, c.from + 1, 2 * c.maximum - 1)
    ensures c.key in t && t[c.key] == Bucket(c.from + 1, c.maximum)
  {
    var a := OneBucketLeads(c, lazy);
    t := ThenBurst(c, lazy, c.from - c.window + 1, OneBucket(c), a, Filled(c), c.maximum - 1, c.from + 1, c.maximum);
  }

  lemma ProperIsTrace(c: Scope, es: seq<Event>, start: int)
    requires Proper(c, es, start)
    ensures Trace(c, [], es, start)
  {
  }

  /** The bound of WindowBound is reached, for every maximum and every window. */
  lemma WindowBoundIsTight(c: Scope)
    requires c.maximum >= 1 && c.window >= 2 && c.lag >= 0
    ensures Trace(c, [], TwoBuckets(c), c.from - c.window + 1)
    ensures AllowedIn(c, map[], true, TwoBuckets(c)) == 2 * c.maximum - 1
  {
    var t := TwoBucketsLead(c, true);
    ProperIsTrace(c, TwoBuckets(c), c.from - c.window + 1);
  }

  /** And that of LaggingBound, with or without sweeps, by readings that are 2 units behind. */
  lemma LaggingBoundIsTight(c: Scope, lazy: bool)
    requires c.maximum >= 1 && c.window >= 2 && c.lag >= 2
    ensures Trace(c, [], ThreeBuckets(c), c.from - c.window + 1)
    ensures AllowedIn(c, map[], lazy, ThreeBuckets(c)) == 3 * c.maximum - 2
  {
    var first, end := c.from - c.window + 1, c.from + c.window;
    var a := TwoBucketsLead(c, lazy);
    var b := ThenBurst(c, lazy, first, TwoBuckets(c), a, c.from + 1, 2 * c.maximum - 1, end + 1, 1);
    var t := ThenBurst(c, lazy, first, TwoBuckets(c) + Repeated(c, end + 1, 1), b, end + 1, 2 * c.maximum - 1,
                       end - 1, c.maximum - 1);
    ProperIsTrace(c, ThreeBuckets(c), first);
  }

  // ----- a crowd of other keys -----

  function Name(c: Scope, i: nat): string {
    c.key + seq(i + 1, _ => 'x')
  }

  /** The first attempt of each of `n` other keys. */
  function Crowd(c: Scope, at: int, n: nat): seq<Event> {
    if n == 0 then [] else Crowd(c, at, n - 1) + [Attempt(Name(c, n - 1), c.maximum, at)]
  }

  /** `n` other keys have buckets opened at `at`. */
  predicate Crowded(c: Scope, m: Buckets, at: int, n: nat) {
    forall i :: 0 <= i < n ==> Name(c, i) in m && m[Name(c, i)].started == at
  }

  lemma NamesDiffer(c: Scope, i: nat, j: nat)
    ensures Name(c, i) != c.key && (i != j ==> Name(c, i) != Name(c, j))
  {
    assert |Name(c, i)| == |c.key| + i + 1 && |Name(c, j)| == |c.key| + j + 1;
  }

  lemma {:induction false} CrowdIsLarge(c: Scope, m: Buckets, at: int, n: nat)
    requires Crowded(c, m, at, n)
    ensures |m| >= n
    decreases n
  {
    if n > 0 {
      var last := Name(c, n - 1);
      forall i | 0 <= i < n - 1 ensures Name(c, i) in m - {last} && m[Name(c, i)].started == at {
        NamesDiffer(c, i, n - 1);
      }
      CrowdIsLarge(c, m - {last}, at, n - 1);
      assert (m - {last}).Keys == m.Keys - {last};
    }
  }

  /** An attempt of one of the others at `at` leaves what is not over at that reading. */
  lemma OtherAttempt(c: Scope, m: Buckets, hi: int, at: int, i: nat)
    requires c.window > 0 && c.maximum >= 1 && hi - c.lag <= at
    ensures var e := Attempt(Name(c, i), c.maximum, at);
            var t := Step(m, c.window, true, e);
            && Leads(c, true, m, hi, [e], t, Later(hi, at), 0)
            && (forall k :: k in m && k != e.key && !Expired(m[k], c.window, at) ==> k in t && t[k] == m[k])
            && e.key in t && t[e.key].started == Current(m, e.key, c.window, at).started
            && (c.key in t ==> c.key in m)
            && (|m| > SWEEP_ABOVE && c.key in m && Expired(m[c.key], c.window, at) ==> c.key !in t)
  {
    NamesDiffer(c, i, i);
    var e := Attempt(Name(c, i), c.maximum, at);
    assert [e][1..] == [];
  }

  /** A crowd arrives; the key's bucket stays unless it is over. */
  lemma {:induction false} CrowdArrives(c: Scope, m: Buckets, hi: int, at: int, n: nat) returns (t: Buckets)
    requires c.window > 0 && c.maximum >= 1 && c.lag >= 0 && hi - c.lag <= at
    requires forall i :: 0 <= i < n ==> Name(c, i) !in m
    ensures Leads(c, true, m, hi, Crowd(c, at, n), t, if n == 0 then hi else Later(hi, at), 0)
    ensures Crowded(c, t, at, n) && (c.key in t ==> c.key in m)
    ensures c.key in m && !Expired(m[c.key], c.window, at) ==> c.key in t && t[c.key] == m[c.key]
    ensures forall i :: n <= i && Name(c, i) !in m ==> Name(c, i) !in t
    decreases n
  {
    if n == 0 {
      t := m;
    } else {
      var front := CrowdArrives(c, m, hi, at, n - 1);
      t := OneMore(c, front, if n == 1 then hi else Later(hi, at), at, n - 1);
      Chain(c, true, m, hi, Crowd(c, at, n - 1), front, if n == 1 then hi else Later(hi, at), 0,
            [Attempt(Name(c, n - 1), c.maximum, at)], t, Later(hi, at), 0);
    }
  }

  lemma OneMore(c: Scope, m: Buckets, hi: int, at: int, n: nat) returns (t: Buckets)
    requires c.window > 0 && c.maximum >= 1 && hi - c.lag <= at && Crowded(c, m, at, n) && Name(c, n) !in m
    ensures Leads(c, true, m, hi, [Attempt(Name(c, n), c.maximum, at)], t, Later(hi, at), 0)
    ensures Crowded(c, t, at, n + 1) && (c.key in t ==> c.key in m)
    ensures c.key in m && !Expired(m[c.key], c.window, at) ==> c.key in t && t[c.key] == m[c.key]
    ensures forall i :: n < i && Name(c, i) !in m ==> Name(c, i) !in t
  {
    OtherAttempt(c, m, hi, at, n);
    t := Step(m, c.window, true, Attempt(Name(c, n), c.maximum, at));
    forall i: nat ensures Name(c, i) != c.key && (i != n ==> Name(c, i) != Name(c, n)) {
      NamesDiffer(c, i, n);
    }
  }

  const MANY: nat := SWEEP_ABOVE + 1

  /** With many keys stored, an attempt of one of them sweeps the key's bucket away once that is over. */
  lemma SweepHappens(c: Scope, m: Buckets, hi: int, at: int, born: int) returns (t: Buckets)
    requires c.window > 0 && c.maximum >= 1 && c.lag >= 0 && hi - c.lag <= at
    requires Crowded(c, m, born, MANY) && c.key in m && Expired(m[c.key], c.window, at)
    ensures Leads(c, true, m, hi, [Attempt(Name(c, 0), c.maximum, at)], t, Later(hi, at), 0)
    ensures c.key !in t
    ensures at - born < c.window ==> Crowded(c, t, born, MANY)
  {
    CrowdIsLarge(c, m, born, MANY);
    OtherAttempt(c, m, hi, at, 0);
    t := Step(m, c.window, true, Attempt(Name(c, 0), c.maximum, at));
    if at - born < c.window {
      forall i | 0 <= i < MANY ensures Name(c, i) in t && t[Name(c, i)].started == born {
        NamesDiffer(c, i, 0);
      }
    }
  }

  lemma CrowdStays(c: Scope, m: Buckets, t: Buckets, at: int, born: int)
    requires Crowded(c, m, born, MANY) && OthersStay(c, m, t, at) && at - born < c.window
    ensures Crowded(c, t, born, MANY)
  {
    forall i | 0 <= i < MANY ensures Name(c, i) in t && t[Name(c, i)].started == born {
      NamesDiffer(c, i, i);
    }
  }

  // ----- the bound with sweeps -----

  /** An attempt of another key. */
  function Other(c: Scope, at: int): seq<Event> {
    [Attempt(Name(c, 0), c.maximum, at)]
  }

  lemma ThenSweep(c: Scope, start: int, es: seq<Event>, m: Buckets, hi: int, n: int, at: int, born: int)
    returns (t: Buckets)
    requires Leads(c, true, map[], start, es, m, hi, n)
    requires c.window > 0 && c.maximum >= 1 && c.lag >= 0 && hi - c.lag <= at
    requires Crowded(c, m, born, MANY) && c.key in m && Expired(m[c.key], c.window, at)
    ensures Leads(c, true, map[], start, es + Other(c, at), t, Later(hi, at), n)
    ensures c.key !in t
    ensures at - born < c.window ==> Crowded(c, t, born, MANY)
  {
    t := SweepHappens(c, m, hi, at, born);
    Chain(c, true, map[], start, es, m, hi, n, Other(c, at), t, Later(hi, at), 0);
  }

  /** A bucket, then a crowd, so that the next sweep shows to readings from before it. */
  function Crowding(c: Scope): seq<Event>
    requires c.maximum >= 1
  {
    OneBucket(c) + Crowd(c, c.from, MANY)
  }

  /** A sweep, and a full bucket opened one unit before the sweep's reading. */
  function OneSweep(c: Scope): seq<Event>
    requires c.maximum >= 1
  {
    Crowding(c) + Other(c, c.from + 1) + Repeated(c, c.from, c.maximum)
  }

  /** And the same at the end of the interval. */
  function TwoSweeps(c: Scope): seq<Event>
    requires c.maximum >= 1
  {
    OneSweep(c) + Other(c, c.from + c.window) + Repeated(c, c.from + c.window - 1, c.maximum)
  }

  lemma {:induction false} OnlyTheKey(c: Scope, m: Buckets, es: seq<Event>)
    requires m.Keys <= {c.key} && forall e :: e in es ==> e.key == c.key
    ensures Run(m, c.window, true, es).Keys <= {c.key}
    decreases |es|
  {
    if es != [] {
      OnlyTheKey(c, Step(m, c.window, true, es[0]), es[1..]);
    }
  }

  lemma {:induction false} RepeatedKey(c: Scope, at: int, n: nat)
    ensures forall e :: e in Repeated(c, at, n) ==> e.key == c.key
    decreases n
  {
    if n > 0 { RepeatedKey(c, at, n - 1); }
  }

  lemma OneBucketStaysAlone(c: Scope)
    requires c.maximum >= 1
    ensures forall i: nat :: Name(c, i) !in Run(map[], c.window, true, OneBucket(c))
  {
    RepeatedKey(c, c.from - c.window + 1, 1);
    RepeatedKey(c, c.from, c.maximum - 1);
    OnlyTheKey(c, map[], OneBucket(c));
    forall i: nat ensures Name(c, i) != c.key {
      NamesDiffer(c, i, i);
    }
  }

  lemma CrowdingLeads(c: Scope) returns (t: Buckets)
    requires c.maximum >= 1 && c.window >= 2 && c.lag >= 0
    ensures Leads(c, true, map[], c.from - c.window + 1, Crowding(c), t, c.from, c.maximum - 1)
    ensures c.key in t && t[c.key].started == c.from - c.window + 1 && Crowded(c, t, c.from, MANY)
  {
    var a := OneBucketLeads(c, true);
    OneBucketStaysAlone(c);
    t := CrowdArrives(c, a, Filled(c), c.from, MANY);
    Chain(c, true, map[], c.from - c.window + 1, OneBucket(c), a, Filled(c), c.maximum - 1,
          Crowd(c, c.from, MANY), t, c.from, 0);
  }

  lemma OneSweepLeads(c: Scope) returns (t: Buckets)
    requires c.maximum >= 1 && c.window >= 2 && c.lag >= 1
    ensures Leads(c, true, map[], c.from - c.window + 1, OneSweep(c), t, c.from + 1, 2 * c.maximum - 1)
    ensures c.key in t && t[c.key].started == c.from && Crowded(c, t, c.from, MANY)
  {
    var first := c.from - c.window + 1;
    var a := CrowdingLeads(c);
    var b := ThenSweep(c, first, Crowding(c), a, c.from, c.maximum - 1, c.from + 1, c.from);
    t := ThenBurst(c, true, first, Crowding(c) + Other(c, c.from + 1), b, c.from + 1, c.maximum - 1,
                   c.from, c.maximum);
    CrowdStays(c, b, t, c.from, c.from);
  }

  /** The bound of SweepingBound is reached by readings that are a single unit behind. */
  lemma SweepingBoundIsTight(c: Scope)
    requires c.maximum >= 1 && c.window >= 2 && c.lag >= 1
    ensures Trace(c, [], TwoSweeps(c), c.from - c.window + 1)
    ensures AllowedIn(c, map[], true, TwoSweeps(c)) == 3 * c.maximum - 1
  {
    var first, end := c.from - c.window + 1, c.from + c.window;
    var a := OneSweepLeads(c);
    var b := ThenSweep(c, first, OneSweep(c), a, c.from + 1, 2 * c.maximum - 1, end, c.from);
    var t := ThenBurst(c, true, first, OneSweep(c) + Other(c, end), b, end, 2 * c.maximum - 1, end - 1, c.maximum);
    ProperIsTrace(c, TwoSweeps(c), first);
  }

  // ----- no bound -----

  /** Readings a whole window behind, each round after a sweep. */
  function Rounds(c: Scope, n: nat): seq<Event>
    requires c.maximum >= 1
  {
    if n == 0 then Crowd(c, c.from + c.window, MANY)
    else Rounds(c, n - 1) + Repeated(c, c.from, c.maximum) + Other(c, c.from + c.window)
  }

  lemma {:induction false} RoundsLead(c: Scope, n: nat) returns (t: Buckets)
    requires c.maximum >= 1 && c.window >= 1 && c.lag >= c.window
    ensures Leads(c, true, map[], c.from + c.window, Rounds(c, n), t, c.from + c.window, n * c.maximum)
    ensures c.key !in t && Crowded(c, t, c.from + c.window, MANY)
    decreases n
  {
    var end := c.from + c.window;
    if n == 0 {
      t := CrowdArrives(c, map[], end, end, MANY);
    } else {
      var a := RoundsLead(c, n - 1);
      var b := ThenBurst(c, true, end, Rounds(c, n - 1), a, end, (n - 1) * c.maximum, c.from, c.maximum);
      CrowdStays(c, a, b, c.from, end);
      assert (n - 1) * c.maximum + c.maximum == n * c.maximum;
      t := ThenSweep(c, end, Rounds(c, n - 1) + Repeated(c, c.from, c.maximum), b, end, n * c.maximum, end, end);
    }
  }

  /** Every trace of the limiter lets at most `bound` attempts through inside. */
  ghost predicate BoundedBy(c: Scope, bound: int) {
    forall before, between, start :: Trace(c, before, between, start) ==>
      AllowedIn(c, Run(map[], c.window, true, before), true, between) <= bound
  }

  /** The limiter has any bound at all if and only if readings lag by less than its window. */
  lemma BoundedIff(c: Scope)
    requires c.maximum >= 1 && c.window >= 1 && c.lag >= 0
    ensures (exists bound: int :: BoundedBy(c, bound)) <==> c.lag < c.window
  {
    if c.lag < c.window {
      var bound := c.maximum * Points(2 * c.window + c.lag - 1, c.window - c.lag);
      forall before, between, start | Trace(c, before, between, start)
        ensures AllowedIn(c, Run(map[], c.window, true, before), true, between) <= bound
      {
        AnyLagBound(c, before, between, start);
      }
      assert BoundedBy(c, bound);
    } else {
      forall bound: int ensures !BoundedBy(c, bound) {
        var n := if bound < 0 then 1 else bound + 1;
        var t := RoundsLead(c, n);
        ProperIsTrace(c, Rounds(c, n), c.from + c.window);
        MoreThan(n, c.maximum);
        assert AllowedIn(c, Run(map[], c.window, true, []), true, Rounds(c, n)) == n * c.maximum;
      }
    }
  }

  lemma MoreThan(n: nat, k: int)
    requires k >= 1
    ensures n * k >= n
  {
    assert n * (k - 1) >= 0;
  }

  // ----- when a sweep shows -----

  /** The answers determine what is allowed inside. */
  lemma {:induction false} SameAnswersSameCount(c: Scope, a: Buckets, b: Buckets, es: seq<Event>)
    requires Answers(a, c.window, true, es) == Answers(b, c.window, false, es)
    ensures AllowedIn(c, a, true, es) == AllowedIn(c, b, false, es)
    decreases |es|
  {
    if es != [] {
      var x, y := Answers(a, c.window, true, es), Answers(b, c.window, false, es);
      var x', y' := Answers(Step(a, c.window, true, es[0]), c.window, true, es[1..]),
                    Answers(Step(b, c.window, false, es[0]), c.window, false, es[1..]);
      if es[0].Attempt? {
        assert x[0] == y[0] && x[1..] == x' && y[1..] == y';
      } else {
        assert x == x' && y == y';
      }
      SameAnswersSameCount(c, Step(a, c.window, true, es[0]), Step(b, c.window, false, es[0]), es[1..]);
    }
  }

  ghost predicate SweepNeverShows(window: int, lag: int) {
    forall es, start :: Lagged(es, start, lag) ==> Answers(map[], window, true, es) == Answers(map[], window, false, es)
  }

  /** The sweep is invisible if and only if readings never come out of order. */
  lemma SweepInvisibleIff(window: int, lag: int)
    requires window >= 2 && lag >= 0
    ensures SweepNeverShows(window, lag) <==> lag == 0
  {
    if lag == 0 {
      forall es, start | Lagged(es, start, lag)
        ensures Answers(map[], window, true, es) == Answers(map[], window, false, es)
      {
        SweepIsInvisible(window, start, es);
      }
    } else {
      SweepShows(OneUnit(window));
      LagGrows(TwoSweeps(OneUnit(window)), 1 - window, 1, lag);
    }
  }

  function OneUnit(window: int): Scope {
    Scope("k", 1, window, 1, 0)
  }

  /** A reading one unit behind is enough for a sweep to show. */
  lemma SweepShows(c: Scope)
    requires c.window >= 2 && c.maximum >= 1 && c.lag == 1
    ensures Lagged(TwoSweeps(c), c.from - c.window + 1, 1)
    ensures Answers(map[], c.window, true, TwoSweeps(c)) != Answers(map[], c.window, false, TwoSweeps(c))
  {
    SweepingBoundIsTight(c);
    AtMostWithoutSweeps(c, TwoSweeps(c), c.from - c.window + 1);
    if Answers(map[], c.window, true, TwoSweeps(c)) == Answers(map[], c.window, false, TwoSweeps(c)) {
      SameAnswersSameCount(c, map[], map[], TwoSweeps(c));
    }
  }

  lemma AtMostWithoutSweeps(c: Scope, es: seq<Event>, start: int)
    requires c.window >= 2 && c.maximum >= 1 && c.lag == 1 && Trace(c, [], es, start)
    ensures AllowedIn(c, map[], false, es) <= 2 * c.maximum - 1
  {
    LaggingBound(c, [], es, start);
  }

  lemma {:induction false} LagGrows(es: seq<Event>, hi: int, lag: int, more: int)
    requires Lagged(es, hi, lag) && lag <= more
    ensures Lagged(es, hi, more)
    decreases |es|
  {
    if es != [] {
      LagGrows(es[1..], Latest(hi, es[0]), lag, more);
    }
  }
}
