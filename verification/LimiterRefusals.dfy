/**
 * The other half of the limiter: with readings in order it refuses an attempt only when as many attempts
 * on the key as the maximum were allowed within the last window.
 */
module LimiterRefusals {
  import opened RateLimiter
  import opened LimiterBound
  import opened LimiterRuns

  function Since(c: Scope, from: int): Scope {
    c.(from := from)
  }

  /** The stored count is backed by as many allowed attempts since the bucket was opened. */
  predicate Backed(c: Scope, es: seq<Event>, m: Buckets, hi: int) {
    c.key in m ==>
      m[c.key].started <= hi && m[c.key].count <= AllowedIn(Since(c, m[c.key].started), map[], true, es)
  }

  /** One more event: the count since `from` grows by one exactly when it is an allowed attempt inside. */
  lemma CountSnoc(c: Scope, es: seq<Event>, e: Event)
    ensures Run(map[], c.window, true, es + [e]) == Step(Run(map[], c.window, true, es), c.window, true, e)
    ensures AllowedIn(c, map[], true, es + [e])
         == AllowedIn(c, map[], true, es)
            + if Counts(c, Run(map[], c.window, true, es), true, e) then 1 else 0
  {
    AllowedInPieces(c, map[], true, es, [e]);
    assert [e][1..] == [];
  }

  lemma StepKeepsBacked(c: Scope, es: seq<Event>, m: Buckets, hi: int, e: Event)
    requires c.window > 0 && m == Run(map[], c.window, true, es) && Backed(c, es, m, hi)
    requires e.Attempt? ==> hi <= e.at && (e.key == c.key ==> e.maximum == c.maximum)
    ensures Backed(c, es + [e], Step(m, c.window, true, e), Latest(hi, e))
  {
    var t := Step(m, c.window, true, e);
    if c.key in t {
      CountSnoc(Since(c, t[c.key].started), es, e);
    }
  }

  lemma {:induction false} RunKeepsBacked(c: Scope, done: seq<Event>, es: seq<Event>, m: Buckets, hi: int)
    requires c.window > 0 && m == Run(map[], c.window, true, done) && Backed(c, done, m, hi)
    requires Lagged(es, hi, 0) && OneMaximum(c, es)
    ensures Backed(c, done + es, Run(m, c.window, true, es), LatestOf(hi, es))
    decreases |es|
  {
    if es == [] {
      assert done + es == done;
    } else {
      assert es[0] in es;
      StepKeepsBacked(c, done, m, hi, es[0]);
      CountSnoc(c, done, es[0]);
      RunKeepsBacked(c, done + [es[0]], es[1..], Step(m, c.window, true, es[0]), Latest(hi, es[0]));
      assert done + [es[0]] + es[1..] == done + es;
    }
  }

  /** Refused at `at` means: some interval of one window that `at` lies in already holds the maximum. */
  lemma RefusedOnlyWhenFull(c: Scope, es: seq<Event>, start: int, at: int)
    requires c.window > 0 && c.maximum >= 1
    requires Lagged(es, start, 0) && LatestOf(start, es) <= at && OneMaximum(c, es)
    requires !Answer(Run(map[], c.window, true, es), c.window, true, Attempt(c.key, c.maximum, at))
    ensures exists from :: at - c.window < from <= at && AllowedIn(Since(c, from), map[], true, es) >= c.maximum
  {
    var m := Run(map[], c.window, true, es);
    RunKeepsBacked(c, [], es, map[], start);
    assert [] + es == es;
    var from := m[c.key].started;
    assert at - c.window < from <= at;
    assert AllowedIn(Since(c, from), map[], true, es) >= c.maximum;
  }

  /** A cleared key starts anew. */
  lemma ClearedIsAllowed(c: Scope, m: Buckets, at: int)
    requires c.maximum >= 1 && c.window > 0
    ensures Answer(Step(m, c.window, true, Clear(c.key)), c.window, true, Attempt(c.key, c.maximum, at))
    ensures forall k :: k != c.key && k in m ==>
              k in Step(m, c.window, true, Clear(c.key)) && Step(m, c.window, true, Clear(c.key))[k] == m[k]
  {
  }
}
