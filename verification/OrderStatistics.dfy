/**
 * The browser's summary of probe times (web/src/test-engine.ts): median, jitter and the latency loop,
 * over exact reals.
 */
module OrderStatistics {
  import opened Wrappers

  // ----- sorting -----

  predicate Ascending(s: seq<real>) {
    forall i, j :: 0 <= i <= j < |s| ==> s[i] <= s[j]
  }

  function Inserted(x: real, s: seq<real>): (r: seq<real>)
    ensures |r| == |s| + 1
  {
    if s == [] || x <= s[0] then [x] + s else [s[0]] + Inserted(x, s[1..])
  }

  function Sorted(s: seq<real>): (r: seq<real>)
    ensures |r| == |s|
  {
    if s == [] then [] else Inserted(s[0], Sorted(s[1..]))
  }

  lemma {:induction false} InsertedElements(x: real, s: seq<real>)
    ensures multiset(Inserted(x, s)) == multiset(s) + multiset{x}
    ensures forall e :: e in Inserted(x, s) ==> e == x || e in s
    decreases |s|
  {
    if s == [] || x <= s[0] {
      assert Inserted(x, s) == [x] + s;
    } else {
      var rest := Inserted(x, s[1..]);
      InsertedElements(x, s[1..]);
      assert s == [s[0]] + s[1..];
      assert multiset(Inserted(x, s)) == multiset{s[0]} + multiset(rest);
      assert forall e :: e in s[1..] ==> e in s;
    }
  }

  lemma {:induction false} InsertedAscends(x: real, s: seq<real>)
    requires Ascending(s)
    ensures Ascending(Inserted(x, s))
    decreases |s|
  {
    if s != [] && x > s[0] {
      var rest := Inserted(x, s[1..]);
      InsertedAscends(x, s[1..]);
      InsertedElements(x, s[1..]);
      assert forall e :: e in rest ==> s[0] <= e;
      assert forall i :: 0 <= i < |rest| ==> rest[i] in rest;
    }
  }

  lemma {:induction false} SortedIsSorted(s: seq<real>)
    ensures Ascending(Sorted(s)) && multiset(Sorted(s)) == multiset(s)
    ensures forall e :: e in Sorted(s) ==> e in s
    decreases |s|
  {
    if s != [] {
      SortedIsSorted(s[1..]);
      InsertedAscends(s[0], Sorted(s[1..]));
      InsertedElements(s[0], Sorted(s[1..]));
      assert s == [s[0]] + s[1..];
    }
  }

  lemma SameHead(a: seq<real>, b: seq<real>)
    requires Ascending(a) && Ascending(b) && multiset(a) == multiset(b) && a != [] && b != []
    ensures a[0] == b[0]
  {
    assert a[0] in multiset(b);
    assert b[0] in multiset(a);
  }

  lemma WithoutHead(a: seq<real>)
    requires a != []
    ensures multiset(a[1..]) == multiset(a) - multiset{a[0]}
  {
    assert a == [a[0]] + a[1..];
  }

  lemma {:induction false} AscendingUnique(a: seq<real>, b: seq<real>)
    requires Ascending(a) && Ascending(b) && multiset(a) == multiset(b)
    ensures a == b
    decreases |a|
  {
    assert |a| == |multiset(a)| == |multiset(b)| == |b|;
    if a != [] {
      SameHead(a, b);
      WithoutHead(a);
      WithoutHead(b);
      AscendingUnique(a[1..], b[1..]);
      assert a == [a[0]] + a[1..] && b == [b[0]] + b[1..];
    }
  }

  // ----- median -----

  function Median(values: seq<real>): real {
    if values == [] then 0.0
    else
      var s := Sorted(values);
      var middle := |s| / 2;
      if |s| % 2 == 1 then s[middle] else (s[middle - 1] + s[middle]) / 2.0
  }

  /** How many elements satisfy `p`. */
  function Count(s: seq<real>, p: real -> bool): nat {
    if s == [] then 0 else (if p(s[0]) then 1 else 0) + Count(s[1..], p)
  }

  lemma {:induction false} CountInserted(x: real, s: seq<real>, p: real -> bool)
    ensures Count(Inserted(x, s), p) == Count(s, p) + if p(x) then 1 else 0
    decreases |s|
  {
    if s == [] || x <= s[0] {
      assert ([x] + s)[1..] == s;
    } else {
      CountInserted(x, s[1..], p);
      assert ([s[0]] + Inserted(x, s[1..]))[1..] == Inserted(x, s[1..]);
    }
  }

  lemma {:induction false} CountSorted(s: seq<real>, p: real -> bool)
    ensures Count(Sorted(s), p) == Count(s, p)
    decreases |s|
  {
    if s != [] {
      CountSorted(s[1..], p);
      CountInserted(s[0], Sorted(s[1..]), p);
    }
  }

  lemma {:induction false} CountStretch(s: seq<real>, p: real -> bool, from: nat, to: nat)
    requires from <= to <= |s| && forall i :: from <= i < to ==> p(s[i])
    ensures Count(s, p) >= to - from
    decreases |s|
  {
    if s != [] && to > 0 {
      CountStretch(s[1..], p, if from > 0 then from - 1 else 0, to - 1);
    }
  }

  /** The median does not depend on the order of the samples. */
  lemma MedianOfPermutation(a: seq<real>, b: seq<real>)
    requires multiset(a) == multiset(b)
    ensures Median(a) == Median(b)
  {
    SortedIsSorted(a);
    SortedIsSorted(b);
    AscendingUnique(Sorted(a), Sorted(b));
    assert |a| == |Sorted(a)| == |Sorted(b)| == |b|;
  }

  lemma SortedWithin(s: seq<real>, lo: real, hi: real)
    requires forall x :: x in s ==> lo <= x <= hi
    ensures forall i :: 0 <= i < |s| ==> lo <= Sorted(s)[i] <= hi
  {
    SortedIsSorted(s);
    assert forall i :: 0 <= i < |s| ==> Sorted(s)[i] in Sorted(s);
  }

  /** The median lies between any bounds of the samples, and at least half of them lie on each side of it. */
  lemma {:induction false} MedianIsCentral(s: seq<real>, lo: real, hi: real)
    requires s != [] && forall x :: x in s ==> lo <= x <= hi
    ensures lo <= Median(s) <= hi
    ensures 2 * Count(s, x => x <= Median(s)) >= |s|
    ensures 2 * Count(s, x => x >= Median(s)) >= |s|
  {
    var m, t, middle := Median(s), Sorted(s), |s| / 2;
    SortedWithin(s, lo, hi);
    SortedIsSorted(s);
    var below := x => x <= m;
    var above := x => x >= m;
    CountSorted(s, below);
    CountSorted(s, above);
    CountStretch(t, below, 0, if |s| % 2 == 1 then middle + 1 else middle);
    CountStretch(t, above, middle, |s|);
  }

  // ----- jitter -----

  function Abs(x: real): real {
    if x < 0.0 then -x else x
  }

  /** The absolute differences of neighbouring samples. */
  function Differences(values: seq<real>): seq<real>
    requires values != []
  {
    seq(|values| - 1, i requires 0 <= i < |values| - 1 => Abs(values[i + 1] - values[i]))
  }

  function Jitter(values: seq<real>): real {
    if |values| < 2 then 0.0 else Median(Differences(values))
  }

  /** Jitter is never negative and never more than the spread of the samples. */
  lemma JitterWithinSpread(values: seq<real>, lo: real, hi: real)
    requires lo <= hi && forall x :: x in values ==> lo <= x <= hi
    ensures 0.0 <= Jitter(values) <= hi - lo
  {
    if |values| >= 2 {
      var d := Differences(values);
      forall x | x in d ensures 0.0 <= x <= hi - lo {
        var i :| 0 <= i < |d| && d[i] == x;
        assert values[i] in values && values[i + 1] in values;
      }
      MedianIsCentral(d, 0.0, hi - lo);
    }
  }

  function Shifted(values: seq<real>, offset: real): seq<real> {
    seq(|values|, i requires 0 <= i < |values| => values[i] + offset)
  }

  /** A constant offset of the clock changes no jitter. */
  lemma JitterOfShifted(values: seq<real>, offset: real)
    ensures Jitter(Shifted(values, offset)) == Jitter(values)
  {
    if |values| >= 2 {
      assert Differences(Shifted(values, offset)) == Differences(values);
    }
  }

  // ----- the latency loop -----

  /** What became of one probe; an aborted one ends the measurement. */
  datatype Probe = Answered(ms: real) | Lost | Aborted

  datatype Latency = Latency(ms: real, jitter: real, lossPercent: real)

  datatype Problem = Cancelled | AgentUnavailable

  function Samples(probes: seq<Probe>): seq<real> {
    if probes == [] then []
    else
      var last := probes[|probes| - 1];
      Samples(probes[..|probes| - 1]) + if last.Answered? then [last.ms] else []
  }

  function LossPercent(failures: nat, count: nat): real
    requires count > 0
  {
    failures as real / count as real * 100.0
  }

  lemma PositiveFactor(a: real, b: real)
    requires b > 0.0 && a * b > 0.0
    ensures a > 0.0
  {
  }

  lemma LossBelowHundred(failures: nat, count: nat)
    requires failures < count
    ensures 0.0 <= LossPercent(failures, count) < 100.0
    ensures LossPercent(failures, count) * count as real == 100.0 * failures as real
  {
    var q, n := failures as real / count as real, count as real;
    assert q * n == failures as real;
    PositiveFactor(1.0 - q, n);
  }

  /** The loop over the probes: successes and failures add up, so a reported loss is below 100. */
  method MeasureLatency(probes: seq<Probe>) returns (r: Result<Latency, Problem>)
    ensures r == Err(Cancelled) <==> Aborted in probes
    ensures r == Err(AgentUnavailable) <==> Aborted !in probes && Samples(probes) == []
    ensures r.Ok? ==>
              && r.value.ms == Median(Samples(probes)) && r.value.jitter == Jitter(Samples(probes))
              && |Samples(probes)| <= |probes| && probes != []
              && r.value.lossPercent == LossPercent(|probes| - |Samples(probes)|, |probes|)
              && 0.0 <= r.value.lossPercent < 100.0
  {
    var samples: seq<real> := [];
    var failures := 0;
    for index := 0 to |probes|
      invariant samples == Samples(probes[..index])
      invariant Aborted !in probes[..index]
      invariant |samples| + failures == index && failures >= 0
    {
      assert probes[..index + 1][..index] == probes[..index];
      match probes[index] {
        case Answered(ms) => samples := samples + [ms];
        case Aborted => return Err(Cancelled);
        case Lost => failures := failures + 1;
      }
    }
    assert probes[..|probes|] == probes;
    if samples == [] {
      return Err(AgentUnavailable);
    }
    LossBelowHundred(failures, |probes|);
    return Ok(Latency(Median(samples), Jitter(samples), failures as real / |probes| as real * 100.0));
  }

  // ----- what fixes median, jitter and samples -----

  lemma MedianOfOne(x: real)
    ensures Median([x]) == x
  {
    assert Sorted([x]) == [x];
  }

  /** The median of two samples is their mean. */
  lemma MedianOfTwo(x: real, y: real)
    ensures Median([x, y]) == (x + y) / 2.0
  {
    assert [x, y][1..] == [y] && [y][1..] == [];
    assert Inserted(x, []) == [x] && Sorted([y]) == [y];
    assert Inserted(x, [y]) == if x <= y then [x, y] else [y, x];
  }

  lemma {:induction false} SortedAlready(s: seq<real>)
    requires Ascending(s)
    ensures Sorted(s) == s
  {
    SortedIsSorted(s);
    AscendingUnique(Sorted(s), s);
  }

  /** Leaving out the smallest and the largest of at least three samples changes no median. */
  lemma MedianOfInner(s: seq<real>)
    requires Ascending(s) && |s| >= 3
    ensures Median(s) == Median(s[1..|s| - 1])
  {
    SortedAlready(s);
    SortedAlready(s[1..|s| - 1]);
  }

  lemma {:induction false} SortedConstant(n: nat, d: real)
    ensures Sorted(seq(n, _ => d)) == seq(n, _ => d)
  {
    SortedAlready(seq(n, _ => d));
  }

  /** Jitter is the change from one sample to the next, where that is always the same. */
  lemma JitterOfSteadyChange(values: seq<real>, d: real)
    requires |values| >= 2
    requires forall i :: 0 <= i < |values| - 1 ==> Abs(values[i + 1] - values[i]) == d
    ensures Jitter(values) == d
  {
    assert Differences(values) == seq(|values| - 1, _ => d);
    SortedConstant(|values| - 1, d);
  }

  /** And in general at least half of the changes are no larger, and at least half no smaller. */
  lemma JitterIsCentral(values: seq<real>)
    requires |values| >= 2
    ensures 2 * Count(Differences(values), x => x <= Jitter(values)) >= |values| - 1
    ensures 2 * Count(Differences(values), x => x >= Jitter(values)) >= |values| - 1
  {
    var d := Differences(values);
    SortedIsSorted(d);
    BoundsOf(d);
    var lo, hi := Sorted(d)[0], Sorted(d)[|d| - 1];
    MedianIsCentral(d, lo, hi);
  }

  lemma BoundsOf(d: seq<real>)
    requires d != []
    ensures forall x :: x in d ==> Sorted(d)[0] <= x <= Sorted(d)[|d| - 1]
  {
    SortedIsSorted(d);
    forall x | x in d ensures Sorted(d)[0] <= x <= Sorted(d)[|d| - 1] {
      assert x in multiset(Sorted(d));
    }
  }

  lemma {:induction false} SamplesAppend(a: seq<Probe>, b: seq<Probe>)
    ensures Samples(a + b) == Samples(a) + Samples(b)
    decreases |b|
  {
    if b == [] {
      assert a + b == a;
    } else {
      assert (a + b)[..|a + b| - 1] == a + b[..|b| - 1];
      SamplesAppend(a, b[..|b| - 1]);
    }
  }

  /** An answered probe gives its sample in its place, a lost one none. */
  lemma SamplesAt(before: seq<Probe>, probe: Probe, after: seq<Probe>)
    ensures Samples(before + [probe] + after)
         == Samples(before) + (if probe.Answered? then [probe.ms] else []) + Samples(after)
  {
    SamplesAppend(before + [probe], after);
    SamplesAppend(before, [probe]);
    assert [probe][..0] == [];
  }
}
