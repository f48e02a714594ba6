/**
 * Test admission (internal/server/server.go, createTest): at most five tests in ten minutes, thirty
 * seconds apart, per access session. The handler reads the clock four times, and the calls of one session
 * do not overlap.
 */
module Admission {
  import opened Wrappers

  const WINDOW: int := 600
  const COOLDOWN: int := 30
  const QUOTA: nat := 5
  const LIFETIME: int := 1800

  /** Which of a call's four statements the database executes. */
  datatype Database = Database(session: bool, count: bool, last: bool, insert: bool)

  const WORKING: Database := Database(true, true, true, true)

  /**
   * The clock readings of one call: in getAccess, before the count, before the cooldown test, at the
   * insert. `csrf` is the outcome of the write check.
   */
  datatype Call = Call(access: int, counted: int, cooled: int, stamped: int, csrf: bool, db: Database)

  datatype Outcome = Created | AccessRequired | InvalidCsrf | RateLimited | Cooldown | DatabaseError

  /** SELECT count(*) ... created_at > after. */
  function CountAfter(tests: seq<int>, after: int): nat {
    if tests == [] then 0
    else CountAfter(tests[..|tests| - 1], after) + if tests[|tests| - 1] > after then 1 else 0
  }

  /** SELECT COALESCE(MAX(created_at), 0). */
  function Latest(tests: seq<int>): int {
    if tests == [] then 0
    else if |tests| == 1 then tests[0]
    else Max(Latest(tests[..|tests| - 1]), tests[|tests| - 1])
  }

  /** A failed count or cooldown query goes unnoticed and counts as zero. */
  function Decide(tests: seq<int>, expires: int, c: Call): Outcome {
    if !c.db.session || expires < c.access then AccessRequired
    else if !c.csrf then InvalidCsrf
    else if (if c.db.count then CountAfter(tests, c.counted - WINDOW) else 0) >= QUOTA then RateLimited
    else if (if c.db.last then Latest(tests) else 0) > c.cooled - COOLDOWN then Cooldown
    else if !c.db.insert then DatabaseError
    else Created
  }

  /** The session's tests after the call, by creation time. */
  function After(tests: seq<int>, expires: int, c: Call): seq<int> {
    if Decide(tests, expires, c) == Created then tests + [c.stamped] else tests
  }

  function Run(tests: seq<int>, expires: int, cs: seq<Call>): seq<int>
    decreases |cs|
  {
    if cs == [] then tests else Run(After(tests, expires, cs[0]), expires, cs[1..])
  }

  predicate InOrder(c: Call) {
    c.access <= c.counted <= c.cooled <= c.stamped
  }

  /** The calls do not overlap and the clock does not run backwards, starting from `from`. */
  predicate Sequential(cs: seq<Call>, from: int)
    decreases |cs|
  {
    cs == [] || (from <= cs[0].access && InOrder(cs[0]) && Sequential(cs[1..], cs[0].stamped))
  }

  /** The clock when the last call is over. */
  function LastReading(cs: seq<Call>, from: int): int
    decreases |cs|
  {
    if cs == [] then from else LastReading(cs[1..], cs[0].stamped)
  }

  /** The tests table, by session. */
  class TestRows {
    var created: map<string, seq<int>>

    constructor ()
      ensures created == map[]
    {
      created := map[];
    }

    method CreateTest(session: string, expires: int, c: Call) returns (r: Outcome)
      modifies this
      ensures var tests := if session in old(created) then old(created)[session] else [];
              && r == Decide(tests, expires, c)
              && (if session in created then created[session] else []) == After(tests, expires, c)
      ensures forall s :: s != session ==> (s in created <==> s in old(created))
      ensures forall s :: s != session && s in created ==> created[s] == old(created)[s]
    {
      if !c.db.session || expires < c.access {
        return AccessRequired;
      }
      if !c.csrf {
        return InvalidCsrf;
      }
      var tests := if session in created then created[session] else [];
      var n := 0;
      if c.db.count {
        n := CountAfter(tests, c.counted - WINDOW);
      }
      if n >= QUOTA {
        return RateLimited;
      }
      var last := 0;
      if c.db.last {
        last := Latest(tests);
      }
      if last > c.cooled - COOLDOWN {
        return Cooldown;
      }
      if !c.db.insert {
        return DatabaseError;
      }
      created := created[session := tests + [c.stamped]];
      return Created;
    }
  }

  // ----- what a session's tests keep -----

  predicate Spaced(tests: seq<int>) {
    forall i :: 0 <= i < |tests| - 1 ==> tests[i] + COOLDOWN <= tests[i + 1]
  }

  predicate Sorted(tests: seq<int>) {
    forall i, j :: 0 <= i <= j < |tests| ==> tests[i] <= tests[j]
  }

  predicate Paced(tests: seq<int>) {
    forall i :: 0 <= i < |tests| - QUOTA ==> tests[i] + WINDOW <= tests[i + QUOTA]
  }

  /** A test stamped `at` keeps the pace of the earlier ones. */
  predicate InPace(tests: seq<int>, at: int) {
    && (tests == [] || tests[|tests| - 1] + COOLDOWN <= at)
    && (|tests| < QUOTA || tests[|tests| - QUOTA] + WINDOW <= at)
  }

  /** What holds whatever queries fail. */
  predicate Inv(tests: seq<int>, expires: int, now: int) {
    && Sorted(tests)
    && (forall i :: 0 <= i < |tests| ==> expires - LIFETIME <= tests[i] <= now)
    && (forall i :: 0 <= i < |tests| - 1 ==> tests[i] <= expires)
  }

  lemma {:induction false} LatestIsLast(tests: seq<int>)
    requires Sorted(tests) && tests != []
    ensures Latest(tests) == tests[|tests| - 1]
    decreases |tests|
  {
    if |tests| > 1 {
      LatestIsLast(tests[..|tests| - 1]);
    }
  }

  /** Among sorted times, fewer than `n` lie after a moment exactly when the n-th from the end does not. */
  lemma {:induction false} FewAfterIff(tests: seq<int>, after: int, n: nat)
    requires Sorted(tests) && n >= 1
    ensures CountAfter(tests, after) < n <==> |tests| < n || tests[|tests| - n] <= after
    decreases |tests|
  {
    if tests != [] {
      var front := tests[..|tests| - 1];
      if tests[|tests| - 1] <= after {
        NoneAfter(front, after);
      } else if n > 1 {
        FewAfterIff(front, after, n - 1);
      }
    }
  }

  lemma {:induction false} NoneAfter(tests: seq<int>, after: int)
    requires forall i :: 0 <= i < |tests| ==> tests[i] <= after
    ensures CountAfter(tests, after) == 0
    decreases |tests|
  {
    if tests != [] {
      NoneAfter(tests[..|tests| - 1], after);
    }
  }

  /** When exactly a call creates a test, in terms of the times of the earlier ones. */
  lemma CreatedIff(tests: seq<int>, expires: int, c: Call)
    requires Sorted(tests)
    ensures Decide(tests, expires, c) == Created <==>
              && c.db.session && c.access <= expires && c.csrf
              && (!c.db.count || |tests| < QUOTA || tests[|tests| - QUOTA] + WINDOW <= c.counted)
              && (if tests == [] || !c.db.last then 0 else tests[|tests| - 1]) + COOLDOWN <= c.cooled
              && c.db.insert
  {
    FewAfterIff(tests, c.counted - WINDOW, QUOTA);
    if tests != [] {
      LatestIsLast(tests);
    }
  }

  /** And what exactly each other answer means, in the order in which the reasons are looked at. */
  lemma RefusedIff(tests: seq<int>, expires: int, c: Call)
    requires Sorted(tests)
    ensures var known := c.db.session && c.access <= expires;
            var full := c.db.count && |tests| >= 5 && tests[|tests| - 5] + 600 > c.counted;
            var recent := (if tests == [] || !c.db.last then 0 else tests[|tests| - 1]) + 30 > c.cooled;
            && (Decide(tests, expires, c) == AccessRequired <==> !known)
            && (Decide(tests, expires, c) == InvalidCsrf <==> known && !c.csrf)
            && (Decide(tests, expires, c) == RateLimited <==> known && c.csrf && full)
            && (Decide(tests, expires, c) == Cooldown <==> known && c.csrf && !full && recent)
            && (Decide(tests, expires, c) == DatabaseError
                <==> known && c.csrf && !full && !recent && !c.db.insert)
  {
    FewAfterIff(tests, c.counted - WINDOW, QUOTA);
    if tests != [] {
      LatestIsLast(tests);
    }
  }

  lemma CallKeepsInv(tests: seq<int>, expires: int, now: int, c: Call)
    requires Inv(tests, expires, now) && now <= c.access && InOrder(c) && expires - LIFETIME <= c.access
    ensures Inv(After(tests, expires, c), expires, c.stamped)
  {
    CreatedIff(tests, expires, c);
  }

  lemma {:induction false} RunKeepsInv(tests: seq<int>, expires: int, now: int, cs: seq<Call>)
    requires Inv(tests, expires, now) && Sequential(cs, now) && expires - LIFETIME <= now
    ensures Inv(Run(tests, expires, cs), expires, LastReading(cs, now))
    decreases |cs|
  {
    if cs != [] {
      CallKeepsInv(tests, expires, now, cs[0]);
      RunKeepsInv(After(tests, expires, cs[0]), expires, cs[0].stamped, cs[1..]);
    }
  }

  // ----- failed queries -----

  /** One more test keeps the pace exactly when it is in pace with the earlier ones. */
  lemma InPaceIff(tests: seq<int>, at: int)
    requires Spaced(tests) && Paced(tests)
    ensures Spaced(tests + [at]) && Paced(tests + [at]) <==> InPace(tests, at)
  {
    var longer := tests + [at];
    assert forall i :: 0 <= i < |tests| ==> longer[i] == tests[i];
    assert longer[|tests|] == at;
    if Spaced(longer) && tests != [] {
      assert longer[|tests| - 1] + COOLDOWN <= longer[|tests| - 1 + 1];
    }
    if Paced(longer) && |tests| >= QUOTA {
      assert longer[|tests| - QUOTA] + WINDOW <= longer[|tests| - QUOTA + QUOTA];
    }
  }

  /**
   * A call that creates a test keeps the pace if and only if what a failed query would have found allows
   * it at the moment of the insert. In particular it always does when neither query failed.
   */
  lemma FailedQueryKeepsPaceIff(tests: seq<int>, expires: int, c: Call)
    requires Sorted(tests) && Spaced(tests) && Paced(tests) && InOrder(c)
    requires Decide(tests, expires, c) == Created
    ensures var after := After(tests, expires, c);
            Spaced(after) && Paced(after) <==>
              && (c.db.last || tests == [] || tests[|tests| - 1] + COOLDOWN <= c.stamped)
              && (c.db.count || |tests| < QUOTA || tests[|tests| - QUOTA] + WINDOW <= c.stamped)
  {
    CreatedIff(tests, expires, c);
    InPaceIff(tests, c.stamped);
  }

  /** No query of a call that creates a test has failed. */
  predicate Sighted(tests: seq<int>, expires: int, cs: seq<Call>)
    decreases |cs|
  {
    cs == [] || (&& (Decide(tests, expires, cs[0]) == Created ==> cs[0].db.count && cs[0].db.last)
                 && Sighted(After(tests, expires, cs[0]), expires, cs[1..]))
  }

  /** Every call that creates a test does so in pace. */
  predicate AllInPace(tests: seq<int>, expires: int, cs: seq<Call>)
    decreases |cs|
  {
    cs == [] || (&& (Decide(tests, expires, cs[0]) == Created ==> InPace(tests, cs[0].stamped))
                 && AllInPace(After(tests, expires, cs[0]), expires, cs[1..]))
  }

  lemma {:induction false} SightedInPace(tests: seq<int>, expires: int, now: int, cs: seq<Call>)
    requires Sorted(tests) && (forall t :: t in tests ==> t <= now)
    requires Sequential(cs, now) && Sighted(tests, expires, cs)
    ensures AllInPace(tests, expires, cs)
    decreases |cs|
  {
    if cs != [] {
      CreatedIff(tests, expires, cs[0]);
      SightedInPace(After(tests, expires, cs[0]), expires, cs[0].stamped, cs[1..]);
    }
  }

  lemma {:induction false} RunExtends(tests: seq<int>, expires: int, cs: seq<Call>)
    ensures tests <= Run(tests, expires, cs)
    decreases |cs|
  {
    if cs != [] {
      RunExtends(After(tests, expires, cs[0]), expires, cs[1..]);
    }
  }

  /** A run keeps the pace if and only if each of its tests was created in pace. */
  lemma {:induction false} RunPacedIff(tests: seq<int>, expires: int, cs: seq<Call>)
    requires Spaced(tests) && Paced(tests)
    ensures var r := Run(tests, expires, cs); Spaced(r) && Paced(r) <==> AllInPace(tests, expires, cs)
    decreases |cs|
  {
    if cs != [] {
      var after, r := After(tests, expires, cs[0]), Run(tests, expires, cs);
      InPaceIff(tests, cs[0].stamped);
      RunExtends(after, expires, cs[1..]);
      if Spaced(after) && Paced(after) {
        RunPacedIff(after, expires, cs[1..]);
      } else if Spaced(r) && Paced(r) {
        PrefixPaced(after, r);
      }
    }
  }

  lemma PrefixPaced(a: seq<int>, b: seq<int>)
    requires a <= b && Spaced(b) && Paced(b)
    ensures Spaced(a) && Paced(a)
  {
    assert forall i :: 0 <= i < |a| ==> a[i] == b[i];
  }

  // ----- counting in intervals -----

  /** The number of tests created at a time in [from, to). */
  function CountIn(tests: seq<int>, from: int, to: int): nat {
    if tests == [] then 0
    else
      var last := tests[|tests| - 1];
      CountIn(tests[..|tests| - 1], from, to) + if from <= last < to then 1 else 0
  }

  lemma {:induction false} NoneIn(tests: seq<int>, from: int, to: int)
    requires forall i :: 0 <= i < |tests| ==> tests[i] < from
    ensures CountIn(tests, from, to) == 0
    decreases |tests|
  {
    if tests != [] {
      NoneIn(tests[..|tests| - 1], from, to);
    }
  }

  lemma {:induction false} CountAtMost(tests: seq<int>, from: int, to: int, n: nat)
    requires n <= |tests| && forall i :: 0 <= i < |tests| - n ==> tests[i] < from
    ensures CountIn(tests, from, to) <= n
    decreases n
  {
    if n == 0 {
      NoneIn(tests, from, to);
    } else {
      CountAtMost(tests[..|tests| - 1], from, to, n - 1);
    }
  }

  lemma {:induction false} WindowHoldsFive(tests: seq<int>, from: int)
    requires Sorted(tests) && Paced(tests)
    ensures CountIn(tests, from, from + WINDOW) <= QUOTA
    decreases |tests|
  {
    if |tests| > QUOTA {
      var last := tests[|tests| - 1];
      if last < from + WINDOW {
        assert tests[|tests| - 1 - QUOTA] + WINDOW <= tests[|tests| - 1 - QUOTA + QUOTA];
        CountAtMost(tests, from, from + WINDOW, QUOTA);
      } else {
        WindowHoldsFive(tests[..|tests| - 1], from);
      }
    } else {
      CountAtMost(tests, from, from + WINDOW, |tests|);
    }
  }

  lemma {:induction false} SecondHoldsOne(tests: seq<int>, at: int)
    requires Sorted(tests) && Spaced(tests)
    ensures CountIn(tests, at, at + 1) <= 1
    decreases |tests|
  {
    if tests != [] {
      var front := tests[..|tests| - 1];
      SecondHoldsOne(front, at);
      if tests[|tests| - 1] == at {
        if front != [] {
          assert tests[|tests| - 2] + COOLDOWN <= tests[|tests| - 2 + 1];
        }
        NoneIn(front, at, at + 1);
      }
    }
  }

  lemma {:induction false} CountSplits(tests: seq<int>, a: int, b: int, c: int)
    requires a <= b <= c
    ensures CountIn(tests, a, c) == CountIn(tests, a, b) + CountIn(tests, b, c)
    decreases |tests|
  {
    if tests != [] {
      CountSplits(tests[..|tests| - 1], a, b, c);
    }
  }

  lemma {:induction false} CountAll(tests: seq<int>, from: int, to: int)
    requires forall i :: 0 <= i < |tests| ==> from <= tests[i] < to
    ensures CountIn(tests, from, to) == |tests|
    decreases |tests|
  {
    if tests != [] {
      CountAll(tests[..|tests| - 1], from, to);
    }
  }

  // ----- theorems -----

  /** What follows for a run whose creating calls had no failed query. */
  lemma SightedIsPaced(expires: int, cs: seq<Call>)
    requires Sequential(cs, expires - LIFETIME) && Sighted([], expires, cs)
    ensures var tests := Run([], expires, cs);
            Inv(tests, expires, LastReading(cs, expires - LIFETIME)) && Spaced(tests) && Paced(tests)
  {
    RunKeepsInv([], expires, expires - LIFETIME, cs);
    SightedInPace([], expires, expires - LIFETIME, cs);
    RunPacedIff([], expires, cs);
  }

  /**
   * Unless a query fails in a call that creates a test: consecutive tests of a session are 30 s apart,
   * and any half-open 600 s holds at most five of them.
   */
  lemma TestsArePaced(expires: int, cs: seq<Call>, from: int)
    requires Sequential(cs, expires - LIFETIME) && Sighted([], expires, cs)
    ensures var tests := Run([], expires, cs);
            Spaced(tests) && CountIn(tests, from, from + WINDOW) <= QUOTA
  {
    SightedIsPaced(expires, cs);
    WindowHoldsFive(Run([], expires, cs), from);
  }

  lemma SixteenInLife(tests: seq<int>, s: int)
    requires Sorted(tests) && Spaced(tests) && Paced(tests)
    ensures CountIn(tests, s, s + LIFETIME + 1) <= 16
  {
    CountSplits(tests, s, s + 600, s + 1801);
    CountSplits(tests, s + 600, s + 1200, s + 1801);
    CountSplits(tests, s + 1200, s + 1800, s + 1801);
    WindowHoldsFive(tests, s);
    WindowHoldsFive(tests, s + 600);
    WindowHoldsFive(tests, s + 1200);
    SecondHoldsOne(tests, s + 1800);
  }

  lemma LateIsLast(tests: seq<int>, expires: int)
    requires forall i :: 0 <= i < |tests| ==> expires - LIFETIME <= tests[i]
    requires forall i :: 0 <= i < |tests| - 1 ==> tests[i] <= expires
    ensures |tests| == CountIn(tests, expires - LIFETIME, expires + 1)
                       + (if tests != [] && tests[|tests| - 1] > expires then 1 else 0)
  {
    if tests != [] {
      CountAll(tests[..|tests| - 1], expires - LIFETIME, expires + 1);
    }
  }

  /**
   * Under the same condition a 30-minute session stamps at most 16 tests within its life and at most one
   * after it: a call that passed the session check in time and was then held up. It creates 17 only in that way.
   */
  lemma LifetimeTotal(expires: int, cs: seq<Call>)
    requires Sequential(cs, expires - LIFETIME) && Sighted([], expires, cs)
    ensures var tests := Run([], expires, cs);
            var late := tests != [] && tests[|tests| - 1] > expires;
            && CountIn(tests, expires - LIFETIME, expires + 1) <= 16
            && |tests| == CountIn(tests, expires - LIFETIME, expires + 1) + (if late then 1 else 0)
  {
    SightedIsPaced(expires, cs);
    var tests := Run([], expires, cs);
    SixteenInLife(tests, expires - LIFETIME);
    LateIsLast(tests, expires);
  }

  lemma {:induction false} PromptCallsStampInTime(tests: seq<int>, expires: int, cs: seq<Call>)
    requires forall t :: t in tests ==> t <= expires
    requires forall c :: c in cs && c.access <= expires ==> c.stamped <= expires
    ensures forall t :: t in Run(tests, expires, cs) ==> t <= expires
    decreases |cs|
  {
    if cs != [] {
      assert cs[0] in cs;
      PromptCallsStampInTime(After(tests, expires, cs[0]), expires, cs[1..]);
    }
  }

  /** Sixteen is the bound when no call that passes the session check inserts after the session is over. */
  lemma PromptCallsCreateSixteen(expires: int, cs: seq<Call>)
    requires Sequential(cs, expires - LIFETIME) && Sighted([], expires, cs)
    requires forall c :: c in cs && c.access <= expires ==> c.stamped <= expires
    ensures |Run([], expires, cs)| <= 16
  {
    LifetimeTotal(expires, cs);
    PromptCallsStampInTime([], expires, cs);
    var tests := Run([], expires, cs);
    assert tests != [] ==> tests[|tests| - 1] in tests;
  }

  // ----- seventeen tests, and six in ten minutes -----

  const BASE: int := 1_000_000
  const END: int := BASE + LIFETIME

  /** Five tests half a minute apart at the start of every ten minutes. */
  function Slot(i: nat): int {
    BASE + 600 * (i / 5) + 30 * (i % 5)
  }

  function Slots(n: nat): seq<int> {
    seq(n, i requires 0 <= i < n => Slot(i))
  }

  function Prompt(at: int): Call {
    Call(at, at, at, at, true, WORKING)
  }

  function Prompts(n: nat): seq<Call> {
    seq(n, i requires 0 <= i < n => Prompt(Slot(i)))
  }

  /** Sixteen prompt calls, then one that stalls for half a minute after its session check. */
  function Greedy(): seq<Call> {
    Prompts(16) + [Stalled()]
  }

  function Stalled(): Call {
    Call(END, Slot(16), Slot(16), Slot(16), true, WORKING)
  }

  /** Five prompt calls, then one whose count query fails. */
  function Blind(): seq<Call> {
    Prompts(5) + [Uncounted()]
  }

  function Uncounted(): Call {
    Prompt(BASE + 150).(db := WORKING.(count := false))
  }

  lemma SlotGaps(i: nat)
    ensures i >= 1 ==> Slot(i - 1) + 30 <= Slot(i)
    ensures i >= 5 ==> Slot(i - 5) + 600 == Slot(i)
    ensures i < 16 ==> BASE <= Slot(i) <= BASE + 1800
  {
  }

  lemma {:induction false} SlotsSorted(n: nat)
    ensures Sorted(Slots(n))
  {
    if n > 0 {
      SlotsSorted(n - 1);
      SlotGaps(n - 1);
      var tests := Slots(n);
      var front := Slots(n - 1);
      forall i, j | 0 <= i <= j < n ensures tests[i] <= tests[j] {
        if j == n - 1 && i < j {
          assert front[i] <= front[n - 2];
        } else if j < n - 1 {
          assert front[i] <= front[j];
        }
      }
    }
  }

  /** Prompt calls at the slots are all created; what comes of one more call is its own affair. */
  lemma {:induction false} PromptsCreate(n: nat, k: nat, last: Call)
    requires n <= k <= 16 && InOrder(last) && BASE <= last.access && (k > 0 ==> Slot(k - 1) <= last.access)
    ensures Run(Slots(n), END, Prompts(k)[n..] + [last]) == After(Slots(k), END, last)
    ensures Sequential(Prompts(k)[n..] + [last], if n == 0 then BASE else Slot(n - 1))
    decreases k - n
  {
    var tests := Slots(n);
    var cs := Prompts(k)[n..] + [last];
    SlotGaps(n);
    if n > 0 { SlotGaps(n - 1); }
    if n < k {
      SlotsSorted(n);
      CreatedIff(tests, END, cs[0]);
      if n >= 5 { assert tests[n - 5] == Slot(n - 5); SlotGaps(n - 5); }
      assert cs[0] == Prompt(Slot(n)) && cs[1..] == Prompts(k)[n + 1..] + [last];
      assert tests + [Slot(n)] == Slots(n + 1);
      PromptsCreate(n + 1, k, last);
    } else {
      assert cs == [last] && cs[1..] == [];
    }
  }

  lemma AfterPrompts(k: nat, last: Call)
    requires k <= 16 && InOrder(last) && BASE <= last.access && (k > 0 ==> Slot(k - 1) <= last.access)
    ensures Run([], END, Prompts(k) + [last]) == After(Slots(k), END, last)
    ensures Sequential(Prompts(k) + [last], BASE)
  {
    PromptsCreate(0, k, last);
    assert Prompts(k)[0..] == Prompts(k) && Slots(0) == [];
  }

  lemma StalledIsCreated()
    ensures Decide(Slots(16), END, Stalled()) == Created && InOrder(Stalled()) && Slot(15) == END
  {
    var tests := Slots(16);
    SlotsSorted(16);
    assert tests[11] == Slot(11) && tests[15] == Slot(15);
    CreatedIff(tests, END, Stalled());
  }

  /**
   * Sixteen is not the bound of the whole life: seventeen non-overlapping calls, none with a failed
   * query, can all succeed.
   */
  lemma SeventeenTests()
    ensures Sequential(Greedy(), BASE) && |Run([], END, Greedy())| == 17
    ensures forall c :: c in Greedy() ==> c.db == WORKING
  {
    StalledIsCreated();
    AfterPrompts(16, Stalled());
  }

  lemma UncountedIsCreated()
    ensures Decide(Slots(5), END, Uncounted()) == Created && Slot(4) < BASE + 150
  {
    var tests := Slots(5);
    SlotsSorted(5);
    assert tests[4] == Slot(4);
    CreatedIff(tests, END, Uncounted());
  }

  lemma SlotsBelow(n: nat)
    requires n <= 5
    ensures forall i :: 0 <= i < n ==> BASE <= Slots(n)[i] < BASE + WINDOW
  {
  }

  /** One failed count query lets a sixth test into ten minutes. */
  lemma SixTests()
    ensures Sequential(Blind(), BASE) && CountIn(Run([], END, Blind()), BASE, BASE + WINDOW) == 6
  {
    UncountedIsCreated();
    AfterPrompts(5, Uncounted());
    SlotsBelow(5);
    CountAll(Slots(5) + [BASE + 150], BASE, BASE + WINDOW);
  }
}
