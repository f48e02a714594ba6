/**
 * The bound on running tests is reached: for every maximum and every number of late releases there is a
 * run after which exactly so many more tests run than the maximum allows.
 */
module LedgerMidnightRun {
  import opened Wrappers
  import opened Int64
  import opened Claims
  import opened AgentLedger
  import opened LedgerStreams
  import opened LedgerMidnight

  // ----- names -----

  function Key(i: nat): string {
    seq(i + 1, _ => 't')
  }

  lemma KeysDiffer(i: nat, j: nat)
    ensures Key(i) == Key(j) <==> i == j
  {
    assert |Key(i)| == i + 1 && |Key(j)| == j + 1;
  }

  function Keys(lo: nat, hi: nat): set<string> {
    set i | lo <= i < hi :: Key(i)
  }

  lemma {:induction false} KeysCount(lo: nat, hi: nat)
    requires lo <= hi
    ensures |Keys(lo, hi)| == hi - lo
    decreases hi
  {
    if lo < hi {
      KeysCount(lo, hi - 1);
      forall i: nat | i < hi - 1 ensures Key(i) != Key(hi - 1) {
        KeysDiffer(i, hi - 1);
      }
      assert Keys(lo, hi) == Keys(lo, hi - 1) + {Key(hi - 1)};
    }
  }

  // ----- the run -----

  function For(i: nat): Claims {
    Claims(1, [], [], [], Key(i), [], [], 0, 0, 4, 0, 60, Key(i))
  }

  /** An empty upload for test number `i`. */
  function Ask(i: nat): Event {
    Reserve(For(i), 0, 0, true)
  }

  /** On each of `n` days one test is opened and not closed. */
  function Leaving(n: nat): seq<Event> {
    if n == 0 then [] else Leaving(n - 1) + [Ask(n - 1)] + [Advance(1)]
  }

  /** On the last day each of them is opened again, and then its old closure runs. */
  function Uncounting(n: nat, j: nat): seq<Event> {
    if j == 0 then Leaving(n) else Uncounting(n, j - 1) + [Ask(j - 1)] + [Release(j - 1)]
  }

  /** As many more tests as the maximum. */
  function Crowding(n: nat, i: nat): seq<Event> {
    if i == 0 then Uncounting(n, n) else Crowding(n, i - 1) + [Ask(n + i - 1)]
  }

  // ----- what the states look like -----

  /** Tests `lo` to `n` have a closure from before `epoch`, tests 0 to `k` one from it, in that order. */
  ghost predicate Tickets(out: map<nat, Ticket>, epoch: nat, lo: nat, n: nat, k: nat) {
    && lo <= n
    && (forall id :: id in out <==> lo <= id < n + k)
    && (forall id :: lo <= id < n ==> out[id].key == Key(id) && out[id].epoch < epoch)
    && (forall id :: n <= id < n + k ==> out[id].key == Key(id - n) && out[id].epoch == epoch)
  }

  /** The ledger counts one stream for each of the tests `a` to `k`, and knows none of those after. */
  ghost predicate Counters(l: Ledger, max: int, k: nat, a: nat) {
    && l.maxActive == max && l.limit >= 0 && l.daily == 0
    && l.active.Keys == Keys(a, k) && (forall x :: x in l.active ==> l.active[x] == 1)
    && (forall i: nat :: i >= k ==> Key(i) !in l.byNonce)
  }

  /** The state as the next request of the day finds it. */
  ghost predicate Shape(s: Agent, max: int, lo: nat, n: nat, k: nat, a: nat) {
    Formed(Open(s), max, lo, n, k, a)
  }

  ghost predicate Formed(o: Agent, max: int, lo: nat, n: nat, k: nat, a: nat) {
    o.issued == n + k && Tickets(o.out, o.epoch, lo, n, k) && Counters(o.mem, max, k, a)
  }

  lemma AskPasses(l: Ledger, max: int, k: nat, a: nat)
    requires Counters(l, max, k, a) && a <= k && k - a < max
    ensures Admits(l, Ask(k).c, 0, 0) && Key(k) !in l.active
  {
    KeysCount(a, k);
    forall i: nat | i < k ensures Key(i) != Key(k) {
      KeysDiffer(i, k);
    }
  }

  lemma AskCounts(l: Ledger, max: int, k: nat, a: nat)
    requires Counters(l, max, k, a) && a <= k && Key(k) !in l.active
    ensures Counters(Charge(l, Ask(k).c, 0, 0), max, k + 1, a)
  {
    var t := Charge(l, Ask(k).c, 0, 0);
    assert TestKey(Ask(k).c) == Key(k);
    assert t.active == l.active[Key(k) := 1];
    assert Keys(a, k + 1) == Keys(a, k) + {Key(k)};
    forall i: nat | i > k ensures Key(i) !in t.byNonce {
      KeysDiffer(i, k);
    }
  }

  lemma TicketsGrow(out: map<nat, Ticket>, epoch: nat, lo: nat, n: nat, k: nat)
    requires Tickets(out, epoch, lo, n, k)
    ensures Tickets(out[n + k := Ticket(Key(k), Key(k), epoch)], epoch, lo, n, k + 1)
  {
  }

  /** A grant of the day, seen by the next request of the day. */
  lemma GrantKeepsShape(o: Agent, max: int, lo: nat, n: nat, k: nat, a: nat)
    requires Formed(o, max, lo, n, k, a) && a <= k && Key(k) !in o.mem.active
    ensures Formed(Granted(o, For(k), 0, 0), max, lo, n, k + 1, a)
  {
    AskCounts(o.mem, max, k, a);
    TicketsGrow(o.out, o.epoch, lo, n, k);
    assert TestKey(For(k)) == Key(k);
  }

  lemma AskKeepsShape(s: Agent, max: int, lo: nat, n: nat, k: nat, a: nat)
    requires Shape(s, max, lo, n, k, a) && a <= k && k - a < max
    ensures var t := Step(s, Ask(k)); Shape(t, max, lo, n, k + 1, a) && Fresh(t) && t.epoch == Open(s).epoch
  {
    var t := Granted(Open(s), For(k), 0, 0);
    AskPasses(Open(s).mem, max, k, a);
    GrantKeepsShape(Open(s), max, lo, n, k, a);
    assert Step(s, Ask(k)) == t;
    assert Open(t) == t;
  }

  /** The rollover test has been made today. */
  predicate Fresh(s: Agent) {
    s.mem.day == Some(s.today)
  }

  lemma ReleaseKeepsShape(s: Agent, max: int, n: nat, j: nat)
    requires Shape(s, max, j, n, j + 1, j) && Fresh(s) && j < n
    ensures var t := Step(s, Release(j));
            && Shape(t, max, j + 1, n, j + 1, j + 1) && Fresh(t)
            && IsLate(s, Release(j)) && t.epoch == s.epoch && s.out[j].key == Key(j)
  {
    var t := Step(s, Release(j));
    assert Keys(j, j + 1) == {Key(j)} && Keys(j + 1, j + 1) == {};
    assert t.mem.active == map[];
    assert Open(t).mem.byNonce == s.mem.byNonce;
  }

  lemma TicketsAge(out: map<nat, Ticket>, epoch: nat, n: nat)
    requires Tickets(out, epoch, 0, n, 0)
    ensures Tickets(out[n := Ticket(Key(n), Key(n), epoch)], epoch + 1, 0, n + 1, 0)
  {
  }

  lemma NewDay(s: Agent, max: int)
    requires s.mem.maxActive == max >= 1 && s.mem.limit >= 0 && !Fresh(s)
    ensures Counters(Open(s).mem, max, 0, 0)
  {
    assert Keys(0, 0) == {};
  }

  /** A day ends with one more test left open. */
  lemma LeaveKeepsShape(s: Agent, max: int, n: nat)
    requires Shape(s, max, 0, n, 0, 0) && !Fresh(s) && max >= 1
    ensures var t := Step(s, Ask(n)); t.epoch != s.epoch
    ensures var t := Step(Step(s, Ask(n)), Advance(1)); Shape(t, max, 0, n + 1, 0, 0) && !Fresh(t)
  {
    var o, c := Open(s), Ask(n).c;
    assert Keys(0, 0) == {};
    assert o.mem.active == map[] && Key(n) !in o.mem.byNonce;
    assert Admits(o.mem, c, 0, 0);
    var u := Granted(o, c, 0, 0);
    assert Step(s, Ask(n)) == u;
    var t := Step(u, Advance(1));
    NewDay(t, max);
    TicketsAge(o.out, o.epoch, n);
    assert TestKey(c) == Key(n) && c.nonce == Key(n);
  }

  // ----- runs with their late releases -----

  lemma {:induction false} LateSnoc(s: Agent, late: seq<string>, es: seq<Event>, e: Event)
    ensures Run(s, es + [e]) == Step(Run(s, es), e)
    ensures Late(s, late, es + [e]) == LateAfter(Run(s, es), Late(s, late, es), e)
    decreases |es|
  {
    if es == [] {
      assert [e][1..] == [] && [] + [e] == [e];
    } else {
      assert (es + [e])[0] == es[0] && (es + [e])[1..] == es[1..] + [e];
      LateSnoc(Step(s, es[0]), LateAfter(s, late, es[0]), es[1..], e);
    }
  }

  /** The events lead from `s0` to `s`, with `n` late releases in the present epoch. */
  predicate Leads(s0: Agent, es: seq<Event>, s: Agent, n: nat) {
    Run(s0, es) == s && |Late(s0, [], es)| == n
  }

  lemma OneMore(s0: Agent, es: seq<Event>, s: Agent, n: nat, e: Event)
    requires Leads(s0, es, s, n)
    ensures Leads(s0, es + [e], Step(s, e),
                  if Step(s, e).epoch != s.epoch then 0 else if IsLate(s, e) then n + 1 else n)
  {
    LateSnoc(s0, [], es, e);
  }

  /** The run so far leads to the evening of a day that left `n` tests open. */
  ghost predicate Left(s0: Agent, es: seq<Event>, max: int, n: nat) {
    exists s :: Leads(s0, es, s, 0) && Shape(s, max, 0, n, 0, 0) && !Fresh(s)
  }

  /** It leads to the last day, where `j` of `n` old closures have run and `k` tests were opened. */
  ghost predicate Counted(s0: Agent, es: seq<Event>, max: int, n: nat, j: nat, k: nat) {
    exists s :: Leads(s0, es, s, j) && Shape(s, max, j, n, k, j) && (k > 0 ==> Fresh(s))
  }

  lemma LeaveMore(s0: Agent, es: seq<Event>, max: int, n: nat, more: seq<Event>)
    requires Left(s0, es, max, n) && max >= 1 && more == es + [Ask(n)] + [Advance(1)]
    ensures Left(s0, more, max, n + 1)
  {
    var a :| Leads(s0, es, a, 0) && Shape(a, max, 0, n, 0, 0) && !Fresh(a);
    LeaveKeepsShape(a, max, n);
    OneMore(s0, es, a, 0, Ask(n));
    var b := Step(a, Ask(n));
    OneMore(s0, es + [Ask(n)], b, 0, Advance(1));
    assert Leads(s0, more, Step(b, Advance(1)), 0);
  }

  lemma LeaveOne(s0: Agent, max: int, n: nat)
    requires n > 0 && Left(s0, Leaving(n - 1), max, n - 1) && max >= 1
    ensures Left(s0, Leaving(n), max, n)
  {
    LeaveMore(s0, Leaving(n - 1), max, n - 1, Leaving(n));
  }

  /** One more test starts. */
  lemma CrowdOne(s0: Agent, es: seq<Event>, max: int, n: nat, j: nat, k: nat)
    requires j <= k < j + max && Counted(s0, es, max, n, j, k)
    ensures Counted(s0, es + [Ask(k)], max, n, j, k + 1)
  {
    var a :| Leads(s0, es, a, j) && Shape(a, max, j, n, k, j) && (k > 0 ==> Fresh(a));
    AskKeepsShape(a, max, j, n, k, j);
    OneMore(s0, es, a, j, Ask(k));
  }

  /** One more of the `n` old closures runs late. */
  lemma UncountOne(s0: Agent, max: int, n: nat, j: nat)
    requires max >= 1 && 0 < j <= n && Counted(s0, Uncounting(n, j - 1), max, n, j - 1, j - 1)
    ensures Counted(s0, Uncounting(n, j), max, n, j, j)
  {
    var i, more := j - 1, Uncounting(n, j - 1) + [Ask(j - 1)];
    CrowdOne(s0, Uncounting(n, i), max, n, i, i);
    var b :| Leads(s0, more, b, i) && Shape(b, max, i, n, i + 1, i) && Fresh(b);
    ReleaseKeepsShape(b, max, n, i);
    OneMore(s0, more, b, i, Release(i));
  }

  lemma LastDay(s0: Agent, max: int, n: nat)
    requires Left(s0, Leaving(n), max, n)
    ensures Counted(s0, Uncounting(n, 0), max, n, 0, 0)
  {
    var s :| Leads(s0, Leaving(n), s, 0) && Shape(s, max, 0, n, 0, 0) && !Fresh(s);
    assert Leads(s0, Uncounting(n, 0), s, 0);
  }

  lemma CrowdStep(s0: Agent, max: nat, n: nat, i: nat)
    requires 0 < i <= max && Counted(s0, Crowding(n, i - 1), max, n, n, n + i - 1)
    ensures Counted(s0, Crowding(n, i), max, n, n, n + i)
  {
    CrowdOne(s0, Crowding(n, i - 1), max, n, n, n + i - 1);
  }

  lemma {:induction false} LeavingLeads(limit: nat, maxActive: int, today: nat, n: nat)
    ensures Left(Init(limit, maxActive, today), Leaving(n), EffectiveMax(maxActive), n)
  {
    if n == 0 {
      InitLeft(limit, maxActive, today);
    } else {
      LeavingLeads(limit, maxActive, today, n - 1);
      LeaveOne(Init(limit, maxActive, today), EffectiveMax(maxActive), n);
    }
  }

  lemma {:induction false} UncountingLeads(limit: nat, maxActive: int, today: nat, n: nat, j: nat)
    requires j <= n
    ensures Counted(Init(limit, maxActive, today), Uncounting(n, j), EffectiveMax(maxActive), n, j, j)
    decreases j
  {
    if j == 0 {
      LeavingLeads(limit, maxActive, today, n);
      LastDay(Init(limit, maxActive, today), EffectiveMax(maxActive), n);
    } else {
      UncountingLeads(limit, maxActive, today, n, j - 1);
      UncountOne(Init(limit, maxActive, today), EffectiveMax(maxActive), n, j);
    }
  }

  lemma {:induction false} CrowdingLeads(limit: nat, maxActive: int, today: nat, n: nat, i: nat)
    requires i <= EffectiveMax(maxActive)
    ensures Counted(Init(limit, maxActive, today), Crowding(n, i), EffectiveMax(maxActive), n, n, n + i)
    decreases i
  {
    if i == 0 {
      UncountingLeads(limit, maxActive, today, n, n);
    } else {
      CrowdingLeads(limit, maxActive, today, n, i - 1);
      CrowdStep(Init(limit, maxActive, today), EffectiveMax(maxActive), n, i);
    }
  }

  lemma ShapeRuns(s: Agent, max: int, n: nat, k: nat)
    requires Shape(s, max, n, n, k, n) && Fresh(s)
    ensures |CurrentTests(s)| == k
  {
    KeysCount(0, k);
    forall x ensures x in CurrentTests(s) <==> x in Keys(0, k) {
      if x in CurrentTests(s) {
        var id :| id in s.out && s.out[id].epoch == s.epoch && s.out[id].key == x;
        assert x == Key(id - n);
      }
      if x in Keys(0, k) {
        var i :| 0 <= i < k && x == Key(i);
        assert n + i in s.out && s.out[n + i].key == x;
      }
    }
    assert CurrentTests(s) == Keys(0, k);
  }

  /**
   * For every maximum and every n: a run with n late releases after which n more tests than the maximum
   * have a stream granted since the last rollover.
   */
  lemma RunningTestsBoundIsReached(limit: nat, maxActive: int, today: nat, n: nat)
    ensures var s0, es := Init(limit, maxActive, today), Crowding(n, EffectiveMax(maxActive));
            && |Late(s0, [], es)| == n
            && |CurrentTests(Run(s0, es))| == EffectiveMax(maxActive) + n
  {
    CrowdingLeads(limit, maxActive, today, n, EffectiveMax(maxActive));
    CountedRuns(Init(limit, maxActive, today), Crowding(n, EffectiveMax(maxActive)), EffectiveMax(maxActive), n);
  }

  lemma CountedRuns(s0: Agent, es: seq<Event>, max: nat, n: nat)
    requires Counted(s0, es, max, n, n, n + max) && max >= 1
    ensures |Late(s0, [], es)| == n && |CurrentTests(Run(s0, es))| == max + n
  {
    var s :| Leads(s0, es, s, n) && Shape(s, max, n, n, n + max, n) && Fresh(s);
    ShapeRuns(s, max, n, n + max);
  }

  lemma InitLeft(limit: nat, maxActive: int, today: nat)
    ensures Left(Init(limit, maxActive, today), Leaving(0), EffectiveMax(maxActive), 0)
  {
    var s0 := Init(limit, maxActive, today);
    assert Keys(0, 0) == {};
    assert Leads(s0, Leaving(0), s0, 0) && Shape(s0, EffectiveMax(maxActive), 0, 0, 0, 0) && !Fresh(s0);
  }
}
