/**
 * Stream and concurrency accounting of the ledger: what holds in every run, what holds only while no
 * reservation outlives a rollover, and how midnight makes the agent lose count.
 */
module LedgerStreams {
  import opened Wrappers
  import opened Claims
  import opened AgentLedger

  // ----- counting outstanding reservations of the current epoch -----

  ghost function ByKey(out: map<nat, Ticket>, epoch: nat, key: string): set<nat> {
    set id | id in out && out[id].key == key && out[id].epoch == epoch
  }

  ghost function ByNonce(out: map<nat, Ticket>, epoch: nat, nonce: string): set<nat> {
    set id | id in out && out[id].nonce == nonce && out[id].epoch == epoch
  }

  ghost function HoldersOfKey(s: Agent, key: string): set<nat> {
    ByKey(s.out, s.epoch, key)
  }

  ghost function HoldersOfNonce(s: Agent, nonce: string): set<nat> {
    ByNonce(s.out, s.epoch, nonce)
  }

  /** The tests that really have a stream open, whenever it was granted. */
  ghost function OpenTests(s: Agent): set<string> {
    set id | id in s.out :: s.out[id].key
  }

  /** True of every reachable state. */
  ghost predicate StreamInv(s: Agent) {
    && (forall id :: id in s.out ==> id < s.issued && s.out[id].epoch <= s.epoch)
    && (forall id :: id in s.out && s.out[id].epoch == s.epoch ==> s.out[id].nonce in s.mem.byNonce)
    && (forall k :: k in s.mem.active ==> 1 <= s.mem.active[k] <= |HoldersOfKey(s, k)|)
    && |s.mem.active| <= EffectiveMax(s.mem.maxActive)
    && (forall n :: n in s.mem.byNonce ==> s.mem.byNonce[n].streams == |HoldersOfNonce(s, n)|)
  }

  /** `active` counts every test exactly, and nothing is outstanding from before the last rollover. */
  ghost predicate Exact(s: Agent) {
    && (forall id :: id in s.out ==> s.out[id].epoch == s.epoch)
    && (forall k: string :: Running(s.mem.active, k) == |HoldersOfKey(s, k)|)
  }

  /** The event rolls the day over while a reservation is outstanding. */
  predicate Straddles(s: Agent, e: Event) {
    e.Reserve? && s.mem.day != Some(s.today) && s.out != map[]
  }

  predicate NeverStraddles(s: Agent, es: seq<Event>)
    decreases |es|
  {
    es == [] || (!Straddles(s, es[0]) && NeverStraddles(Step(s, es[0]), es[1..]))
  }

  // ----- one step -----

  lemma KeyAdded(out: map<nat, Ticket>, id: nat, t: Ticket, k: string)
    requires id !in out
    ensures |ByKey(out[id := t], t.epoch, k)| == |ByKey(out, t.epoch, k)| + (if k == t.key then 1 else 0)
  {
    if k == t.key {
      assert ByKey(out[id := t], t.epoch, k) == ByKey(out, t.epoch, k) + {id};
    } else {
      assert ByKey(out[id := t], t.epoch, k) == ByKey(out, t.epoch, k);
    }
  }

  lemma NonceAdded(out: map<nat, Ticket>, id: nat, t: Ticket, n: string)
    requires id !in out
    ensures |ByNonce(out[id := t], t.epoch, n)| == |ByNonce(out, t.epoch, n)| + (if n == t.nonce then 1 else 0)
  {
    if n == t.nonce {
      assert ByNonce(out[id := t], t.epoch, n) == ByNonce(out, t.epoch, n) + {id};
    } else {
      assert ByNonce(out[id := t], t.epoch, n) == ByNonce(out, t.epoch, n);
    }
  }

  lemma GrantAddsHolder(o: Agent, c: Claims, down: int, up: int, k: string, n: string)
    requires forall id :: id in o.out ==> id < o.issued
    ensures var t := Granted(o, c, down, up);
            && |HoldersOfKey(t, k)| == |HoldersOfKey(o, k)| + (if k == TestKey(c) then 1 else 0)
            && |HoldersOfNonce(t, n)| == |HoldersOfNonce(o, n)| + (if n == c.nonce then 1 else 0)
  {
    KeyAdded(o.out, o.issued, Ticket(c.nonce, TestKey(c), o.epoch), k);
    NonceAdded(o.out, o.issued, Ticket(c.nonce, TestKey(c), o.epoch), n);
  }

  lemma ReleaseDropsHolder(s: Agent, id: nat, k: string, n: string)
    requires id in s.out
    ensures var t := ReleaseStep(s, id);
            var live := s.out[id].epoch == s.epoch;
            && |HoldersOfKey(t, k)| == |HoldersOfKey(s, k)| - (if live && k == s.out[id].key then 1 else 0)
            && |HoldersOfNonce(t, n)| == |HoldersOfNonce(s, n)| - (if live && n == s.out[id].nonce then 1 else 0)
  {
    KeyRemoved(s.out, id, s.epoch, k);
    NonceRemoved(s.out, id, s.epoch, n);
  }

  lemma KeyRemoved(out: map<nat, Ticket>, id: nat, epoch: nat, k: string)
    requires id in out
    ensures |ByKey(out - {id}, epoch, k)|
         == |ByKey(out, epoch, k)| - (if out[id].epoch == epoch && k == out[id].key then 1 else 0)
  {
    assert ByKey(out - {id}, epoch, k) == ByKey(out, epoch, k) - {id};
  }

  lemma NonceRemoved(out: map<nat, Ticket>, id: nat, epoch: nat, n: string)
    requires id in out
    ensures |ByNonce(out - {id}, epoch, n)|
         == |ByNonce(out, epoch, n)| - (if out[id].epoch == epoch && n == out[id].nonce then 1 else 0)
  {
    assert ByNonce(out - {id}, epoch, n) == ByNonce(out, epoch, n) - {id};
  }

  lemma SameHolders(s: Agent, t: Agent)
    requires s.out == t.out && s.epoch == t.epoch
    ensures forall k :: HoldersOfKey(s, k) == HoldersOfKey(t, k)
    ensures forall n :: HoldersOfNonce(s, n) == HoldersOfNonce(t, n)
  {
  }

  lemma OpenKeepsStreams(s: Agent)
    requires StreamInv(s)
    ensures StreamInv(Open(s)) && Open(s).mem.maxActive == EffectiveMax(s.mem.maxActive) >= 1
  {
    if s.mem.day == Some(s.today) {
      SameHolders(s, Open(s));
    }
  }

  lemma NewNonceHasNoHolders(o: Agent, nonce: string)
    requires StreamInv(o)
    ensures UsageOf(o.mem, nonce).streams == |HoldersOfNonce(o, nonce)|
  {
    if nonce !in o.mem.byNonce {
      assert HoldersOfNonce(o, nonce) == {};
    }
  }

  lemma TouchKeepsStreams(o: Agent, nonce: string)
    requires StreamInv(o)
    ensures StreamInv(o.(mem := Touch(o.mem, nonce)))
  {
    NewNonceHasNoHolders(o, nonce);
    SameHolders(o, o.(mem := Touch(o.mem, nonce)));
  }

  /** Adding a stream and dropping it again leaves `active` as it was. */
  lemma DropUndoesAdd(active: map<string, int>, key: string)
    requires forall k :: k in active ==> 1 <= active[k]
    ensures Drop(active[key := Running(active, key) + 1], key) == active
  {
  }

  lemma RefundKeepsStreams(o: Agent, c: Claims, down: int, up: int)
    requires StreamInv(o)
    ensures StreamInv(o.(mem := Refund(Charge(o.mem, c, down, up), c, down, up)))
  {
    NewNonceHasNoHolders(o, c.nonce);
    DropUndoesAdd(o.mem.active, TestKey(c));
    SameHolders(o, o.(mem := Refund(Charge(o.mem, c, down, up), c, down, up)));
  }

  lemma GrantKeepsActive(o: Agent, c: Claims, down: int, up: int)
    requires StreamInv(o)
    ensures var t := Granted(o, c, down, up);
            forall k :: k in t.mem.active ==> 1 <= t.mem.active[k] <= |HoldersOfKey(t, k)|
  {
    var t := Granted(o, c, down, up);
    forall k | k in t.mem.active ensures 1 <= t.mem.active[k] <= |HoldersOfKey(t, k)| {
      GrantAddsHolder(o, c, down, up, k, c.nonce);
    }
  }

  lemma GrantKeepsConcurrency(o: Agent, c: Claims, down: int, up: int)
    requires |o.mem.active| <= o.mem.maxActive && AdmitsTest(o.mem, c)
    ensures |Granted(o, c, down, up).mem.active| <= o.mem.maxActive
  {
    var key := TestKey(c);
    var grown := o.mem.active[key := Running(o.mem.active, key) + 1];
    assert grown.Keys == o.mem.active.Keys + {key};
  }

  lemma GrantKeepsCounts(o: Agent, c: Claims, down: int, up: int)
    requires StreamInv(o)
    ensures var t := Granted(o, c, down, up);
            forall n :: n in t.mem.byNonce ==> t.mem.byNonce[n].streams == |HoldersOfNonce(t, n)|
  {
    var t := Granted(o, c, down, up);
    NewNonceHasNoHolders(o, c.nonce);
    forall n | n in t.mem.byNonce ensures t.mem.byNonce[n].streams == |HoldersOfNonce(t, n)| {
      GrantAddsHolder(o, c, down, up, TestKey(c), n);
    }
  }

  lemma GrantKeepsStreams(o: Agent, c: Claims, down: int, up: int)
    requires StreamInv(o) && o.mem.maxActive >= 1 && AdmitsTest(o.mem, c)
    ensures StreamInv(Granted(o, c, down, up))
  {
    GrantKeepsActive(o, c, down, up);
    GrantKeepsConcurrency(o, c, down, up);
    GrantKeepsCounts(o, c, down, up);
  }

  lemma ReleaseKeepsStreams(s: Agent, id: nat)
    requires StreamInv(s) && id in s.out
    ensures StreamInv(ReleaseStep(s, id))
  {
    var t := ReleaseStep(s, id);
    forall k | k in t.mem.active ensures 1 <= t.mem.active[k] <= |HoldersOfKey(t, k)| {
      ReleaseDropsHolder(s, id, k, "");
    }
    forall n | n in t.mem.byNonce ensures t.mem.byNonce[n].streams == |HoldersOfNonce(t, n)| {
      ReleaseDropsHolder(s, id, "", n);
    }
    assert t.mem.active.Keys <= s.mem.active.Keys;
    Shrink(t.mem.active.Keys, s.mem.active.Keys);
  }

  lemma {:induction false} Shrink<T>(a: set<T>, b: set<T>)
    requires a <= b
    ensures |a| <= |b|
  {
    assert b == a + (b - a);
  }

  lemma ReserveKeepsStreams(s: Agent, c: Claims, down: int, up: int, persisted: bool)
    requires StreamInv(s)
    ensures StreamInv(ReserveStep(s, c, down, up, persisted))
  {
    OpenKeepsStreams(s);
    var o := Open(s);
    if !AdmitsTest(o.mem, c) {
    } else if !Admits(o.mem, c, down, up) {
      TouchKeepsStreams(o, c.nonce);
    } else if !persisted {
      RefundKeepsStreams(o, c, down, up);
    } else {
      GrantKeepsStreams(o, c, down, up);
    }
  }

  lemma RebootKeepsStreams(s: Agent, readable: bool)
    ensures StreamInv(Reboot(s, readable)) && Reboot(s, readable).mem.maxActive == s.mem.maxActive
    ensures Exact(Reboot(s, readable))
  {
    var t := Reboot(s, readable);
    assert forall k :: HoldersOfKey(t, k) == {};
  }

  lemma CrashKeepsStreams(s: Agent, c: Claims, down: int, up: int, readable: bool)
    ensures var t := CrashStep(s, c, down, up, readable);
            StreamInv(t) && Exact(t) && t.mem.maxActive == s.mem.maxActive
  {
    var l := Opened(s.mem, s.today);
    if Admits(l, c, down, up) {
      RebootKeepsStreams(s.(disk := Some(Quota(s.today, Charge(l, c, down, up).daily))), readable);
    } else {
      RebootKeepsStreams(s, readable);
    }
  }

  lemma AdvanceKeepsStreams(s: Agent, days: nat)
    requires StreamInv(s)
    ensures StreamInv(s.(today := s.today + days))
  {
    SameHolders(s, s.(today := s.today + days));
  }

  lemma ReserveKeepsMax(s: Agent, c: Claims, down: int, up: int, persisted: bool)
    ensures EffectiveMax(ReserveStep(s, c, down, up, persisted).mem.maxActive) == EffectiveMax(s.mem.maxActive)
  {
  }

  lemma StepKeepsStreams(s: Agent, e: Event)
    requires StreamInv(s)
    ensures StreamInv(Step(s, e)) && EffectiveMax(Step(s, e).mem.maxActive) == EffectiveMax(s.mem.maxActive)
  {
    match e
    case Reserve(c, down, up, persisted) =>
      ReserveKeepsStreams(s, c, down, up, persisted);
      ReserveKeepsMax(s, c, down, up, persisted);
    case Release(id) => if id in s.out { ReleaseKeepsStreams(s, id); }
    case Advance(days) => AdvanceKeepsStreams(s, days);
    case Restart(readable) => RebootKeepsStreams(s, readable);
    case CrashInReserve(c, down, up, readable) => CrashKeepsStreams(s, c, down, up, readable);
  }

  lemma {:induction false} RunKeepsStreams(s: Agent, es: seq<Event>)
    requires StreamInv(s)
    ensures StreamInv(Run(s, es)) && EffectiveMax(Run(s, es).mem.maxActive) == EffectiveMax(s.mem.maxActive)
    decreases |es|
  {
    if es != [] {
      StepKeepsStreams(s, es[0]);
      RunKeepsStreams(Step(s, es[0]), es[1..]);
    }
  }

  /**
   * In every run, rollovers and crashes included: a nonce's stream count is the number of its
   * reservations outstanding in this epoch; no stored test count is below one or above the
   * reservations really outstanding; and the agent never believes more tests run than configured.
   */
  lemma StreamsAccounted(limit: int, maxActive: int, today: nat, es: seq<Event>, k: string, n: string)
    ensures var s := Run(Init(limit, maxActive, today), es);
            && UsageOf(s.mem, n).streams == |HoldersOfNonce(s, n)|
            && (k in s.mem.active ==> 1 <= s.mem.active[k])
            && Running(s.mem.active, k) <= |HoldersOfKey(s, k)|
            && |s.mem.active| <= EffectiveMax(maxActive)
  {
    var s0 := Init(limit, maxActive, today);
    assert StreamInv(s0);
    RunKeepsStreams(s0, es);
    NewNonceHasNoHolders(Run(s0, es), n);
  }

  /** The stream cap: right after any accepted reservation the nonce holds at most its signed streams. */
  lemma StreamCap(s: Agent, c: Claims, down: int, up: int)
    requires StreamInv(s) && Accepts(s, Reserve(c, down, up, true))
    ensures var t := Step(s, Reserve(c, down, up, true));
            |HoldersOfNonce(t, c.nonce)| == |HoldersOfNonce(Open(s), c.nonce)| + 1 <= c.maxStreams
  {
    OpenKeepsStreams(s);
    NewNonceHasNoHolders(Open(s), c.nonce);
    GrantAddsHolder(Open(s), c, down, up, "", c.nonce);
  }

  // ----- exactness -----

  lemma OpenKeepsExact(s: Agent)
    requires Exact(s) && (s.mem.day == Some(s.today) || s.out == map[])
    ensures Exact(Open(s))
  {
    if s.mem.day == Some(s.today) {
      SameHolders(s, Open(s));
    } else {
      assert forall k :: HoldersOfKey(Open(s), k) == {};
    }
  }

  lemma GrantKeepsExact(o: Agent, c: Claims, down: int, up: int)
    requires StreamInv(o) && Exact(o)
    ensures Exact(Granted(o, c, down, up))
  {
    var t := Granted(o, c, down, up);
    forall k: string ensures Running(t.mem.active, k) == |HoldersOfKey(t, k)| {
      GrantAddsHolder(o, c, down, up, k, c.nonce);
      assert Running(o.mem.active, k) == |HoldersOfKey(o, k)|;
    }
  }

  lemma RefusalKeepsExact(o: Agent, t: Agent)
    requires Exact(o) && t.mem.active == o.mem.active && t.out == o.out && t.epoch == o.epoch
    ensures Exact(t)
  {
    SameHolders(o, t);
  }

  /** The undo after a failed write leaves `active` as it was. */
  lemma RefundLeavesActive(l: Ledger, c: Claims, down: int, up: int)
    requires forall k :: k in l.active ==> 1 <= l.active[k]
    ensures Refund(Charge(l, c, down, up), c, down, up).active == l.active
  {
    DropUndoesAdd(l.active, TestKey(c));
  }

  /** A refused request leaves counts and closures as the rollover test left them. */
  lemma RefusalLeavesCounts(s: Agent, c: Claims, down: int, up: int, persisted: bool)
    requires StreamInv(s) && !Accepts(s, Reserve(c, down, up, persisted))
    ensures var o, t := Open(s), ReserveStep(s, c, down, up, persisted);
            t.mem.active == o.mem.active && t.out == o.out && t.epoch == o.epoch
  {
    var o := Open(s);
    if Admits(o.mem, c, down, up) {
      RefundLeavesActive(o.mem, c, down, up);
      assert ReserveStep(s, c, down, up, persisted) == o.(mem := Refund(Charge(o.mem, c, down, up), c, down, up));
    }
  }

  lemma ReserveKeepsExact(s: Agent, c: Claims, down: int, up: int, persisted: bool)
    requires StreamInv(s) && Exact(s) && !Straddles(s, Reserve(c, down, up, persisted))
    ensures Exact(ReserveStep(s, c, down, up, persisted))
  {
    OpenKeepsStreams(s);
    OpenKeepsExact(s);
    var o := Open(s);
    if Admits(o.mem, c, down, up) && persisted {
      GrantKeepsExact(o, c, down, up);
    } else {
      RefusalLeavesCounts(s, c, down, up, persisted);
      RefusalKeepsExact(o, ReserveStep(s, c, down, up, persisted));
    }
  }

  /**
   * A release keeps the count of its test exact if and only if its reservation was made since the last
   * rollover, or no reservation of that test has been.
   */
  lemma ReleaseStaysExactIff(s: Agent, id: nat)
    requires StreamInv(s) && id in s.out
    requires forall k: string :: Running(s.mem.active, k) == |HoldersOfKey(s, k)|
    ensures var t := ReleaseStep(s, id);
            (forall k: string :: Running(t.mem.active, k) == |HoldersOfKey(t, k)|)
            <==> (s.out[id].epoch == s.epoch || HoldersOfKey(s, s.out[id].key) == {})
  {
    var t := ReleaseStep(s, id);
    var key := s.out[id].key;
    var harmless := s.out[id].epoch == s.epoch || HoldersOfKey(s, key) == {};
    forall k: string
      ensures Running(t.mem.active, k) == |HoldersOfKey(t, k)| <==> (k != key || harmless)
    {
      ReleaseDropsHolder(s, id, k, "");
      assert Running(s.mem.active, k) == |HoldersOfKey(s, k)|;
      if s.out[id].epoch == s.epoch && k == key {
        assert id in HoldersOfKey(s, key);
      }
    }
    if !harmless {
      assert Running(t.mem.active, key) != |HoldersOfKey(t, key)|;
    }
  }

  lemma StepKeepsExact(s: Agent, e: Event)
    requires StreamInv(s) && Exact(s) && !Straddles(s, e)
    ensures Exact(Step(s, e))
  {
    match e
    case Reserve(c, down, up, persisted) => ReserveKeepsExact(s, c, down, up, persisted);
    case Release(id) => if id in s.out { ReleaseStaysExactIff(s, id); }
    case Advance(days) => SameHolders(s, s.(today := s.today + days));
    case Restart(readable) => RebootKeepsStreams(s, readable);
    case CrashInReserve(c, down, up, readable) => CrashKeepsStreams(s, c, down, up, readable);
  }

  lemma {:induction false} RunKeepsExact(s: Agent, es: seq<Event>)
    requires StreamInv(s) && Exact(s) && NeverStraddles(s, es)
    ensures Exact(Run(s, es))
    decreases |es|
  {
    if es != [] {
      StepKeepsStreams(s, es[0]);
      StepKeepsExact(s, es[0]);
      RunKeepsExact(Step(s, es[0]), es[1..]);
    }
  }

  /**
   * While no reservation spans a rollover, `active` holds exactly the tests with an open stream, each
   * with the number of its open streams, and so at most the configured number of tests run.
   */
  lemma ActiveIsExact(limit: int, maxActive: int, today: nat, es: seq<Event>)
    requires NeverStraddles(Init(limit, maxActive, today), es)
    ensures var s := Run(Init(limit, maxActive, today), es);
            && s.mem.active.Keys == OpenTests(s)
            && (forall k :: k in s.mem.active ==> s.mem.active[k] == |set id | id in s.out && s.out[id].key == k|)
            && |OpenTests(s)| <= EffectiveMax(maxActive)
  {
    var s0 := Init(limit, maxActive, today);
    RunKeepsStreams(s0, es);
    RunKeepsExact(s0, es);
    var s := Run(s0, es);
    forall k: string ensures k in s.mem.active <==> k in OpenTests(s) {
      assert Running(s.mem.active, k) == |HoldersOfKey(s, k)|;
      if k in OpenTests(s) {
        var id :| id in s.out && s.out[id].key == k;
        assert id in HoldersOfKey(s, k);
      } else {
        assert HoldersOfKey(s, k) == {};
      }
    }
    forall k | k in s.mem.active ensures s.mem.active[k] == |set id | id in s.out && s.out[id].key == k| {
      assert HoldersOfKey(s, k) == set id | id in s.out && s.out[id].key == k;
      assert Running(s.mem.active, k) == |HoldersOfKey(s, k)|;
    }
  }

  // ----- midnight -----

  /** The four events: test `a` starts, the day changes, `a` opens a second stream, the first one ends. */
  function AcrossMidnight(c: Claims): seq<Event> {
    [Reserve(c, 1, 0, true), Advance(1), Reserve(c, 1, 0, true), Release(0)]
  }

  /**
   * After a reservation outlives midnight the agent can believe nothing runs while a test still does:
   * the late release takes away the count of the new day's reservation, and a second test would be
   * admitted although only one may run.
   */
  lemma MidnightLosesATest(c: Claims)
    requires c.nonce == "n" && c.testId == "a" && c.maxStreams == 4 && c.maxDownload == 100 && c.maxUpload == 0
    ensures var s := Run(Init(1000, 1, 0), AcrossMidnight(c));
            && s.mem.active == map[] && OpenTests(s) == {"a"}
            && (forall d: Claims :: AdmitsTest(Open(s).mem, d))
  {
    var es := AcrossMidnight(c);
    var s0 := Init(1000, 1, 0);
    var s1 := Step(s0, es[0]);
    FirstGrant(s0, c);
    var s2 := Step(s1, es[1]);
    GrantAfterMidnight(s2, c);
    var s3 := Step(s2, es[2]);
    LateRelease(s3);
    RunOfFour(s0, es);
  }

  lemma LateRelease(s: Agent)
    requires s.mem.active == map["a" := 1] && s.mem.maxActive == 1
    requires s.out == map[0 := Ticket("n", "a", 1), 1 := Ticket("n", "a", 2)]
    ensures var t := Step(s, Release(0));
            && t.mem.active == map[] && OpenTests(t) == {"a"}
            && (forall d: Claims :: AdmitsTest(Open(t).mem, d))
  {
    var t := Step(s, Release(0));
    assert t.mem.active == map[];
    assert t.out == map[1 := Ticket("n", "a", 2)] && t.out[1].key == "a";
    assert Open(t).mem.active == map[] && Open(t).mem.maxActive == 1;
  }

  lemma RunOfFour(s: Agent, es: seq<Event>)
    requires |es| == 4
    ensures Run(s, es) == Step(Step(Step(Step(s, es[0]), es[1]), es[2]), es[3])
  {
    var s1 := Step(s, es[0]);
    var s2 := Step(s1, es[1]);
    var s3 := Step(s2, es[2]);
    assert es[1..][1..] == es[2..] && es[2..][1..] == es[3..] && es[3..][1..] == [];
    assert Run(s, es) == Run(s1, es[1..]);
    assert Run(s1, es[1..]) == Run(s2, es[2..]);
    assert Run(s2, es[2..]) == Run(s3, es[3..]);
    assert Run(s3, es[3..]) == Run(Step(s3, es[3]), []);
  }

  lemma FirstGrant(s: Agent, c: Claims)
    requires s == Init(1000, 1, 0)
    requires c.nonce == "n" && c.testId == "a" && c.maxStreams == 4 && c.maxDownload == 100 && c.maxUpload == 0
    ensures var t := Step(s, Reserve(c, 1, 0, true));
            && t.mem.active == map["a" := 1] && t.out == map[0 := Ticket("n", "a", 1)]
            && t.issued == 1 && t.epoch == 1 && t.today == 0 && t.mem.day == Some(0)
            && t.mem.limit == 1000 && t.mem.maxActive == 1
  {
    assert Accepts(s, Reserve(c, 1, 0, true));
  }

  lemma GrantAfterMidnight(s: Agent, c: Claims)
    requires c.nonce == "n" && c.testId == "a" && c.maxStreams == 4 && c.maxDownload == 100 && c.maxUpload == 0
    requires s.mem.active == map["a" := 1] && s.out == map[0 := Ticket("n", "a", 1)]
    requires s.issued == 1 && s.epoch == 1 && s.today == 1 && s.mem.day == Some(0)
    requires s.mem.limit == 1000 && s.mem.maxActive == 1
    ensures var t := Step(s, Reserve(c, 1, 0, true));
            && t.mem.active == map["a" := 1] && t.epoch == 2 && t.mem.maxActive == 1
            && t.out == map[0 := Ticket("n", "a", 1), 1 := Ticket("n", "a", 2)]
  {
    assert Accepts(s, Reserve(c, 1, 0, true));
  }
}
