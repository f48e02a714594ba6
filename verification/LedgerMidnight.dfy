/**
 * How far the ledger can lose count of the running tests once reservations outlive a rollover: by one
 * test for each late release, and no further.
 */
module LedgerMidnight {
  import opened Wrappers
  import opened Claims
  import opened AgentLedger
  import opened LedgerStreams

  /** The tests with a stream granted in the present epoch. */
  ghost function CurrentTests(s: Agent): set<string> {
    set id | id in s.out && s.out[id].epoch == s.epoch :: s.out[id].key
  }

  /** The closures left over from older epochs. */
  ghost function Leftovers(s: Agent): set<nat> {
    set id | id in s.out && s.out[id].epoch != s.epoch
  }

  predicate IsLate(s: Agent, e: Event) {
    e.Release? && e.id in s.out && s.out[e.id].epoch != s.epoch
  }

  /** `late` lists the tests of the older closures released since the present epoch began. */
  function LateAfter(s: Agent, late: seq<string>, e: Event): seq<string> {
    if Step(s, e).epoch != s.epoch then []
    else if IsLate(s, e) then late + [s.out[e.id].key]
    else late
  }

  function Late(s: Agent, late: seq<string>, es: seq<Event>): seq<string>
    decreases |es|
  {
    if es == [] then late else Late(Step(s, es[0]), LateAfter(s, late, es[0]), es[1..])
  }

  /** A test's count is short by no more than its late releases. */
  ghost predicate Short(s: Agent, late: seq<string>) {
    forall k: string :: |HoldersOfKey(s, k)| <= Running(s.mem.active, k) + multiset(late)[k]
  }

  lemma OpenKeepsShort(s: Agent, late: seq<string>)
    requires StreamInv(s) && Short(s, late)
    ensures Short(Open(s), if Open(s).epoch != s.epoch then [] else late)
  {
    if s.mem.day == Some(s.today) {
      SameHolders(s, Open(s));
    } else {
      assert forall k :: HoldersOfKey(Open(s), k) == {};
    }
  }

  lemma GrantKeepsShort(o: Agent, c: Claims, down: int, up: int, late: seq<string>)
    requires StreamInv(o) && Short(o, late)
    ensures Short(Granted(o, c, down, up), late)
  {
    var t := Granted(o, c, down, up);
    forall k: string ensures |HoldersOfKey(t, k)| <= Running(t.mem.active, k) + multiset(late)[k] {
      GrantAddsHolder(o, c, down, up, k, c.nonce);
      assert |HoldersOfKey(o, k)| <= Running(o.mem.active, k) + multiset(late)[k];
    }
  }

  lemma ReserveKeepsShort(s: Agent, c: Claims, down: int, up: int, persisted: bool, late: seq<string>)
    requires StreamInv(s) && Short(s, late)
    ensures Short(ReserveStep(s, c, down, up, persisted), LateAfter(s, late, Reserve(c, down, up, persisted)))
  {
    var o, t := Open(s), ReserveStep(s, c, down, up, persisted);
    var left := if o.epoch != s.epoch then [] else late;
    OpenKeepsStreams(s);
    OpenKeepsShort(s, late);
    if Accepts(s, Reserve(c, down, up, persisted)) {
      GrantKeepsShort(o, c, down, up, left);
    } else {
      RefusalLeavesCounts(s, c, down, up, persisted);
      SameHolders(o, t);
    }
  }

  lemma ReleaseKeepsShort(s: Agent, id: nat, late: seq<string>)
    requires StreamInv(s) && Short(s, late) && id in s.out
    ensures Short(ReleaseStep(s, id), LateAfter(s, late, Release(id)))
  {
    var t, after := ReleaseStep(s, id), LateAfter(s, late, Release(id));
    forall k: string ensures |HoldersOfKey(t, k)| <= Running(t.mem.active, k) + multiset(after)[k] {
      ReleaseDropsHolder(s, id, k, "");
      assert |HoldersOfKey(s, k)| <= Running(s.mem.active, k) + multiset(late)[k];
    }
  }

  lemma StepKeepsShort(s: Agent, e: Event, late: seq<string>)
    requires StreamInv(s) && Short(s, late)
    ensures Short(Step(s, e), LateAfter(s, late, e))
  {
    match e
    case Reserve(c, down, up, persisted) => ReserveKeepsShort(s, c, down, up, persisted, late);
    case Release(id) => if id in s.out { ReleaseKeepsShort(s, id, late); }
    case Advance(days) => SameHolders(s, s.(today := s.today + days));
    case _ => assert forall k :: HoldersOfKey(Step(s, e), k) == {};
  }

  lemma {:induction false} RunKeepsShort(s: Agent, es: seq<Event>, late: seq<string>)
    requires StreamInv(s) && Short(s, late)
    ensures Short(Run(s, es), Late(s, late, es))
    decreases |es|
  {
    if es != [] {
      StepKeepsStreams(s, es[0]);
      StepKeepsShort(s, es[0], late);
      RunKeepsShort(Step(s, es[0]), es[1..], LateAfter(s, late, es[0]));
    }
  }

  lemma {:induction false} FewDistinct(late: seq<string>)
    ensures |set k | k in late| <= |late|
  {
    if late != [] {
      var front, last := late[..|late| - 1], late[|late| - 1];
      FewDistinct(front);
      assert (set k | k in late) == (set k | k in front) + {last};
    }
  }

  /** What the counts of a state allow to run. */
  lemma TestsFit(s: Agent, late: seq<string>)
    requires StreamInv(s) && Short(s, late)
    ensures |CurrentTests(s)| <= EffectiveMax(s.mem.maxActive) + |late|
    ensures |OpenTests(s)| <= EffectiveMax(s.mem.maxActive) + |late| + |Leftovers(s)|
  {
    var lateKeys := set k | k in late;
    FewDistinct(late);
    forall k | k in CurrentTests(s) ensures k in s.mem.active || k in lateKeys {
      var id :| id in s.out && s.out[id].epoch == s.epoch && s.out[id].key == k;
      assert id in HoldersOfKey(s, k);
      assert |HoldersOfKey(s, k)| <= Running(s.mem.active, k) + multiset(late)[k];
    }
    Shrink(CurrentTests(s), s.mem.active.Keys + lateKeys);
    var older := set id | id in Leftovers(s) :: s.out[id].key;
    KeysFit(s.out, Leftovers(s));
    Shrink(OpenTests(s), CurrentTests(s) + older);
  }

  lemma {:induction false} KeysFit(out: map<nat, Ticket>, ids: set<nat>)
    requires ids <= out.Keys
    ensures |set id | id in ids :: out[id].key| <= |ids|
  {
    if ids != {} {
      var x :| x in ids;
      KeysFit(out, ids - {x});
      assert (set id | id in ids :: out[id].key) == (set id | id in ids - {x} :: out[id].key) + {out[x].key};
    }
  }

  /**
   * In every run, the tests with a stream granted since the last rollover outnumber the configured
   * maximum by at most the older closures released since then, and all tests with an open stream by
   * those and the older closures still to come.
   */
  lemma RunningTestsBounded(limit: int, maxActive: int, today: nat, es: seq<Event>)
    ensures var s := Run(Init(limit, maxActive, today), es);
            var late := Late(Init(limit, maxActive, today), [], es);
            && |CurrentTests(s)| <= EffectiveMax(maxActive) + |late|
            && |OpenTests(s)| <= EffectiveMax(maxActive) + |late| + |Leftovers(s)|
  {
    var s0 := Init(limit, maxActive, today);
    assert StreamInv(s0) && Short(s0, []);
    RunKeepsStreams(s0, es);
    RunKeepsShort(s0, es, []);
    TestsFit(Run(s0, es), Late(s0, [], es));
  }
}
