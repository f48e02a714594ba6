/**
 * The ledger with its lazy rollover and its release closures behaves like a simple eager one that
 * forgets everything at midnight and never notices a request it refuses.
 */
module LedgerRefinement {
  import opened Wrappers
  import opened Int64
  import opened Claims
  import opened AgentLedger
  import opened LedgerStreams
  import LedgerQuota

  // ----- the eager ledger -----

  /** A release closure that still counts (`live`) or that a midnight or a restart made void. */
  datatype Closure = Closure(nonce: string, key: string, live: bool)

  datatype Eager = Eager(
    today: nat,
    disk: Option<Quota>,
    log: seq<Grant>,
    closures: map<nat, Closure>,
    issued: nat,
    daily: int,
    active: map<string, int>,
    usage: map<string, Usage>,
    limit: int,
    maxActive: int
  )

  /** The ledger a request is judged by. */
  function Book(v: Eager): Ledger {
    Ledger(v.usage, v.active, Some(v.today), v.daily, v.limit, v.maxActive)
  }

  predicate EagerAccepts(v: Eager, e: Event)
    requires e.Reserve?
  {
    Admits(Book(v), e.c, e.down, e.up) && e.persisted
  }

  function EagerGrant(v: Eager, c: Claims, down: int, up: int): Eager {
    var l := Charge(Book(v), c, down, up);
    v.(disk := Some(Quota(v.today, l.daily)),
       log := v.log + [Grant(v.today, c.nonce, down, up)],
       closures := v.closures[v.issued := Closure(c.nonce, TestKey(c), true)],
       issued := v.issued + 1,
       daily := l.daily, active := l.active, usage := l.byNonce)
  }

  function EagerRelease(v: Eager, id: nat): Eager
    requires id in v.closures
  {
    var t := v.closures[id];
    v.(closures := v.closures - {id},
       active := Drop(v.active, t.key),
       usage := if t.live && t.nonce in v.usage
                then NonZero(v.usage[t.nonce := v.usage[t.nonce].(streams := v.usage[t.nonce].streams - 1)])
                else v.usage)
  }

  function EagerReboot(v: Eager, readable: bool): Eager {
    var q := if readable && v.disk.Some? && v.disk.value.day == v.today then v.disk.value.bytes else 0;
    v.(closures := map[], daily := q, active := map[], usage := map[])
  }

  /** Midnight voids every closure and forgets every counter. */
  function Midnight(v: Eager, days: nat): Eager {
    v.(today := v.today + days,
       closures := map id | id in v.closures :: v.closures[id].(live := false),
       daily := 0, active := map[], usage := map[])
  }

  function EagerStep(v: Eager, e: Event): Eager {
    match e
    case Reserve(c, down, up, persisted) => if EagerAccepts(v, e) then EagerGrant(v, c, down, up) else v
    case Release(id) => if id in v.closures then EagerRelease(v, id) else v
    case Advance(days) => if days == 0 then v else Midnight(v, days)
    case Restart(readable) => EagerReboot(v, readable)
    case CrashInReserve(c, down, up, readable) =>
      EagerReboot(if Admits(Book(v), c, down, up)
                  then v.(disk := Some(Quota(v.today, Charge(Book(v), c, down, up).daily))) else v, readable)
  }

  function EagerRun(v: Eager, es: seq<Event>): Eager
    decreases |es|
  {
    if es == [] then v else EagerRun(EagerStep(v, es[0]), es[1..])
  }

  // ----- the abstraction -----

  function NonZero(m: map<string, Usage>): map<string, Usage> {
    map n | n in m && m[n] != ZERO :: m[n]
  }

  predicate Current(s: Agent) {
    s.mem.day == Some(s.today)
  }

  function View(s: Agent): Eager {
    Eager(s.today, s.disk, s.log,
          map id | id in s.out :: Closure(s.out[id].nonce, s.out[id].key, Current(s) && s.out[id].epoch == s.epoch),
          s.issued,
          if Current(s) then s.mem.daily else 0,
          if Current(s) then s.mem.active else map[],
          if Current(s) then NonZero(s.mem.byNonce) else map[],
          s.mem.limit,
          EffectiveMax(s.mem.maxActive))
  }

  /** The fields Go declares as int64 hold int64 values. */
  predicate Typed(s: Agent) {
    && Is64(s.mem.daily)
    && (s.disk.Some? ==> Is64(s.disk.value.bytes))
    && (forall n :: n in s.mem.byNonce ==> Is64(s.mem.byNonce[n].down) && Is64(s.mem.byNonce[n].up))
  }

  predicate TypedEvent(e: Event) {
    (e.Reserve? || e.CrashInReserve?) ==> Is64(e.down) && Is64(e.up)
  }

  ghost predicate Ok(s: Agent) {
    StreamInv(s) && Typed(s) && (s.mem.day.Some? ==> s.mem.day.value <= s.today)
  }

  /** One answer per event: what the caller of `reserve` is told. */
  function Answers(s: Agent, es: seq<Event>): (r: seq<Option<bool>>)
    ensures |r| == |es|
    decreases |es|
  {
    if es == [] then [] else
      [if es[0].Reserve? then Some(Accepts(s, es[0])) else None] + Answers(Step(s, es[0]), es[1..])
  }

  function EagerAnswers(v: Eager, es: seq<Event>): seq<Option<bool>>
    decreases |es|
  {
    if es == [] then [] else
      [if es[0].Reserve? then Some(EagerAccepts(v, es[0])) else None] + EagerAnswers(EagerStep(v, es[0]), es[1..])
  }

  // ----- refinement of one step -----

  lemma ChargeKeepsTyped(o: Agent, c: Claims, down: int, up: int)
    requires Typed(o) && Is64(down) && Is64(up)
    ensures Typed(o.(mem := Charge(o.mem, c, down, up)))
    ensures Typed(o.(mem := Refund(Charge(o.mem, c, down, up), c, down, up)))
  {
    assert Is64(UsageOf(o.mem, c.nonce).down) && Is64(UsageOf(o.mem, c.nonce).up);
  }

  lemma ReserveKeepsTyped(s: Agent, c: Claims, down: int, up: int, persisted: bool)
    requires Typed(s) && Is64(down) && Is64(up)
    ensures Typed(ReserveStep(s, c, down, up, persisted))
  {
    var o := Open(s);
    ChargeKeepsTyped(o, c, down, up);
    assert Typed(o.(mem := Touch(o.mem, c.nonce)));
  }

  lemma ReserveKeepsDay(s: Agent, c: Claims, down: int, up: int, persisted: bool)
    ensures ReserveStep(s, c, down, up, persisted).mem.day == Some(s.today)
    ensures ReserveStep(s, c, down, up, persisted).today == s.today
  {
  }

  lemma CrashKeepsTyped(s: Agent, c: Claims, down: int, up: int, readable: bool)
    requires Typed(s) && Is64(down) && Is64(up)
    ensures Typed(CrashStep(s, c, down, up, readable))
  {
  }

  lemma OtherStepsKeepTyped(s: Agent, e: Event)
    requires Typed(s) && (e.Release? || e.Advance? || e.Restart?)
    ensures Typed(Step(s, e))
  {
  }

  lemma StepKeepsDated(s: Agent, e: Event)
    requires s.mem.day.Some? ==> s.mem.day.value <= s.today
    ensures var t := Step(s, e); t.mem.day.Some? ==> t.mem.day.value <= t.today
  {
    if e.Reserve? {
      ReserveKeepsDay(s, e.c, e.down, e.up, e.persisted);
    }
  }

  lemma StepKeepsOk(s: Agent, e: Event)
    requires Ok(s) && TypedEvent(e)
    ensures Ok(Step(s, e))
  {
    StepKeepsStreams(s, e);
    StepKeepsDated(s, e);
    if e.Reserve? {
      ReserveKeepsTyped(s, e.c, e.down, e.up, e.persisted);
    } else if e.CrashInReserve? {
      CrashKeepsTyped(s, e.c, e.down, e.up, e.readable);
    } else {
      OtherStepsKeepTyped(s, e);
    }
  }

  lemma OpenSameView(s: Agent)
    requires Ok(s)
    ensures View(Open(s)) == View(s)
  {
    assert View(Open(s)).closures == View(s).closures;
  }

  /** The eager book judges every request as the opened ledger does. */
  lemma BookAgrees(o: Agent, c: Claims, down: int, up: int)
    requires Current(o) && o.mem.maxActive >= 1
    ensures Admits(Book(View(o)), c, down, up) == Admits(o.mem, c, down, up)
    ensures UsageOf(Book(View(o)), c.nonce) == UsageOf(o.mem, c.nonce)
    ensures Charge(Book(View(o)), c, down, up).daily == Charge(o.mem, c, down, up).daily
  {
  }

  lemma TouchSameView(o: Agent, nonce: string)
    ensures View(o.(mem := Touch(o.mem, nonce))) == View(o)
  {
    assert NonZero(Touch(o.mem, nonce).byNonce) == NonZero(o.mem.byNonce);
  }

  lemma UsageAfterUpdate(m: map<string, Usage>, n: string, u: Usage)
    ensures NonZero(NonZero(m)[n := u]) == NonZero(m[n := u])
    ensures u != ZERO ==> NonZero(m)[n := u] == NonZero(m[n := u])
  {
  }

  lemma GrantRefines(o: Agent, c: Claims, down: int, up: int)
    requires StreamInv(o) && Current(o) && o.mem.maxActive >= 1
    ensures View(Granted(o, c, down, up)) == EagerGrant(View(o), c, down, up)
  {
    var t, v := Granted(o, c, down, up), EagerGrant(View(o), c, down, up);
    NewNonceHasNoHolders(o, c.nonce);
    BookAgrees(o, c, down, up);
    UsageAfterUpdate(o.mem.byNonce, c.nonce, t.mem.byNonce[c.nonce]);
    GrantAddsClosure(o, c, down, up);
  }

  lemma GrantAddsClosure(o: Agent, c: Claims, down: int, up: int)
    requires Current(o)
    ensures View(Granted(o, c, down, up)).closures
         == View(o).closures[o.issued := Closure(c.nonce, TestKey(c), true)]
  {
  }

  /** A request the agent refuses, for whatever reason, changes nothing the eager ledger can see. */
  lemma RefusalSameView(s: Agent, c: Claims, down: int, up: int, persisted: bool)
    requires Ok(s) && Is64(down) && Is64(up)
    requires !Accepts(s, Reserve(c, down, up, persisted))
    ensures View(ReserveStep(s, c, down, up, persisted)) == View(s)
  {
    OpenSameView(s);
    var o := Open(s);
    TouchSameView(o, c.nonce);
    if Admits(o.mem, c, down, up) {
      LedgerQuota.RefundUndoesCharge(o.mem, c, down, up);
      OpenKeepsStreams(s);
      DropUndoesAdd(o.mem.active, TestKey(c));
      assert ReserveStep(s, c, down, up, persisted) == o.(mem := Touch(o.mem, c.nonce));
    }
  }

  lemma ReserveRefines(s: Agent, c: Claims, down: int, up: int, persisted: bool)
    requires Ok(s) && Is64(down) && Is64(up)
    ensures var e := Reserve(c, down, up, persisted);
            && Accepts(s, e) == EagerAccepts(View(s), e)
            && View(Step(s, e)) == EagerStep(View(s), e)
  {
    OpenSameView(s);
    OpenKeepsStreams(s);
    var o := Open(s);
    BookAgrees(o, c, down, up);
    if Accepts(s, Reserve(c, down, up, persisted)) {
      GrantRefines(o, c, down, up);
    } else {
      RefusalSameView(s, c, down, up, persisted);
    }
  }

  lemma ReleaseRefinesUsage(s: Agent, id: nat)
    requires Ok(s) && id in s.out
    ensures View(ReleaseStep(s, id)).usage == EagerRelease(View(s), id).usage
  {
    var t := s.out[id];
    if Current(s) && t.epoch == s.epoch {
      assert id in HoldersOfNonce(s, t.nonce);
      var u := s.mem.byNonce[t.nonce];
      assert u.streams >= 1;
      assert t.nonce in View(s).usage;
      UsageAfterUpdate(s.mem.byNonce, t.nonce, u.(streams := u.streams - 1));
    }
  }

  lemma ReleaseRefines(s: Agent, id: nat)
    requires Ok(s) && id in s.out
    ensures View(ReleaseStep(s, id)) == EagerRelease(View(s), id)
  {
    var v, v' := EagerRelease(View(s), id), View(ReleaseStep(s, id));
    ReleaseRefinesUsage(s, id);
    assert v.closures == v'.closures;
  }

  lemma AdvanceRefines(s: Agent, days: nat)
    requires Ok(s) && days > 0
    ensures View(s.(today := s.today + days)) == Midnight(View(s), days)
  {
    assert View(s.(today := s.today + days)).closures == Midnight(View(s), days).closures;
  }

  lemma RebootRefines(s: Agent, readable: bool)
    ensures View(Reboot(s, readable)) == EagerReboot(View(s), readable)
  {
  }

  lemma CrashRefines(s: Agent, c: Claims, down: int, up: int, readable: bool)
    requires Ok(s)
    ensures View(CrashStep(s, c, down, up, readable)) == EagerStep(View(s), CrashInReserve(c, down, up, readable))
  {
    OpenSameView(s);
    OpenKeepsStreams(s);
    BookAgrees(Open(s), c, down, up);
    var l := Opened(s.mem, s.today);
    var s' := s.(disk := Some(Quota(s.today, Charge(l, c, down, up).daily)));
    if Admits(l, c, down, up) {
      RebootRefines(s', readable);
      assert View(s') == View(s).(disk := s'.disk);
    } else {
      RebootRefines(s, readable);
    }
  }

  lemma StepRefines(s: Agent, e: Event)
    requires Ok(s) && TypedEvent(e)
    ensures Ok(Step(s, e)) && View(Step(s, e)) == EagerStep(View(s), e)
    ensures e.Reserve? ==> Accepts(s, e) == EagerAccepts(View(s), e)
  {
    StepKeepsOk(s, e);
    match e
    case Reserve(c, down, up, persisted) => ReserveRefines(s, c, down, up, persisted);
    case Release(id) => if id in s.out { ReleaseRefines(s, id); }
    case Advance(days) => if days > 0 { AdvanceRefines(s, days); }
    case Restart(readable) => RebootRefines(s, readable);
    case CrashInReserve(c, down, up, readable) => CrashRefines(s, c, down, up, readable);
  }

  /** The lazy ledger refines the eager one over whole runs: same answers, same visible state. */
  lemma {:induction false} RunRefines(s: Agent, es: seq<Event>)
    requires Ok(s) && forall e :: e in es ==> TypedEvent(e)
    ensures Ok(Run(s, es)) && View(Run(s, es)) == EagerRun(View(s), es)
    ensures Answers(s, es) == EagerAnswers(View(s), es)
    decreases |es|
  {
    if es != [] {
      StepRefines(s, es[0]);
      RunRefines(Step(s, es[0]), es[1..]);
    }
  }

  // ----- deleting refusals -----

  /** What is left of `xs` when the marked positions are deleted. */
  function Unmarked<T>(xs: seq<T>, marked: seq<bool>): seq<T>
    requires |xs| == |marked|
  {
    if xs == [] then []
    else (if marked[0] then [] else [xs[0]]) + Unmarked(xs[1..], marked[1..])
  }

  /** Every marked event is a request that was refused. */
  predicate MarksRefusals(answers: seq<Option<bool>>, marked: seq<bool>)
    requires |answers| == |marked|
  {
    forall i :: 0 <= i < |marked| && marked[i] ==> answers[i] == Some(false)
  }

  lemma {:induction false} EagerIgnoresRefusals(v: Eager, es: seq<Event>, marked: seq<bool>)
    requires |es| == |marked| == |EagerAnswers(v, es)| && MarksRefusals(EagerAnswers(v, es), marked)
    ensures EagerRun(v, Unmarked(es, marked)) == EagerRun(v, es)
    ensures EagerAnswers(v, Unmarked(es, marked)) == Unmarked(EagerAnswers(v, es), marked)
    decreases |es|
  {
    if es != [] {
      var v' := EagerStep(v, es[0]);
      var later := EagerAnswers(v', es[1..]);
      assert EagerAnswers(v, es)[1..] == later;
      assert MarksRefusals(later, marked[1..]) by {
        forall i | 0 <= i < |marked| - 1 && marked[1..][i] ensures later[i] == Some(false) {
          assert marked[i + 1] && EagerAnswers(v, es)[i + 1] == Some(false);
        }
      }
      EagerIgnoresRefusals(v', es[1..], marked[1..]);
      var rest := Unmarked(es[1..], marked[1..]);
      if marked[0] {
        assert EagerAnswers(v, es)[0] == Some(false);
        assert v' == v;
        assert Unmarked(es, marked) == rest;
      } else {
        assert Unmarked(es, marked) == [es[0]] + rest;
        assert ([es[0]] + rest)[1..] == rest;
      }
    }
  }

  lemma {:induction false} UnmarkedFrom<T>(xs: seq<T>, marked: seq<bool>)
    requires |xs| == |marked|
    ensures forall x :: x in Unmarked(xs, marked) ==> x in xs
    decreases |xs|
  {
    if xs != [] {
      UnmarkedFrom(xs[1..], marked[1..]);
    }
  }

  /**
   * Refusals are invisible: delete any set of refused requests from any run, whether a cap, the
   * concurrency limit or a failed write refused them, and every other answer and everything observable
   * in the end, quota.json included, stays the same.
   */
  lemma {:induction false} RefusalsAreInvisible(limit: int, maxActive: int, today: nat, es: seq<Event>,
                                                marked: seq<bool>)
    requires forall e :: e in es ==> TypedEvent(e)
    requires |marked| == |es| && MarksRefusals(Answers(Init(limit, maxActive, today), es), marked)
    ensures var s := Init(limit, maxActive, today);
            var fewer := Unmarked(es, marked);
            && Answers(s, fewer) == Unmarked(Answers(s, es), marked)
            && View(Run(s, fewer)) == View(Run(s, es))
            && Run(s, fewer).disk == Run(s, es).disk
  {
    var s := Init(limit, maxActive, today);
    var fewer := Unmarked(es, marked);
    UnmarkedFrom(es, marked);
    RunRefines(s, es);
    RunRefines(s, fewer);
    EagerIgnoresRefusals(View(s), es, marked);
    assert View(Run(s, fewer)).disk == View(Run(s, es)).disk;
  }
}
