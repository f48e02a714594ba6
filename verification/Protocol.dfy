/**
 * Browser engine and agent ledger composed: the engine's requests travel to the agent in any order, may
 * be lost, and arrive at most once, while other clients, releases, midnights and crashes go on at the
 * agent. The agent's per-nonce byte test never refuses one of them.
 */
module Protocol {
  import opened Int64
  import opened Claims
  import A = AgentLedger
  import E = Engine

  const SIGNED_DOWNLOAD: int := 150_000_000  // the caps the server signs into every grant
  const SIGNED_UPLOAD: int := 100_000_000

  /** `transit` and `arrived` hold indices into the engine's issued requests. */
  datatype Sys = Sys(agent: A.Agent, engine: E.Engine, transit: set<nat>, arrived: set<nat>)

  datatype Event =
    | Browser(e: E.Event)
    | Deliver(i: nat, persisted: bool)
    | DeliverIntoCrash(i: nat, readable: bool)
    | Lose(i: nat)
    | Elsewhere(a: A.Event)

  function DownOf(d: E.Direction, size: nat): int {
    if d == E.Download then size else 0
  }

  function UpOf(d: E.Direction, size: nat): int {
    if d == E.Upload then size else 0
  }

  /** The engine's request as the agent's handler turns it into a call of `reserve`. */
  function Request(s: Sys, c: Claims, i: nat, persisted: bool): A.Event
    requires i < |s.engine.issued|
  {
    var size := s.engine.issued[i];
    A.Reserve(c, DownOf(s.engine.direction, size), UpOf(s.engine.direction, size), persisted)
  }

  function Step(s: Sys, c: Claims, e: Event): Sys {
    match e
    case Browser(b) =>
      var t := E.Step(s.engine, b);
      s.(engine := t,
         transit := if t.issued == s.engine.issued then s.transit else s.transit + {|s.engine.issued|})
    case Deliver(i, persisted) =>
      if i in s.transit && i < |s.engine.issued|
      then s.(agent := A.Step(s.agent, Request(s, c, i, persisted)),
              transit := s.transit - {i}, arrived := s.arrived + {i})
      else s
    case DeliverIntoCrash(i, readable) =>
      if i in s.transit && i < |s.engine.issued|
      then
        var size := s.engine.issued[i];
        var crash := A.CrashInReserve(c, DownOf(s.engine.direction, size), UpOf(s.engine.direction, size), readable);
        s.(agent := A.Step(s.agent, crash), transit := s.transit - {i}, arrived := s.arrived + {i})
      else s
    case Lose(i) => s.(transit := s.transit - {i})
    case Elsewhere(a) => s.(agent := A.Step(s.agent, a))
  }

  function Run(s: Sys, c: Claims, es: seq<Event>): Sys
    decreases |es|
  {
    if es == [] then s else Run(Step(s, c, es[0]), c, es[1..])
  }

  /** Nobody but the engine holds this grant. */
  predicate Private(c: Claims, e: Event) {
    e.Elsewhere? && e.a.Reserve? ==> e.a.c.nonce != c.nonce
  }

  /** A fresh measurement whose budget the server signed into its grant. */
  predicate Fresh(s: Sys, c: Claims) {
    && s.transit == {} && s.arrived == {}
    && A.UsageOf(s.agent.mem, c.nonce) == A.ZERO
    && s.engine.chunk > 0
    && s.engine == E.Start(s.engine.direction, s.engine.cap, s.engine.chunk, |s.engine.workers|)
    && c.maxDownload == SIGNED_DOWNLOAD && c.maxUpload == SIGNED_UPLOAD
    && s.engine.cap == if s.engine.direction == E.Download then E.DEFAULT_DOWNLOAD else E.DEFAULT_UPLOAD
  }

  // ----- the invariant -----

  /** The sum of the sizes at the given indices. */
  ghost function SumAt(xs: seq<nat>, at: set<nat>): nat {
    if xs == [] then 0
    else SumAt(xs[..|xs| - 1], at) + if |xs| - 1 in at then xs[|xs| - 1] else 0
  }

  /** The agent has charged the nonce at most the requests that arrived, in the one direction used. */
  ghost predicate Dominated(s: Sys, c: Claims) {
    var u := A.UsageOf(s.agent.mem, c.nonce);
    if s.engine.direction == E.Download
    then 0 <= u.down <= SumAt(s.engine.issued, s.arrived) && u.up == 0
    else 0 <= u.up <= SumAt(s.engine.issued, s.arrived) && u.down == 0
  }

  ghost predicate Inv(s: Sys, c: Claims) {
    && E.Inv(s.engine)
    && s.transit !! s.arrived
    && (forall i :: i in s.transit || i in s.arrived ==> i < |s.engine.issued|)
    && Dominated(s, c)
    && c.maxDownload == SIGNED_DOWNLOAD && c.maxUpload == SIGNED_UPLOAD
    && s.engine.cap == if s.engine.direction == E.Download then E.DEFAULT_DOWNLOAD else E.DEFAULT_UPLOAD
  }

  lemma {:induction false} SumAtAdds(xs: seq<nat>, at: set<nat>, i: nat)
    requires i < |xs| && i !in at
    ensures SumAt(xs, at + {i}) == SumAt(xs, at) + xs[i]
    decreases |xs|
  {
    var front := xs[..|xs| - 1];
    if i < |front| {
      SumAtAdds(front, at, i);
    } else {
      SumAtIgnores(front, at, i);
    }
  }

  lemma {:induction false} SumAtIgnores(xs: seq<nat>, at: set<nat>, i: nat)
    requires i >= |xs|
    ensures SumAt(xs, at + {i}) == SumAt(xs, at)
    decreases |xs|
  {
    if xs != [] {
      SumAtIgnores(xs[..|xs| - 1], at, i);
    }
  }

  lemma {:induction false} SumAtBounded(xs: seq<nat>, at: set<nat>)
    ensures SumAt(xs, at) <= E.Sum(xs)
    decreases |xs|
  {
    if xs != [] {
      SumAtBounded(xs[..|xs| - 1], at);
    }
  }

  lemma SumAtExtends(xs: seq<nat>, x: nat, at: set<nat>)
    requires |xs| !in at
    ensures SumAt(xs + [x], at) == SumAt(xs, at)
  {
    assert (xs + [x])[..|xs|] == xs;
  }

  /** What the nonce was charged plus a request still under way fits the budget. */
  lemma RoomForTransit(s: Sys, c: Claims, i: nat)
    requires Inv(s, c) && i in s.transit
    ensures SumAt(s.engine.issued, s.arrived) + s.engine.issued[i] <= s.engine.reserved <= s.engine.cap
  {
    SumAtAdds(s.engine.issued, s.arrived, i);
    SumAtBounded(s.engine.issued, s.arrived + {i});
  }

  /** How any event of the agent may change the usage of a nonce. */
  lemma UsageAfterElsewhere(a: A.Agent, e: A.Event, nonce: string)
    requires e.Reserve? ==> e.c.nonce != nonce
    ensures var u, v := A.UsageOf(a.mem, nonce), A.UsageOf(A.Step(a, e).mem, nonce);
            (v.down == u.down && v.up == u.up) || (v.down == 0 && v.up == 0)
  {
    if e.Reserve? {
      var o := A.Open(a);
      assert A.UsageOf(o.mem, nonce) == A.UsageOf(a.mem, nonce) || A.UsageOf(o.mem, nonce) == A.ZERO;
      assert A.UsageOf(A.ReserveStep(a, e.c, e.down, e.up, e.persisted).mem, nonce) == A.UsageOf(o.mem, nonce);
    }
  }

  /** How a request of the nonce itself may change its usage: charged once or not at all. */
  lemma UsageAfterRequest(a: A.Agent, c: Claims, down: int, up: int, persisted: bool)
    requires var u := A.UsageOf(a.mem, c.nonce);
             0 <= u.down && 0 <= u.up && u.down + down <= MAX64 && u.up + up <= MAX64
    requires 0 <= down <= MAX64 && 0 <= up <= MAX64
    ensures var v := A.UsageOf(A.ReserveStep(a, c, down, up, persisted).mem, c.nonce);
            var w := A.UsageOf(A.Open(a).mem, c.nonce);
            && ((v.down == w.down && v.up == w.up) || (v.down == w.down + down && v.up == w.up + up))
            && (w == A.UsageOf(a.mem, c.nonce) || w == A.ZERO)
  {
  }

  lemma DeliverKeepsInv(s: Sys, c: Claims, i: nat, persisted: bool)
    requires Inv(s, c) && i in s.transit
    ensures Inv(Step(s, c, Deliver(i, persisted)), c)
  {
    var size := s.engine.issued[i];
    RoomForTransit(s, c, i);
    SumAtAdds(s.engine.issued, s.arrived, i);
    UsageAfterRequest(s.agent, c, DownOf(s.engine.direction, size), UpOf(s.engine.direction, size), persisted);
  }

  lemma CrashKeepsInv(s: Sys, c: Claims, i: nat, readable: bool)
    requires Inv(s, c) && i in s.transit
    ensures Inv(Step(s, c, DeliverIntoCrash(i, readable)), c)
  {
    assert A.UsageOf(Step(s, c, DeliverIntoCrash(i, readable)).agent.mem, c.nonce) == A.ZERO;
  }

  lemma BrowserKeepsInv(s: Sys, c: Claims, e: E.Event)
    requires Inv(s, c)
    ensures Inv(Step(s, c, Browser(e)), c)
  {
    E.StepKeepsInv(s.engine, e);
    IssuedGrows(s.engine, e);
    var issued, longer := s.engine.issued, E.Step(s.engine, e).issued;
    if longer != issued {
      SumAtExtends(issued, longer[|issued|], s.arrived);
    }
  }

  /** A step of the engine issues at most one request. */
  lemma IssuedGrows(s: E.Engine, e: E.Event)
    ensures var longer := E.Step(s, e).issued;
            longer == s.issued || (|longer| == |s.issued| + 1 && longer == s.issued + [longer[|s.issued|]])
  {
  }

  lemma StepKeepsInv(s: Sys, c: Claims, e: Event)
    requires Inv(s, c) && Private(c, e)
    ensures Inv(Step(s, c, e), c)
  {
    match e
    case Browser(b) => BrowserKeepsInv(s, c, b);
    case Deliver(i, persisted) => if i in s.transit { DeliverKeepsInv(s, c, i, persisted); }
    case DeliverIntoCrash(i, readable) => if i in s.transit { CrashKeepsInv(s, c, i, readable); }
    case Lose(i) =>
    case Elsewhere(a) => UsageAfterElsewhere(s.agent, a, c.nonce);
  }

  lemma {:induction false} RunKeepsInv(s: Sys, c: Claims, es: seq<Event>)
    requires Inv(s, c) && forall e :: e in es ==> Private(c, e)
    ensures Inv(Run(s, c, es), c)
    decreases |es|
  {
    if es != [] {
      StepKeepsInv(s, c, es[0]);
      RunKeepsInv(Step(s, c, es[0]), c, es[1..]);
    }
  }

  lemma FreshInv(s: Sys, c: Claims)
    requires Fresh(s, c)
    ensures Inv(s, c)
  {
    E.StartInv(s.engine.direction, s.engine.cap, s.engine.chunk, |s.engine.workers|);
  }

  /** The request passes the handler's size check and the agent's per-nonce byte test. */
  predicate Passes(s: Sys, c: Claims, i: nat)
    requires i < |s.engine.issued|
  {
    var size := s.engine.issued[i];
    && 0 < size <= (if s.engine.direction == E.Download then c.maxDownload else c.maxUpload)
    && A.AdmitsBytes(A.Open(s.agent).mem, c, DownOf(s.engine.direction, size), UpOf(s.engine.direction, size))
  }

  lemma IssuedArePositive(s: Sys, i: nat)
    requires E.Inv(s.engine) && i < |s.engine.issued|
    ensures 0 < s.engine.issued[i]
  {
    E.PlanShape(s.engine.cap, s.engine.chunk);
    assert s.engine.issued <= E.Plan(s.engine.cap, s.engine.chunk);
    assert s.engine.issued[i] == E.Plan(s.engine.cap, s.engine.chunk)[i];
  }

  lemma TransitPasses(s: Sys, c: Claims, i: nat)
    requires Inv(s, c) && i in s.transit
    ensures Passes(s, c, i)
  {
    IssuedArePositive(s, i);
    RoomForTransit(s, c, i);
    var u := A.UsageOf(A.Open(s.agent).mem, c.nonce);
    assert u == A.UsageOf(s.agent.mem, c.nonce) || u == A.ZERO;
  }

  /**
   * In every state of every run, whichever of the engine's requests arrives next passes the agent's
   * size check and its per-nonce byte test.
   */
  lemma {:induction false} NeverRefusedForBytes(s0: Sys, c: Claims, es: seq<Event>, i: nat)
    requires Fresh(s0, c) && forall e :: e in es ==> Private(c, e)
    requires i in Run(s0, c, es).transit
    ensures i < |Run(s0, c, es).engine.issued| && Passes(Run(s0, c, es), c, i)
  {
    FreshInv(s0, c);
    RunKeepsInv(s0, c, es);
    TransitPasses(Run(s0, c, es), c, i);
  }

  // ----- what a delivery does -----

  /** The client's default budgets are the caps the server signs. */
  lemma DefaultsAreSigned()
    ensures E.DEFAULT_DOWNLOAD == SIGNED_DOWNLOAD == 150_000_000
    ensures E.DEFAULT_UPLOAD == SIGNED_UPLOAD == 100_000_000
  {
  }

  /** A delivered request that the agent lets in is charged once, in the engine's direction and with its size. */
  lemma DeliveredIsCharged(s: Sys, c: Claims, i: nat)
    requires Inv(s, c) && i in s.transit && A.Accepts(s.agent, Request(s, c, i, true))
    ensures var t := Step(s, c, Deliver(i, true));
            var before, after := A.UsageOf(A.Open(s.agent).mem, c.nonce), A.UsageOf(t.agent.mem, c.nonce);
            && t.transit == s.transit - {i} && t.arrived == s.arrived + {i} && t.engine == s.engine
            && after.down == before.down + (if s.engine.direction == E.Download then s.engine.issued[i] else 0)
            && after.up == before.up + (if s.engine.direction == E.Upload then s.engine.issued[i] else 0)
            && t.agent.log == s.agent.log
                 + [A.Grant(s.agent.today, c.nonce, DownOf(s.engine.direction, s.engine.issued[i]),
                            UpOf(s.engine.direction, s.engine.issued[i]))]
  {
    RoomForTransit(s, c, i);
  }

  /** Every request issued is under way or has arrived, unless it was lost. */
  ghost predicate Accounted(s: Sys) {
    forall i: nat :: i in s.transit || i in s.arrived <==> i < |s.engine.issued|
  }

  lemma StepKeepsAccounted(s: Sys, c: Claims, e: Event)
    requires Accounted(s) && !e.Lose?
    ensures Accounted(Step(s, c, e))
  {
    if e.Browser? {
      IssuedGrows(s.engine, e.e);
    }
  }

  lemma {:induction false} RunKeepsAccounted(s: Sys, c: Claims, es: seq<Event>)
    requires Accounted(s) && forall e :: e in es ==> !e.Lose?
    ensures Accounted(Run(s, c, es))
    decreases |es|
  {
    if es != [] {
      assert es[0] in es;
      StepKeepsAccounted(s, c, es[0]);
      RunKeepsAccounted(Step(s, c, es[0]), c, es[1..]);
    }
  }

  /** In a run that loses nothing, what the engine issued is what arrived and what is still under way. */
  lemma NothingVanishes(s0: Sys, c: Claims, es: seq<Event>)
    requires Fresh(s0, c) && forall e :: e in es ==> !e.Lose?
    ensures Accounted(Run(s0, c, es))
  {
    RunKeepsAccounted(s0, c, es);
  }
}
