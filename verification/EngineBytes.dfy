/**
 * What a measurement counts: every byte reserved is counted, still expected, or given up with a request
 * that failed, in every interleaving; and a measurement that runs in time spends its whole budget.
 */
module EngineBytes {
  import opened Wrappers
  import opened E = Engine

  /** The bytes given up for good when a request fails, breaks off or ends short. */
  function Abandoned(s: Engine, e: Event): nat {
    if e.w >= |s.workers| then 0
    else
      match (s.workers[e.w], e)
      case (Awaiting(size), Respond(_, ok)) => if ok then 0 else size
      case (Awaiting(size), Break(_)) => size
      case (Reading(size, got), End(_)) => if got <= size then size - got else 0
      case (Reading(size, got), Break(_)) => if got <= size then size - got else 0
      case _ => 0
  }

  function Lost(s: Engine, es: seq<Event>): nat
    decreases |es|
  {
    if es == [] then 0 else Abandoned(s, es[0]) + Lost(Step(s, es[0]), es[1..])
  }

  /** What is counted or still expected. */
  function Balance(s: Engine): int {
    s.bytes + TotalOwed(s.workers) - s.reserved
  }

  lemma StepBalances(s: Engine, e: Event)
    requires Inv(s)
    ensures Balance(Step(s, e)) + Abandoned(s, e) == Balance(s)
  {
    if e.w < |s.workers| {
      var t := Step(s, e);
      OwedAfterMove(s.workers, e.w, t.workers[e.w]);
      assert t.workers == s.workers[e.w := t.workers[e.w]];
    }
  }

  lemma {:induction false} RunBalances(s: Engine, es: seq<Event>)
    requires Inv(s)
    ensures Balance(Run(s, es)) + Lost(s, es) == Balance(s)
    decreases |es|
  {
    if es != [] {
      StepBalances(s, es[0]);
      StepKeepsInv(s, es[0]);
      RunBalances(Step(s, es[0]), es[1..]);
    }
  }

  /** The worker has left its loop. */
  predicate Over(w: Worker) {
    w.Stopped? || w.Failed?
  }

  predicate Done(s: Engine) {
    forall w :: 0 <= w < |s.workers| ==> Over(s.workers[w])
  }

  lemma {:induction false} NothingOwed(ws: seq<Worker>)
    requires forall w :: 0 <= w < |ws| ==> Over(ws[w])
    ensures TotalOwed(ws) == 0
  {
    if ws != [] {
      NothingOwed(ws[..|ws| - 1]);
    }
  }

  /**
   * Conservation: in every interleaving the bytes counted, the bytes still expected and the bytes given up
   * are together the sizes of all requests; at the end the count is short by exactly what was given up.
   */
  lemma BytesAccounted(direction: Direction, cap: nat, chunk: nat, workers: nat, es: seq<Event>)
    requires chunk > 0
    ensures var s0 := Start(direction, cap, chunk, workers);
            var s := Run(s0, es);
            && s.bytes + TotalOwed(s.workers) + Lost(s0, es) == Sum(s.issued)
            && (Done(s) ==> s.bytes == Sum(s.issued) - Lost(s0, es))
  {
    var s0 := Start(direction, cap, chunk, workers);
    StartInv(direction, cap, chunk, workers);
    FreshWorkers(workers);
    RunBalances(s0, es);
    RunKeepsInv(s0, es);
    if Done(Run(s0, es)) {
      NothingOwed(Run(s0, es).workers);
    }
  }

  // ----- the whole budget -----

  /** Neither the time ran out nor the user gave up at any loop head. */
  predicate InTime(es: seq<Event>) {
    forall e :: e in es && e.Loop? ==> e.more
  }

  predicate AnyStopped(s: Engine) {
    exists w :: 0 <= w < |s.workers| && s.workers[w].Stopped?
  }

  lemma {:induction false} StoppedMeansSpent(s: Engine, es: seq<Event>)
    requires Inv(s) && (AnyStopped(s) ==> s.reserved == s.cap) && InTime(es)
    ensures var t := Run(s, es); AnyStopped(t) ==> t.reserved == t.cap
    decreases |es|
  {
    if es != [] {
      assert es[0] in es;
      StepKeepsInv(s, es[0]);
      SpentStep(s, es[0]);
      StoppedMeansSpent(Step(s, es[0]), es[1..]);
    }
  }

  lemma SpentStep(s: Engine, e: Event)
    requires Inv(s) && (AnyStopped(s) ==> s.reserved == s.cap) && (e.Loop? ==> e.more)
    ensures var t := Step(s, e); AnyStopped(t) ==> t.reserved == t.cap
  {
    var t := Step(s, e);
    if AnyStopped(t) && !AnyStopped(s) {
      var w :| 0 <= w < |t.workers| && t.workers[w].Stopped?;
      assert w == e.w && s.workers[w] == Ready;
    }
  }

  /**
   * A measurement in time whose workers have all left, one of them for want of budget, has issued the
   * whole plan, and counted its whole budget but for what was given up.
   */
  lemma BudgetIsSpent(direction: Direction, cap: nat, chunk: nat, workers: nat, es: seq<Event>)
    requires chunk > 0 && InTime(es)
    requires var s := Run(Start(direction, cap, chunk, workers), es); Done(s) && AnyStopped(s)
    ensures var s0 := Start(direction, cap, chunk, workers);
            var s := Run(s0, es);
            s.issued == Plan(cap, chunk) && s.bytes == cap - Lost(s0, es)
  {
    var s0 := Start(direction, cap, chunk, workers);
    StartInv(direction, cap, chunk, workers);
    RunKeepsInv(s0, es);
    StoppedMeansSpent(s0, es);
    BytesAccounted(direction, cap, chunk, workers, es);
    PlanShape(cap, chunk);
  }

  lemma {:induction false} RunSnoc(s: Engine, es: seq<Event>, e: Event)
    ensures Run(s, es + [e]) == Step(Run(s, es), e)
    decreases |es|
  {
    if es == [] {
      assert [] + [e] == [e] && [e][1..] == [];
    } else {
      assert (es + [e])[0] == es[0] && (es + [e])[1..] == es[1..] + [e];
      RunSnoc(Step(s, es[0]), es[1..], e);
    }
  }
}
