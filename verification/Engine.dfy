/**
 * The browser's bandwidth measurement (web/src/test-engine.ts): several workers share one byte budget
 * and interleave at every await. Holds for any number of workers, any budget and any chunk size.
 */
module Engine {
  import opened Wrappers

  datatype Direction = Download | Upload

  const DOWNLOAD_CHUNK: nat := 4 * 1024 * 1024
  const UPLOAD_CHUNK: nat := 512 * 1024
  const DEFAULT_DOWNLOAD: nat := 150_000_000  // what the client assumes it may download per grant
  const DEFAULT_UPLOAD: nat := 100_000_000

  /** Where a worker stands: at its loop head, awaiting a response, or reading a body. */
  datatype Worker =
    | Ready
    | Awaiting(size: nat)
    | Reading(size: nat, got: nat)
    | Stopped
    | Failed

  /** `bytes` is what the measurement has counted; `issued` the sizes requested so far, in order. */
  datatype Engine = Engine(
    direction: Direction,
    cap: nat,
    chunk: nat,
    reserved: nat,
    bytes: nat,
    issued: seq<nat>,
    workers: seq<Worker>
  )

  datatype Event =
    | Loop(w: nat, more: bool)          // loop head; `more` is the time and abort test
    | Respond(w: nat, ok: bool)         // the fetch settles
    | Chunk(w: nat, n: nat)             // a part of the body arrives
    | End(w: nat)                       // the body is complete
    | Break(w: nat)                     // the request is aborted or fails underway

  function Start(direction: Direction, cap: nat, chunk: nat, workers: nat): Engine {
    Engine(direction, cap, chunk, 0, 0, [], seq(workers, _ => Ready))
  }

  function Move(s: Engine, w: nat, to: Worker): Engine
    requires w < |s.workers|
  {
    s.(workers := s.workers[w := to])
  }

  /** The state after worker `w` took its next request from the shared budget. */
  function Issued(s: Engine, w: nat, size: nat): Engine
    requires w < |s.workers|
  {
    Engine(s.direction, s.cap, s.chunk, s.reserved + size, s.bytes, s.issued + [size], s.workers[w := Awaiting(size)])
  }

  /** The loop head: `remaining` is taken from the shared budget before the request is awaited. */
  function LoopStep(s: Engine, w: nat, more: bool): Engine
    requires w < |s.workers|
  {
    var remaining := s.cap - s.reserved;
    if !more || remaining <= 0 then Move(s, w, Stopped)
    else Issued(s, w, Min(s.chunk, remaining))
  }

  function Step(s: Engine, e: Event): Engine {
    if e.w >= |s.workers| then s
    else
      match (s.workers[e.w], e)
      case (Ready, Loop(w, more)) => LoopStep(s, w, more)
      case (Awaiting(size), Respond(w, ok)) =>
        if !ok then Move(s, w, Failed)
        else if s.direction == Download then Move(s, w, Reading(size, 0))
        else Move(s, w, Ready).(bytes := s.bytes + size)
      case (Reading(size, got), Chunk(w, n)) =>
        if got + n > size then s  // a body never exceeds its Content-Length
        else Move(s, w, Reading(size, got + n)).(bytes := s.bytes + n)
      case (Reading(size, got), End(w)) => Move(s, w, Ready)
      case (Reading(_, _), Break(w)) => Move(s, w, Failed)
      case (Awaiting(_), Break(w)) => Move(s, w, Failed)
      case _ => s
  }

  function Run(s: Engine, es: seq<Event>): Engine
    decreases |es|
  {
    if es == [] then s else Run(Step(s, es[0]), es[1..])
  }

  // ----- vocabulary -----

  function Sum(xs: seq<nat>): nat {
    if xs == [] then 0 else Sum(xs[..|xs| - 1]) + xs[|xs| - 1]
  }

  /** The one sequence of request sizes that exhausts a budget: full chunks and at most one shorter request. */
  function Plan(cap: nat, chunk: nat): seq<nat>
    requires chunk > 0
  {
    if cap == 0 then [] else if cap <= chunk then [cap] else [chunk] + Plan(cap - chunk, chunk)
  }

  /** Bytes a worker has reserved and may still count. */
  function Owed(w: Worker): nat {
    match w
    case Awaiting(size) => size
    case Reading(size, got) => if got <= size then size - got else 0
    case _ => 0
  }

  function TotalOwed(ws: seq<Worker>): nat {
    if ws == [] then 0 else TotalOwed(ws[..|ws| - 1]) + Owed(ws[|ws| - 1])
  }

  /** How much a worker can still do before it must return to the shared budget. */
  function Weight(w: Worker): nat {
    match w
    case Ready => 1
    case Awaiting(size) => size + 3
    case Reading(size, got) => (if got <= size then size - got else 0) + 2
    case _ => 0
  }

  function TotalWeight(ws: seq<Worker>): nat {
    if ws == [] then 0 else TotalWeight(ws[..|ws| - 1]) + Weight(ws[|ws| - 1])
  }

  /** The measure every effective step decreases. */
  function Potential(s: Engine): int {
    4 * (s.cap - s.reserved) + TotalWeight(s.workers)
  }

  /** The sizes requested so far add up to what was reserved and are the first requests of the plan. */
  predicate OnPlan(issued: seq<nat>, reserved: nat, cap: nat, chunk: nat)
    requires chunk > 0 && reserved <= cap
  {
    && reserved == Sum(issued)
    && issued + Plan(cap - reserved, chunk) == Plan(cap, chunk)
  }

  /** What was counted and what the workers may still count was reserved. */
  predicate Covered(bytes: nat, workers: seq<Worker>, reserved: nat) {
    bytes + TotalOwed(workers) <= reserved
  }

  ghost predicate Inv(s: Engine) {
    && s.chunk > 0
    && s.reserved <= s.cap
    && OnPlan(s.issued, s.reserved, s.cap, s.chunk)
    && Covered(s.bytes, s.workers, s.reserved)
  }

  // ----- sums over workers -----

  lemma {:induction false} OwedAfterMove(ws: seq<Worker>, i: nat, to: Worker)
    requires i < |ws|
    ensures TotalOwed(ws[i := to]) == TotalOwed(ws) - Owed(ws[i]) + Owed(to)
    decreases |ws|
  {
    var front := ws[..|ws| - 1];
    if i < |front| {
      OwedAfterMove(front, i, to);
      assert ws[i := to][..|ws| - 1] == front[i := to];
    } else {
      assert ws[i := to][..|ws| - 1] == front;
    }
  }

  lemma {:induction false} WeightAfterMove(ws: seq<Worker>, i: nat, to: Worker)
    requires i < |ws|
    ensures TotalWeight(ws[i := to]) == TotalWeight(ws) - Weight(ws[i]) + Weight(to)
    decreases |ws|
  {
    var front := ws[..|ws| - 1];
    if i < |front| {
      WeightAfterMove(front, i, to);
      assert ws[i := to][..|ws| - 1] == front[i := to];
    } else {
      assert ws[i := to][..|ws| - 1] == front;
    }
  }

  lemma {:induction false} FreshWorkers(n: nat)
    ensures TotalOwed(seq(n, _ => Ready)) == 0 && TotalWeight(seq(n, _ => Ready)) == n
  {
    if n > 0 {
      FreshWorkers(n - 1);
      var ws: seq<Worker> := seq(n, _ => Ready);
      assert ws[..n - 1] == seq(n - 1, _ => Ready);
    }
  }

  lemma PlanUnfolds(cap: nat, chunk: nat)
    requires chunk > 0 && cap > 0
    ensures Plan(cap, chunk) == [Min(chunk, cap)] + Plan(cap - Min(chunk, cap), chunk)
  {
  }

  // ----- one step -----

  /** One more request is the next request of the plan. */
  lemma PlanAdvances(issued: seq<nat>, reserved: nat, cap: nat, chunk: nat)
    requires chunk > 0 && reserved < cap && OnPlan(issued, reserved, cap, chunk)
    ensures var size := Min(chunk, cap - reserved); OnPlan(issued + [size], reserved + size, cap, chunk)
  {
    var left := cap - reserved;
    var size := Min(chunk, left);
    PlanUnfolds(left, chunk);
    assert issued + [size] + Plan(left - size, chunk) == issued + ([size] + Plan(left - size, chunk));
    assert (issued + [size])[..|issued|] == issued;
  }

  lemma CoveredAfterMove(bytes: nat, workers: seq<Worker>, reserved: nat, w: nat, bytes': nat, to: Worker,
                         reserved': nat)
    requires Covered(bytes, workers, reserved) && w < |workers|
    requires bytes' + Owed(to) - reserved' <= bytes + Owed(workers[w]) - reserved
    ensures Covered(bytes', workers[w := to], reserved')
  {
    OwedAfterMove(workers, w, to);
  }

  lemma IssueKeepsInv(s: Engine, w: nat, size: nat)
    requires Inv(s) && w < |s.workers| && s.workers[w] == Ready && s.reserved < s.cap
    requires size == Min(s.chunk, s.cap - s.reserved)
    ensures Inv(Issued(s, w, size))
  {
    CoveredAfterMove(s.bytes, s.workers, s.reserved, w, s.bytes, Awaiting(size), s.reserved + size);
    PlanAdvances(s.issued, s.reserved, s.cap, s.chunk);
  }

  lemma LoopKeepsInv(s: Engine, w: nat, more: bool)
    requires Inv(s) && w < |s.workers| && s.workers[w] == Ready
    ensures Inv(LoopStep(s, w, more))
  {
    if more && s.reserved < s.cap {
      IssueKeepsInv(s, w, Min(s.chunk, s.cap - s.reserved));
    } else {
      CoveredAfterMove(s.bytes, s.workers, s.reserved, w, s.bytes, Stopped, s.reserved);
    }
  }

  lemma StepKeepsInv(s: Engine, e: Event)
    requires Inv(s)
    ensures Inv(Step(s, e))
    ensures var t := Step(s, e); t.cap == s.cap && t.chunk == s.chunk && t.direction == s.direction
    ensures |Step(s, e).workers| == |s.workers|
  {
    var t := Step(s, e);
    if e.w < |s.workers| {
      OwedAfterMove(s.workers, e.w, t.workers[e.w]);
      if s.workers[e.w] == Ready && e.Loop? {
        LoopKeepsInv(s, e.w, e.more);
      }
    }
  }

  lemma {:induction false} RunKeepsInv(s: Engine, es: seq<Event>)
    requires Inv(s)
    ensures Inv(Run(s, es))
    ensures var t := Run(s, es); t.cap == s.cap && t.chunk == s.chunk && |t.workers| == |s.workers|
    decreases |es|
  {
    if es != [] {
      StepKeepsInv(s, es[0]);
      RunKeepsInv(Step(s, es[0]), es[1..]);
    }
  }

  lemma StartInv(direction: Direction, cap: nat, chunk: nat, workers: nat)
    requires chunk > 0
    ensures Inv(Start(direction, cap, chunk, workers))
    ensures Potential(Start(direction, cap, chunk, workers)) == 4 * cap + workers
  {
    FreshWorkers(workers);
  }

  // ----- the shape of a plan -----

  lemma {:induction false} PlanShape(cap: nat, chunk: nat)
    requires chunk > 0
    ensures Sum(Plan(cap, chunk)) == cap
    ensures |Plan(cap, chunk)| == (cap + chunk - 1) / chunk
    ensures forall i :: 0 <= i < |Plan(cap, chunk)| - 1 ==> Plan(cap, chunk)[i] == chunk
    ensures forall i :: 0 <= i < |Plan(cap, chunk)| ==> 0 < Plan(cap, chunk)[i] <= chunk
    decreases cap
  {
    Ceiling(cap, chunk);
    if 0 < cap <= chunk {
      assert Plan(cap, chunk)[..0] == [];
    } else if cap > chunk {
      PlanShape(cap - chunk, chunk);
      SumCons(chunk, Plan(cap - chunk, chunk));
    }
  }

  /** How ceil(cap / chunk) grows. */
  lemma Ceiling(cap: nat, chunk: nat)
    requires chunk > 0
    ensures cap == 0 ==> (cap + chunk - 1) / chunk == 0
    ensures 0 < cap <= chunk ==> (cap + chunk - 1) / chunk == 1
    ensures cap > chunk ==> (cap + chunk - 1) / chunk == 1 + (cap - chunk + chunk - 1) / chunk
  {
    if cap > 0 {
      DivStep(cap - 1, chunk);
    }
  }

  lemma {:induction false} SumCons(x: nat, xs: seq<nat>)
    ensures Sum([x] + xs) == x + Sum(xs)
    decreases |xs|
  {
    if xs != [] {
      SumCons(x, xs[..|xs| - 1]);
      assert ([x] + xs)[..|xs|] == [x] + xs[..|xs| - 1];
    } else {
      assert ([x] + xs)[..0] == [];
    }
  }

  lemma DivStep(a: nat, d: nat)
    requires d > 0
    ensures (a + d) / d == 1 + a / d
  {
    var k := (a + d) / d - a / d - 1;
    assert k * d == a % d - (a + d) % d;
    Multiple(k, d);
  }

  lemma Multiple(k: int, d: int)
    requires d > 0
    ensures k >= 1 ==> k * d >= d
    ensures k <= -1 ==> k * d <= -d
  {
  }

  // ----- theorems -----

  /**
   * However many workers run and however they interleave, the requests they issue are the first
   * requests of one fixed plan: never more than the budget, at most ceil(cap / chunk) of them, all full
   * chunks but the last of the plan; and no more is counted than was reserved.
   */
  lemma WorkersFollowThePlan(direction: Direction, cap: nat, chunk: nat, workers: nat, es: seq<Event>)
    requires chunk > 0
    ensures var s := Run(Start(direction, cap, chunk, workers), es);
            && s.issued <= Plan(cap, chunk)
            && s.reserved == Sum(s.issued) <= cap
            && s.bytes <= s.reserved
            && |s.issued| <= (cap + chunk - 1) / chunk
            && (forall i :: 0 <= i < |s.issued| ==>
                  s.issued[i] == chunk || (i == |s.issued| - 1 && s.reserved == cap))
  {
    var s0 := Start(direction, cap, chunk, workers);
    StartInv(direction, cap, chunk, workers);
    RunKeepsInv(s0, es);
    PrefixShape(Run(s0, es).issued, Run(s0, es).reserved, cap, chunk);
  }

  lemma PrefixShape(issued: seq<nat>, reserved: nat, cap: nat, chunk: nat)
    requires chunk > 0 && reserved <= cap && OnPlan(issued, reserved, cap, chunk)
    ensures issued <= Plan(cap, chunk) && |issued| <= (cap + chunk - 1) / chunk
    ensures forall i :: 0 <= i < |issued| ==> issued[i] == chunk || (i == |issued| - 1 && reserved == cap)
  {
    PlanShape(cap, chunk);
    forall i | 0 <= i < |issued| && issued[i] != chunk ensures i == |issued| - 1 && reserved == cap {
      assert Plan(cap, chunk)[i] != chunk;
      assert issued == Plan(cap, chunk);
    }
  }

  /** An event that moves its worker; an empty part of a body does not. */
  predicate Effective(s: Engine, e: Event) {
    Step(s, e) != s
  }

  predicate AllEffective(s: Engine, es: seq<Event>)
    decreases |es|
  {
    es == [] || (Effective(s, es[0]) && AllEffective(Step(s, es[0]), es[1..]))
  }

  lemma EffectiveStepsDescend(s: Engine, e: Event)
    requires Inv(s) && Effective(s, e)
    ensures 0 <= Potential(Step(s, e)) < Potential(s)
  {
    StepKeepsInv(s, e);
    StepLowers(s, e);
  }

  lemma StepLowers(s: Engine, e: Event)
    requires s.chunk > 0 && Effective(s, e)
    ensures Potential(Step(s, e)) < Potential(s)
  {
    var t := Step(s, e);
    WeightAfterMove(s.workers, e.w, t.workers[e.w]);
    assert t.workers == s.workers[e.w := t.workers[e.w]];
  }

  lemma {:induction false} RunsAreBounded(s: Engine, es: seq<Event>)
    requires Inv(s) && AllEffective(s, es)
    ensures |es| <= Potential(s)
    decreases |es|
  {
    if es != [] {
      EffectiveStepsDescend(s, es[0]);
      StepKeepsInv(s, es[0]);
      RunsAreBounded(Step(s, es[0]), es[1..]);
    }
  }

  /** The measurement ends: no interleaving takes more than 4 * cap + workers effective steps. */
  lemma MeasurementEnds(direction: Direction, cap: nat, chunk: nat, workers: nat, es: seq<Event>)
    requires chunk > 0 && AllEffective(Start(direction, cap, chunk, workers), es)
    ensures |es| <= 4 * cap + workers
  {
    StartInv(direction, cap, chunk, workers);
    RunsAreBounded(Start(direction, cap, chunk, workers), es);
  }
}
