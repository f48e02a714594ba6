/**
 * The shared variables of a bandwidth measurement as its workers update them between two awaits, and the
 * agent's loop that writes a download body. Each method is one atomic step of the machine in Engine.
 */
module EngineObject {
  import opened Wrappers
  import opened E = Engine
  import opened EngineBytes

  class Measurement {
    const direction: Direction
    const cap: nat
    const chunk: nat
    var reserved: nat
    var bytes: nat
    var issued: seq<nat>
    var workers: seq<Worker>

    ghost function Model(): Engine
      reads this
    {
      Engine(direction, cap, chunk, reserved, bytes, issued, workers)
    }

    /** The budget is never overdrawn, and what was counted was reserved. */
    ghost predicate Valid()
      reads this
      ensures Valid() ==> reserved <= cap && bytes <= reserved
    {
      Inv(Model())
    }

    constructor (direction: Direction, cap: nat, chunk: nat, count: nat)
      requires chunk > 0
      ensures Valid() && Model() == Start(direction, cap, chunk, count)
    {
      this.direction, this.cap, this.chunk := direction, cap, chunk;
      reserved, bytes, issued := 0, 0, [];
      workers := seq(count, _ => Ready);
      new;
      StartInv(direction, cap, chunk, count);
    }

    /** The loop head: the size to request, or None when the worker is done. */
    method Next(w: nat, more: bool) returns (request: Option<nat>)
      requires Valid() && w < |workers| && workers[w] == Ready
      modifies this
      ensures Valid() && Model() == Step(old(Model()), Loop(w, more))
      ensures request == if more && old(reserved) < cap then Some(Min(chunk, cap - old(reserved))) else None
    {
      LoopKeepsInv(Model(), w, more);
      var remaining := cap - reserved;
      if !more || remaining <= 0 {
        workers := workers[w := Stopped];
        return None;
      }
      var requested := if chunk < remaining then chunk else remaining;
      reserved := reserved + requested;
      issued := issued + [requested];
      workers := workers[w := Awaiting(requested)];
      assert Model() == Issued(old(Model()), w, requested);
      return Some(requested);
    }

    /** The awaited response settles. */
    method Settle(w: nat, ok: bool)
      requires Valid() && w < |workers| && workers[w].Awaiting?
      modifies this
      ensures Valid() && Model() == Step(old(Model()), Respond(w, ok))
      ensures bytes == old(bytes) + if ok && direction == Upload then old(workers[w].size) else 0
    {
      StepKeepsInv(Model(), Respond(w, ok));
      var size := workers[w].size;
      if !ok {
        workers := workers[w := Failed];
      } else if direction == Download {
        workers := workers[w := Reading(size, 0)];
      } else {
        bytes := bytes + size;
        workers := workers[w := Ready];
      }
    }

    /** A part of a download body arrives. */
    method Receive(w: nat, n: nat)
      requires Valid() && w < |workers| && workers[w].Reading? && workers[w].got + n <= workers[w].size
      modifies this
      ensures Valid() && Model() == Step(old(Model()), Chunk(w, n))
      ensures bytes == old(bytes) + n
    {
      StepKeepsInv(Model(), Chunk(w, n));
      bytes := bytes + n;
      workers := workers[w := Reading(workers[w].size, workers[w].got + n)];
    }

    /** The body is complete, or the request broke off. */
    method Finish(w: nat, whole: bool)
      requires Valid() && w < |workers| && workers[w].Reading?
      modifies this
      ensures Valid() && Model() == Step(old(Model()), if whole then End(w) else Break(w))
      ensures bytes == old(bytes)
    {
      StepKeepsInv(Model(), if whole then End(w) else Break(w));
      workers := workers[w := if whole then Ready else Failed];
    }

    /** Whatever worker `w` does next, the measurement comes closer to its end. */
    method Proceed(w: nat) returns (ghost e: Event)
      requires Valid() && w < |workers| && !Over(workers[w])
      modifies this
      ensures Valid() && e.w == w && Model() == Step(old(Model()), e)
      ensures 0 <= Potential(Model()) < old(Potential(Model()))
    {
      var yes: bool := *;
      ghost var before := Model();
      match workers[w] {
        case Ready =>
          e := Loop(w, yes);
          var _ := Next(w, yes);
        case Awaiting(_) =>
          e := Respond(w, yes);
          Settle(w, yes);
        case Reading(size, got) =>
          var n: nat := *;
          if 0 < n && got + n <= size {
            e := Chunk(w, n);
            Receive(w, n);
          } else {
            e := if yes then End(w) else Break(w);
            Finish(w, yes);
          }
      }
      EffectiveStepsDescend(before, e);
    }
  }

  /**
   * A whole measurement: the workers proceed in any order and with any luck, recorded in `es`, until none
   * is left, which always happens. The requests issued are the first ones of the plan, and the bytes
   * counted are theirs but for what was given up on the way.
   */
  method Measure(direction: Direction, cap: nat, chunk: nat, count: nat)
    returns (bytes: nat, issued: seq<nat>, ghost es: seq<Event>)
    requires chunk > 0
    ensures bytes <= Sum(issued) <= cap && issued <= Plan(cap, chunk) && |issued| <= (cap + chunk - 1) / chunk
    ensures var s0 := Start(direction, cap, chunk, count);
            var end := Run(s0, es);
            && Done(end) && end.bytes == bytes && end.issued == issued
            && bytes == Sum(issued) - Lost(s0, es)
  {
    var m := new Measurement(direction, cap, chunk, count);
    es := [];
    while exists w :: 0 <= w < |m.workers| && !Over(m.workers[w])
      invariant m.Valid() && fresh(m) && m.cap == cap && m.chunk == chunk
      invariant m.Model() == Run(Start(direction, cap, chunk, count), es)
      decreases Potential(m.Model())
    {
      var w :| 0 <= w < |m.workers| && !Over(m.workers[w]);
      ghost var e := m.Proceed(w);
      RunSnoc(Start(direction, cap, chunk, count), es, e);
      es := es + [e];
    }
    PrefixShape(m.issued, m.reserved, cap, chunk);
    BytesAccounted(direction, cap, chunk, count, es);
    return m.bytes, m.issued, es;
  }

  const BUFFER: nat := 64 * 1024

  /**
   * The agent's download loop: the sizes of the pieces it wrote before write number `failing` failed. All
   * pieces are full buffers but the last, and without a failure they add up to the body.
   */
  method WriteBody(size: nat, failing: nat) returns (pieces: seq<nat>)
    ensures Sum(pieces) <= size && |pieces| <= failing
    ensures |pieces| < failing ==> Sum(pieces) == size
    ensures forall i :: 0 <= i < |pieces| ==>
              0 < pieces[i] <= BUFFER && (pieces[i] == BUFFER || (i == |pieces| - 1 && Sum(pieces) == size))
  {
    pieces := [];
    var n := size;
    while n > 0
      invariant n >= 0 && Sum(pieces) + n == size && |pieces| <= failing
      invariant forall i :: 0 <= i < |pieces| ==> 0 < pieces[i] <= BUFFER && (pieces[i] == BUFFER || n == 0)
      invariant forall i :: 0 <= i < |pieces| - 1 ==> pieces[i] == BUFFER
    {
      var take := if BUFFER > n then n else BUFFER;
      if |pieces| == failing {
        return;
      }
      ghost var before := pieces;
      pieces := pieces + [take];
      assert pieces[..|pieces| - 1] == before;
      n := n - take;
    }
  }
}
