/**
 * What the ledger answers, in terms of its history alone: the quota it counts is exactly what it granted
 * today and what a crash swallowed, and a request is let in exactly if every limit leaves room for it.
 */
module LedgerAnswers {
  import opened Wrappers
  import opened Int64
  import opened Claims
  import opened AgentLedger
  import opened LedgerQuota
  import opened LedgerStreams

  /** The bytes an event charges to the quota file without granting them. */
  function Swallowed(s: Agent, e: Event): int {
    if e.CrashInReserve? && Admits(Open(s).mem, e.c, e.down, e.up) then e.down + e.up else 0
  }

  /** What was swallowed on the present day. */
  function LostAfter(s: Agent, lost: int, e: Event): int {
    if e.Advance? && e.days > 0 then 0 else lost + Swallowed(s, e)
  }

  function Lost(s: Agent, lost: int, es: seq<Event>): int
    decreases |es|
  {
    if es == [] then lost else Lost(Step(s, es[0]), LostAfter(s, lost, es[0]), es[1..])
  }

  ghost predicate Exact(s: Agent, lost: int) {
    QuotaInv(s) && MemQuota(s) == GrantedOn(s.log, s.today) + lost
  }

  lemma ReserveKeepsExact(s: Agent, lost: int, c: Claims, down: int, up: int, persisted: bool)
    requires Exact(s, lost) && Fits(c, down, up, s.mem.limit)
    ensures Exact(ReserveStep(s, c, down, up, persisted), lost)
  {
    ReserveKeepsQuota(s, c, down, up, persisted);
    OpenKeepsQuota(s);
    var o := Open(s);
    if Admits(o.mem, c, down, up) {
      ChargeIsExact(o.mem, c, down, up);
      if persisted {
        GrantedAfter(o.log, Grant(o.today, c.nonce, down, up), o.today);
      }
    }
  }

  lemma CrashKeepsExact(s: Agent, lost: int, c: Claims, down: int, up: int)
    requires Exact(s, lost) && Fits(c, down, up, s.mem.limit)
    ensures Exact(CrashStep(s, c, down, up, true), lost + Swallowed(s, CrashInReserve(c, down, up, true)))
  {
    CrashKeepsQuota(s, c, down, up);
    OpenKeepsQuota(s);
    if Admits(Open(s).mem, c, down, up) {
      ChargeIsExact(Open(s).mem, c, down, up);
    }
  }

  lemma StepKeepsExact(s: Agent, lost: int, e: Event)
    requires Exact(s, lost) && Sound(e, s.mem.limit)
    ensures Exact(Step(s, e), LostAfter(s, lost, e)) && Step(s, e).mem.limit == s.mem.limit
  {
    StepKeepsQuota(s, e);
    match e
    case Reserve(c, down, up, persisted) => ReserveKeepsExact(s, lost, c, down, up, persisted);
    case Release(id) =>
    case Advance(days) => if days > 0 { NothingGrantedLater(s.log, s.today + days); }
    case Restart(readable) =>
    case CrashInReserve(c, down, up, readable) => CrashKeepsExact(s, lost, c, down, up);
  }

  lemma {:induction false} RunKeepsExact(s: Agent, lost: int, es: seq<Event>)
    requires Exact(s, lost) && forall e :: e in es ==> Sound(e, s.mem.limit)
    ensures Exact(Run(s, es), Lost(s, lost, es)) && Run(s, es).mem.limit == s.mem.limit
    decreases |es|
  {
    if es != [] {
      StepKeepsExact(s, lost, es[0]);
      RunKeepsExact(Step(s, es[0]), LostAfter(s, lost, es[0]), es[1..]);
    }
  }

  /** In every run the quota counted today is what was granted today and what crashes swallowed today. */
  lemma QuotaIsExact(limit: int, maxActive: int, today: nat, es: seq<Event>)
    requires forall e :: e in es ==> Sound(e, limit)
    ensures var s0 := Init(limit, maxActive, today);
            var s := Run(s0, es);
            MemQuota(s) == GrantedOn(s.log, s.today) + Lost(s0, 0, es)
  {
    var s0 := Init(limit, maxActive, today);
    assert QuotaInv(s0);
    RunKeepsExact(s0, 0, es);
  }

  /** In a state that keeps its invariants, the answer by streams, tests, bytes and quota. */
  lemma StateAnswers(s: Agent, c: Claims, down: int, up: int)
    requires StreamInv(s)
    ensures var o := Open(s);
            var key := if c.testId == "" then c.nonce else c.testId;
            var max := if s.mem.maxActive <= 0 then 3 else s.mem.maxActive;
            var u := UsageOf(o.mem, c.nonce);
            Accepts(s, Reserve(c, down, up, true)) <==>
              && |HoldersOfNonce(o, c.nonce)| < c.maxStreams
              && (key in o.mem.active || |o.mem.active| < max)
              && Add64(u.down, down) <= c.maxDownload && Add64(u.up, up) <= c.maxUpload
              && Add64(Add64(o.mem.daily, down), up) <= o.mem.limit
  {
    OpenKeepsStreams(s);
    NewNonceHasNoHolders(Open(s), c.nonce);
  }

  /**
   * In every run a request is let in if and only if its quota file can be written and every limit leaves
   * room: the nonce has fewer streams open than signed, its test runs already or another may, its bytes
   * since the last rollover and the day's bytes stay within what was signed and configured.
   */
  lemma AnswerIff(limit: int, maxActive: int, today: nat, es: seq<Event>, signed: string -> Claims,
                  c: Claims, down: int, up: int, persisted: bool)
    requires forall e :: e in es ==> Sound(e, limit) && Genuine(e, signed)
    requires Fits(c, down, up, limit)
    ensures var s0 := Init(limit, maxActive, today);
            var s := Run(s0, es);
            var o := Open(s);
            var key := if c.testId == "" then c.nonce else c.testId;
            && o.since <= |o.log|
            && var spent := Spent(o.log[o.since..], c.nonce);
            (Accepts(s, Reserve(c, down, up, persisted)) <==>
               && persisted
               && |HoldersOfNonce(o, c.nonce)| < c.maxStreams
               && (key in o.mem.active || |o.mem.active| < if maxActive <= 0 then 3 else maxActive)
               && spent.0 + down <= c.maxDownload && spent.1 + up <= c.maxUpload
               && GrantedOn(s.log, s.today) + Lost(s0, 0, es) + down + up <= limit)
  {
    var s0 := Init(limit, maxActive, today);
    var s := Run(s0, es);
    assert StreamInv(s0);
    RunKeepsStreams(s0, es);
    InitKeepsBytes(limit, maxActive, today, es, signed);
    QuotaIsExact(limit, maxActive, today, es);
    StateAnswers(s, c, down, up);
    SumsAreExact(s, signed, c, down, up);
  }

  /** The sums of the answer are the true ones, and those of the history. */
  lemma SumsAreExact(s: Agent, signed: string -> Claims, c: Claims, down: int, up: int)
    requires BytesInv(s, signed) && Fits(c, down, up, s.mem.limit)
    ensures var o := Open(s);
            var u := UsageOf(o.mem, c.nonce);
            && o.since <= |o.log| && (u.down, u.up) == Spent(o.log[o.since..], c.nonce)
            && o.mem.daily == MemQuota(s) && o.mem.limit == s.mem.limit
            && Add64(u.down, down) == u.down + down && Add64(u.up, up) == u.up + up
            && Add64(Add64(o.mem.daily, down), up) == o.mem.daily + down + up
  {
    OpenKeepsQuota(s);
    OpenKeepsBytes(s, signed);
    NonceSumsAreExact(Open(s), c, down, up);
  }
}
