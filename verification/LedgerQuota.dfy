/**
 * What the ledger's byte counters keep in every run: the daily ceiling across restarts, conservation
 * of bytes between the daily total and the per-nonce records, and the absence of int64 overflow.
 */
module LedgerQuota {
  import opened Wrappers
  import opened Int64
  import opened Claims
  import opened AgentLedger

  // ----- vocabulary -----

  /** The bytes granted on day `d`. */
  function GrantedOn(log: seq<Grant>, d: nat): int {
    if log == [] then 0
    else
      var g := log[|log| - 1];
      GrantedOn(log[..|log| - 1], d) + if g.day == d then g.down + g.up else 0
  }

  /** The bytes granted to one nonce, per direction. */
  function Spent(log: seq<Grant>, nonce: string): (int, int) {
    if log == [] then (0, 0)
    else
      var g := log[|log| - 1];
      var before := Spent(log[..|log| - 1], nonce);
      if g.nonce == nonce then (before.0 + g.down, before.1 + g.up) else before
  }

  /** The sum of `down + up` over all usage records. */
  ghost function TotalUsage(m: map<string, Usage>): int {
    if m == map[] then 0
    else
      var n :| n in m;
      m[n].down + m[n].up + TotalUsage(m - {n})
  }

  /** Quota already used today, as memory sees it and as a restart would see it. */
  function MemQuota(s: Agent): int {
    if s.mem.day == Some(s.today) then s.mem.daily else 0
  }

  function DiskQuota(s: Agent): int {
    if s.disk.Some? && s.disk.value.day == s.today then s.disk.value.bytes else 0
  }

  function Ceiling(s: Agent): int {
    Max(0, s.mem.limit)
  }

  /** No day in the agent's memory, file or history lies in the future. */
  predicate Dated(s: Agent) {
    && (s.mem.day.Some? ==> s.mem.day.value <= s.today)
    && (s.disk.Some? ==> s.disk.value.day <= s.today)
    && (forall i :: 0 <= i < |s.log| ==> s.log[i].day <= s.today)
  }

  ghost predicate QuotaInv(s: Agent) {
    && Dated(s)
    && MemQuota(s) == DiskQuota(s)
    && 0 <= s.mem.daily <= Ceiling(s)
    && (s.disk.Some? ==> 0 <= s.disk.value.bytes <= Ceiling(s))
    && GrantedOn(s.log, s.today) <= DiskQuota(s)
    && (forall d: nat :: GrantedOn(s.log, d) <= Ceiling(s))
  }

  ghost predicate Conserved(s: Agent) {
    && s.since <= |s.log|
    && s.mem.daily == s.base + TotalUsage(s.mem.byNonce)
    && 0 <= s.base
    && (forall n :: n in s.mem.byNonce ==> 0 <= s.mem.byNonce[n].down && 0 <= s.mem.byNonce[n].up)
    && (forall n: string :: var u := UsageOf(s.mem, n); (u.down, u.up) == Spent(s.log[s.since..], n))
  }

  /** Each nonce stays within what its grant signed. `signed` maps a nonce to its only grant. */
  predicate WithinCaps(s: Agent, signed: string -> Claims) {
    forall n :: n in s.mem.byNonce ==>
      var u := s.mem.byNonce[n];
      && u.down <= Max(0, signed(n).maxDownload)
      && u.up <= Max(0, signed(n).maxUpload)
      && u.streams <= Max(0, signed(n).maxStreams)
  }

  /** What the download and upload handlers check before they reserve, and a limit that leaves room for the request. */
  predicate Fits(c: Claims, down: int, up: int, limit: int) {
    && 0 <= down <= c.maxDownload
    && 0 <= up <= c.maxUpload
    && Max(0, limit) + down + up <= MAX64
  }

  /** The assumptions of the quota theorems on one event: requests fit, and quota.json can be read. */
  predicate Sound(e: Event, limit: int) {
    match e
    case Reserve(c, down, up, _) => Fits(c, down, up, limit)
    case CrashInReserve(c, down, up, readable) => Fits(c, down, up, limit) && readable
    case Restart(readable) => readable
    case _ => true
  }

  /** The event presents the one grant signed for its nonce. */
  predicate Genuine(e: Event, signed: string -> Claims) {
    e.Reserve? ==> e.c == signed(e.c.nonce)
  }

  // ----- sums -----

  lemma {:induction false} TotalWithout(m: map<string, Usage>, n: string)
    requires n in m
    ensures TotalUsage(m) == m[n].down + m[n].up + TotalUsage(m - {n})
    decreases |m|
  {
    var k :| k in m && TotalUsage(m) == m[k].down + m[k].up + TotalUsage(m - {k});
    if k != n {
      TotalWithout(m - {k}, n);
      TotalWithout(m - {n}, k);
      assert m - {k} - {n} == m - {n} - {k};
    }
  }

  lemma TotalUpdated(m: map<string, Usage>, n: string, u: Usage)
    ensures TotalUsage(m[n := u]) == TotalUsage(m) + u.down + u.up - if n in m then m[n].down + m[n].up else 0
  {
    var m' := m[n := u];
    TotalWithout(m', n);
    if n in m {
      TotalWithout(m, n);
      assert m' - {n} == m - {n};
    } else {
      assert m' - {n} == m;
    }
  }

  lemma {:induction false} TotalBoundsEach(m: map<string, Usage>, n: string)
    requires n in m
    requires forall k :: k in m ==> 0 <= m[k].down && 0 <= m[k].up
    ensures m[n].down + m[n].up <= TotalUsage(m)
    decreases |m|
  {
    TotalWithout(m, n);
    var rest := m - {n};
    if rest != map[] {
      var k :| k in rest;
      TotalBoundsEach(rest, k);
    }
  }

  lemma GrantedAfter(log: seq<Grant>, g: Grant, d: nat)
    ensures GrantedOn(log + [g], d) == GrantedOn(log, d) + if g.day == d then g.down + g.up else 0
  {
    assert (log + [g])[..|log|] == log;
  }

  lemma SpentAfter(log: seq<Grant>, since: nat, g: Grant, n: string)
    requires since <= |log|
    ensures Spent((log + [g])[since..], n)
         == var before := Spent(log[since..], n);
            if g.nonce == n then (before.0 + g.down, before.1 + g.up) else before
  {
    var tail := log[since..];
    assert (log + [g])[since..] == tail + [g];
    assert (tail + [g])[..|tail|] == tail;
  }

  lemma {:induction false} NothingGrantedLater(log: seq<Grant>, d: nat)
    requires forall i :: 0 <= i < |log| ==> log[i].day < d
    ensures GrantedOn(log, d) == 0
  {
    if log != [] {
      NothingGrantedLater(log[..|log| - 1], d);
    }
  }

  // ----- int64 -----

  /** A refund takes back exactly the bytes and the stream the charge added, wrapped or not. */
  lemma RefundUndoesCharge(l: Ledger, c: Claims, down: int, up: int)
    requires Is64(l.daily) && Is64(UsageOf(l, c.nonce).down) && Is64(UsageOf(l, c.nonce).up)
    requires Is64(down) && Is64(up)
    ensures Refund(Charge(l, c, down, up), c, down, up)
         == Touch(l, c.nonce).(active := Drop(Charge(l, c, down, up).active, TestKey(c)))
  {
    var charged := Charge(l, c, down, up);
    assert UsageOf(charged, c.nonce).streams - 1 == UsageOf(l, c.nonce).streams;
    assert Refund(charged, c, down, up).byNonce == Touch(l, c.nonce).byNonce;
  }

  /**
   * The quota test is exact precisely when its own sum does not overflow: an admitted request leaves
   * the day within the limit if and only if the true sum is an int64.
   */
  lemma AdmittedWithinLimitIff(l: Ledger, down: int, up: int)
    requires 0 <= l.daily <= MAX64 && 0 <= down <= MAX64 && 0 <= up <= MAX64 && Is64(l.limit)
    requires AdmitsQuota(l, down, up)
    ensures l.daily + down + up <= l.limit <==> l.daily + down + up <= MAX64
  {
  }

  // ----- the daily ceiling -----

  lemma OpenKeepsQuota(s: Agent)
    requires QuotaInv(s)
    ensures QuotaInv(Open(s)) && Open(s).mem.day == Some(s.today)
  {
  }

  /** What an admitted request does to the daily total. */
  lemma ChargeIsExact(l: Ledger, c: Claims, down: int, up: int)
    requires 0 <= l.daily <= Max(0, l.limit) && Fits(c, down, up, l.limit) && AdmitsQuota(l, down, up)
    ensures Charge(l, c, down, up).daily == l.daily + down + up <= l.limit
  {
  }

  lemma GrantKeepsQuota(o: Agent, c: Claims, down: int, up: int)
    requires QuotaInv(o) && o.mem.day == Some(o.today)
    requires Fits(c, down, up, o.mem.limit) && AdmitsQuota(o.mem, down, up)
    ensures QuotaInv(Granted(o, c, down, up))
  {
    var t := Granted(o, c, down, up);
    ChargeIsExact(o.mem, c, down, up);
    forall d: nat ensures GrantedOn(t.log, d) == GrantedOn(o.log, d) + if d == o.today then down + up else 0 {
      GrantedAfter(o.log, Grant(o.today, c.nonce, down, up), d);
    }
  }

  lemma RefundKeepsQuota(o: Agent, c: Claims, down: int, up: int)
    requires QuotaInv(o) && o.mem.day == Some(o.today)
    requires Fits(c, down, up, o.mem.limit) && AdmitsQuota(o.mem, down, up)
    ensures QuotaInv(o.(mem := Refund(Charge(o.mem, c, down, up), c, down, up)))
  {
    ChargeIsExact(o.mem, c, down, up);
  }

  lemma AdvanceKeepsQuota(s: Agent, days: nat)
    requires QuotaInv(s)
    ensures QuotaInv(s.(today := s.today + days))
  {
    if days > 0 {
      NothingGrantedLater(s.log, s.today + days);
    }
  }

  lemma CrashKeepsQuota(s: Agent, c: Claims, down: int, up: int)
    requires QuotaInv(s) && Fits(c, down, up, s.mem.limit)
    ensures QuotaInv(CrashStep(s, c, down, up, true))
  {
    var l := Opened(s.mem, s.today);
    if Admits(l, c, down, up) {
      ChargeIsExact(l, c, down, up);
    }
  }

  lemma ReserveKeepsQuota(s: Agent, c: Claims, down: int, up: int, persisted: bool)
    requires QuotaInv(s) && Fits(c, down, up, s.mem.limit)
    ensures QuotaInv(ReserveStep(s, c, down, up, persisted))
    ensures ReserveStep(s, c, down, up, persisted).mem.limit == s.mem.limit
  {
    OpenKeepsQuota(s);
    var o := Open(s);
    if Admits(o.mem, c, down, up) {
      if persisted { GrantKeepsQuota(o, c, down, up); } else { RefundKeepsQuota(o, c, down, up); }
    }
  }

  lemma ReleaseKeepsQuota(s: Agent, id: nat)
    requires QuotaInv(s) && id in s.out
    ensures QuotaInv(ReleaseStep(s, id)) && ReleaseStep(s, id).mem.limit == s.mem.limit
  {
  }

  lemma RestartKeepsQuota(s: Agent)
    requires QuotaInv(s)
    ensures QuotaInv(Reboot(s, true)) && Reboot(s, true).mem.limit == s.mem.limit
  {
  }

  lemma {:induction false} StepKeepsQuota(s: Agent, e: Event)
    requires QuotaInv(s) && Sound(e, s.mem.limit)
    ensures QuotaInv(Step(s, e)) && Step(s, e).mem.limit == s.mem.limit
  {
    match e
    case Reserve(c, down, up, persisted) => ReserveKeepsQuota(s, c, down, up, persisted);
    case Release(id) => if id in s.out { ReleaseKeepsQuota(s, id); }
    case Advance(days) => AdvanceKeepsQuota(s, days);
    case Restart(readable) => RestartKeepsQuota(s);
    case CrashInReserve(c, down, up, readable) => CrashKeepsQuota(s, c, down, up);
  }

  lemma {:induction false} RunKeepsQuota(s: Agent, es: seq<Event>)
    requires QuotaInv(s) && forall e :: e in es ==> Sound(e, s.mem.limit)
    ensures QuotaInv(Run(s, es)) && Run(s, es).mem.limit == s.mem.limit
    decreases |es|
  {
    if es != [] {
      StepKeepsQuota(s, es[0]);
      RunKeepsQuota(Step(s, es[0]), es[1..]);
    }
  }

  /**
   * Whatever requests, releases, failed writes, rollovers and crashes happen in whatever order, no
   * calendar day is ever granted more than the limit, and a restart sees what memory saw.
   */
  lemma DailyCeiling(limit: int, maxActive: int, today: nat, es: seq<Event>, d: nat)
    requires forall e :: e in es ==> Sound(e, limit)
    ensures var s := Run(Init(limit, maxActive, today), es);
            && GrantedOn(s.log, d) <= Max(0, limit)
            && GrantedOn(s.log, s.today) <= MemQuota(s) == DiskQuota(s) <= Max(0, limit)
  {
    var s := Init(limit, maxActive, today);
    assert QuotaInv(s);
    RunKeepsQuota(s, es);
  }

  /** A restart keeps today's quota exactly when the file is readable or had nothing for today. */
  lemma RestartKeepsQuotaIff(s: Agent, readable: bool)
    requires QuotaInv(s)
    ensures MemQuota(Reboot(s, readable)) == MemQuota(s) <==> readable || DiskQuota(s) == 0
  {
  }

  // ----- conservation and the per-nonce caps -----

  ghost predicate BytesInv(s: Agent, signed: string -> Claims) {
    QuotaInv(s) && Conserved(s) && WithinCaps(s, signed)
  }

  lemma EmptyConserved(s: Agent)
    requires s.mem.byNonce == map[] && s.since == |s.log| && s.mem.daily == s.base && 0 <= s.base
    ensures Conserved(s)
  {
    assert s.log[s.since..] == [];
  }

  lemma TouchKeepsBytes(o: Agent, c: Claims, signed: string -> Claims)
    requires BytesInv(o, signed)
    ensures BytesInv(o.(mem := Touch(o.mem, c.nonce)), signed)
  {
    TotalUpdated(o.mem.byNonce, c.nonce, UsageOf(o.mem, c.nonce));
  }

  /** Under the invariant the per-nonce sums of an admitted request do not overflow either. */
  lemma NonceSumsAreExact(o: Agent, c: Claims, down: int, up: int)
    requires QuotaInv(o) && Conserved(o) && Fits(c, down, up, o.mem.limit)
    ensures var u := UsageOf(o.mem, c.nonce);
            0 <= u.down && 0 <= u.up && u.down + u.up <= o.mem.daily
            && Add64(u.down, down) == u.down + down && Add64(u.up, up) == u.up + up
  {
    if c.nonce in o.mem.byNonce {
      TotalBoundsEach(o.mem.byNonce, c.nonce);
    }
  }

  lemma GrantConserves(o: Agent, c: Claims, down: int, up: int)
    requires QuotaInv(o) && Conserved(o)
    requires Fits(c, down, up, o.mem.limit) && AdmitsQuota(o.mem, down, up)
    ensures Conserved(Granted(o, c, down, up))
  {
    var t := Granted(o, c, down, up);
    ChargeIsExact(o.mem, c, down, up);
    NonceSumsAreExact(o, c, down, up);
    TotalUpdated(o.mem.byNonce, c.nonce, t.mem.byNonce[c.nonce]);
    forall n: string ensures var u := UsageOf(t.mem, n); (u.down, u.up) == Spent(t.log[t.since..], n) {
      SpentAfter(o.log, o.since, Grant(o.today, c.nonce, down, up), n);
      assert (UsageOf(o.mem, n).down, UsageOf(o.mem, n).up) == Spent(o.log[o.since..], n);
    }
  }

  lemma GrantKeepsCaps(o: Agent, c: Claims, down: int, up: int, signed: string -> Claims)
    requires WithinCaps(o, signed) && c == signed(c.nonce) && Admits(o.mem, c, down, up)
    ensures WithinCaps(Granted(o, c, down, up), signed)
  {
  }

  /** A change of stream counts alone moves no bytes. */
  lemma SameBytes(s: Agent, t: Agent)
    requires Conserved(s) && t.log == s.log && t.since == s.since && t.base == s.base && t.mem.daily == s.mem.daily
    requires t.mem.byNonce.Keys == s.mem.byNonce.Keys && TotalUsage(t.mem.byNonce) == TotalUsage(s.mem.byNonce)
    requires forall n :: n in s.mem.byNonce ==>
               t.mem.byNonce[n].down == s.mem.byNonce[n].down && t.mem.byNonce[n].up == s.mem.byNonce[n].up
    ensures Conserved(t)
  {
    forall n: string ensures var u := UsageOf(t.mem, n); (u.down, u.up) == Spent(t.log[t.since..], n) {
      var u := UsageOf(s.mem, n);
      assert (u.down, u.up) == Spent(s.log[s.since..], n);
    }
  }

  lemma ReleaseKeepsBytes(s: Agent, id: nat, signed: string -> Claims)
    requires Conserved(s) && WithinCaps(s, signed) && id in s.out
    ensures Conserved(ReleaseStep(s, id)) && WithinCaps(ReleaseStep(s, id), signed)
  {
    var t := s.out[id];
    if t.nonce in s.mem.byNonce {
      var u := s.mem.byNonce[t.nonce];
      TotalUpdated(s.mem.byNonce, t.nonce, u.(streams := u.streams - 1));
    }
    SameBytes(s, ReleaseStep(s, id));
  }

  lemma OpenKeepsBytes(s: Agent, signed: string -> Claims)
    requires Conserved(s) && WithinCaps(s, signed)
    ensures Conserved(Open(s)) && WithinCaps(Open(s), signed)
  {
    if s.mem.day != Some(s.today) {
      EmptyConserved(Open(s));
    }
  }

  lemma RefundKeepsBytes(o: Agent, c: Claims, down: int, up: int, signed: string -> Claims)
    requires BytesInv(o, signed) && Fits(c, down, up, o.mem.limit)
    ensures var t := o.(mem := Refund(Charge(o.mem, c, down, up), c, down, up));
            Conserved(t) && WithinCaps(t, signed)
  {
    NonceSumsAreExact(o, c, down, up);
    RefundUndoesCharge(o.mem, c, down, up);
    TouchKeepsBytes(o, c, signed);
  }

  lemma ReserveKeepsBytes(s: Agent, c: Claims, down: int, up: int, persisted: bool, signed: string -> Claims)
    requires BytesInv(s, signed) && Fits(c, down, up, s.mem.limit) && c == signed(c.nonce)
    ensures var t := ReserveStep(s, c, down, up, persisted); Conserved(t) && WithinCaps(t, signed)
  {
    OpenKeepsQuota(s);
    OpenKeepsBytes(s, signed);
    var o := Open(s);
    if !AdmitsTest(o.mem, c) {
    } else if !Admits(o.mem, c, down, up) {
      TouchKeepsBytes(o, c, signed);
    } else if !persisted {
      RefundKeepsBytes(o, c, down, up, signed);
    } else {
      GrantConserves(o, c, down, up);
      GrantKeepsCaps(o, c, down, up, signed);
    }
  }

  lemma RebootKeepsBytes(s: Agent, signed: string -> Claims)
    requires QuotaInv(Reboot(s, true))
    ensures Conserved(Reboot(s, true)) && WithinCaps(Reboot(s, true), signed)
  {
    EmptyConserved(Reboot(s, true));
  }

  lemma StepKeepsBytes(s: Agent, e: Event, signed: string -> Claims)
    requires BytesInv(s, signed) && Sound(e, s.mem.limit) && Genuine(e, signed)
    ensures BytesInv(Step(s, e), signed) && Step(s, e).mem.limit == s.mem.limit
  {
    StepKeepsQuota(s, e);
    match e
    case Reserve(c, down, up, persisted) => ReserveKeepsBytes(s, c, down, up, persisted, signed);
    case Release(id) => if id in s.out { ReleaseKeepsBytes(s, id, signed); }
    case Advance(days) =>
    case Restart(readable) => RebootKeepsBytes(s, signed);
    case CrashInReserve(c, down, up, readable) =>
      var l := Opened(s.mem, s.today);
      var crashed := if Admits(l, c, down, up)
                     then s.(disk := Some(Quota(s.today, Charge(l, c, down, up).daily))) else s;
      RebootKeepsBytes(crashed, signed);
  }

  lemma {:induction false} RunKeepsBytes(s: Agent, es: seq<Event>, signed: string -> Claims)
    requires BytesInv(s, signed)
    requires forall e :: e in es ==> Sound(e, s.mem.limit) && Genuine(e, signed)
    ensures BytesInv(Run(s, es), signed) && Run(s, es).mem.limit == s.mem.limit
    decreases |es|
  {
    if es != [] {
      StepKeepsBytes(s, es[0], signed);
      RunKeepsBytes(Step(s, es[0]), es[1..], signed);
    }
  }

  lemma InitKeepsBytes(limit: int, maxActive: int, today: nat, es: seq<Event>, signed: string -> Claims)
    requires forall e :: e in es ==> Sound(e, limit) && Genuine(e, signed)
    ensures BytesInv(Run(Init(limit, maxActive, today), es), signed)
    ensures Run(Init(limit, maxActive, today), es).mem.limit == limit
  {
    var s0 := Init(limit, maxActive, today);
    EmptyConserved(s0);
    RunKeepsBytes(s0, es, signed);
  }

  /**
   * Conservation: in every run the daily total is what the epoch started from plus all bytes held by
   * the usage records, and a record holds exactly the bytes granted to its nonce in this epoch and
   * stays within the signed caps, streams included.
   */
  lemma BytesConserved(limit: int, maxActive: int, today: nat, es: seq<Event>, signed: string -> Claims, n: string)
    requires forall e :: e in es ==> Sound(e, limit) && Genuine(e, signed)
    ensures var s := Run(Init(limit, maxActive, today), es);
            && s.mem.daily == s.base + TotalUsage(s.mem.byNonce)
            && s.since <= |s.log|
            && var u := UsageOf(s.mem, n);
            && (u.down, u.up) == Spent(s.log[s.since..], n)
            && 0 <= u.down <= Max(0, signed(n).maxDownload)
            && 0 <= u.up <= Max(0, signed(n).maxUpload)
            && u.streams <= Max(0, signed(n).maxStreams)
  {
    InitKeepsBytes(limit, maxActive, today, es, signed);
  }

  /** No sum the next request forms on the counters overflows an int64, in any reachable state. */
  lemma NoCounterOverflows(limit: int, maxActive: int, today: nat, es: seq<Event>, signed: string -> Claims,
                           c: Claims, down: int, up: int)
    requires forall e :: e in es ==> Sound(e, limit) && Genuine(e, signed)
    requires Fits(c, down, up, limit)
    ensures var s := Run(Init(limit, maxActive, today), es);
            var u := UsageOf(s.mem, c.nonce);
            Is64(u.down + down) && Is64(u.up + up) && Is64(s.mem.daily + down) && Is64(s.mem.daily + down + up)
  {
    InitKeepsBytes(limit, maxActive, today, es, signed);
    NonceSumsAreExact(Run(Init(limit, maxActive, today), es), c, down, up);
  }
}
