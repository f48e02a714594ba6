/**
 * The agent's quota ledger as a step machine: `reserve` and the closure it returns, `load`,
 * `persistLocked`, the UTC clock and process crashes (internal/agent/agent.go).
 */
module AgentLedger {
  import opened Wrappers
  import opened Int64
  import opened Claims

  // ----- the ledger -----

  datatype Usage = Usage(down: int, up: int, streams: int)

  const ZERO: Usage := Usage(0, 0, 0)

  datatype Ledger = Ledger(
    byNonce: map<string, Usage>,
    active: map<string, int>,
    day: Option<nat>,
    daily: int,
    limit: int,
    maxActive: int
  )

  /** What quota.json holds. */
  datatype Quota = Quota(day: nat, bytes: int)

  function UsageOf(l: Ledger, nonce: string): Usage {
    if nonce in l.byNonce then l.byNonce[nonce] else ZERO
  }

  function Running(active: map<string, int>, key: string): int {
    if key in active then active[key] else 0
  }

  function TestKey(c: Claims): string {
    if c.testId == "" then c.nonce else c.testId
  }

  function EffectiveMax(maxActive: int): int {
    if maxActive <= 0 then 3 else maxActive
  }

  /** The ledger after the rollover test that opens every `reserve`. */
  function Opened(l: Ledger, today: nat): Ledger {
    var l' := if l.day == Some(today) then l
              else l.(day := Some(today), daily := 0, byNonce := map[], active := map[]);
    l'.(maxActive := EffectiveMax(l.maxActive))
  }

  predicate AdmitsTest(l: Ledger, c: Claims) {
    Running(l.active, TestKey(c)) != 0 || |l.active| < l.maxActive
  }

  /** The per-nonce byte test, on int64 sums. */
  predicate AdmitsBytes(l: Ledger, c: Claims, down: int, up: int) {
    var u := UsageOf(l, c.nonce);
    Add64(u.down, down) <= c.maxDownload && Add64(u.up, up) <= c.maxUpload
  }

  predicate AdmitsQuota(l: Ledger, down: int, up: int) {
    Add64(Add64(l.daily, down), up) <= l.limit
  }

  predicate Admits(l: Ledger, c: Claims, down: int, up: int) {
    && AdmitsTest(l, c)
    && UsageOf(l, c.nonce).streams < c.maxStreams
    && AdmitsBytes(l, c, down, up)
    && AdmitsQuota(l, down, up)
  }

  /** Creates the usage record of a nonce that has none. */
  function Touch(l: Ledger, nonce: string): Ledger {
    l.(byNonce := l.byNonce[nonce := UsageOf(l, nonce)])
  }

  function Charge(l: Ledger, c: Claims, down: int, up: int): Ledger {
    var u := UsageOf(l, c.nonce);
    var key := TestKey(c);
    l.(byNonce := l.byNonce[c.nonce := Usage(Add64(u.down, down), Add64(u.up, up), u.streams + 1)],
       active := l.active[key := Running(l.active, key) + 1],
       daily := Add64(l.daily, Add64(down, up)))
  }

  /** `active[key]--`, dropping the entry once it is no longer positive. */
  function Drop(active: map<string, int>, key: string): map<string, int> {
    if Running(active, key) - 1 <= 0 then active - {key} else active[key := active[key] - 1]
  }

  /** Undoes a charge whose quota file could not be written. */
  function Refund(l: Ledger, c: Claims, down: int, up: int): Ledger {
    var u := UsageOf(l, c.nonce);
    l.(byNonce := l.byNonce[c.nonce := Usage(Sub64(u.down, down), Sub64(u.up, up), u.streams - 1)],
       active := Drop(l.active, TestKey(c)),
       daily := Sub64(l.daily, Add64(down, up)))
  }

  /** A new process's ledger after `load`: yesterday's file counts for nothing. */
  function Loaded(limit: int, maxActive: int, disk: Option<Quota>, today: nat): Ledger {
    if disk.Some? && disk.value.day == today
    then Ledger(map[], map[], Some(today), disk.value.bytes, limit, maxActive)
    else Ledger(map[], map[], None, 0, limit, maxActive)
  }

  // ----- the machine -----

  /**
   * An outstanding release closure. `epoch` stands for the identity of the usage record the closure
   * holds: a rollover or a restart begins a new epoch, whose records are all new.
   */
  datatype Ticket = Ticket(nonce: string, key: string, epoch: nat)

  datatype Grant = Grant(day: nat, nonce: string, down: int, up: int)

  /**
   * `log` is the history of grants, `since` the number of them made before the current epoch, `base`
   * the quota the current epoch started from, and `out` the closures not yet called.
   */
  datatype Agent = Agent(
    mem: Ledger,
    epoch: nat,
    today: nat,
    disk: Option<Quota>,
    out: map<nat, Ticket>,
    issued: nat,
    log: seq<Grant>,
    since: nat,
    base: int
  )

  datatype Event =
    | Reserve(c: Claims, down: int, up: int, persisted: bool)
    | Release(id: nat)
    | Advance(days: nat)
    | Restart(readable: bool)
    | CrashInReserve(c: Claims, down: int, up: int, readable: bool)  // killed after the rename, before the answer

  function Init(limit: int, maxActive: int, today: nat): Agent {
    Agent(Loaded(limit, maxActive, None, today), 0, today, None, map[], 0, [], 0, 0)
  }

  /** The agent once `reserve` has made its rollover test. */
  function Open(s: Agent): Agent {
    var l := Opened(s.mem, s.today);
    if s.mem.day == Some(s.today) then s.(mem := l)
    else s.(mem := l, epoch := s.epoch + 1, since := |s.log|, base := 0)
  }

  function Reboot(s: Agent, readable: bool): Agent {
    var l := Loaded(s.mem.limit, s.mem.maxActive, if readable then s.disk else None, s.today);
    s.(mem := l, epoch := s.epoch + 1, out := map[], since := |s.log|, base := l.daily)
  }

  predicate Accepts(s: Agent, e: Event)
    requires e.Reserve?
  {
    Admits(Open(s).mem, e.c, e.down, e.up) && e.persisted
  }

  function ReserveStep(s: Agent, c: Claims, down: int, up: int, persisted: bool): Agent {
    var o := Open(s);
    if !AdmitsTest(o.mem, c) then o
    else if !Admits(o.mem, c, down, up) then o.(mem := Touch(o.mem, c.nonce))
    else if !persisted then o.(mem := Refund(Charge(o.mem, c, down, up), c, down, up))
    else Granted(o, c, down, up)
  }

  function Granted(o: Agent, c: Claims, down: int, up: int): Agent {
    var l := Charge(o.mem, c, down, up);
    o.(mem := l,
       disk := Some(Quota(o.today, l.daily)),
       out := o.out[o.issued := Ticket(c.nonce, TestKey(c), o.epoch)],
       issued := o.issued + 1,
       log := o.log + [Grant(o.today, c.nonce, down, up)])
  }

  /** The ledger after a release closure ran; only a closure of this epoch holds a record of the table. */
  function Released(l: Ledger, t: Ticket, epoch: nat): Ledger {
    var l' := if t.epoch == epoch && t.nonce in l.byNonce
              then l.(byNonce := l.byNonce[t.nonce := l.byNonce[t.nonce].(streams := l.byNonce[t.nonce].streams - 1)])
              else l;
    l'.(active := Drop(l.active, t.key))
  }

  function ReleaseStep(s: Agent, id: nat): Agent
    requires id in s.out
  {
    s.(mem := Released(s.mem, s.out[id], s.epoch), out := s.out - {id})
  }

  function CrashStep(s: Agent, c: Claims, down: int, up: int, readable: bool): Agent {
    var l := Opened(s.mem, s.today);
    Reboot(if Admits(l, c, down, up) then s.(disk := Some(Quota(s.today, Charge(l, c, down, up).daily))) else s,
           readable)
  }

  function Step(s: Agent, e: Event): Agent {
    match e
    case Reserve(c, down, up, persisted) => ReserveStep(s, c, down, up, persisted)
    case Release(id) => if id in s.out then ReleaseStep(s, id) else s
    case Advance(days) => s.(today := s.today + days)
    case Restart(readable) => Reboot(s, readable)
    case CrashInReserve(c, down, up, readable) => CrashStep(s, c, down, up, readable)
  }

  function Run(s: Agent, es: seq<Event>): Agent
    decreases |es|
  {
    if es == [] then s else Run(Step(s, es[0]), es[1..])
  }
}
