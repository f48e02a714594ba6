/**
 * When the daily ceiling holds and when it fails: exactly as long as the limit plus the largest request
 * fits an int64, and only while the quota file can be read after a restart.
 */
module LedgerOverflow {
  import opened Wrappers
  import opened Int64
  import opened Claims
  import opened AgentLedger
  import opened LedgerQuota

  /**
   * The largest request under the caps `d` and `u`: the two handlers ask for one direction at a time,
   * `reserve` itself also takes both.
   */
  function Largest(d: nat, u: nat, both: bool): nat {
    if both then d + u else Max(d, u)
  }

  /** A request under the caps `d` and `u`. */
  predicate Asks(c: Claims, down: int, up: int, d: nat, u: nat, both: bool) {
    && c.maxDownload == d && c.maxUpload == u && 0 <= down <= d && 0 <= up <= u
    && (both || down == 0 || up == 0)
  }

  predicate Served(e: Event, d: nat, u: nat, both: bool) {
    match e
    case Reserve(c, down, up, _) => Asks(c, down, up, d, u, both)
    case CrashInReserve(c, down, up, readable) => Asks(c, down, up, d, u, both) && readable
    case Restart(readable) => readable
    case _ => true
  }

  predicate AllServed(es: seq<Event>, d: nat, u: nat, both: bool) {
    forall e :: e in es ==> Served(e, d, u, both)
  }

  // ----- a day filled up to a given total -----

  /** Request number `i`, for `n` bytes, under a grant of its own. */
  function Ask(i: nat, n: nat, d: nat, u: nat, both: bool): Event {
    var down := if both then Min(n, d) else if d >= u then n else 0;
    Reserve(Claims(1, "key", "node", "session", "t", "::1", [], d, u, 4, 0, 60, seq(i, _ => 'x')), down, n - down, true)
  }

  /** Requests for `total` bytes altogether, each as large as allowed. */
  function Filling(total: nat, d: nat, u: nat, both: bool): seq<Event>
    requires Largest(d, u, both) > 0
  {
    if total == 0 then []
    else
      var n := Min(total, Largest(d, u, both));
      var before := Filling(total - n, d, u, both);
      before + [Ask(|before|, n, d, u, both)]
  }

  /** So far `i` requests for `total` bytes were granted on day 0, or none since a restart. */
  predicate Filled(s: Agent, limit: int, i: nat, total: int) {
    && s.today == 0 && s.mem.limit == limit && s.mem.daily == total
    && (s.mem.day == Some(0) || (s.mem.day == None && total == 0))
    && s.mem.active.Keys <= {"t"} && (forall k :: k in s.mem.active ==> s.mem.active[k] >= 1)
    && (forall n :: n in s.mem.byNonce ==> |n| < i)
  }

  lemma {:induction false} RunSnoc(s: Agent, es: seq<Event>, e: Event)
    ensures Run(s, es + [e]) == Step(Run(s, es), e)
    decreases |es|
  {
    if es == [] {
      assert [e][1..] == [];
    } else {
      assert (es + [e])[1..] == es[1..] + [e];
      RunSnoc(Step(s, es[0]), es[1..], e);
    }
  }

  lemma AskIsServed(i: nat, n: nat, d: nat, u: nat, both: bool)
    requires n <= Largest(d, u, both)
    ensures var e := Ask(i, n, d, u, both); Served(e, d, u, both) && e.down + e.up == n
  {
  }

  /** A new grant's request passes every test but possibly that of the quota. */
  lemma AskPasses(s: Agent, limit: int, i: nat, total: int, n: nat, d: nat, u: nat, both: bool)
    requires Filled(s, limit, i, total) && n <= Largest(d, u, both) && d <= MAX64 && u <= MAX64
    requires var e := Ask(i, n, d, u, both); Add64(Add64(total, e.down), e.up) <= limit
    ensures Accepts(s, Ask(i, n, d, u, both))
  {
    var e := Ask(i, n, d, u, both);
    var l := Open(s).mem;
    AskIsServed(i, n, d, u, both);
    assert |e.c.nonce| == i && e.c.nonce !in l.byNonce;
    if "t" !in l.active {
      assert l.active == map[];
    }
  }

  lemma AskGranted(s: Agent, limit: int, i: nat, total: int, n: nat, d: nat, u: nat, both: bool)
    requires Filled(s, limit, i, total) && n <= Largest(d, u, both) && d <= MAX64 && u <= MAX64
    requires Accepts(s, Ask(i, n, d, u, both))
    ensures var t := Step(s, Ask(i, n, d, u, both));
            && GrantedOn(t.log, 0) == GrantedOn(s.log, 0) + n
            && (0 <= total && total + n <= MAX64 ==> Filled(t, limit, i + 1, total + n))
  {
    var e := Ask(i, n, d, u, both);
    AskIsServed(i, n, d, u, both);
    GrantedAfter(s.log, Grant(0, e.c.nonce, e.down, e.up), 0);
    assert |e.c.nonce| == i;
    var o := Open(s);
    assert Step(s, e) == Granted(o, e.c, e.down, e.up);
  }

  /** A run goes on with a new grant's request, if the quota test lets it pass. */
  lemma AskAppended(s0: Agent, es: seq<Event>, limit: int, i: nat, total: int, n: nat, d: nat, u: nat, both: bool)
    requires Filled(Run(s0, es), limit, i, total) && n <= Largest(d, u, both) && d <= MAX64 && u <= MAX64
    requires var e := Ask(i, n, d, u, both); Add64(Add64(total, e.down), e.up) <= limit
    ensures var t := Run(s0, es + [Ask(i, n, d, u, both)]);
            && GrantedOn(t.log, 0) == GrantedOn(Run(s0, es).log, 0) + n
            && (0 <= total && total + n <= MAX64 ==> Filled(t, limit, i + 1, total + n))
  {
    var s := Run(s0, es);
    AskPasses(s, limit, i, total, n, d, u, both);
    AskGranted(s, limit, i, total, n, d, u, both);
    RunSnoc(s0, es, Ask(i, n, d, u, both));
  }

  /** The requests are allowed ones, and all their bytes, `total`, were granted on day 0. */
  predicate Reaches(s0: Agent, es: seq<Event>, limit: int, total: int, d: nat, u: nat, both: bool) {
    && AllServed(es, d, u, both)
    && Filled(Run(s0, es), limit, |es|, total) && GrantedOn(Run(s0, es).log, 0) == total
  }

  lemma OneMoreReaches(s0: Agent, es: seq<Event>, limit: int, total: nat, n: nat, d: nat, u: nat, both: bool)
    requires Reaches(s0, es, limit, total, d, u, both) && total + n <= limit <= MAX64
    requires n <= Largest(d, u, both) && d <= MAX64 && u <= MAX64
    ensures Reaches(s0, es + [Ask(|es|, n, d, u, both)], limit, total + n, d, u, both)
  {
    AskIsServed(|es|, n, d, u, both);
    AskAppended(s0, es, limit, |es|, total, n, d, u, both);
  }

  /** Any total within the limit can be reached. */
  lemma {:induction false} FillingReaches(limit: int, maxActive: int, total: nat, d: nat, u: nat, both: bool)
    requires total <= limit <= MAX64 && Largest(d, u, both) > 0 && d <= MAX64 && u <= MAX64
    ensures Reaches(Init(limit, maxActive, 0), Filling(total, d, u, both), limit, total, d, u, both)
    decreases total
  {
    if total > 0 {
      var n := Min(total, Largest(d, u, both));
      FillingReaches(limit, maxActive, total - n, d, u, both);
      OneMoreReaches(Init(limit, maxActive, 0), Filling(total - n, d, u, both), limit, total - n, n, d, u, both);
    }
  }

  // ----- the ceiling fails -----

  /** The day is filled to the limit, then asked for one byte more than an int64 can count. */
  function Overflowing(limit: nat, d: nat, u: nat, both: bool): seq<Event>
    requires limit <= MAX64 && Largest(d, u, both) > 0
  {
    var es := Filling(limit, d, u, both);
    es + [Ask(|es|, MAX64 + 1 - limit, d, u, both)]
  }

  /** Without room for the largest request the sum wraps around, and the limit is exceeded. */
  lemma OverflowBreaksTheCeiling(limit: nat, maxActive: int, d: nat, u: nat, both: bool)
    requires limit <= MAX64 && d <= MAX64 && u <= MAX64 && limit + Largest(d, u, both) > MAX64
    ensures var es := Overflowing(limit, d, u, both);
            AllServed(es, d, u, both) && GrantedOn(Run(Init(limit, maxActive, 0), es).log, 0) == MAX64 + 1 > limit
  {
    var s0, es, n := Init(limit, maxActive, 0), Filling(limit, d, u, both), MAX64 + 1 - limit;
    FillingReaches(limit, maxActive, limit, d, u, both);
    AskIsServed(|es|, n, d, u, both);
    AskAppended(s0, es, limit, |es|, limit, n, d, u, both);
  }

  /** One restart that cannot read the quota file is enough to exceed any limit. */
  lemma UnreadableRestartBreaksTheCeiling(limit: nat, maxActive: int, d: nat, u: nat, both: bool)
    requires 0 < limit <= MAX64 && d <= MAX64 && u <= MAX64 && Largest(d, u, both) > 0
    ensures var es := Filling(limit, d, u, both) + [Restart(false)] + [Ask(0, 1, d, u, both)];
            GrantedOn(Run(Init(limit, maxActive, 0), es).log, 0) == limit + 1
  {
    var s0, es := Init(limit, maxActive, 0), Filling(limit, d, u, both);
    FillingReaches(limit, maxActive, limit, d, u, both);
    RunSnoc(s0, es, Restart(false));
    AskAppended(s0, es + [Restart(false)], limit, 0, 0, 1, d, u, both);
  }

  // ----- and holds -----

  lemma ServedIsSound(e: Event, limit: nat, d: nat, u: nat, both: bool)
    requires Served(e, d, u, both) && limit + Largest(d, u, both) <= MAX64
    ensures Sound(e, limit)
  {
  }

  /**
   * For all limits and caps: every run of requests under these caps keeps the ceiling on every day, if
   * and only if the limit plus the largest such request is an int64.
   */
  lemma CeilingIff(limit: nat, maxActive: int, d: nat, u: nat, both: bool)
    requires limit <= MAX64 && d <= MAX64 && u <= MAX64
    ensures (forall today: nat, es: seq<Event>, day: nat :: AllServed(es, d, u, both) ==>
               GrantedOn(Run(Init(limit, maxActive, today), es).log, day) <= limit)
            <==> limit + Largest(d, u, both) <= MAX64
  {
    if limit + Largest(d, u, both) <= MAX64 {
      forall today: nat, es: seq<Event>, day: nat | AllServed(es, d, u, both)
        ensures GrantedOn(Run(Init(limit, maxActive, today), es).log, day) <= limit
      {
        forall e | e in es ensures Sound(e, limit) {
          ServedIsSound(e, limit, d, u, both);
        }
        DailyCeiling(limit, maxActive, today, es, day);
      }
    } else {
      OverflowBreaksTheCeiling(limit, maxActive, d, u, both);
    }
  }
}
