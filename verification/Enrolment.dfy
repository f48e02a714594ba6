/**
 * Node enrolment (internal/server/server.go): join handlers interleave statement by statement with each
 * other, with the administrator creating and deleting nodes, with agents connecting, and with invites.
 */
module Enrolment {
  import opened Wrappers
  import T = OneTimeTokens

  type Key = string

  datatype NodeRow = NodeRow(key: Option<Key>, online: bool)

  /** A join request; `key` is None when its public key does not decode to 32 bytes. */
  datatype Request = Request(hash: T.Hash, nodeId: string, key: Option<Key>)

  /** What a join handler has done so far; it has a statement ahead unless it is finished. */
  datatype Handler =
    | Selected(r: Request, forNode: string)
    | Consumed(r: Request, forNode: string)
    | NoRow(r: Request, id: string)          // its UPDATE matched no row
    | Joined(r: Request, id: string)
    | Refused(status: int)

  /** A public key written into a node row, and the token it was written with. */
  datatype Write = Write(hash: T.Hash, id: string, key: Key)

  datatype Server = Server(
    now: int,
    tokens: T.Table,
    invites: T.Table,
    nodes: map<string, NodeRow>,
    handlers: map<nat, Handler>,
    writes: seq<Write>,
    sessions: nat,      // access sessions opened with an invite
    ids: set<string>    // node ids ever generated
  )

  datatype Event =
    | Advance(seconds: nat)
    | CreateJoin(hash: T.Hash, id: string)
    | CreateInvite(hash: T.Hash)
    | RedeemInvite(hash: T.Hash, inserted: bool)
    | DeleteNode(id: string)
    | Connect(id: string, online: bool)
    | Select(h: nat, r: Request)
    | Consume(h: nat)
    | Update(h: nat, random: string)
    | InsertNode(h: nat)
    | Fail(h: nat)                     // the database refuses the handler's next statement

  const START: Server := Server(0, T.EMPTY, T.EMPTY, map[], map[], [], 0, {})

  function CreateJoinStep(s: Server, hash: T.Hash, id: string): Server {
    if id == "" || id in s.ids || id in s.nodes || hash in s.tokens.rows then s
    else s.(nodes := s.nodes[id := NodeRow(None, false)],
            tokens := T.Insert(s.tokens, hash, id, s.now + 600),
            ids := s.ids + {id})
  }

  function RedeemStep(s: Server, hash: T.Hash, inserted: bool): Server {
    var ok := T.Consumable(s.invites.rows, hash, s.now);
    s.(invites := T.Consume(s.invites, hash, s.now),
       sessions := if ok && inserted then s.sessions + 1 else s.sessions)
  }

  function SelectStep(s: Server, h: nat, r: Request): Server {
    if h in s.handlers then s
    else s.(handlers := s.handlers[h :=
              if T.Consumable(s.tokens.rows, r.hash, s.now) then Selected(r, s.tokens.rows[r.hash].nodeId)
              else Refused(401)])
  }

  function ConsumeStep(s: Server, h: nat): Server
    requires h in s.handlers && s.handlers[h].Selected?
  {
    var r := s.handlers[h].r;
    if T.Consumable(s.tokens.rows, r.hash, s.now)
    then s.(tokens := T.Consume(s.tokens, r.hash, s.now),
            handlers := s.handlers[h := Consumed(r, s.handlers[h].forNode)])
    else s.(handlers := s.handlers[h := Refused(401)])
  }

  /** The node the request is about: the one the token was made for, the requested one, or a new one. */
  function Target(forNode: string, requested: string, random: string): string {
    if forNode != "" then forNode else if requested != "" then requested else random
  }

  function UpdateStep(s: Server, h: nat, random: string): Server
    requires h in s.handlers && s.handlers[h].Consumed?
  {
    var r := s.handlers[h].r;
    var id := Target(s.handlers[h].forNode, r.nodeId, random);
    if r.key.None? then s.(handlers := s.handlers[h := Refused(400)])
    else if id in s.nodes
    then s.(nodes := s.nodes[id := s.nodes[id].(key := r.key)],
            handlers := s.handlers[h := Joined(r, id)],
            writes := s.writes + [Write(r.hash, id, r.key.value)])
    else s.(handlers := s.handlers[h := NoRow(r, id)])
  }

  function InsertStep(s: Server, h: nat): Server
    requires h in s.handlers && s.handlers[h].NoRow?
  {
    var r, id := s.handlers[h].r, s.handlers[h].id;
    if id in s.nodes || r.key.None? then s.(handlers := s.handlers[h := Refused(409)])
    else s.(nodes := s.nodes[id := NodeRow(r.key, false)],
            handlers := s.handlers[h := Joined(r, id)],
            writes := s.writes + [Write(r.hash, id, r.key.value)])
  }

  /** A statement that fails changes no row; the handler answers and is done. */
  function FailStep(s: Server, h: nat): Server
    requires h in s.handlers && Working(s.handlers[h])
  {
    s.(handlers := s.handlers[h := Refused(if s.handlers[h].Selected? then 401 else 409)])
  }

  predicate Working(x: Handler) {
    x.Selected? || x.Consumed? || x.NoRow?
  }

  function Step(s: Server, e: Event): Server {
    match e
    case Advance(seconds) => s.(now := s.now + seconds)
    case CreateJoin(hash, id) => CreateJoinStep(s, hash, id)
    case CreateInvite(hash) => s.(invites := T.Insert(s.invites, hash, "", s.now + 1800))
    case RedeemInvite(hash, inserted) => RedeemStep(s, hash, inserted)
    case DeleteNode(id) => if id in s.nodes && !s.nodes[id].online then s.(nodes := s.nodes - {id}) else s
    case Connect(id, online) => if id in s.nodes then s.(nodes := s.nodes[id := s.nodes[id].(online := online)]) else s
    case Select(h, r) => SelectStep(s, h, r)
    case Consume(h) => if h in s.handlers && s.handlers[h].Selected? then ConsumeStep(s, h) else s
    case Update(h, random) => if h in s.handlers && s.handlers[h].Consumed? then UpdateStep(s, h, random) else s
    case InsertNode(h) => if h in s.handlers && s.handlers[h].NoRow? then InsertStep(s, h) else s
    case Fail(h) => if h in s.handlers && Working(s.handlers[h]) then FailStep(s, h) else s
  }

  function Run(s: Server, es: seq<Event>): Server
    decreases |es|
  {
    if es == [] then s else Run(Step(s, es[0]), es[1..])
  }

  // ----- the invariant -----

  /** Tokens name distinct nodes whose ids were generated for them. */
  predicate TokensAssigned(s: Server) {
    && (forall h :: h in s.tokens.rows ==> s.tokens.rows[h].nodeId in s.ids && s.tokens.rows[h].nodeId != "")
    && (forall g, h :: g in s.tokens.rows && h in s.tokens.rows && g != h ==>
          s.tokens.rows[g].nodeId != s.tokens.rows[h].nodeId)
  }

  /** The token is spent and belongs to the node. */
  predicate Spent(s: Server, hash: T.Hash, id: string) {
    hash in s.tokens.rows && s.tokens.rows[hash].usedAt.Some? && s.tokens.rows[hash].nodeId == id
  }

  predicate HandlerOk(s: Server, x: Handler) {
    match x
    case Selected(r, forNode) => r.hash in s.tokens.rows && s.tokens.rows[r.hash].nodeId == forNode
    case Consumed(r, forNode) => Spent(s, r.hash, forNode)
    case NoRow(r, id) => Spent(s, r.hash, id)
    case Joined(r, id) => r.key.Some? && Write(r.hash, id, r.key.value) in s.writes
    case Refused(_) => true
  }

  /** The handler holds a spent token and has written no key yet. */
  predicate Holding(x: Handler) {
    x.Consumed? || x.NoRow?
  }

  predicate HandlersOk(s: Server) {
    && (forall h :: h in s.handlers ==> HandlerOk(s, s.handlers[h]))
    && (forall g, h :: g in s.handlers && h in s.handlers && g != h
                       && Holding(s.handlers[g]) && Holding(s.handlers[h]) ==>
          s.handlers[g].r.hash != s.handlers[h].r.hash)
    && (forall h, i :: h in s.handlers && Holding(s.handlers[h]) && 0 <= i < |s.writes| ==>
          s.handlers[h].r.hash != s.writes[i].hash)
  }

  predicate WritesOk(s: Server) {
    && (forall i :: 0 <= i < |s.writes| ==> Spent(s, s.writes[i].hash, s.writes[i].id))
    && (forall i, j :: 0 <= i < j < |s.writes| ==> s.writes[i].hash != s.writes[j].hash)
  }

  predicate Inv(s: Server) {
    && T.Inv(s.tokens) && T.Inv(s.invites)
    && TokensAssigned(s) && HandlersOk(s) && WritesOk(s)
    && s.sessions <= |s.invites.uses|
  }

  // ----- one step -----

  /** More tokens leave handlers and writes in order. */
  lemma MoreTokens(s: Server, t: Server)
    requires HandlersOk(s) && WritesOk(s) && t.handlers == s.handlers && t.writes == s.writes
    requires forall x :: x in s.tokens.rows ==> x in t.tokens.rows && t.tokens.rows[x] == s.tokens.rows[x]
    ensures HandlersOk(t) && WritesOk(t)
  {
    forall g | g in t.handlers ensures HandlerOk(t, t.handlers[g]) {
      assert HandlerOk(s, s.handlers[g]);
    }
    forall i | 0 <= i < |t.writes| ensures Spent(t, t.writes[i].hash, t.writes[i].id) {
      assert Spent(s, s.writes[i].hash, s.writes[i].id);
    }
  }

  lemma CreateJoinKeepsInv(s: Server, hash: T.Hash, id: string)
    requires Inv(s)
    ensures Inv(CreateJoinStep(s, hash, id))
  {
    T.InsertKeepsInv(s.tokens, hash, id, s.now + 600);
    MoreTokens(s, CreateJoinStep(s, hash, id));
  }

  lemma FailKeepsInv(s: Server, h: nat)
    requires Inv(s) && h in s.handlers && Working(s.handlers[h])
    ensures Inv(FailStep(s, h))
  {
    forall g | g in s.handlers && g != h ensures HandlerOk(FailStep(s, h), s.handlers[g]) {
      assert HandlerOk(s, s.handlers[g]);
    }
  }

  lemma SelectKeepsInv(s: Server, h: nat, r: Request)
    requires Inv(s)
    ensures Inv(SelectStep(s, h, r))
  {
  }

  lemma ConsumedHandlersOk(s: Server, h: nat)
    requires Inv(s) && h in s.handlers && s.handlers[h].Selected?
    requires T.Consumable(s.tokens.rows, s.handlers[h].r.hash, s.now)
    ensures HandlersOk(ConsumeStep(s, h))
  {
    var t := ConsumeStep(s, h);
    var hash := s.handlers[h].r.hash;
    forall g | g in t.handlers ensures HandlerOk(t, t.handlers[g]) {
      assert HandlerOk(s, s.handlers[g]);
    }
    forall g | g in s.handlers && Holding(s.handlers[g]) ensures s.handlers[g].r.hash != hash {
      assert HandlerOk(s, s.handlers[g]);
    }
    forall i | 0 <= i < |s.writes| ensures s.writes[i].hash != hash {
      assert Spent(s, s.writes[i].hash, s.writes[i].id);
    }
  }

  lemma ConsumeKeepsInv(s: Server, h: nat)
    requires Inv(s) && h in s.handlers && s.handlers[h].Selected?
    ensures Inv(ConsumeStep(s, h))
  {
    if T.Consumable(s.tokens.rows, s.handlers[h].r.hash, s.now) {
      T.ConsumeKeepsInv(s.tokens, s.handlers[h].r.hash, s.now);
      ConsumedHandlersOk(s, h);
      ConsumedWritesOk(s, h);
    } else {
      assert ConsumeStep(s, h) == FailStep(s, h);
      FailKeepsInv(s, h);
    }
  }

  lemma ConsumedWritesOk(s: Server, h: nat)
    requires Inv(s) && h in s.handlers && s.handlers[h].Selected?
    requires T.Consumable(s.tokens.rows, s.handlers[h].r.hash, s.now)
    ensures WritesOk(ConsumeStep(s, h)) && TokensAssigned(ConsumeStep(s, h))
  {
    var t := ConsumeStep(s, h);
    forall i | 0 <= i < |t.writes| ensures Spent(t, t.writes[i].hash, t.writes[i].id) {
      assert Spent(s, s.writes[i].hash, s.writes[i].id);
    }
  }

  lemma UpdateKeepsInv(s: Server, h: nat, random: string)
    requires Inv(s) && h in s.handlers && s.handlers[h].Consumed?
    ensures Inv(UpdateStep(s, h, random))
  {
    var t := UpdateStep(s, h, random);
    assert Spent(s, s.handlers[h].r.hash, s.handlers[h].forNode);
    assert s.handlers[h].forNode != "";
    WriteKeepsInv(s, t, h);
  }

  lemma InsertKeepsInv(s: Server, h: nat)
    requires Inv(s) && h in s.handlers && s.handlers[h].NoRow?
    ensures Inv(InsertStep(s, h))
  {
    WriteKeepsInv(s, InsertStep(s, h), h);
  }

  /** A handler moves on without touching the tokens, writing at most one key, for its own node. */
  lemma WriteKeepsInv(s: Server, t: Server, h: nat)
    requires Inv(s) && h in s.handlers && Holding(s.handlers[h])
    requires t.tokens == s.tokens && t.invites == s.invites && t.ids == s.ids && t.sessions == s.sessions
    requires h in t.handlers && t.handlers == s.handlers[h := t.handlers[h]]
    requires var r := s.handlers[h].r;
             || (t.writes == s.writes && t.handlers[h].Refused?)
             || (t.writes == s.writes && t.handlers[h].NoRow? && t.handlers[h].r == r
                 && Spent(s, r.hash, t.handlers[h].id))
             || (t.handlers[h].Joined? && t.handlers[h].r == r && r.key.Some? && Spent(s, r.hash, t.handlers[h].id)
                 && t.writes == s.writes + [Write(r.hash, t.handlers[h].id, r.key.value)])
    ensures Inv(t)
  {
    var r := s.handlers[h].r;
    forall g | g in t.handlers ensures HandlerOk(t, t.handlers[g]) {
      if g == h {
        if t.handlers[h].Joined? {
          assert t.writes[|s.writes|] == Write(r.hash, t.handlers[h].id, r.key.value);
        }
      } else {
        assert HandlerOk(s, s.handlers[g]);
      }
    }
  }

  lemma AdminKeepsInv(s: Server, e: Event)
    requires Inv(s) && (e.Advance? || e.CreateInvite? || e.RedeemInvite? || e.DeleteNode? || e.Connect?)
    ensures Inv(Step(s, e))
  {
    if e.CreateInvite? {
      T.InsertKeepsInv(s.invites, e.hash, "", s.now + 1800);
    } else if e.RedeemInvite? {
      T.ConsumeKeepsInv(s.invites, e.hash, s.now);
    }
  }

  lemma StepKeepsInv(s: Server, e: Event)
    requires Inv(s)
    ensures Inv(Step(s, e))
  {
    match e
    case CreateJoin(hash, id) => CreateJoinKeepsInv(s, hash, id);
    case Select(h, r) => SelectKeepsInv(s, h, r);
    case Consume(h) => if h in s.handlers && s.handlers[h].Selected? { ConsumeKeepsInv(s, h); }
    case Update(h, random) => if h in s.handlers && s.handlers[h].Consumed? { UpdateKeepsInv(s, h, random); }
    case InsertNode(h) => if h in s.handlers && s.handlers[h].NoRow? { InsertKeepsInv(s, h); }
    case Fail(h) => if h in s.handlers && Working(s.handlers[h]) { FailKeepsInv(s, h); }
    case _ => AdminKeepsInv(s, e);
  }

  lemma {:induction false} RunKeepsInv(s: Server, es: seq<Event>)
    requires Inv(s)
    ensures Inv(Run(s, es))
    decreases |es|
  {
    if es != [] {
      StepKeepsInv(s, es[0]);
      RunKeepsInv(Step(s, es[0]), es[1..]);
    }
  }

  // ----- theorems -----

  ghost function JoinedHandlers(s: Server): set<nat> {
    set h | h in s.handlers && s.handlers[h].Joined?
  }

  /**
   * In every interleaving each join token and each invite is consumed at most once and never after it
   * expired, and invites never open more sessions than were consumed.
   */
  lemma TokensWorkOnce(es: seq<Event>)
    ensures var s := Run(START, es);
            && T.SingleUse(s.tokens.uses) && T.SingleUse(s.invites.uses)
            && (forall u :: u in s.tokens.uses ==> u.hash in s.tokens.rows && u.at <= s.tokens.rows[u.hash].expires)
            && (forall u :: u in s.invites.uses ==> u.hash in s.invites.rows && u.at <= s.invites.rows[u.hash].expires)
            && s.sessions <= |s.invites.uses| <= |s.invites.rows|
  {
    RunKeepsInv(START, es);
    var s := Run(START, es);
    T.DistinctFit(s.invites.uses, s.invites.rows.Keys);
  }

  /**
   * In every interleaving, node deletions included, no node id ever has its public key written twice, and
   * every write used up a token made for that node.
   */
  lemma KeyWrittenOnce(es: seq<Event>)
    ensures var s := Run(START, es);
            && (forall i, j :: 0 <= i < j < |s.writes| ==> s.writes[i].id != s.writes[j].id)
            && (forall i :: 0 <= i < |s.writes| ==> Spent(s, s.writes[i].hash, s.writes[i].id))
  {
    RunKeepsInv(START, es);
  }

  /** Successful joins never outnumber the tokens issued. */
  lemma JoinsWithinTokens(es: seq<Event>)
    ensures var s := Run(START, es); |s.writes| <= |s.tokens.uses| <= |s.tokens.rows|
  {
    RunKeepsInv(START, es);
    var s := Run(START, es);
    T.DistinctFit(s.tokens.uses, s.tokens.rows.Keys);
    WritesFitUses(s.writes, s);
  }

  lemma WritesFitUses(writes: seq<Write>, s: Server)
    requires Inv(s) && writes == s.writes
    ensures |writes| <= |s.tokens.uses|
  {
    var used := set i | 0 <= i < |s.tokens.uses| :: s.tokens.uses[i].hash;
    UsedCount(s.tokens.uses, |s.tokens.uses|);
    forall i | 0 <= i < |writes| ensures writes[i].hash in used {
      var h := writes[i].hash;
      assert Spent(s, h, writes[i].id);
      var u := T.Use(h, s.tokens.rows[h].usedAt.value);
      assert u in s.tokens.uses;
    }
    WritesFit(writes, used);
  }

  lemma {:induction false} UsedCount(uses: seq<T.Use>, n: nat)
    requires n <= |uses|
    ensures |set i | 0 <= i < n :: uses[i].hash| <= n
  {
    if n > 0 {
      UsedCount(uses, n - 1);
      var before := set i | 0 <= i < n - 1 :: uses[i].hash;
      assert (set i | 0 <= i < n :: uses[i].hash) == before + {uses[n - 1].hash};
    }
  }

  lemma {:induction false} WritesFit(writes: seq<Write>, hashes: set<T.Hash>)
    requires forall i :: 0 <= i < |writes| ==> writes[i].hash in hashes
    requires forall i, j :: 0 <= i < j < |writes| ==> writes[i].hash != writes[j].hash
    ensures |writes| <= |hashes|
    decreases |writes|
  {
    if writes != [] {
      WritesFit(writes[1..], hashes - {writes[0].hash});
    }
  }

  /** Every handler that answered 201 wrote its key, with a spent token of that node. */
  lemma JoinedWroteItsKey(es: seq<Event>, h: nat)
    requires h in JoinedHandlers(Run(START, es))
    ensures var s := Run(START, es);
            var x := s.handlers[h];
            x.r.key.Some? && Write(x.r.hash, x.id, x.r.key.value) in s.writes && Spent(s, x.r.hash, x.id)
  {
    RunKeepsInv(START, es);
  }
}
