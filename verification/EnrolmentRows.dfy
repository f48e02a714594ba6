/**
 * What enrolment leaves in the database and answers to a client: the keys in the node rows are exactly
 * those that joins wrote, and a join that runs alone succeeds exactly with a live token and a valid key.
 */
module EnrolmentRows {
  import opened Wrappers
  import opened Enrolment
  import T = OneTimeTokens

  // ----- rows and writes -----

  predicate WritesInRows(s: Server) {
    forall w :: w in s.writes && w.id in s.nodes ==> s.nodes[w.id].key == Some(w.key)
  }

  predicate RowsFromWrites(s: Server) {
    forall id :: id in s.nodes && s.nodes[id].key.Some? ==> Written(s, id, s.nodes[id].key.value)
  }

  predicate Written(s: Server, id: string, key: Key) {
    exists w :: w in s.writes && w.id == id && w.key == key
  }

  predicate Rows(s: Server) {
    WritesInRows(s) && RowsFromWrites(s)
  }

  /** A node whose token is held by a handler has no key written yet. */
  lemma HeldIsUnwritten(s: Server, h: nat, id: string)
    requires Inv(s) && h in s.handlers && Holding(s.handlers[h]) && Spent(s, s.handlers[h].r.hash, id)
    ensures forall w :: w in s.writes ==> w.id != id
  {
    forall w | w in s.writes ensures w.id != id {
      var i :| 0 <= i < |s.writes| && s.writes[i] == w;
      assert Spent(s, w.hash, w.id);
    }
  }

  /** A key is written for an id that had none, into its row. */
  lemma WriteKeepsRows(s: Server, t: Server, w: Write)
    requires Rows(s) && (forall v :: v in s.writes ==> v.id != w.id)
    requires t.writes == s.writes + [w] && w.id in t.nodes && t.nodes[w.id].key == Some(w.key)
    requires forall id :: id in t.nodes && id != w.id ==> id in s.nodes && t.nodes[id].key == s.nodes[id].key
    ensures Rows(t)
  {
    assert w in t.writes;
    forall id | id in t.nodes && t.nodes[id].key.Some? ensures Written(t, id, t.nodes[id].key.value) {
      if id != w.id {
        var v :| v in s.writes && v.id == id && v.key == t.nodes[id].key.value;
        assert v in t.writes;
      }
    }
  }

  lemma SameKeys(s: Server, t: Server)
    requires Rows(s) && t.writes == s.writes
    requires forall id :: id in t.nodes ==> id in s.nodes && t.nodes[id].key == s.nodes[id].key
    ensures Rows(t)
  {
    forall id | id in t.nodes && t.nodes[id].key.Some? ensures Written(t, id, t.nodes[id].key.value) {
      assert Written(s, id, s.nodes[id].key.value);
    }
  }

  lemma CreateJoinKeepsRows(s: Server, hash: T.Hash, id: string)
    requires Inv(s) && Rows(s)
    ensures Rows(CreateJoinStep(s, hash, id))
  {
    var t := CreateJoinStep(s, hash, id);
    forall w | w in s.writes ensures w.id in s.ids {
      var i :| 0 <= i < |s.writes| && s.writes[i] == w;
      assert Spent(s, w.hash, w.id);
    }
    forall x | x in t.nodes && t.nodes[x].key.Some? ensures Written(t, x, t.nodes[x].key.value) {
      assert Written(s, x, s.nodes[x].key.value);
    }
  }

  lemma UpdateKeepsRows(s: Server, h: nat, random: string)
    requires Inv(s) && Rows(s) && h in s.handlers && s.handlers[h].Consumed?
    ensures Rows(UpdateStep(s, h, random))
  {
    var t, r, id := UpdateStep(s, h, random), s.handlers[h].r, s.handlers[h].forNode;
    assert Spent(s, r.hash, id) && id != "";
    if r.key.Some? && id in s.nodes {
      HeldIsUnwritten(s, h, id);
      WriteKeepsRows(s, t, Write(r.hash, id, r.key.value));
    } else {
      SameKeys(s, t);
    }
  }

  lemma InsertKeepsRows(s: Server, h: nat)
    requires Inv(s) && Rows(s) && h in s.handlers && s.handlers[h].NoRow?
    ensures Rows(InsertStep(s, h))
  {
    var t, r, id := InsertStep(s, h), s.handlers[h].r, s.handlers[h].id;
    assert HandlerOk(s, s.handlers[h]);
    if r.key.Some? && id !in s.nodes {
      HeldIsUnwritten(s, h, id);
      WriteKeepsRows(s, t, Write(r.hash, id, r.key.value));
    } else {
      SameKeys(s, t);
    }
  }

  lemma StepKeepsRows(s: Server, e: Event)
    requires Inv(s) && Rows(s)
    ensures Rows(Step(s, e))
  {
    match e
    case CreateJoin(hash, id) => CreateJoinKeepsRows(s, hash, id);
    case Update(h, random) => if h in s.handlers && s.handlers[h].Consumed? { UpdateKeepsRows(s, h, random); }
    case InsertNode(h) => if h in s.handlers && s.handlers[h].NoRow? { InsertKeepsRows(s, h); }
    case _ => SameKeys(s, Step(s, e));
  }

  lemma {:induction false} RunKeepsRows(s: Server, es: seq<Event>)
    requires Inv(s) && Rows(s)
    ensures Rows(Run(s, es))
    decreases |es|
  {
    if es != [] {
      StepKeepsRows(s, es[0]);
      Enrolment.StepKeepsInv(s, es[0]);
      RunKeepsRows(Step(s, es[0]), es[1..]);
    }
  }

  /**
   * In every interleaving the key of a node row is the one a join wrote for that node: a write stays until
   * the node is deleted, and no key comes from anywhere else.
   */
  lemma KeysComeFromJoins(es: seq<Event>, id: string, key: Key)
    ensures var s := Run(START, es);
            id in s.nodes ==> (s.nodes[id].key == Some(key) <==> Written(s, id, key))
  {
    RunKeepsRows(START, es);
  }

  // ----- a join that runs alone -----

  /** The four statements of one handler. */
  function Join(h: nat, r: Request, random: string): seq<Event> {
    [Select(h, r), Consume(h), Update(h, random), InsertNode(h)]
  }

  lemma RunOfFour(s: Server, es: seq<Event>)
    requires |es| == 4
    ensures Run(s, es) == Step(Step(Step(Step(s, es[0]), es[1]), es[2]), es[3])
  {
    var s1 := Step(s, es[0]);
    var s2 := Step(s1, es[1]);
    var s3 := Step(s2, es[2]);
    assert es[1..][1..] == es[2..] && es[2..][1..] == es[3..] && es[3..][1..] == [];
    assert Run(s, es) == Run(s1, es[1..]);
    assert Run(s1, es[1..]) == Run(s2, es[2..]);
    assert Run(s2, es[2..]) == Run(s3, es[3..]);
    assert Run(s3, es[3..]) == Run(Step(s3, es[3]), []);
  }

  lemma DeadTokenRefused(s: Server, h: nat, r: Request, random: string)
    requires h !in s.handlers && !T.Consumable(s.tokens.rows, r.hash, s.now)
    ensures Run(s, Join(h, r, random)) == s.(handlers := s.handlers[h := Refused(401)])
  {
    RunOfFour(s, Join(h, r, random));
  }

  /** A live token is selected and consumed. */
  lemma LiveTokenSpent(s: Server, h: nat, r: Request)
    requires h !in s.handlers && T.Consumable(s.tokens.rows, r.hash, s.now)
    ensures Step(Step(s, Select(h, r)), Consume(h))
         == s.(tokens := T.Consume(s.tokens, r.hash, s.now),
               handlers := s.handlers[h := Consumed(r, s.tokens.rows[r.hash].nodeId)])
  {
    var one := Step(s, Select(h, r));
    assert one.handlers[h] == Selected(r, s.tokens.rows[r.hash].nodeId);
    assert s.handlers[h := one.handlers[h]][h := Consumed(r, s.tokens.rows[r.hash].nodeId)]
        == s.handlers[h := Consumed(r, s.tokens.rows[r.hash].nodeId)];
  }

  /** The node's row gets the key, whether or not the node was deleted meanwhile. */
  lemma KeyStored(s: Server, h: nat, random: string)
    requires h in s.handlers && s.handlers[h].Consumed? && s.handlers[h].forNode != ""
    ensures var x := s.handlers[h];
            var t := Step(Step(s, Update(h, random)), InsertNode(h));
            && h in t.handlers && t.tokens == s.tokens && t.nodes - {x.forNode} == s.nodes - {x.forNode}
            && if x.r.key.None? then t.handlers[h] == Refused(400) && t.nodes == s.nodes
               else t.handlers[h] == Joined(x.r, x.forNode) && x.forNode in t.nodes && t.nodes[x.forNode].key == x.r.key
  {
  }

  /**
   * What a join that nothing interrupts answers and leaves: 401 without a live token; else the token is
   * spent, and the answer is 400 for an invalid key, or the key stands in the row of the token's node.
   */
  lemma JoinAnswers(s: Server, h: nat, r: Request, random: string)
    requires Inv(s) && h !in s.handlers
    ensures var t := Run(s, Join(h, r, random));
            && h in t.handlers
            && if r.hash !in s.tokens.rows || s.tokens.rows[r.hash].usedAt.Some?
                  || s.tokens.rows[r.hash].expires < s.now
               then t.handlers[h] == Refused(401) && t.tokens == s.tokens && t.nodes == s.nodes
               else
                 var id := s.tokens.rows[r.hash].nodeId;
                 && r.hash in t.tokens.rows && t.tokens.rows[r.hash].usedAt == Some(s.now)
                 && t.nodes - {id} == s.nodes - {id}
                 && if r.key.None? then t.handlers[h] == Refused(400) && t.nodes == s.nodes
                    else t.handlers[h] == Joined(r, id) && id in t.nodes && t.nodes[id].key == r.key
  {
    if T.Consumable(s.tokens.rows, r.hash, s.now) {
      RunOfFour(s, Join(h, r, random));
      LiveTokenSpent(s, h, r);
      KeyStored(Step(Step(s, Select(h, r)), Consume(h)), h, random);
    } else {
      DeadTokenRefused(s, h, r, random);
    }
  }

  // ----- how long tokens live, and what an invite opens -----

  /** A join token can be used for ten minutes, the last second included. */
  lemma JoinTokenLives(s: Server, hash: T.Hash, id: string, seconds: nat)
    requires id != "" && id !in s.ids && id !in s.nodes && hash !in s.tokens.rows
    ensures var t := Step(Step(s, CreateJoin(hash, id)), Advance(seconds));
            T.Consumable(t.tokens.rows, hash, t.now) <==> seconds <= 600
  {
  }

  /** An invite for thirty. */
  lemma InviteLives(s: Server, hash: T.Hash, seconds: nat)
    requires hash !in s.invites.rows
    ensures var t := Step(Step(s, CreateInvite(hash)), Advance(seconds));
            T.Consumable(t.invites.rows, hash, t.now) <==> seconds <= 1800
  {
  }

  /** Every consumed invite opens a session, where no insert fails. */
  predicate InsertsWork(es: seq<Event>) {
    forall e :: e in es && e.RedeemInvite? ==> e.inserted
  }

  lemma {:induction false} SessionsFrom(s: Server, es: seq<Event>)
    requires InsertsWork(es) && s.sessions == |s.invites.uses|
    ensures Run(s, es).sessions == |Run(s, es).invites.uses|
    decreases |es|
  {
    if es != [] {
      assert es[0] in es;
      SessionsFrom(Step(s, es[0]), es[1..]);
    }
  }

  /** Then the sessions opened by invites are exactly the invites consumed. */
  lemma SessionPerInvite(es: seq<Event>)
    requires InsertsWork(es)
    ensures Run(START, es).sessions == |Run(START, es).invites.uses|
  {
    SessionsFrom(START, es);
  }

  // ----- what the administrator's statements do to the rows -----

  /** A node is removed if and only if it is offline; no other row changes. */
  lemma DeletedIff(s: Server, id: string)
    requires id in s.nodes
    ensures var t := Step(s, DeleteNode(id));
            (id !in t.nodes <==> !s.nodes[id].online) && t.nodes - {id} == s.nodes - {id} && t.tokens == s.tokens
  {
  }

  /** A new join token comes with its own new node, which has no key and is offline. */
  lemma JoinCreatesNode(s: Server, hash: T.Hash, id: string)
    requires id != "" && id !in s.ids && id !in s.nodes && hash !in s.tokens.rows
    ensures var t := Step(s, CreateJoin(hash, id));
            && t.nodes == s.nodes[id := NodeRow(None, false)]
            && hash in t.tokens.rows && t.tokens.rows[hash].nodeId == id && t.tokens.rows[hash].usedAt == None
  {
  }
}
