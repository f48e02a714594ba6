/**
 * One-time tokens (internal/store/store.go): rows of the invites and join_tokens tables, and the single
 * UPDATE by which `ConsumeOneTime` claims one.
 */
module OneTimeTokens {
  import opened Wrappers

  type Hash = string

  /** A row; `nodeId` is the node a join token was made for, empty for an invite. */
  datatype Row = Row(nodeId: string, expires: int, usedAt: Option<int>)

  datatype Use = Use(hash: Hash, at: int)

  /** A table with the history of its consumptions. */
  datatype Table = Table(rows: map<Hash, Row>, uses: seq<Use>)

  const EMPTY: Table := Table(map[], [])

  /** The WHERE clause of the UPDATE. */
  predicate Consumable(rows: map<Hash, Row>, hash: Hash, now: int) {
    hash in rows && rows[hash].usedAt.None? && now <= rows[hash].expires
  }

  function Consume(t: Table, hash: Hash, now: int): Table {
    if Consumable(t.rows, hash, now)
    then Table(t.rows[hash := t.rows[hash].(usedAt := Some(now))], t.uses + [Use(hash, now)])
    else t
  }

  /** INSERT: `token_hash` is unique. */
  function Insert(t: Table, hash: Hash, nodeId: string, expires: int): Table {
    if hash in t.rows then t else t.(rows := t.rows[hash := Row(nodeId, expires, None)])
  }

  predicate SingleUse(uses: seq<Use>) {
    forall i, j :: 0 <= i < j < |uses| ==> uses[i].hash != uses[j].hash
  }

  /** Consumptions are recorded in the rows, at most one per token and none after expiry. */
  predicate Inv(t: Table) {
    && SingleUse(t.uses)
    && (forall i :: 0 <= i < |t.uses| ==>
          var u := t.uses[i];
          u.hash in t.rows && t.rows[u.hash].usedAt == Some(u.at) && u.at <= t.rows[u.hash].expires)
    && (forall h :: h in t.rows && t.rows[h].usedAt.Some? ==> Use(h, t.rows[h].usedAt.value) in t.uses)
  }

  lemma ConsumeKeepsInv(t: Table, hash: Hash, now: int)
    requires Inv(t)
    ensures Inv(Consume(t, hash, now))
    ensures Consume(t, hash, now).rows.Keys == t.rows.Keys
    ensures forall h :: h in t.rows ==> Consume(t, hash, now).rows[h].nodeId == t.rows[h].nodeId
  {
    if Consumable(t.rows, hash, now) {
      var t' := Consume(t, hash, now);
      forall h | h in t'.rows && t'.rows[h].usedAt.Some?
        ensures Use(h, t'.rows[h].usedAt.value) in t'.uses
      {
        if h == hash {
          assert t'.uses[|t.uses|] == Use(h, now);
        } else {
          assert Use(h, t.rows[h].usedAt.value) in t.uses;
        }
      }
    }
  }

  lemma InsertKeepsInv(t: Table, hash: Hash, nodeId: string, expires: int)
    requires Inv(t)
    ensures Inv(Insert(t, hash, nodeId, expires))
  {
  }

  /** A sequence without repetitions drawn from a set is no longer than the set. */
  lemma {:induction false} DistinctFit(uses: seq<Use>, s: set<Hash>)
    requires SingleUse(uses) && forall i :: 0 <= i < |uses| ==> uses[i].hash in s
    ensures |uses| <= |s|
    decreases |uses|
  {
    if uses != [] {
      DistinctFit(uses[1..], s - {uses[0].hash});
    }
  }

  // ----- the store -----

  datatype StoreError = InvalidTable | Consumed | DatabaseError

  /** The two token tables of the database, updated in place. */
  class Store {
    var invites: map<Hash, Row>
    var joinTokens: map<Hash, Row>
    ghost var inviteUses: seq<Use>
    ghost var joinUses: seq<Use>

    ghost function Invites(): Table
      reads this
    {
      Table(invites, inviteUses)
    }

    ghost function JoinTokens(): Table
      reads this
    {
      Table(joinTokens, joinUses)
    }

    constructor ()
      ensures Invites() == EMPTY && JoinTokens() == EMPTY
    {
      invites, joinTokens, inviteUses, joinUses := map[], map[], [], [];
    }

    /** `ConsumeOneTime`; `io` says whether the database executes the statement. */
    method ConsumeOneTime(table: string, hash: Hash, now: int, io: bool) returns (r: Result<(), StoreError>)
      requires Inv(Invites()) && Inv(JoinTokens())
      modifies this
      ensures Inv(Invites()) && Inv(JoinTokens())
      ensures io && table == "invites" ==>
                && Invites() == Consume(old(Invites()), hash, now) && JoinTokens() == old(JoinTokens())
                && r == if Consumable(old(invites), hash, now) then Ok(()) else Err(Consumed)
      ensures io && table == "join_tokens" ==>
                && JoinTokens() == Consume(old(JoinTokens()), hash, now) && Invites() == old(Invites())
                && r == if Consumable(old(joinTokens), hash, now) then Ok(()) else Err(Consumed)
      ensures r == Err(InvalidTable) <==> table != "invites" && table != "join_tokens"
      ensures r == Err(DatabaseError) <==> !io && (table == "invites" || table == "join_tokens")
      ensures r.Err? ==> Invites() == old(Invites()) && JoinTokens() == old(JoinTokens())
    {
      if table != "invites" && table != "join_tokens" {
        return Err(InvalidTable);
      }
      if !io {
        return Err(DatabaseError);
      }
      ConsumeKeepsInv(Invites(), hash, now);
      ConsumeKeepsInv(JoinTokens(), hash, now);
      var rows := if table == "invites" then invites else joinTokens;
      var affected := 0;
      if hash in rows && rows[hash].usedAt.None? && rows[hash].expires >= now {
        rows := rows[hash := rows[hash].(usedAt := Some(now))];
        affected := 1;
        if table == "invites" {
          invites, inviteUses := rows, inviteUses + [Use(hash, now)];
        } else {
          joinTokens, joinUses := rows, joinUses + [Use(hash, now)];
        }
      }
      if affected != 1 {
        return Err(Consumed);
      }
      return Ok(());
    }
  }
}
