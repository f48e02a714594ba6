/**
 * The ledger as the agent holds it: a record per nonce reached through a table, counters that methods
 * update in place, and release handles that keep pointing at the record they were made for. Every
 * method is proved to perform one step of the machine in AgentLedger.
 */
module LedgerObject {
  import opened Wrappers
  import opened Int64
  import opened Claims
  import opened AgentLedger

  lemma TouchedAlike(l: Ledger, c: Claims, down: int, up: int)
    ensures var t := Touch(l, c.nonce);
            && UsageOf(t, c.nonce) == UsageOf(l, c.nonce)
            && Admits(t, c, down, up) == Admits(l, c, down, up)
            && Charge(t, c, down, up) == Charge(l, c, down, up)
  {
    var u := Charge(l, c, down, up).byNonce[c.nonce];
    assert l.byNonce[c.nonce := UsageOf(l, c.nonce)][c.nonce := u] == l.byNonce[c.nonce := u];
  }

  class UsageRecord {
    var down: int
    var up: int
    var streams: int

    constructor ()
      ensures down == up == streams == 0
    {
      down, up, streams := 0, 0, 0;
    }

    method Add(down: int, up: int)
      modifies this
      ensures this.down == Add64(old(this.down), down) && this.up == Add64(old(this.up), up)
      ensures streams == old(streams) + 1
    {
      streams := streams + 1;
      this.down := Add64(this.down, down);
      this.up := Add64(this.up, up);
    }

    method Subtract(down: int, up: int)
      modifies this
      ensures this.down == Sub64(old(this.down), down) && this.up == Sub64(old(this.up), up)
      ensures streams == old(streams) - 1
    {
      streams := streams - 1;
      this.down := Sub64(this.down, down);
      this.up := Sub64(this.up, up);
    }
  }

  /** What the closure returned by `reserve` captures. */
  datatype Handle = Handle(u: UsageRecord, testKey: string)

  class LedgerState {
    var byNonce: map<string, UsageRecord>
    var active: map<string, int>
    var day: Option<nat>
    var daily: int
    var limit: int
    var maxActive: int
    var file: Option<Quota>  // quota.json

    ghost var model: Agent
    ghost var handles: map<nat, Handle>

    ghost function Table(): map<string, Usage>
      reads this, byNonce.Values
    {
      map n | n in byNonce :: Usage(byNonce[n].down, byNonce[n].up, byNonce[n].streams)
    }

    ghost function Value(): Ledger
      reads this, byNonce.Values
    {
      Ledger(Table(), active, day, daily, limit, maxActive)
    }

    /** A handle of this epoch holds the table's record of its nonce; any other holds no record of the table. */
    ghost predicate HandlesAgree()
      reads this
    {
      && handles.Keys == model.out.Keys
      && forall id :: id in handles ==>
           && id < model.issued && model.out[id].epoch <= model.epoch
           && handles[id].testKey == model.out[id].key
           && if model.out[id].epoch == model.epoch
              then model.out[id].nonce in byNonce && byNonce[model.out[id].nonce] == handles[id].u
              else handles[id].u !in byNonce.Values
    }

    ghost predicate Distinct()
      reads this
    {
      forall n, m :: n in byNonce && m in byNonce && n != m ==> byNonce[n] != byNonce[m]
    }

    ghost predicate Valid()
      reads this, byNonce.Values
    {
      Distinct() && HandlesAgree() && model.mem == Value() && model.disk == file
    }

    /** A process that starts after `before`: `New` followed by `load`. */
    constructor (limit: int, maxActive: int, file: Option<Quota>, readable: bool, today: nat, ghost before: Agent)
      requires before.mem.limit == limit && before.mem.maxActive == maxActive
      requires before.disk == file && before.today == today
      ensures Valid() && model == Step(before, Restart(readable)) && handles == map[]
    {
      this.byNonce, this.active, this.day, this.daily := map[], map[], None, 0;
      this.limit, this.maxActive, this.file := limit, maxActive, file;
      if readable && file.Some? && file.value.day == today {
        this.day, this.daily := Some(today), file.value.bytes;
      }
      this.model, this.handles := Reboot(before, readable), map[];
    }

    /** Time passes. */
    ghost method Tick(days: nat)
      requires Valid()
      modifies this`model
      ensures Valid() && model == Step(old(model), Advance(days)) && handles == old(handles)
    {
      model := Step(model, Advance(days));
    }

    /** Writes the ledger's own day and total; `io` says whether the write and the rename work. */
    method PersistLocked(io: bool) returns (ok: bool)
      requires day.Some?
      modifies this`file
      ensures ok == io && file == if io then Some(Quota(day.value, daily)) else old(file)
    {
      if io {
        file := Some(Quota(day.value, daily));
      }
      ok := io;
    }

    method Rollover(today: nat)
      requires Valid() && today == model.today
      modifies this
      ensures Valid() && model == Open(old(model)) && handles == old(handles)
      ensures byNonce == old(byNonce) || byNonce == map[]
    {
      if day != Some(today) {
        day, daily, byNonce, active := Some(today), 0, map[], map[];
      }
      if maxActive <= 0 {
        maxActive := 3;
      }
      model := Open(model);
    }

    /** Finds or creates the usage record of a nonce. */
    method Lookup(nonce: string) returns (u: UsageRecord)
      requires Valid()
      modifies this`byNonce, this`model
      ensures Valid() && model == old(model).(mem := Touch(old(model).mem, nonce))
      ensures nonce in byNonce && byNonce[nonce] == u
      ensures byNonce == old(byNonce)[nonce := u]
      ensures if nonce in old(byNonce) then u == old(byNonce)[nonce] else fresh(u)
    {
      if nonce in byNonce {
        u := byNonce[nonce];
        assert Touch(model.mem, nonce).byNonce == Table();
      } else {
        u := Create(nonce);
      }
    }

    /** Enters a new record into the table. */
    method Create(nonce: string) returns (u: UsageRecord)
      requires Valid() && nonce !in byNonce
      modifies this`byNonce, this`model
      ensures Valid() && model == old(model).(mem := Touch(old(model).mem, nonce))
      ensures fresh(u) && byNonce == old(byNonce)[nonce := u]
    {
      u := new UsageRecord();
      byNonce := byNonce[nonce := u];
      model := model.(mem := Touch(model.mem, nonce));
      assert Table() == model.mem.byNonce;
    }

    /** Only the record of `nonce` changed. */
    twostate lemma TableUpdated(nonce: string)
      requires old(Distinct()) && byNonce == old(byNonce) && nonce in byNonce
      requires forall n :: n in byNonce && n != nonce ==> unchanged(byNonce[n])
      ensures var u := byNonce[nonce]; Table() == old(Table())[nonce := Usage(u.down, u.up, u.streams)]
    {
    }

    /** `u.Streams++` and the counters beside it. */
    method Add(u: UsageRecord, c: Claims, down: int, up: int)
      requires Distinct() && c.nonce in byNonce && byNonce[c.nonce] == u
      modifies this`active, this`daily, u
      ensures Value() == Charge(old(Value()), c, down, up)
    {
      u.Add(down, up);
      AddActive(TestKey(c));
      daily := Add64(daily, Add64(down, up));
      TableUpdated(c.nonce);
    }

    method AddActive(key: string)
      modifies this`active
      ensures active == old(active)[key := Running(old(active), key) + 1]
    {
      active := active[key := Running(active, key) + 1];
    }

    method DropActive(key: string)
      modifies this`active
      ensures active == Drop(old(active), key)
    {
      var left := Running(active, key) - 1;
      active := active[key := left];
      if active[key] <= 0 {
        active := active - {key};
      }
    }

    /** The undo of `Add` after a failed write. */
    method Subtract(u: UsageRecord, c: Claims, down: int, up: int)
      requires Distinct() && c.nonce in byNonce && byNonce[c.nonce] == u
      modifies this`active, this`daily, u
      ensures Value() == Refund(old(Value()), c, down, up)
    {
      u.Subtract(down, up);
      daily := Sub64(daily, Add64(down, up));
      DropActive(TestKey(c));
      TableUpdated(c.nonce);
    }

    /** Charges an admitted request, and takes it back when quota.json cannot be written. */
    method Commit(u: UsageRecord, c: Claims, down: int, up: int, io: bool) returns (r: Option<Handle>)
      requires Valid() && day == Some(model.today)
      requires c.nonce in byNonce && byNonce[c.nonce] == u
      modifies this, u
      ensures Valid() && r.Some? == io
      ensures model == if io then Granted(old(model), c, down, up)
                       else old(model).(mem := Refund(Charge(old(model).mem, c, down, up), c, down, up))
      ensures handles == if r.Some? then old(handles)[old(model).issued := r.value] else old(handles)
    {
      Add(u, c, down, up);
      var ok := PersistLocked(io);
      if ok {
        r := Some(Handle(u, TestKey(c)));
        Issue(r.value, c, down, up);
      } else {
        r := None;
        TakeBack(u, c, down, up);
      }
    }

    /** Undoes the charge of a request whose quota file could not be written. */
    method TakeBack(u: UsageRecord, c: Claims, down: int, up: int)
      requires Distinct() && HandlesAgree() && Value() == Charge(model.mem, c, down, up) && file == model.disk
      requires c.nonce in byNonce && byNonce[c.nonce] == u
      modifies this`active, this`daily, this`model, u
      ensures Valid() && model == old(model).(mem := Refund(Charge(old(model).mem, c, down, up), c, down, up))
    {
      Subtract(u, c, down, up);
      model := model.(mem := Value());
    }

    /** Hands out the closure of a granted request. */
    ghost method Issue(h: Handle, c: Claims, down: int, up: int)
      requires Distinct() && HandlesAgree() && Value() == Charge(model.mem, c, down, up)
      requires file == Some(Quota(model.today, daily))
      requires c.nonce in byNonce && h == Handle(byNonce[c.nonce], TestKey(c))
      modifies this`model, this`handles
      ensures Valid() && model == Granted(old(model), c, down, up) && handles == old(handles)[old(model).issued := h]
    {
      handles := handles[model.issued := h];
      model := Granted(model, c, down, up);
    }

    /** The caps of the nonce and of the day, once the test may run. */
    method Weigh(c: Claims, down: int, up: int, io: bool) returns (r: Option<Handle>)
      requires Valid() && day == Some(model.today) && AdmitsTest(model.mem, c)
      modifies this, byNonce.Values
      ensures Valid() && r.Some? == (Admits(old(model).mem, c, down, up) && io)
      ensures var o := old(model);
              model == if !Admits(o.mem, c, down, up) then o.(mem := Touch(o.mem, c.nonce))
                       else if !io then o.(mem := Refund(Charge(o.mem, c, down, up), c, down, up))
                       else Granted(o, c, down, up)
      ensures handles == if r.Some? then old(handles)[old(model).issued := r.value] else old(handles)
    {
      TouchedAlike(model.mem, c, down, up);
      var u := Lookup(c.nonce);
      if u.streams >= c.maxStreams || Add64(u.down, down) > c.maxDownload || Add64(u.up, up) > c.maxUpload
         || Add64(Add64(daily, down), up) > limit {
        return None;
      }
      r := Commit(u, c, down, up, io);
    }

    /** `reserve`: `io` says whether quota.json can be written. */
    method Reserve(today: nat, c: Claims, down: int, up: int, io: bool) returns (r: Option<Handle>)
      requires Valid() && today == model.today
      modifies this, byNonce.Values
      ensures Valid() && model == Step(old(model), Event.Reserve(c, down, up, io))
      ensures r.Some? <==> Accepts(old(model), Event.Reserve(c, down, up, io))
      ensures handles == if r.Some? then old(handles)[old(model).issued := r.value] else old(handles)
    {
      Rollover(today);
      if Running(active, TestKey(c)) == 0 && |active| >= maxActive {
        return None;
      }
      r := Weigh(c, down, up, io);
    }

    /** The closure `reserve` returned. */
    method Release(h: Handle, ghost id: nat)
      requires Valid() && id in handles && handles[id] == h
      modifies this, h.u
      ensures Valid() && model == Step(old(model), Event.Release(id)) && handles == old(handles) - {id}
    {
      h.u.streams := h.u.streams - 1;
      DropActive(h.testKey);
      handles := handles - {id};
      model := ReleaseStep(model, id);
      assert Table() == model.mem.byNonce;
    }
  }
}
