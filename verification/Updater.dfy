/**
 * The self-updater (internal/updater/updater.go) over a file system in which every operation may fail.
 * The host records each state the file system goes through, so that a crash may be imagined anywhere, and
 * each state a service start was attempted on.
 */
module Updater {
  import opened Wrappers

  datatype DbPart = Main | Wal | Shm

  datatype Path =
    | Exe
    | ExeBackup               // exe.bak
    | Staged                  // exe.new
    | LockFile                // exe.update.lock
    | Db(part: DbPart)
    | DbBackup(part: DbPart)  // the part's .update-backup
    | Elsewhere(name: string)

  type Content = seq<bv8>

  type Files = map<Path, Content>

  datatype Component = ServerComponent | AgentComponent

  datatype Failure =
    | Locked | StageFailed | Mismatch | StopFailed | RenameFailed | BackupFailed
    | RolledBack | RollbackRestartFailed

  /** The files the component's service may write while it runs. */
  function Data(c: Component): set<Path> {
    if c == ServerComponent then {Db(Main), Db(Wal), Db(Shm)} else {}
  }

  const PARTS: seq<DbPart> := [Main, Wal, Shm]

  const SAVED: set<Path> := {DbBackup(Main), DbBackup(Wal), DbBackup(Shm)}

  /** The two states agree on every path outside `ps`. */
  ghost predicate SameExcept(a: Files, b: Files, ps: set<Path>) {
    forall p :: p !in ps ==> (p in a <==> p in b) && (p in a ==> a[p] == b[p])
  }

  /** The original program is still there, in its place or in its backup. */
  predicate Safe(m: Files, original: Content) {
    (Exe in m && m[Exe] == original) || (ExeBackup in m && m[ExeBackup] == original)
  }

  /** The program and every data file that `before` had are as in `before`. */
  predicate Restored(m: Files, before: Files, c: Component) {
    && Exe in before && Exe in m && m[Exe] == before[Exe]
    && forall d :: d in Data(c) && d in before ==> d in m && m[d] == before[d]
  }

  /** The data files of the component that `before` had. */
  ghost function Existing(before: Files, c: Component): set<Path> {
    set d | d in Data(c) && d in before
  }

  /** The original content of a data file is in its place or in its backup. */
  predicate Survives(m: Files, part: DbPart, original: Content) {
    (Db(part) in m && m[Db(part)] == original) || (DbBackup(part) in m && m[DbBackup(part)] == original)
  }

  ghost predicate AllSurvive(m: Files, before: Files, originals: set<Path>) {
    forall d :: d in originals ==> d.Db? && d in before && Survives(m, d.part, before[d])
  }

  /** The map holds the finished copies of exactly those of the given parts that existed in `before`. */
  ghost predicate BackedUp(backups: map<Path, Path>, before: Files, m: Files, parts: seq<DbPart>) {
    && (forall part :: Db(part) in backups <==> part in parts && Db(part) in before)
    && (forall d :: d in backups ==>
          d.Db? && backups[d] == DbBackup(d.part) && backups[d] in m && d in before && m[backups[d]] == before[d])
  }

  lemma SameChain(a: Files, b: Files, c: Files, ps: set<Path>, qs: set<Path>)
    requires SameExcept(a, b, ps) && SameExcept(b, c, qs) && qs <= ps
    ensures SameExcept(a, c, ps)
  {
  }

  /** Each backup of the given originals still holds the original's content. */
  ghost predicate Kept(backups: map<Path, Path>, before: Files, m: Files, originals: set<Path>) {
    forall d :: d in originals ==>
      d in backups && d.Db? && backups[d] == DbBackup(d.part)
      && backups[d] in m && d in before && m[backups[d]] == before[d]
  }

  ghost predicate Back(before: Files, m: Files, originals: set<Path>) {
    forall d :: d in originals ==> d in m && d in before && m[d] == before[d]
  }

  lemma OneMoreBack(backups: map<Path, Path>, before: Files, m: Files, m': Files, todo: set<Path>, done: set<Path>,
                    d: Path)
    requires Kept(backups, before, m, todo) && d in todo && todo !! done
    requires forall e :: e in done ==> e.Db?
    requires SameExcept(m, m', {d, backups[d]})
    ensures Kept(backups, before, m', todo - {d})
    ensures Back(before, m, done) && d in m' && m'[d] == m[backups[d]] ==> Back(before, m', done + {d})
  {
  }

  /** A round of the restoring loop in which the file it works on survives loses no other. */
  lemma OneMoreSurvives(backups: map<Path, Path>, before: Files, m: Files, m': Files, todo: set<Path>, d: Path)
    requires Kept(backups, before, m, todo) && d in todo && todo <= backups.Keys
    requires forall e :: e in backups ==> e.Db?
    requires Back(before, m, backups.Keys - todo) && SameExcept(m, m', {d, backups[d]})
    requires Survives(m', d.part, before[d])
    ensures AllSurvive(m', before, backups.Keys)
  {
    forall e | e in backups.Keys ensures e.Db? && e in before && Survives(m', e.part, before[e]) {
      if e != d {
        assert e in todo || e in backups.Keys - todo;
      }
    }
  }

  // ----- how a copy ends, and what a rollback loses by it -----

  /** A copy cannot start, is cut short after some bytes (the last of which may be all), or succeeds. */
  datatype Copy = Refused | CutShort(n: nat) | Done

  function AfterCopy(m: Files, source: Path, destination: Path, how: Copy): Files {
    if source !in m || how == Refused then m
    else if how == Done then m[destination := m[source]]
    else m[destination := m[source][..Min(how.n, |m[source]|)]]
  }

  /** How one round of the restoring loop goes: the copy back, and the removal of the backup. */
  datatype Round = Round(how: Copy, removed: bool)

  /** The backup is removed whether or not the copy succeeded. */
  function AfterRestore(m: Files, part: DbPart, r: Round): Files {
    var copied := AfterCopy(m, DbBackup(part), Db(part), r.how);
    if r.removed then copied - {DbBackup(part)} else copied
  }

  /** The copy fails, leaves the file other than it was backed up, and the backup goes all the same. */
  predicate Loses(m: Files, part: DbPart, r: Round)
    requires DbBackup(part) in m
  {
    && r.removed
    && match r.how
       case Done => false
       case CutShort(n) => n < |m[DbBackup(part)]|
       case Refused => Db(part) !in m || m[Db(part)] != m[DbBackup(part)]
  }

  /** Exactly when a round of the restoring loop destroys the last copy of a data file. */
  lemma RestoreLosesIff(m: Files, part: DbPart, r: Round)
    requires DbBackup(part) in m
    ensures !Survives(AfterRestore(m, part, r), part, m[DbBackup(part)]) <==> Loses(m, part, r)
  {
  }

  /** Such a loss: the copy stops right after truncating the database, and the backup is removed. */
  lemma RollbackCanLoseTheDatabase(original: Content, broken: Content)
    requires original != []
    ensures var m := map[Db(Main) := broken, DbBackup(Main) := original];
            AfterRestore(m, Main, Round(CutShort(0), true)) == map[Db(Main) := []]
  {
    var m := map[Db(Main) := broken, DbBackup(Main) := original];
    assert AfterCopy(m, DbBackup(Main), Db(Main), CutShort(0)) == map[Db(Main) := [], DbBackup(Main) := original];
  }

  /** The two states agree on the data file and its backup. */
  predicate SamePart(a: Files, b: Files, part: DbPart) {
    && (Db(part) in a <==> Db(part) in b) && (Db(part) in a ==> a[Db(part)] == b[Db(part)])
    && (DbBackup(part) in a <==> DbBackup(part) in b)
    && (DbBackup(part) in a ==> a[DbBackup(part)] == b[DbBackup(part)])
  }

  lemma RoundIsLocal(a: Files, b: Files, part: DbPart, r: Round)
    requires SamePart(a, b, part)
    ensures SamePart(AfterRestore(a, part, r), AfterRestore(b, part, r), part)
  {
  }

  /** In `m` each data file with a round is what that round alone made of it. */
  ghost predicate Restorings(base: Files, m: Files, rounds: map<Path, Round>) {
    forall d :: d in rounds ==> d.Db? && SamePart(m, AfterRestore(base, d.part, rounds[d]), d.part)
  }

  ghost predicate Untouched(base: Files, m: Files, todo: set<Path>) {
    forall d :: d in todo ==> d.Db? && SamePart(m, base, d.part)
  }

  predicate AllDone(rounds: map<Path, Round>) {
    forall d :: d in rounds ==> rounds[d].how == Done
  }

  lemma AllDoneGrows(rounds: map<Path, Round>, d: Path, r: Round)
    requires d !in rounds
    ensures AllDone(rounds[d := r]) <==> AllDone(rounds) && r.how == Done
  {
    if AllDone(rounds[d := r]) {
      assert rounds[d := r][d] == r;
      assert forall e :: e in rounds ==> rounds[d := r][e] == rounds[e];
    }
  }

  /** One more round, on a data file that had none. */
  lemma OneMoreRound(base: Files, m: Files, m': Files, rounds: map<Path, Round>, todo: set<Path>, d: Path, r: Round)
    requires Restorings(base, m, rounds) && Untouched(base, m, todo) && d in todo && d !in rounds && d.Db?
    requires m' == AfterRestore(m, d.part, r)
    ensures Restorings(base, m', rounds[d := r]) && Untouched(base, m', todo - {d})
  {
    RoundIsLocal(m, base, d.part, r);
  }

  /** Exactly which data files a restoring loop loses: those whose own round loses them. */
  lemma LoopLosesIff(base: Files, m: Files, rounds: map<Path, Round>, d: Path)
    requires Restorings(base, m, rounds) && d in rounds && d.Db? && DbBackup(d.part) in base
    ensures !Survives(m, d.part, base[DbBackup(d.part)]) <==> Loses(base, d.part, rounds[d])
  {
    RestoreLosesIff(base, d.part, rounds[d]);
  }

  /** The original of each data file survives in `m` exactly if its own round in `stopped` did not lose it. */
  ghost predicate Accounted(before: Files, stopped: Files, m: Files, rounds: map<Path, Round>) {
    forall d :: d in rounds ==>
      && d.Db? && d in before && DbBackup(d.part) in stopped && stopped[DbBackup(d.part)] == before[d]
      && (Survives(m, d.part, before[d]) <==> !Loses(stopped, d.part, rounds[d]))
  }

  lemma AccountRounds(backups: map<Path, Path>, before: Files, stopped: Files, back: Files, m: Files,
                      rounds: map<Path, Round>)
    requires Kept(backups, before, stopped, backups.Keys) && rounds.Keys == backups.Keys
    requires SameExcept(back, stopped, {Exe, ExeBackup}) && Restorings(back, m, rounds)
    ensures Accounted(before, stopped, m, rounds)
  {
    SameRounds(back, stopped, m, rounds);
    forall d | d in rounds
      ensures d.Db? && d in before && DbBackup(d.part) in stopped && stopped[DbBackup(d.part)] == before[d]
      ensures Survives(m, d.part, before[d]) <==> !Loses(stopped, d.part, rounds[d])
    {
      assert d in backups.Keys;
      LoopLosesIff(stopped, m, rounds, d);
    }
  }

  lemma StoppedKeeps(backups: map<Path, Path>, before: Files, m: Files, stopped: Files, c: Component)
    requires Kept(backups, before, m, backups.Keys) && SameExcept(m, stopped, Data(c))
    ensures Kept(backups, before, stopped, backups.Keys)
  {
  }

  /** A state that differs in the program only makes no difference to the rounds. */
  lemma SameRounds(base: Files, other: Files, m: Files, rounds: map<Path, Round>)
    requires Restorings(base, m, rounds) && SameExcept(base, other, {Exe, ExeBackup})
    ensures Restorings(other, m, rounds)
  {
    forall d | d in rounds ensures SamePart(m, AfterRestore(other, d.part, rounds[d]), d.part) {
      RoundIsLocal(base, other, d.part, rounds[d]);
    }
  }

  /** The data files that `before` did not have. */
  ghost function Strays(m: Files, before: Files, c: Component): set<Path> {
    set d | d in Data(c) && d in m && d !in before
  }

  lemma EveryBackupIsSaved(part: DbPart)
    ensures DbBackup(part) in SAVED
  {
  }

  /** With all parts considered, the backups cover exactly the data files that existed. */
  lemma DataIsBackedUp(c: Component, backups: map<Path, Path>, before: Files)
    requires forall part :: Db(part) in backups <==>
               part in (if c == ServerComponent then PARTS else []) && Db(part) in before
    requires forall d :: d in backups ==> d.Db?
    ensures backups.Keys == Existing(before, c)
  {
    assert PARTS[0] == Main && PARTS[1] == Wal && PARTS[2] == Shm;
    forall d ensures d in backups <==> d in Data(c) && d in before {
      if d.Db? {
        assert d == Db(d.part);
      }
    }
  }

  /** What a rollback amounts to: stop, put the program back, copy the backed-up data files back. */
  lemma RestoredAll(backups: map<Path, Path>, before: Files, stopped: Files, back: Files, ready: Files, c: Component,
                    original: Content)
    requires backups.Keys == Existing(before, c)
    requires SameExcept(stopped, back, {Exe, ExeBackup}) && SameExcept(back, ready, backups.Keys + SAVED)
    requires Exe in before && before[Exe] == original
    ensures Back(before, ready, backups.Keys) && Exe in back && back[Exe] == original ==> Restored(ready, before, c)
    ensures Strays(ready, before, c) == Strays(stopped, before, c)
  {
  }

  lemma BackupsAreKept(c: Component, backups: map<Path, Path>, before: Files, moved: Files, m: Files)
    requires BackedUp(backups, moved, m, if c == ServerComponent then PARTS else [])
    requires SameExcept(before, moved, {Exe, ExeBackup})
    ensures backups.Keys == Existing(before, c)
    ensures Kept(backups, before, m, backups.Keys)
  {
    DataIsBackedUp(c, backups, moved);
  }

  /** If it is an error, then one after which the update is undone. */
  predicate Undone<T>(r: Result<T, Failure>) {
    r.Err? ==> r.error in {RenameFailed, BackupFailed, RolledBack, RollbackRestartFailed}
  }

  function Failed(ok: bool): nat {
    if ok then 0 else 1
  }

  class Host {
    var files: Files
    ghost var trace: seq<Files>     // every state so far, the present one included
    ghost var launches: seq<Files>  // the states on which a service start was attempted
    ghost var stuck: set<Path>      // what could not be removed

    /** Operations that failed; not removals and restarts of the old program. */
    ghost var failures: nat
    ghost var down: nat             // service starts that failed

    constructor (files: Files)
      ensures this.files == files && trace == [files] && launches == [] && failures == 0 && stuck == {} && down == 0
    {
      this.files, trace, launches, failures, stuck, down := files, [files], [], 0, {}, 0;
    }

    // ----- operations of the operating system -----

    method Rename(a: Path, b: Path) returns (ok: bool)
      requires a != b
      modifies this`files, this`trace, this`failures
      ensures ok ==> a in old(files) && files == (old(files) - {a})[b := old(files)[a]]
      ensures !ok ==> files == old(files)
      ensures trace == old(trace) + [files] && failures == old(failures) + Failed(ok)
    {
      ok := *;
      ok := ok && a in files;
      if ok {
        files := (files - {a})[b := files[a]];
      }
      failures := failures + Failed(ok);
      trace := trace + [files];
    }

    method Remove(p: Path) returns (ok: bool)
      modifies this`files, this`trace, this`stuck
      ensures files == if ok then old(files) - {p} else old(files)
      ensures trace == old(trace) + [files] && stuck == if ok then old(stuck) else old(stuck) + {p}
    {
      ok := *;
      if ok {
        files := files - {p};
      } else {
        stuck := stuck + {p};
      }
      trace := trace + [files];
    }

    method Write(p: Path, content: Content)
      modifies this`files, this`trace
      ensures files == old(files)[p := content]
      ensures trace == old(trace) + [files]
    {
      files := files[p := content];
      trace := trace + [files];
    }

    /** Truncates a file and writes content into it, perhaps not all of it. */
    method Fill(destination: Path, content: Content) returns (written: nat)
      modifies this`files, this`trace
      ensures written <= |content| && files == old(files)[destination := content[..written]]
      ensures old(trace) < trace && trace[|trace| - 1] == files
      ensures forall i :: |old(trace)| <= i < |trace| ==> SameExcept(old(files), trace[i], {destination})
    {
      Write(destination, []);
      written := *;
      if !(0 <= written <= |content|) {
        written := |content|;
      }
      Write(destination, content[..written]);
    }

    /** `copyFile`: it truncates the destination first and may stop half way; `how` says how it went. */
    method CopyFile(source: Path, destination: Path) returns (ok: bool, ghost how: Copy)
      requires source != destination
      modifies this`files, this`trace, this`failures
      ensures files == AfterCopy(old(files), source, destination, how) && ok == (how == Done)
      ensures ok ==> source in old(files)
      ensures SameExcept(old(files), files, {destination})
      ensures old(trace) < trace && trace[|trace| - 1] == files && failures == old(failures) + Failed(ok)
      ensures forall i :: |old(trace)| <= i < |trace| ==> SameExcept(old(files), trace[i], {destination})
    {
      trace := trace + [files];
      var accessible: bool := *;
      if source !in files || !accessible {
        failures := failures + 1;
        return false, Refused;
      }
      var content := files[source];
      var written := Fill(destination, content);
      var closed: bool := *;
      ok := written == |content| && closed;
      how := if ok then Done else CutShort(written);
      failures := failures + Failed(ok);
      assert content[..|content|] == content;
    }

    /** While a service runs it may change its data files at will. */
    method Serve(c: Component)
      modifies this`files, this`trace
      ensures SameExcept(old(files), files, Data(c))
      ensures trace == old(trace) + [files]
    {
      var data: Files := *;
      files := (map p | p in files && p !in Data(c) :: files[p]) + (map p | p in data && p in Data(c) :: data[p]);
      trace := trace + [files];
    }

    /** systemctl start, and what the service then does. */
    method StartService(c: Component) returns (ok: bool)
      modifies this`files, this`trace, this`launches, this`down
      ensures SameExcept(old(files), files, Data(c))
      ensures trace == old(trace) + [files] && launches == old(launches) + [old(files)]
      ensures down == old(down) + Failed(ok)
    {
      launches := launches + [files];
      Serve(c);
      ok := *;
      down := down + Failed(ok);
    }

    /** systemctl stop or is-active: the service may write until it is down. */
    method QueryService(c: Component) returns (ok: bool)
      modifies this`files, this`trace, this`failures
      ensures SameExcept(old(files), files, Data(c))
      ensures trace == old(trace) + [files] && failures == old(failures) + Failed(ok)
    {
      Serve(c);
      ok := *;
      failures := failures + Failed(ok);
    }

    // ----- the update -----

    /** Every state since number `from` still has the original program. */
    ghost predicate SafeSince(from: nat, original: Content)
      reads this
    {
      forall i :: from <= i < |trace| ==> Safe(trace[i], original)
    }

    /** A service start beyond number `n` was made on the program and data of `before`, which are still in place. */
    ghost predicate HandedBack(n: nat, before: Files, c: Component)
      reads this
    {
      && |launches| > n && Restored(launches[|launches| - 1], before, c)
      && Exe in files && files[Exe] == before[Exe]
    }

    /** One round of the loop in `backupDatabase`. */
    method BackupPart(part: DbPart, backups: map<Path, Path>, ghost before: Files, ghost done: seq<DbPart>)
      returns (r: Option<map<Path, Path>>)
      requires SameExcept(before, files, SAVED) && BackedUp(backups, before, files, done) && part !in done
      modifies this`files, this`trace, this`failures
      ensures SameExcept(before, files, SAVED) && old(trace) <= trace && failures == old(failures) + Failed(r.Some?)
      ensures forall i :: |old(trace)| <= i < |trace| ==> SameExcept(before, trace[i], SAVED)
      ensures r.Some? ==> BackedUp(r.value, before, files, done + [part])
    {
      var statable: bool := *;
      if !statable {
        failures := failures + 1;
        return None;
      }
      if Db(part) !in files {
        return Some(backups);
      }
      var ok, _ := CopyFile(Db(part), DbBackup(part));
      if !ok {
        return None;
      }
      return Some(backups[Db(part) := DbBackup(part)]);
    }

    /** `backupDatabase`: it fails if and only if one of its operations does. */
    method BackupDatabase(c: Component) returns (r: Option<map<Path, Path>>)
      modifies this`files, this`trace, this`failures
      ensures SameExcept(old(files), files, SAVED) && old(trace) <= trace && failures == old(failures) + Failed(r.Some?)
      ensures forall i :: |old(trace)| <= i < |trace| ==> SameExcept(old(files), trace[i], SAVED)
      ensures r.Some? ==> BackedUp(r.value, old(files), files, if c == ServerComponent then PARTS else [])
    {
      r := Some(map[]);
      if c != ServerComponent {
        return;
      }
      for i := 0 to |PARTS|
        invariant SameExcept(old(files), files, SAVED) && old(trace) <= trace && failures == old(failures)
        invariant forall k :: |old(trace)| <= k < |trace| ==> SameExcept(old(files), trace[k], SAVED)
        invariant r.Some? && BackedUp(r.value, old(files), files, PARTS[..i])
      {
        r := BackupPart(PARTS[i], r.value, old(files), PARTS[..i]);
        if r.None? {
          return;
        }
        assert PARTS[..i] + [PARTS[i]] == PARTS[..i + 1];
      }
      assert PARTS[..|PARTS|] == PARTS;
    }

    /** One round of the restoring loop of `rollback`. */
    method RestorePart(part: DbPart) returns (ghost round: Round)
      modifies this`files, this`trace, this`failures, this`stuck
      ensures files == AfterRestore(old(files), part, round)
      ensures SameExcept(old(files), files, {Db(part), DbBackup(part)})
      ensures old(trace) <= trace && failures == old(failures) + Failed(round.how == Done)
      ensures forall i :: |old(trace)| <= i < |trace| ==> SameExcept(old(files), trace[i], {Db(part), DbBackup(part)})
      ensures round.how == Done ==>
                DbBackup(part) in old(files) && Db(part) in files && files[Db(part)] == old(files)[DbBackup(part)]
      ensures round.how == Done ==>
                forall i :: |old(trace)| <= i < |trace| ==> Survives(trace[i], part, old(files)[DbBackup(part)])
    {
      var _, how := CopyFile(DbBackup(part), Db(part));
      var removed := Remove(DbBackup(part));
      round := Round(how, removed);
    }

    /** The original data is at hand in each of the states from number `from` up to number `to`. */
    ghost predicate DataSurvives(from: nat, to: int, before: Files, originals: set<Path>)
      reads this
    {
      to <= |trace| && forall i :: from <= i < to ==> AllSurvive(trace[i], before, originals)
    }

    /** Every state since number `from` agrees with `base` outside `ps`. */
    ghost predicate Within(from: nat, base: Files, ps: set<Path>)
      reads this
    {
      SameExcept(base, files, ps) && forall i :: from <= i < |trace| ==> SameExcept(base, trace[i], ps)
    }

    /** While no backup is touched, the original data is at hand. */
    lemma StatesKeepBackups(backups: map<Path, Path>, before: Files, c: Component, from: nat, base: Files,
                            ps: set<Path>)
      requires Kept(backups, before, base, backups.Keys) && backups.Keys == Existing(before, c)
      requires Within(from, base, ps) && ps !! SAVED
      ensures Kept(backups, before, files, backups.Keys) && DataSurvives(from, |trace|, before, Existing(before, c))
    {
      forall i, d | from <= i < |trace| && d in backups
        ensures d.Db? && d in before && Survives(trace[i], d.part, before[d])
      {
        EveryBackupIsSaved(d.part);
      }
      forall d | d in backups ensures backups[d] in files && files[backups[d]] == before[d] {
        EveryBackupIsSaved(d.part);
      }
    }

    /** How far the restoring loop has come since the state `base`, number `from`; `todo` is still ahead. */
    ghost predicate Progress(from: nat, base: Files, failed: nat, backups: map<Path, Path>, before: Files,
                             todo: set<Path>, rounds: map<Path, Round>)
      reads this
    {
      && from <= |trace| && Within(from, base, backups.Keys + SAVED)
      && todo <= backups.Keys && rounds.Keys == backups.Keys - todo
      && Kept(backups, before, files, todo)
      && Restorings(base, files, rounds) && Untouched(base, files, todo)
      && failures >= failed && (failures == failed <==> AllDone(rounds))
      && (failures == failed ==>
            Back(before, files, backups.Keys - todo) && DataSurvives(from, |trace|, before, backups.Keys))
    }

    /** The restoring loop, over the backups in whatever order; `rounds` says how each went. */
    method RestoreDatabase(backups: map<Path, Path>, ghost before: Files) returns (ghost rounds: map<Path, Round>)
      requires Kept(backups, before, files, backups.Keys)
      modifies this`files, this`trace, this`failures, this`stuck
      ensures old(trace) <= trace && failures >= old(failures)
      ensures Within(|old(trace)|, old(files), backups.Keys + SAVED)
      ensures failures == old(failures) ==> Back(before, files, backups.Keys)
      ensures failures == old(failures) ==> DataSurvives(|old(trace)|, |trace|, before, backups.Keys)
      ensures rounds.Keys == backups.Keys && Restorings(old(files), files, rounds)
      ensures failures == old(failures) <==> AllDone(rounds)
    {
      var todo := backups.Keys;
      rounds := map[];
      while todo != {}
        invariant old(trace) <= trace
        invariant Progress(|old(trace)|, old(files), old(failures), backups, before, todo, rounds)
        decreases todo
      {
        var original :| original in todo;
        rounds := RestoreOne(original, |old(trace)|, old(files), old(failures), backups, before, todo, rounds);
        todo := todo - {original};
      }
      assert backups.Keys - todo == backups.Keys;
    }

    method RestoreOne(original: Path, ghost from: nat, ghost base: Files, ghost failed: nat, backups: map<Path, Path>,
                      ghost before: Files, ghost todo: set<Path>, ghost rounds: map<Path, Round>)
      returns (ghost more: map<Path, Round>)
      requires original in todo && Progress(from, base, failed, backups, before, todo, rounds)
      requires forall d :: d in backups ==> d.Db?
      modifies this`files, this`trace, this`failures, this`stuck
      ensures old(trace) <= trace && Progress(from, base, failed, backups, before, todo - {original}, more)
    {
      ghost var round := RestorePart(original.part);
      more := rounds[original := round];
      RoundWithin(original, from, base, |old(trace)|, old(files), backups, before, todo);
      OneMoreRound(base, old(files), files, rounds, todo, original, round);
      AllDoneGrows(rounds, original, round);
      OneMoreBack(backups, before, old(files), files, todo, backups.Keys - todo, original);
      if round.how == Done && Back(before, old(files), backups.Keys - todo) {
        forall i | |old(trace)| <= i < |trace| ensures AllSurvive(trace[i], before, backups.Keys) {
          OneMoreSurvives(backups, before, old(files), trace[i], todo, original);
        }
      }
      assert backups.Keys - (todo - {original}) == backups.Keys - todo + {original};
    }

    /** A round stays within the paths of the loop. */
    lemma RoundWithin(original: Path, from: nat, base: Files, since: nat, m: Files, backups: map<Path, Path>,
                      before: Files, todo: set<Path>)
      requires original in todo && todo <= backups.Keys && Kept(backups, before, m, todo)
      requires SameExcept(base, m, backups.Keys + SAVED)
      requires forall i :: from <= i < since && i < |trace| ==> SameExcept(base, trace[i], backups.Keys + SAVED)
      requires Within(since, m, {original, DbBackup(original.part)})
      ensures Within(from, base, backups.Keys + SAVED)
    {
      EveryBackupIsSaved(original.part);
      SameChain(base, m, files, backups.Keys + SAVED, {original, DbBackup(original.part)});
      forall i | from <= i < |trace| ensures SameExcept(base, trace[i], backups.Keys + SAVED) {
        if i >= since {
          SameChain(base, m, trace[i], backups.Keys + SAVED, {original, DbBackup(original.part)});
        }
      }
    }

    /** The first half of a rollback: stop the failed service and put the original program back. */
    method PutBack(c: Component, ghost original: Content) returns (ghost stopped: Files)
      requires ExeBackup in files && files[ExeBackup] == original
      modifies this`files, this`trace, this`failures, this`stuck
      ensures old(trace) <= trace && SafeSince(|old(trace)|, original) && Safe(files, original)
      ensures |trace| > |old(trace)| && trace[|old(trace)|] == stopped
      ensures SameExcept(old(files), stopped, Data(c)) && SameExcept(stopped, files, {Exe, ExeBackup})
      ensures Within(|old(trace)|, old(files), Data(c) + {Exe, ExeBackup}) && failures >= old(failures)
      ensures failures == old(failures) ==> Exe in files && files[Exe] == original
    {
      var _ := QueryService(c);
      stopped := files;
      var _ := Remove(Exe);
      var _ := Rename(ExeBackup, Exe);
    }

    /** That half with what it leaves untouched: the backups, and with them the data. */
    method Halt(c: Component, backups: map<Path, Path>, ghost before: Files) returns (ghost stopped: Files)
      requires Kept(backups, before, files, backups.Keys) && backups.Keys == Existing(before, c)
      requires Exe in before && ExeBackup in files && files[ExeBackup] == before[Exe]
      modifies this`files, this`trace, this`failures, this`stuck
      ensures old(trace) <= trace && SafeSince(|old(trace)|, before[Exe]) && Safe(files, before[Exe])
      ensures |trace| > |old(trace)| && trace[|old(trace)|] == stopped
      ensures SameExcept(old(files), stopped, Data(c)) && SameExcept(stopped, files, {Exe, ExeBackup})
      ensures failures >= old(failures)
      ensures failures == old(failures) ==> Exe in files && files[Exe] == before[Exe]
      ensures Kept(backups, before, stopped, backups.Keys) && Kept(backups, before, files, backups.Keys)
      ensures DataSurvives(|old(trace)|, |trace|, before, Existing(before, c))
    {
      stopped := PutBack(c, before[Exe]);
      StatesKeepBackups(backups, before, c, |old(trace)|, old(files), Data(c) + {Exe, ExeBackup});
      StoppedKeeps(backups, before, old(files), stopped, c);
    }

    /** The restoring loop leaves the program alone. */
    lemma StaysSafe(from: nat, base: Files, before: Files, c: Component, original: Content)
      requires Within(from, base, Existing(before, c) + SAVED) && Safe(base, original)
      ensures SafeSince(from, original) && Safe(files, original)
    {
    }

    /** A rollback up to the restart. */
    method Revert(c: Component, backups: map<Path, Path>, ghost before: Files)
      returns (ghost stopped: Files, ghost rounds: map<Path, Round>)
      requires Kept(backups, before, files, backups.Keys) && backups.Keys == Existing(before, c)
      requires Exe in before && ExeBackup in files && files[ExeBackup] == before[Exe]
      modifies this`files, this`trace, this`failures, this`stuck
      ensures old(trace) <= trace && SafeSince(|old(trace)|, before[Exe]) && Safe(files, before[Exe])
      ensures |trace| > |old(trace)| && trace[|old(trace)|] == stopped
      ensures SameExcept(old(files), stopped, Data(c)) && failures >= old(failures)
      ensures failures == old(failures) ==>
                Restored(files, before, c) && DataSurvives(|old(trace)|, |trace|, before, Existing(before, c))
      ensures Strays(files, before, c) == Strays(stopped, before, c)
      ensures rounds.Keys == Existing(before, c) && Accounted(before, stopped, files, rounds)
    {
      stopped := Halt(c, backups, before);
      label back:
      rounds := RestoreDatabase(backups, before);
      StaysSafe(|old@back(trace)|, old@back(files), before, c, before[Exe]);
      RestoredAll(backups, before, stopped, old@back(files), files, c, before[Exe]);
      AccountRounds(backups, before, stopped, old@back(files), files, rounds);
    }

    /**
     * The rollback closure; `stopped` is the state in which the failed service was stopped. When its stop,
     * its rename and its copies work, it hands the original program and every backed-up file to the
     * service, and each original data file is at hand in every state up to the restart; data files it has
     * no copy of stay as the failed service left them. Whatever fails, exactly those data files are lost
     * whose own one of the `rounds` loses them.
     */
    method Rollback(c: Component, backups: map<Path, Path>, ghost before: Files)
      returns (r: Failure, ghost stopped: Files, ghost rounds: map<Path, Round>)
      requires Kept(backups, before, files, backups.Keys) && backups.Keys == Existing(before, c)
      requires Exe in before && ExeBackup in files && files[ExeBackup] == before[Exe]
      modifies this
      ensures old(trace) <= trace && SafeSince(|old(trace)|, before[Exe])
      ensures r == if down == old(down) then RolledBack else RollbackRestartFailed
      ensures |trace| > |old(trace)| + 1 && trace[|old(trace)|] == stopped
      ensures SameExcept(old(files), stopped, Data(c))
      ensures |launches| == |old(launches)| + 1 && failures >= old(failures)
      ensures failures == old(failures) ==> HandedBack(|old(launches)|, before, c)
      ensures failures == old(failures) ==> DataSurvives(|old(trace)|, |trace| - 1, before, Existing(before, c))
      ensures Strays(launches[|old(launches)|], before, c) == Strays(stopped, before, c)
      ensures rounds.Keys == Existing(before, c) && Accounted(before, stopped, launches[|old(launches)|], rounds)
    {
      stopped, rounds := Revert(c, backups, before);
      var up := StartService(c);
      r := if up then RolledBack else RollbackRestartFailed;
    }

    /** Since number `n` there was one service start, on the given program. */
    ghost predicate Started(n: nat, program: Content)
      reads this
    {
      |launches| == n + 1 && Exe in launches[n] && launches[n][Exe] == program
    }

    /** Puts the new program in place and starts it; `active` is the verdict of systemctl. */
    method Launch(c: Component, ghost original: Content) returns (active: bool)
      requires ExeBackup in files && files[ExeBackup] == original
      modifies this
      ensures old(trace) <= trace && SafeSince(|old(trace)|, original) && old(launches) <= launches
      ensures active ==> Staged in old(files) && Started(|old(launches)|, old(files)[Staged])
      ensures Within(|old(trace)|, old(files), Data(c) + {Exe, Staged}) && failures == old(failures) + Failed(active)
      ensures active ==> |trace| > |old(trace)| && trace[|trace| - 1] == files
      ensures active ==> Staged in old(files) && Exe in files && files[Exe] == old(files)[Staged]
    {
      active := Rename(Staged, Exe);
      if active {
        active := Boot(c);
      }
    }

    /** Starts the new program and asks whether it is up. */
    method Boot(c: Component) returns (active: bool)
      modifies this
      ensures old(trace) < trace && Within(|old(trace)|, old(files), Data(c)) && trace[|trace| - 1] == files
      ensures launches == old(launches) + [old(files)] && failures == old(failures) + Failed(active)
    {
      active := StartService(c);
      if active {
        active := QueryService(c);
      } else {
        failures := failures + 1;
      }
    }

    /** The part of an update between the backup and the verdict on the new service. */
    method Activate(c: Component, backups: map<Path, Path>, ghost before: Files)
      returns (r: Result<(), Failure>)
      requires Kept(backups, before, files, backups.Keys) && backups.Keys == Existing(before, c)
      requires Exe in before && ExeBackup in files && files[ExeBackup] == before[Exe]
      modifies this
      ensures old(trace) <= trace && SafeSince(|old(trace)|, before[Exe]) && |old(launches)| <= |launches|
      ensures failures >= old(failures) && (r.Ok? <==> failures == old(failures)) && Undone(r)
      ensures r.Err? && failures <= old(failures) + 1 ==> HandedBack(|old(launches)|, before, c)
      ensures failures <= old(failures) + 1 ==>
                DataSurvives(|old(trace)|, |trace| - Failed(r.Ok?), before, Existing(before, c))
      ensures r.Ok? ==> |trace| > |old(trace)| && trace[|trace| - 1] == files
      ensures r.Ok? ==> Staged in old(files) && Exe in files && files[Exe] == old(files)[Staged]
      ensures r.Ok? ==> Started(|old(launches)|, old(files)[Staged])
    {
      var active := Launch(c, before[Exe]);
      StatesKeepBackups(backups, before, c, |old(trace)|, old(files), Data(c) + {Exe, Staged});
      if active {
        return Ok(());
      }
      var failure, _, _ := Rollback(c, backups, before);
      return Err(failure);
    }

    /** What follows a confirmed activation: the backups go, and nothing else. */
    method Discard(backups: map<Path, Path>)
      requires forall d :: d in backups ==> d.Db? && backups[d] == DbBackup(d.part)
      modifies this`files, this`trace, this`stuck
      ensures old(trace) <= trace && Within(|old(trace)|, old(files), SAVED + {ExeBackup})
      ensures Gone(ExeBackup) && forall d :: d in backups ==> Gone(backups[d])
    {
      var _ := Remove(ExeBackup);
      var todo := backups.Keys;
      while todo != {}
        invariant todo <= backups.Keys && old(trace) <= trace
        invariant Within(|old(trace)|, old(files), SAVED + {ExeBackup})
        invariant Gone(ExeBackup) && forall d :: d in backups && d !in todo ==> Gone(backups[d])
        decreases todo
      {
        var original :| original in todo;
        EveryBackupIsSaved(original.part);
        var _ := Remove(backups[original]);
        todo := todo - {original};
      }
    }

    /** The file is not there, unless it could not be removed. */
    ghost predicate Gone(p: Path)
      reads this
    {
      p in files ==> p in stuck
    }

    /** The states from number `from` up to number `to` differ from `before` in programs and backups only. */
    ghost predicate DataUntouched(from: nat, to: int, before: Files)
      reads this
    {
      to <= |trace| && forall i :: from <= i < to ==> SameExcept(before, trace[i], {Exe, ExeBackup} + SAVED)
    }

    lemma UntouchedSurvives(from: nat, to: int, before: Files, c: Component)
      requires DataUntouched(from, to, before)
      ensures DataSurvives(from, to, before, Existing(before, c))
    {
    }

    /** Starts the service again on a program and data that were not touched. */
    method Relaunch(c: Component, ghost before: Files)
      requires Exe in before && Exe in files && files[Exe] == before[Exe]
      requires SameExcept(before, files, {ExeBackup} + SAVED)
      modifies this`files, this`trace, this`launches, this`down
      ensures old(trace) <= trace && |trace| == |old(trace)| + 1
      ensures SafeSince(|old(trace)|, before[Exe]) && HandedBack(|old(launches)|, before, c)
    {
      var _ := StartService(c);
    }

    /** Gives up after the old program was moved but its data could not be backed up. */
    method Reinstate(c: Component, ghost before: Files)
      requires Exe in before && ExeBackup in files && files[ExeBackup] == before[Exe]
      requires SameExcept(before, files, {Exe, ExeBackup} + SAVED)
      modifies this`files, this`trace, this`launches, this`failures, this`down
      ensures old(trace) <= trace && SafeSince(|old(trace)|, before[Exe]) && |old(launches)| <= |launches|
      ensures DataUntouched(|old(trace)|, |trace| - 1, before) && failures >= old(failures)
      ensures failures == old(failures) ==> HandedBack(|old(launches)|, before, c)
    {
      var _ := Rename(ExeBackup, Exe);
      var _ := StartService(c);
    }

    /** Backs the data up once the old program is aside; gives up when that fails. */
    method SaveData(c: Component, ghost before: Files)
      returns (r: Result<map<Path, Path>, Failure>)
      requires Exe in before && ExeBackup in files && files[ExeBackup] == before[Exe]
      requires SameExcept(before, files, {Exe, ExeBackup})
      modifies this`files, this`trace, this`launches, this`failures, this`down
      ensures old(trace) <= trace && SafeSince(|old(trace)|, before[Exe]) && |old(launches)| <= |launches|
      ensures r.Ok? ==>
                && launches == old(launches)
                && Kept(r.value, before, files, r.value.Keys) && r.value.Keys == Existing(before, c)
                && ExeBackup in files && files[ExeBackup] == before[Exe]
                && SameExcept(before, files, {Exe, ExeBackup} + SAVED)
      ensures DataUntouched(|old(trace)|, |trace| - Failed(r.Ok?), before)
      ensures failures >= old(failures) && (r.Ok? <==> failures == old(failures)) && Undone(r)
      ensures r.Err? && failures <= old(failures) + 1 ==> HandedBack(|old(launches)|, before, c)
    {
      var backups := BackupDatabase(c);
      if backups.None? {
        Reinstate(c, before);
        return Err(BackupFailed);
      }
      BackupsAreKept(c, backups.value, before, old(files), files);
      return Ok(backups.value);
    }

    /** Sets the old program aside and backs its data up; undoes that when it cannot be finished. */
    method SetAside(c: Component, ghost before: Files)
      returns (r: Result<map<Path, Path>, Failure>)
      requires Exe in files && files == before
      modifies this
      ensures old(trace) <= trace && SafeSince(|old(trace)|, before[Exe]) && |old(launches)| <= |launches|
      ensures r.Ok? ==>
                && launches == old(launches)
                && Kept(r.value, before, files, r.value.Keys) && r.value.Keys == Existing(before, c)
                && ExeBackup in files && files[ExeBackup] == before[Exe]
                && SameExcept(before, files, {Exe, ExeBackup} + SAVED)
      ensures DataUntouched(|old(trace)|, |trace| - Failed(r.Ok?), before)
      ensures failures >= old(failures) && (r.Ok? <==> failures == old(failures)) && Undone(r)
      ensures r.Err? && failures <= old(failures) + 1 ==> HandedBack(|old(launches)|, before, c)
    {
      var _ := Remove(ExeBackup);
      var moved := Rename(Exe, ExeBackup);
      if moved {
        r := SaveData(c, before);
      } else {
        Relaunch(c, before);
        r := Err(RenameFailed);
      }
    }

    /** An update from the moment the old service rests to the verdict. */
    method Attempt(c: Component, ghost before: Files)
      returns (r: Result<map<Path, Path>, Failure>)
      requires Exe in files && files == before
      modifies this
      ensures old(trace) <= trace && SafeSince(|old(trace)|, before[Exe])
      ensures failures >= old(failures) && (r.Ok? <==> failures == old(failures)) && Undone(r)
      ensures r.Err? && failures <= old(failures) + 1 ==> HandedBack(|old(launches)|, before, c)
      ensures failures <= old(failures) + 1 ==>
                DataSurvives(|old(trace)|, |trace| - Failed(r.Ok?), before, Existing(before, c))
      ensures r.Ok? ==> Staged in before && Exe in files && files[Exe] == before[Staged]
      ensures r.Ok? ==> Started(|old(launches)|, before[Staged])
      ensures r.Ok? ==> |trace| > |old(trace)| && trace[|trace| - 1] == files && r.value.Keys == Existing(before, c)
      ensures r.Ok? ==> forall d :: d in r.value ==> d.Db? && r.value[d] == DbBackup(d.part)
    {
      r := SetAside(c, before);
      UntouchedSurvives(|old(trace)|, |trace| - Failed(r.Ok?), before, c);
      if r.Ok? {
        var verdict := Activate(c, r.value, before);
        if verdict.Err? {
          r := Err(verdict.error);
        }
      }
    }

    /** The backups of all data files of `before` are gone, and that of the program. */
    ghost predicate BackupsGone(before: Files, c: Component)
      reads this
    {
      Gone(ExeBackup) && forall part :: Db(part) in Data(c) && Db(part) in before ==> Gone(DbBackup(part))
    }

    /** The new program is in place since state number `confirmed`, and only backups disappeared from then on. */
    ghost predicate Installed(confirmed: nat, program: Content)
      reads this
    {
      && 1 <= confirmed <= |trace|
      && Exe in files && files[Exe] == program
      && Within(confirmed - 1, trace[confirmed - 1], SAVED + {ExeBackup})
    }

    /** An update from the moment the old service rests to its end. */
    method Upgrade(c: Component, ghost before: Files) returns (r: Result<(), Failure>, ghost confirmed: nat)
      requires Exe in files && files == before
      modifies this
      ensures old(trace) <= trace && |old(trace)| <= confirmed <= |trace| && (r.Err? ==> confirmed == |trace|)
      ensures forall i :: |old(trace)| <= i < confirmed ==> Safe(trace[i], before[Exe])
      ensures failures >= old(failures) && (r.Ok? <==> failures == old(failures)) && Undone(r)
      ensures r.Err? && failures <= old(failures) + 1 ==> HandedBack(|old(launches)|, before, c)
      ensures failures <= old(failures) + 1 ==>
                DataSurvives(|old(trace)|, confirmed - Failed(r.Ok?), before, Existing(before, c))
      ensures r.Ok? ==> Staged in before && Installed(confirmed, before[Staged]) && BackupsGone(before, c)
      ensures r.Ok? ==> Started(|old(launches)|, before[Staged])
    {
      var attempt := Attempt(c, before);
      confirmed := |trace|;
      if attempt.Err? {
        return Err(attempt.error), confirmed;
      }
      Discard(attempt.value);
      assert BackupsGone(before, c) by {
        forall part | Db(part) in Data(c) && Db(part) in before ensures Gone(DbBackup(part)) {
          assert Db(part) in attempt.value;
        }
      }
      r := Ok(());
    }

    /**
     * `replaceManagedService`. `before` is the state in which the old service came to rest, and the states
     * up to number `confirmed` are those until the new service was found active. The original program
     * survives in all of them, so a crash at any point leaves it at hand; from then on the new program
     * stays and only backups disappear. The update fails exactly when an operation does, and when no
     * second one fails the service has been handed its original program and data, and the data was at
     * hand in every state until then.
     */
    method ReplaceManagedService(c: Component)
      returns (r: Result<(), Failure>, ghost before: Files, ghost confirmed: nat)
      requires Exe in files
      modifies this
      ensures SameExcept(old(files), before, Data(c)) && old(trace) <= trace
      ensures |trace| > |old(trace)| && trace[|old(trace)|] == before
      ensures |old(trace)| < confirmed <= |trace| && (r.Err? ==> confirmed == |trace|)
      ensures forall i :: |old(trace)| <= i < confirmed ==> Safe(trace[i], old(files)[Exe])
      ensures failures >= old(failures) && (r.Ok? <==> failures == old(failures)) && (r == Err(StopFailed) || Undone(r))
      ensures r == Err(StopFailed) ==> files == before && launches == old(launches)
      ensures r.Err? && Undone(r) && failures <= old(failures) + 1 ==> HandedBack(|old(launches)|, before, c)
      ensures failures <= old(failures) + 1 ==>
                DataSurvives(|old(trace)|, confirmed - Failed(r.Ok?), before, Existing(before, c))
      ensures r.Ok? ==> Staged in old(files) && Installed(confirmed, old(files)[Staged]) && BackupsGone(before, c)
      ensures r.Ok? ==> Started(|old(launches)|, old(files)[Staged])
    {
      var stopped := QueryService(c);
      before := files;
      if stopped {
        r, confirmed := Upgrade(c, before);
      } else {
        r, confirmed := Err(StopFailed), |trace|;
      }
    }

    /** The path taken where no service manager is in charge. */
    method ReplaceInPlace() returns (ok: bool)
      requires Exe in files
      modifies this`files, this`trace, this`failures, this`stuck
      ensures old(trace) < trace && SafeSince(|old(trace)|, old(files)[Exe])
      ensures ok ==> Staged in old(files) && Exe in files && files[Exe] == old(files)[Staged]
      ensures failures >= old(failures) && (ok <==> failures == old(failures))
      ensures !ok && failures <= old(failures) + 1 ==> Exe in files && files[Exe] == old(files)[Exe]
    {
      var _ := Remove(ExeBackup);
      ok := Rename(Exe, ExeBackup);
      if ok {
        ok := Rename(Staged, Exe);
        if !ok {
          var _ := Rename(ExeBackup, Exe);
        }
      }
    }

    /** The choice between the two paths. */
    method Replace(c: Component, linux: bool) returns (r: Result<(), Failure>, ghost confirmed: nat)
      requires Exe in files
      modifies this
      ensures old(trace) <= trace && |old(trace)| < confirmed <= |trace| && (r.Err? || !linux ==> confirmed == |trace|)
      ensures forall i :: |old(trace)| <= i < confirmed ==> Safe(trace[i], old(files)[Exe])
      ensures r.Ok? && linux ==>
                && Staged in old(files) && Installed(confirmed, old(files)[Staged])
                && Started(|old(launches)|, old(files)[Staged])
      ensures !linux ==> launches == old(launches)
      ensures r.Ok? ==> Staged in old(files) && Exe in files && files[Exe] == old(files)[Staged]
      ensures failures >= old(failures) && (r.Ok? <==> failures == old(failures)) && r != Err(Locked)
      ensures r.Err? && failures <= old(failures) + 1 ==> Exe in files && files[Exe] == old(files)[Exe]
    {
      if linux {
        ghost var before;
        r, before, confirmed := ReplaceManagedService(c);
      } else {
        var ok := ReplaceInPlace();
        confirmed := |trace|;
        r := if ok then Ok(()) else Err(RenameFailed);
      }
    }

    /** os.OpenFile with O_CREATE|O_EXCL. */
    method Lock() returns (ok: bool)
      modifies this`files, this`trace, this`failures
      ensures ok ==> files == old(files)[LockFile := []]
      ensures !ok ==> files == old(files)
      ensures failures >= old(failures) && (ok <==> LockFile !in old(files) && failures == old(failures))
      ensures trace == old(trace) + [files]
    {
      ok := LockFile !in files;
      if ok {
        ok := *;
        failures := failures + Failed(ok);
      }
      if ok {
        files := files[LockFile := []];
      }
      trace := trace + [files];
    }

    /** Downloads at most one byte more than announced into the staged file and checks what came. */
    method Stage<Digest(==)>(body: Content, size: int, sha: Digest, hash: Content -> Digest)
      returns (r: Result<(), Failure>)
      modifies this`files, this`trace, this`stuck, this`failures
      ensures old(trace) <= trace && Within(|old(trace)|, old(files), {Staged})
      ensures r.Ok? ==> Staged in files && files[Staged] == body
      ensures failures >= old(failures)
      ensures r == if failures > old(failures) then Err(StageFailed)
                   else if |body| == size && hash(body) == sha then Ok(()) else Err(Mismatch)
    {
      var accessible: bool := *;
      if !accessible {
        trace := trace + [files];
        failures := failures + 1;
        return Err(StageFailed);
      }
      var limit := Max(0, size + 1);
      var received := body[..Min(|body|, limit)];
      Write(Staged, []);
      assert |body| == size ==> received == body;
      var complete: bool := *;
      Write(Staged, received);
      if !complete {
        failures := failures + 1;
        return Err(StageFailed);
      }
      if |received| != size || hash(received) != sha {
        var _ := Remove(Staged);
        return Err(Mismatch);
      }
      return Ok(());
    }

    /** The deferred removals of the staged file and the lock. */
    method CleanUp()
      modifies this`files, this`trace, this`stuck
      ensures old(trace) <= trace && |trace| == |old(trace)| + 2 && Within(|old(trace)|, old(files), {Staged, LockFile})
      ensures Gone(Staged) && Gone(LockFile)
    {
      var _ := Remove(Staged);
      var _ := Remove(LockFile);
    }

    /**
     * `Run` once manifest and asset answered: `body` is the asset served, `size` and `sha` what the
     * manifest announces. Only the announced program is ever installed; a second updater is turned away
     * without touching anything, and whoever took the lock gives it back; up to the verdict the original
     * program survives every step, and one failed operation alone never loses it.
     */
    method Run<Digest(==)>(c: Component, linux: bool, body: Content, size: int, sha: Digest, hash: Content -> Digest)
      returns (r: Result<(), Failure>, ghost confirmed: nat)
      requires Exe in files
      modifies this
      ensures old(trace) <= trace && |old(trace)| < confirmed <= |trace|
      ensures r.Err? || !linux ==> |trace| <= confirmed + 2
      ensures r.Ok? && linux ==> forall i :: confirmed <= i < |trace| ==> Exe in trace[i] && trace[i][Exe] == body
      ensures r.Ok? && linux ==> Started(|old(launches)|, body)
      ensures !linux ==> launches == old(launches)
      ensures r.Ok? <==> LockFile !in old(files) && failures == old(failures) && |body| == size && hash(body) == sha
      ensures LockFile in old(files) ==> r == Err(Locked)
      ensures if r == Err(Locked) then files == old(files) && launches == old(launches)
              else Gone(Staged) && Gone(LockFile)
      ensures r.Ok? ==> |body| == size && hash(body) == sha && Exe in files && files[Exe] == body
      ensures forall i :: |old(trace)| <= i < confirmed ==> Safe(trace[i], old(files)[Exe])
      ensures r.Err? && failures <= old(failures) + 1 ==> Exe in files && files[Exe] == old(files)[Exe]
    {
      var locked := Lock();
      if !locked {
        return Err(Locked), |trace|;
      }
      r, confirmed := Install(c, linux, body, size, sha, hash);
      CleanUp();
    }

    /** The update under the lock. */
    method Install<Digest(==)>(c: Component, linux: bool, body: Content, size: int, sha: Digest,
                               hash: Content -> Digest)
      returns (r: Result<(), Failure>, ghost confirmed: nat)
      requires Exe in files
      modifies this
      ensures old(trace) <= trace && |old(trace)| <= confirmed <= |trace| && (r.Err? || !linux ==> confirmed == |trace|)
      ensures forall i :: |old(trace)| <= i < confirmed ==> Safe(trace[i], old(files)[Exe])
      ensures r.Ok? ==> |body| == size && hash(body) == sha && Exe in files && files[Exe] == body
      ensures r.Ok? && linux ==> Installed(confirmed, body) && Started(|old(launches)|, body)
      ensures !linux ==> launches == old(launches)
      ensures failures >= old(failures)
      ensures r.Ok? <==> failures == old(failures) && |body| == size && hash(body) == sha
      ensures r.Err? && failures <= old(failures) + 1 ==> Exe in files && files[Exe] == old(files)[Exe]
      ensures r != Err(Locked)
    {
      r := Stage(body, size, sha, hash);
      confirmed := |trace|;
      if r.Ok? {
        r, confirmed := Replace(c, linux);
      }
    }
  }

  /**
   * After a clean rollback the data is exactly what it was if and only if the failed service had created
   * no data file that did not exist before.
   */
  lemma RollbackIsExactIff(m: Files, before: Files, stopped: Files, c: Component)
    requires Restored(m, before, c) && Strays(m, before, c) == Strays(stopped, before, c)
    ensures (forall d :: d in Data(c) ==> (d in m <==> d in before) && (d in m ==> m[d] == before[d]))
       <==> Strays(stopped, before, c) == {}
  {
    if Strays(stopped, before, c) != {} {
      var d :| d in Strays(m, before, c);
      assert d in Data(c) && d in m && d !in before;
    } else {
      assert forall d :: d in Data(c) && d in m && d !in before ==> d in Strays(m, before, c);
    }
  }
}
