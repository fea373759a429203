/** What one process at a time gets from its backups even when SQLite cannot roll back
    (`store/migrate.py`). */
module MigrationSafety {
  import opened Text
  import opened Migrate
  import opened MigrationRaces

  /** A new backup is the full state at the version in its name. */
  predicate BackupsTrue<D(==)>(ms: seq<Migration<D>>, base: File<D>, initial: Images<D>, backups: Images<D>) {
    && (forall n :: n in initial ==> n in backups && backups[n] == initial[n])
    && (forall n :: n in backups && n !in initial ==>
          backups[n].Whole? && n.version == backups[n].file.version && IsUpgrade(ms, base, backups[n].file))
  }

  /** A process alone on the database knows its version, and its backup is the state it started from. */
  predicate Alone<D(==)>(ms: seq<Migration<D>>, base: File<D>, w: World<D>, pid: nat)
    requires pid in w.live
  {
    var p := w.live[pid];
    if p.phase.Copying? then
      && w.db.None? && p.phase.name in w.backups && w.backups[p.phase.name].Whole?
      && IsUpgrade(ms, base, w.backups[p.phase.name].file)
      && w.applied == Versions(Between(ms, base.version, w.backups[p.phase.name].file.version))
    else
      w.db.Some? && p.version == w.db.value.version && ScannedDone(ms, p, p.version) && AtWork(ms, p)
        && PhaseTrue(ms, w, pid)
  }

  predicate PhaseTrue<D(==)>(ms: seq<Migration<D>>, w: World<D>, pid: nat)
    requires pid in w.live && w.db.Some?
  {
    var p, file := w.live[pid], w.db.value;
    match p.phase
    case Scanning => true
    case Probing(_) => true
    case Named(name) => Fresh(w, name, file)
    case Cleared(name) => Fresh(w, name, file)
    case Snapshotting(name, seen) =>
      Fresh(w, name, file) && seen == file && name in w.partials && w.partials[name] == Writing(pid)
    case Snapshotted(name) => Fresh(w, name, file) && name in w.partials && w.partials[name] == Whole(file)
    case Changed(name, content) =>
      && name in w.backups && w.backups[name] == Whole(file)
      && p.k < |ms| && file.version < ms[p.k].version && ms[p.k].apply(file.content) == Some(content)
    case _ => p.phase.name in w.backups && w.backups[p.phase.name] == Whole(file)
  }

  /** A free name for a backup of `file`. */
  predicate Fresh<D>(w: World<D>, name: BackupName, file: File<D>) {
    name !in w.backups && name.version == file.version
  }

  predicate SoloSound<D(==)>(ms: seq<Migration<D>>, base: File<D>, initial: Images<D>, w: World<D>) {
    && BackupsTrue(ms, base, initial, w.backups)
    && (w.db.Some? ==> Consistent(ms, base, w))
    && (forall p, q :: p in w.live && q in w.live ==> p == q)
    && (forall pid :: pid in w.live ==> Alone(ms, base, w, pid))
  }

  /** What one step of the only process changes. */
  predicate OneStep<D(==)>(ms: seq<Migration<D>>, base: File<D>, initial: Images<D>, x: World<D>, w: World<D>,
                           pid: nat) {
    && x.live.Keys <= {pid} && (pid in x.live ==> Alone(ms, base, x, pid))
    && (x.db.Some? ==> Consistent(ms, base, x))
    && BackupsTrue(ms, base, initial, x.backups)
    && (forall n :: n in w.backups ==> n in x.backups && x.backups[n] == w.backups[n])
  }

  predicate QuietPhase<D>(f: Phase<D>) {
    f.Scanning? || (TakesBackup(f) && !f.Snapshotted?) || f.Placed? || f.Verified? || f.Holding?
  }

  /** Steps that leave the database and the backups alone. */
  lemma QuietStep<D>(ms: seq<Migration<D>>, base: File<D>, initial: Images<D>, w: World<D>, pid: nat)
    requires Ordered(ms) && SoloSound(ms, base, initial, w) && pid in w.live && w.live.Keys == {pid}
    requires QuietPhase(w.live[pid].phase)
    ensures OneStep(ms, base, initial, Stepped(ms, w, pid), w, pid)
  {
    hide IsUpgrade, Between, FreeName, Ordered, Versions;
    var x := Stepped(ms, w, pid);
    assert Alone(ms, base, w, pid);
    assert x.db == w.db && x.backups == w.backups && x.applied == w.applied;
    assert Consistent(ms, base, x);
    assert BackupsTrue(ms, base, initial, x.backups);
    QuietOwn(ms, base, w, pid);
  }

  lemma QuietOwn<D>(ms: seq<Migration<D>>, base: File<D>, w: World<D>, pid: nat)
    requires pid in w.live && w.live.Keys == {pid} && Alone(ms, base, w, pid)
    requires QuietPhase(w.live[pid].phase)
    ensures var x := Stepped(ms, w, pid); x.live.Keys <= {pid} && (pid in x.live ==> Alone(ms, base, x, pid))
  {
    hide IsUpgrade, Between, Versions, BackupStep;
    if TakesBackup(w.live[pid].phase) { BackupOwn(ms, base, w, pid); }
  }

  lemma BackupOwn<D>(ms: seq<Migration<D>>, base: File<D>, w: World<D>, pid: nat)
    requires pid in w.live && w.live.Keys == {pid} && Alone(ms, base, w, pid)
    requires TakesBackup(w.live[pid].phase) && !w.live[pid].phase.Snapshotted?
    ensures var x := BackupStep(w, pid); x.live.Keys <= {pid} && (pid in x.live ==> Alone(ms, base, x, pid))
  {
    hide IsUpgrade, Between, Versions;
  }

  /** Renaming a finished snapshot into place never replaces a backup. */
  lemma PlaceStep<D>(ms: seq<Migration<D>>, base: File<D>, initial: Images<D>, w: World<D>, pid: nat)
    requires SoloSound(ms, base, initial, w) && pid in w.live && w.live.Keys == {pid} && w.live[pid].phase.Snapshotted?
    ensures OneStep(ms, base, initial, Stepped(ms, w, pid), w, pid)
  {
    hide IsUpgrade, Between, FreeName, Versions;
    assert Alone(ms, base, w, pid);
  }

  lemma CommitStep<D>(ms: seq<Migration<D>>, base: File<D>, initial: Images<D>, w: World<D>, pid: nat)
    requires Ordered(ms) && SoloSound(ms, base, initial, w) && pid in w.live && w.live.Keys == {pid}
             && w.live[pid].phase.Changed?
    ensures OneStep(ms, base, initial, Stepped(ms, w, pid), w, pid)
  {
    hide IsUpgrade, Between, FreeName, Versions, BackupsTrue;
    assert Alone(ms, base, w, pid);
    var p, x := w.live[pid], Stepped(ms, w, pid);
    var locked := w.(holder := Some(pid));
    assert ProcessSound(ms, locked, pid);
    assert Consistent(ms, base, locked);
    CommitConsistent(ms, base, locked, pid);
    assert Stepped(ms, locked, pid).db == x.db && Stepped(ms, locked, pid).applied == x.applied;
    forall i | 0 <= i < p.k + 1 ensures ms[i].version <= ms[p.k].version {
      if i < p.k { assert ms[i].version < ms[p.k].version; }
    }
  }

  lemma RestoreStep<D>(ms: seq<Migration<D>>, base: File<D>, initial: Images<D>, w: World<D>, pid: nat)
    requires SoloSound(ms, base, initial, w) && pid in w.live && w.live.Keys == {pid}
             && (w.live[pid].phase.Restoring? || w.live[pid].phase.Copying?)
    ensures OneStep(ms, base, initial, Stepped(ms, w, pid), w, pid)
  {
    hide Between, FreeName, Versions, ApplyAll;
    assert Alone(ms, base, w, pid);
  }

  predicate BackupsKept<D(==)>(w: World<D>, x: World<D>) {
    forall n :: n in w.backups ==> n in x.backups && x.backups[n] == w.backups[n]
  }

  lemma SoloStep<D>(ms: seq<Migration<D>>, base: File<D>, initial: Images<D>, w: World<D>, pid: nat)
    requires Ordered(ms) && SoloSound(ms, base, initial, w) && pid in w.live
    ensures SoloSound(ms, base, initial, Stepped(ms, w, pid)) && BackupsKept(w, Stepped(ms, w, pid))
  {
    hide IsUpgrade, Between, Versions, Stepped, Ordered, BackupsTrue, Alone, Consistent;
    assert w.live.Keys == {pid};
    match w.live[pid].phase
    case Snapshotted(_) => PlaceStep(ms, base, initial, w, pid);
    case Changed(_, _) => CommitStep(ms, base, initial, w, pid);
    case Restoring(_) => RestoreStep(ms, base, initial, w, pid);
    case Copying(_) => RestoreStep(ms, base, initial, w, pid);
    case _ => QuietStep(ms, base, initial, w, pid);
  }

  lemma SoloNext<D>(ms: seq<Migration<D>>, base: File<D>, initial: Images<D>, w: World<D>, a: Action)
    requires Ordered(ms) && SoloSound(ms, base, initial, w)
    ensures SoloSound(ms, base, initial, Next(ms, Rules(true, true), w, a))
            && BackupsKept(w, Next(ms, Rules(true, true), w, a))
  {
    hide IsUpgrade, Between, Versions, Stepped, Ordered, BackupsTrue;
    match a
    case Step(pid) => if pid in w.live { SoloStep(ms, base, initial, w, pid); }
    case FailHard(pid) => if pid in w.live { assert Alone(ms, base, w, pid); }
    case Crash(pid) =>
    case Start(pid, target) =>
  }

  /** One process at a time, crashes anywhere, rollbacks that fail: the database is exactly its recorded
      version of the base, except while a restore is half copied; and every finished backup is the full
      state at the version in its name. */
  lemma {:induction false} SoloStaysSound<D>(ms: seq<Migration<D>>, base: File<D>, backups: Images<D>,
                                             actions: seq<Action>)
    requires Ordered(ms)
    ensures SoloSound(ms, base, backups, Run(ms, Rules(true, true), Before(base, backups), actions))
  {
    hide Next, SoloSound;
    if actions == [] {
      SoloBefore(ms, base, backups);
    } else {
      var n := |actions| - 1;
      SoloStaysSound(ms, base, backups, actions[..n]);
      SoloNext(ms, base, backups, Run(ms, Rules(true, true), Before(base, backups), actions[..n]), actions[n]);
    }
  }

  lemma SoloBefore<D>(ms: seq<Migration<D>>, base: File<D>, backups: Images<D>)
    ensures SoloSound(ms, base, backups, Before(base, backups))
  {
    hide IsUpgrade;
    BaseIsUpgrade(ms, base);
    NothingBetween(ms, base.version);
  }

  /** One process at a time: no backup, old or new, is ever overwritten or removed. */
  lemma {:induction false} BackupsAreKept<D>(ms: seq<Migration<D>>, base: File<D>, backups: Images<D>,
                                             actions: seq<Action>, more: seq<Action>, n: BackupName)
    requires Ordered(ms) && n in Run(ms, Rules(true, true), Before(base, backups), actions).backups
    ensures var early, late := Run(ms, Rules(true, true), Before(base, backups), actions),
                               Run(ms, Rules(true, true), Before(base, backups), actions + more);
            n in late.backups && late.backups[n] == early.backups[n]
  {
    hide Next, SoloSound;
    if more == [] {
      assert actions + more == actions;
    } else {
      var last := |more| - 1;
      BackupsAreKept(ms, base, backups, actions, more[..last], n);
      assert (actions + more)[..|actions + more| - 1] == actions + more[..last];
      SoloStaysSound(ms, base, backups, actions + more[..last]);
      SoloNext(ms, base, backups, Run(ms, Rules(true, true), Before(base, backups), actions + more[..last]),
               more[last]);
    }
  }
}
