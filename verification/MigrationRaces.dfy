/** Several processes running `store/migrate.py` on one database, with a crash possible between any two
    steps. One step is one file operation or one SQLite statement, except that the statements of one
    migration, which no other process can see before the commit, are one step. An error that SQLite
    rolls back ends a process exactly as a crash does. */
module MigrationRaces {
  import opened Text
  import opened Migrate

  datatype Phase<D> =
    | Scanning
    | Probing(suffix: nat)
    | Named(name: BackupName)
    | Cleared(name: BackupName)
    | Snapshotting(name: BackupName, seen: File<D>)
    | Snapshotted(name: BackupName)
    | Placed(name: BackupName)
    | Verified(name: BackupName)
    | Holding(name: BackupName)
    | Changed(name: BackupName, content: D)
    | Restoring(name: BackupName)
    | Copying(name: BackupName)

  /** A process at migration `k`, believing the database to be at `version`. */
  datatype Process<D> = Process(target: int, k: nat, version: int, phase: Phase<D>)

  /** A snapshot file: still being written by a process that may have died since, or finished. */
  datatype Image<D> = Writing(writer: nat) | Whole(file: File<D>)

  type Images<D> = map<BackupName, Image<D>>

  /** `db` is the committed content, or nothing while a restore is half copied; `applied` lists the
      migrations committed, `placed` the names renamed into place, `started` every process ever. */
  datatype World<D> = World(
    db: Option<File<D>>, holder: Option<nat>, live: map<nat, Process<D>>, backups: Images<D>, partials: Images<D>,
    applied: seq<int>, placed: seq<BackupName>, started: set<nat>)

  /** `FailHard` is a failure that SQLite cannot roll back. */
  datatype Action = Start(pid: nat, target: int) | Step(pid: nat) | FailHard(pid: nat) | Crash(pid: nat)

  /** One process at a time or several; whether a rollback may fail. */
  datatype Rules = Rules(solo: bool, hard: bool)

  function Ended<D>(w: World<D>, pid: nat): World<D> {
    w.(live := w.live - {pid}, holder := if w.holder == Some(pid) then None else w.holder)
  }

  function InPhase<D>(w: World<D>, pid: nat, phase: Phase<D>): World<D>
    requires pid in w.live
  {
    w.(live := w.live[pid := w.live[pid].(phase := phase)])
  }

  /** The writer finishes its file if that is what the name still, or by now, stands for. */
  function Completed<D(==)>(images: Images<D>, name: BackupName, pid: nat, seen: File<D>): Images<D> {
    if name in images && images[name] == Writing(pid) then images[name := Whole(seen)] else images
  }

  predicate TakesBackup<D>(f: Phase<D>) {
    f.Probing? || f.Named? || f.Cleared? || f.Snapshotting? || f.Snapshotted?
  }

  /** `_free_backup_path` and `_take_backup`: one existence test, removal, `VACUUM INTO` or rename. */
  function BackupStep<D(==)>(w: World<D>, pid: nat): World<D>
    requires pid in w.live && TakesBackup(w.live[pid].phase)
  {
    match w.live[pid].phase
    case Probing(s) =>
      var name := BackupName(w.live[pid].version, s);
      InPhase(w, pid, if name in w.backups then Probing(s + 1) else Named(name))
    case Named(name) => InPhase(w.(partials := w.partials - {name}), pid, Cleared(name))
    case Cleared(name) =>
      if w.db.None? || name in w.partials then Ended(w, pid)
      else InPhase(w.(partials := w.partials[name := Writing(pid)]), pid, Snapshotting(name, w.db.value))
    case Snapshotting(name, seen) =>
      var partials, backups := Completed(w.partials, name, pid, seen), Completed(w.backups, name, pid, seen);
      InPhase(w.(partials := partials, backups := backups), pid, Snapshotted(name))
    case Snapshotted(name) =>
      if name !in w.partials then Ended(w, pid)
      else
        InPhase(w.(backups := w.backups[name := w.partials[name]], partials := w.partials - {name},
                   placed := w.placed + [name]),
                pid, Placed(name))
  }

  /** The next step of a live process; it waits for the write lock, and ends on an error. */
  function Stepped<D(==)>(ms: seq<Migration<D>>, w: World<D>, pid: nat): World<D>
    requires pid in w.live
  {
    var p := w.live[pid];
    match p.phase
    case Scanning =>
      if p.k >= |ms| then Ended(w, pid)
      else if p.version < ms[p.k].version <= p.target then InPhase(w, pid, Probing(0))
      else w.(live := w.live[pid := p.(k := p.k + 1)])
    case Placed(name) => if name in w.backups then InPhase(w, pid, Verified(name)) else Ended(w, pid)
    case Verified(name) =>
      if w.db.None? then Ended(w, pid) else if w.holder.Some? then w
      else InPhase(w.(holder := Some(pid)), pid, Holding(name))
    case Holding(name) =>
      if w.db.None? || p.k >= |ms| then Ended(w, pid)
      else if w.db.value.version >= ms[p.k].version then
        w.(holder := None, live := w.live[pid := Process(p.target, p.k + 1, ms[p.k].version, Scanning)])
      else
        var content := ms[p.k].apply(w.db.value.content);
        if content.None? then Ended(w, pid) else InPhase(w, pid, Changed(name, content.value))
    case Changed(name, content) =>
      if p.k >= |ms| then Ended(w, pid)
      else
        w.(db := Some(File(ms[p.k].version, content)), holder := None, applied := w.applied + [ms[p.k].version],
           live := w.live[pid := Process(p.target, p.k + 1, ms[p.k].version, Scanning)])
    case Restoring(name) => InPhase(w.(db := None), pid, Copying(name))
    case Copying(name) =>
      Ended(if name in w.backups && w.backups[name].Whole? then w.(db := Some(w.backups[name].file)) else w, pid)
    case _ => BackupStep(w, pid)
  }

  function Next<D(==)>(ms: seq<Migration<D>>, rules: Rules, w: World<D>, a: Action): World<D> {
    match a
    case Start(pid, target) =>
      if pid in w.live || pid in w.started || w.db.None? || (rules.solo && w.live != map[]) then w
      else w.(live := w.live[pid := Process(target, 0, w.db.value.version, Scanning)], started := w.started + {pid})
    case Crash(pid) => Ended(w, pid)
    case FailHard(pid) =>
      if !rules.hard || pid !in w.live then w
      else
        var phase := w.live[pid].phase;
        if phase.Holding? || phase.Changed? then InPhase(w.(holder := None), pid, Restoring(phase.name)) else w
    case Step(pid) => if pid in w.live then Stepped(ms, w, pid) else w
  }

  function Run<D(==)>(ms: seq<Migration<D>>, rules: Rules, w: World<D>, actions: seq<Action>): World<D> {
    if actions == [] then w else Next(ms, rules, Run(ms, rules, w, actions[..|actions| - 1]), actions[|actions| - 1])
  }

  function Before<D>(base: File<D>, backups: Images<D>): World<D> {
    World(Some(base), None, map[], backups, map[], [], [], {})
  }

  function Versions<D>(ms: seq<Migration<D>>): seq<int> {
    seq(|ms|, i requires 0 <= i < |ms| => ms[i].version)
  }

  // ----- Several processes -----

  /** The database is what the migrations up to its version make of the base, and each of them was
      committed exactly once, in order. */
  predicate Consistent<D(==)>(ms: seq<Migration<D>>, base: File<D>, w: World<D>) {
    w.db.Some? && IsUpgrade(ms, base, w.db.value)
      && w.applied == Versions(Between(ms, base.version, w.db.value.version))
  }

  predicate ScannedDone<D>(ms: seq<Migration<D>>, p: Process<D>, v: int) {
    p.k <= |ms| && p.version <= v && forall i :: 0 <= i < p.k && ms[i].version <= p.target ==> ms[i].version <= v
  }

  predicate AtWork<D>(ms: seq<Migration<D>>, p: Process<D>) {
    !p.phase.Scanning? ==> p.k < |ms| && p.version < ms[p.k].version <= p.target
  }

  predicate HoldsLock<D>(p: Process<D>) {
    p.phase.Holding? || p.phase.Changed?
  }

  predicate ProcessSound<D(==)>(ms: seq<Migration<D>>, w: World<D>, pid: nat)
    requires pid in w.live && w.db.Some?
  {
    var p, file := w.live[pid], w.db.value;
    && ScannedDone(ms, p, file.version) && AtWork(ms, p)
    && !p.phase.Restoring? && !p.phase.Copying?
    && (HoldsLock(p) ==> w.holder == Some(pid))
    && (p.phase.Changed? ==>
          p.k < |ms| && file.version < ms[p.k].version && ms[p.k].apply(file.content) == Some(p.phase.content))
  }

  predicate Sound<D(==)>(ms: seq<Migration<D>>, base: File<D>, w: World<D>) {
    Consistent(ms, base, w) && forall pid :: pid in w.live ==> ProcessSound(ms, w, pid)
  }

  /** Committing what a sound process changed. */
  lemma CommitConsistent<D>(ms: seq<Migration<D>>, base: File<D>, w: World<D>, pid: nat)
    requires Ordered(ms) && Consistent(ms, base, w) && pid in w.live && ProcessSound(ms, w, pid)
             && w.live[pid].phase.Changed?
    ensures Consistent(ms, base, Stepped(ms, w, pid))
    ensures Stepped(ms, w, pid).db.value.version == ms[w.live[pid].k].version > w.db.value.version
  {
    hide IsUpgrade;
    var p, v := w.live[pid], w.db.value.version;
    forall i | 0 <= i < p.k ensures ms[i].version <= v {
      assert ms[i].version < ms[p.k].version <= p.target;
    }
    NextUpgrade(ms, base, w.db.value, p.k);
    assert base.version <= v by { UpgradeAbove(ms, base, w.db.value); }
    NextMigration(ms, base.version, v, p.k);
  }

  lemma UpgradeAbove<D>(ms: seq<Migration<D>>, base: File<D>, file: File<D>)
    requires IsUpgrade(ms, base, file)
    ensures base.version <= file.version
  {
  }

  /** Other processes are unaffected by a commit that raises the version, when they hold no lock. */
  lemma CommitKeepsOthers<D>(ms: seq<Migration<D>>, base: File<D>, w: World<D>, pid: nat)
    requires Ordered(ms) && Sound(ms, base, w) && pid in w.live && w.live[pid].phase.Changed?
    ensures Sound(ms, base, Stepped(ms, w, pid))
  {
    hide Consistent;
    CommitConsistent(ms, base, w, pid);
    var p, x := w.live[pid], Stepped(ms, w, pid);
    assert w.db.Some? && x.db.Some? by { ConsistentOpen(ms, base, w); ConsistentOpen(ms, base, x); }
    forall q | q in x.live ensures ProcessSound(ms, x, q) {
      if q != pid {
        assert x.live[q] == w.live[q] && ProcessSound(ms, w, q);
        assert !HoldsLock(w.live[q]);
      } else {
        forall i | 0 <= i < p.k + 1 ensures ms[i].version <= ms[p.k].version {
          if i < p.k { assert ms[i].version < ms[p.k].version; }
        }
      }
    }
  }

  lemma ConsistentOpen<D>(ms: seq<Migration<D>>, base: File<D>, w: World<D>)
    requires Consistent(ms, base, w)
    ensures w.db.Some?
  {
  }

  predicate OnlyProcess<D(==)>(w: World<D>, x: World<D>, pid: nat) {
    && x.db == w.db && x.applied == w.applied && x.live.Keys <= w.live.Keys
    && (forall q :: q in x.live && q != pid ==> x.live[q] == w.live[q])
    && (w.holder.Some? && w.holder.value != pid ==> x.holder == w.holder)
  }

  lemma StepFrame<D>(ms: seq<Migration<D>>, w: World<D>, pid: nat)
    requires pid in w.live
    requires var p := w.live[pid].phase; !p.Changed? && !p.Restoring? && !p.Copying?
    requires HoldsLock(w.live[pid]) ==> w.holder == Some(pid)
    ensures OnlyProcess(w, Stepped(ms, w, pid), pid)
  {
    hide BackupStep;
    if TakesBackup(w.live[pid].phase) { BackupFrame(w, pid); }
  }

  /** Taking a backup touches no database, no lock and no other process. */
  lemma BackupFrame<D>(w: World<D>, pid: nat)
    requires pid in w.live && TakesBackup(w.live[pid].phase)
    ensures var x := BackupStep(w, pid);
            && OnlyProcess(w, x, pid) && x.db == w.db
            && (pid in x.live ==> x.live[pid] == w.live[pid].(phase := x.live[pid].phase))
            && (pid in x.live ==> TakesBackup(x.live[pid].phase) || x.live[pid].phase.Placed?)
  {
  }

  lemma StepOwn<D>(ms: seq<Migration<D>>, w: World<D>, pid: nat)
    requires pid in w.live && w.db.Some? && ProcessSound(ms, w, pid) && !w.live[pid].phase.Changed?
    ensures var x := Stepped(ms, w, pid); x.db == w.db && (pid in x.live ==> ProcessSound(ms, x, pid))
  {
    hide BackupStep;
    if TakesBackup(w.live[pid].phase) { BackupFrame(w, pid); }
  }

  lemma StepKeepsSound<D>(ms: seq<Migration<D>>, base: File<D>, w: World<D>, pid: nat)
    requires Ordered(ms) && Sound(ms, base, w) && pid in w.live && !w.live[pid].phase.Changed?
    ensures Sound(ms, base, Stepped(ms, w, pid)) && Stepped(ms, w, pid).db == w.db
  {
    hide IsUpgrade, Between, Versions, Stepped, Ordered;
    var x := Stepped(ms, w, pid);
    assert ProcessSound(ms, w, pid);
    StepFrame(ms, w, pid);
    StepOwn(ms, w, pid);
    forall q | q in x.live ensures ProcessSound(ms, x, q) {
      assert ProcessSound(ms, w, q);
    }
  }

  lemma NextKeepsSound<D>(ms: seq<Migration<D>>, base: File<D>, rules: Rules, w: World<D>, a: Action)
    requires Ordered(ms) && Sound(ms, base, w) && !rules.hard
    ensures Sound(ms, base, Next(ms, rules, w, a))
    ensures w.db.Some? && Next(ms, rules, w, a).db.Some? && w.db.value.version <= Next(ms, rules, w, a).db.value.version
  {
    hide IsUpgrade, Between, Versions, Stepped, Ordered;
    match a
    case Step(pid) =>
      if pid in w.live {
        if w.live[pid].phase.Changed? {
          CommitKeepsOthers(ms, base, w, pid);
          CommitConsistent(ms, base, w, pid);
        } else {
          StepKeepsSound(ms, base, w, pid);
        }
      }
    case Crash(pid) =>
      var x := Next(ms, rules, w, a);
      forall q | q in x.live ensures ProcessSound(ms, x, q) {
        assert ProcessSound(ms, w, q);
      }
    case Start(pid, target) =>
      var x := Next(ms, rules, w, a);
      forall q | q in x.live ensures ProcessSound(ms, x, q) {
        if q in w.live { assert ProcessSound(ms, w, q); }
      }
    case FailHard(pid) =>
  }

  /** Whatever processes start, interleave and crash, as long as SQLite can roll back: the database is
      exactly its recorded version of the base and every migration was committed exactly once. */
  lemma {:induction false} RacesStayConsistent<D>(ms: seq<Migration<D>>, base: File<D>, backups: Images<D>, solo: bool,
                                                  actions: seq<Action>)
    requires Ordered(ms)
    ensures Sound(ms, base, Run(ms, Rules(solo, false), Before(base, backups), actions))
  {
    hide Next, Sound;
    if actions == [] {
      BeforeSound(ms, base, backups);
    } else {
      var n := |actions| - 1;
      RacesStayConsistent(ms, base, backups, solo, actions[..n]);
      NextKeepsSound(ms, base, Rules(solo, false), Run(ms, Rules(solo, false), Before(base, backups), actions[..n]),
                     actions[n]);
    }
  }

  lemma BeforeSound<D>(ms: seq<Migration<D>>, base: File<D>, backups: Images<D>)
    ensures Sound(ms, base, Before(base, backups))
  {
    hide Between;
    BaseIsUpgrade(ms, base);
    NothingBetween(ms, base.version);
  }

  /** The recorded version never decreases. */
  lemma {:induction false} VersionNeverDecreases<D>(ms: seq<Migration<D>>, base: File<D>, backups: Images<D>,
                                                    solo: bool,
                                                    actions: seq<Action>, more: seq<Action>)
    requires Ordered(ms)
    ensures var rules := Rules(solo, false);
            var early, late := Run(ms, rules, Before(base, backups), actions),
              Run(ms, rules, Before(base, backups), actions + more);
            early.db.Some? && late.db.Some? && early.db.value.version <= late.db.value.version
  {
    hide Next, Sound;
    var rules, w := Rules(solo, false), Before(base, backups);
    RacesStayConsistent(ms, base, backups, solo, actions);
    SoundOpen(ms, base, Run(ms, rules, w, actions));
    if more == [] {
      assert actions + more == actions;
    } else {
      var n := |more| - 1;
      VersionNeverDecreases(ms, base, backups, solo, actions, more[..n]);
      assert (actions + more)[..|actions + more| - 1] == actions + more[..n];
      RacesStayConsistent(ms, base, backups, solo, actions + more[..n]);
      NextKeepsSound(ms, base, rules, Run(ms, rules, w, actions + more[..n]), more[n]);
    }
  }

  lemma SoundOpen<D>(ms: seq<Migration<D>>, base: File<D>, w: World<D>)
    requires Sound(ms, base, w)
    ensures w.db.Some?
  {
  }
}
