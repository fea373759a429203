/** What several processes do to each other's backups (`store/migrate.py`): the exact condition under
    which a backup is kept, a race that overwrites one, and a restore that undoes a migration. */
module BackupRaces {
  import opened Text
  import opened Migrate
  import opened MigrationRaces
  import opened MigrationRuns

  // ----- When a backup is kept -----

  /** The process chose the name `n` while it was free, and can still rename a file onto it. */
  predicate CanPlace<D>(w: World<D>, pid: nat, n: BackupName)
    requires pid in w.live
  {
    match w.live[pid].phase
    case Named(name) => name == n
    case Cleared(name) => name == n && n !in w.partials
    case Snapshotting(name, _) => name == n && n in w.partials
    case Snapshotted(name) => name == n && n in w.partials
    case _ => false
  }

  predicate Threatened<D>(w: World<D>, n: BackupName) {
    exists pid :: pid in w.live && CanPlace(w, pid, n)
  }

  /** How often a file was renamed onto `n`. */
  function Renames<D>(w: World<D>, n: BackupName): nat {
    multiset(w.placed)[n]
  }

  /** `n` is still there, nothing was renamed onto it since, and a finished backup is as it was. */
  predicate Undisturbed<D(==)>(w: World<D>, x: World<D>, n: BackupName) {
    && n in w.backups && n in x.backups && Renames(x, n) == Renames(w, n)
    && (w.backups[n].Whole? ==> x.backups[n] == w.backups[n])
  }

  lemma BackupStepSpares<D>(w: World<D>, pid: nat, n: BackupName)
    requires n in w.backups && !Threatened(w, n) && pid in w.live && TakesBackup(w.live[pid].phase)
    ensures !Threatened(BackupStep(w, pid), n) && Undisturbed(w, BackupStep(w, pid), n)
  {
    var x := BackupStep(w, pid);
    assert !CanPlace(w, pid, n);
    forall q | q in x.live ensures !CanPlace(x, q, n) {
      assert q in w.live && !CanPlace(w, q, n);
    }
  }

  /** The other steps move no file, and put no process closer to renaming one. */
  predicate MovesNothing<D(==)>(w: World<D>, x: World<D>) {
    && x.partials == w.partials && x.backups == w.backups && x.placed == w.placed
    && forall q :: q in x.live ==>
        (q in w.live && x.live[q] == w.live[q]) || !TakesBackup(x.live[q].phase) || x.live[q].phase.Probing?
  }

  lemma OtherStepMovesNothing<D>(ms: seq<Migration<D>>, w: World<D>, pid: nat)
    requires pid in w.live && !TakesBackup(w.live[pid].phase)
    ensures MovesNothing(w, Stepped(ms, w, pid))
  {
    hide BackupStep;
    OtherStepFiles(ms, w, pid);
    OtherStepPhases(ms, w, pid);
    hide Stepped;
  }

  lemma OtherStepFiles<D>(ms: seq<Migration<D>>, w: World<D>, pid: nat)
    requires pid in w.live && !TakesBackup(w.live[pid].phase)
    ensures var x := Stepped(ms, w, pid); x.partials == w.partials && x.backups == w.backups && x.placed == w.placed
  {
    hide BackupStep;
  }

  /** A step of `pid` touches no other process, and does not take it closer to a rename. */
  predicate OnlyOwnPhase<D(==)>(w: World<D>, x: World<D>, pid: nat) {
    && x.live.Keys <= w.live.Keys && (forall q :: q in x.live && q != pid ==> x.live[q] == w.live[q])
    && (pid in x.live && TakesBackup(x.live[pid].phase) ==> x.live[pid].phase.Probing?)
  }

  lemma LockedStepPhases<D>(ms: seq<Migration<D>>, w: World<D>, pid: nat)
    requires pid in w.live && HoldsLock(w.live[pid])
    ensures OnlyOwnPhase(w, Stepped(ms, w, pid), pid)
  {
    hide BackupStep;
  }

  lemma OtherStepPhases<D>(ms: seq<Migration<D>>, w: World<D>, pid: nat)
    requires pid in w.live && !TakesBackup(w.live[pid].phase)
    ensures OnlyOwnPhase(w, Stepped(ms, w, pid), pid)
  {
    hide BackupStep;
    if HoldsLock(w.live[pid]) {
      hide Stepped;
      LockedStepPhases(ms, w, pid);
    }
  }

  lemma OtherwiseNothingMoves<D>(ms: seq<Migration<D>>, rules: Rules, w: World<D>, a: Action)
    requires a.Step? && a.pid in w.live ==> !TakesBackup(w.live[a.pid].phase)
    ensures MovesNothing(w, Next(ms, rules, w, a))
  {
    hide Stepped;
    if a.Step? && a.pid in w.live { OtherStepMovesNothing(ms, w, a.pid); }
  }

  lemma NextSpares<D>(ms: seq<Migration<D>>, rules: Rules, w: World<D>, a: Action, n: BackupName)
    requires n in w.backups && !Threatened(w, n)
    ensures !Threatened(Next(ms, rules, w, a), n) && Undisturbed(w, Next(ms, rules, w, a), n)
  {
    hide BackupStep, Stepped, Renames;
    var x := Next(ms, rules, w, a);
    if a.Step? && a.pid in w.live && TakesBackup(w.live[a.pid].phase) {
      BackupStepSpares(w, a.pid, n);
      StepIsBackupStep(ms, w, a.pid);
    } else {
      OtherwiseNothingMoves(ms, rules, w, a);
      hide Next;
      SameRenames(w, x, n);
      forall q | q in x.live ensures !CanPlace(x, q, n) {
        if q in w.live { assert !CanPlace(w, q, n); }
      }
    }
  }

  lemma StepIsBackupStep<D>(ms: seq<Migration<D>>, w: World<D>, pid: nat)
    requires pid in w.live && TakesBackup(w.live[pid].phase)
    ensures Stepped(ms, w, pid) == BackupStep(w, pid)
  {
  }

  lemma SameRenames<D>(w: World<D>, x: World<D>, n: BackupName)
    requires x.placed == w.placed
    ensures Renames(x, n) == Renames(w, n)
  {
  }

  lemma {:induction false} RunSpares<D>(ms: seq<Migration<D>>, rules: Rules, w: World<D>, actions: seq<Action>,
                                        n: BackupName)
    requires n in w.backups && !Threatened(w, n)
    ensures !Threatened(Run(ms, rules, w, actions), n) && Undisturbed(w, Run(ms, rules, w, actions), n)
  {
    hide Next, Threatened, Renames;
    if actions != [] {
      var x := Run(ms, rules, w, actions[..|actions| - 1]);
      RunSpares(ms, rules, w, actions[..|actions| - 1], n);
      NextSpares(ms, rules, x, actions[|actions| - 1], n);
    }
  }

  /** Left alone, a process that can rename onto `n` does. */
  lemma ThreatCarriedOut<D>(ms: seq<Migration<D>>, w: World<D>, pid: nat, n: BackupName) returns (steps: nat)
    requires pid in w.live && CanPlace(w, pid, n) && w.db.Some?
    ensures Renames(After(ms, w, pid, steps), n) == Renames(w, n) + 1
  {
    hide After;
    FourSteps(ms, w, pid);
    if w.live[pid].phase.Named? {
      ImageSteps(ms, w, pid, n);
      steps := 4;
    } else {
      steps := if w.live[pid].phase.Cleared? then 3 else if w.live[pid].phase.Snapshotting? then 2 else 1;
    }
  }

  /** A backup is kept exactly if no live process chose its name before it was there: then no run at all
      renames anything onto it or changes it, and otherwise some run does. */
  lemma BackupKeptExactly<D>(ms: seq<Migration<D>>, rules: Rules, w: World<D>, n: BackupName)
    requires n in w.backups && w.db.Some?
    ensures !Threatened(w, n) <==> forall actions :: Undisturbed(w, Run(ms, rules, w, actions), n)
  {
    hide Run, After, Stepped, Renames;
    if !Threatened(w, n) {
      forall actions ensures Undisturbed(w, Run(ms, rules, w, actions), n) {
        RunSpares(ms, rules, w, actions, n);
      }
    } else {
      var pid :| pid in w.live && CanPlace(w, pid, n);
      var steps := ThreatCarriedOut(ms, w, pid, n);
      StepsAre(ms, rules, w, pid, steps);
      assert !Undisturbed(w, Run(ms, rules, w, Steps(pid, steps)), n);
    }
  }

  // ----- A race that overwrites a backup -----

  const RACING := Rules(false, false)

  function Begun<D>(w: World<D>, pid: nat, target: int): World<D>
    requires w.db.Some?
  {
    w.(live := w.live[pid := Process(target, 0, w.db.value.version, Scanning)], started := w.started + {pid})
  }

  lemma Begins<D>(ms: seq<Migration<D>>, rules: Rules, w: World<D>, pid: nat, target: int)
    requires w.db.Some? && pid !in w.live && pid !in w.started && !rules.solo
    ensures Run(ms, rules, w, [Start(pid, target)]) == Begun(w, pid, target)
  {
    OneAction(ms, rules, w, Start(pid, target));
  }

  /** Process 1 has chosen the free name when process 0 backs up there and commits the first migration. */
  lemma FirstBackupTaken<D>(ms: seq<Migration<D>>, base: File<D>) returns (actions: seq<Action>, w: World<D>)
    requires ms != [] && base.version < ms[0].version && ms[0].apply(base.content).Some?
    ensures w == Run(ms, RACING, Before(base, map[]), actions)
    ensures var n := BackupName(base.version, 0);
            && w.backups == map[n := Whole(base)] && w.db == Some(File(ms[0].version, ms[0].apply(base.content).value))
            && 1 in w.live && w.live[1].phase == Named(n)
  {
    hide Run, Next, After, Steps, Stepped;
    var n, target, w0 := BackupName(base.version, 0), ms[0].version, Before(base, map[]);
    var w1 := Begun(w0, 1, target);
    Begins(ms, RACING, w0, 1, target);
    NoneTaken(w1, 1);
    NameSteps(ms, w1, 1);
    StepsAre(ms, RACING, w1, 1, 2);
    var w2 := InPhase(w1, 1, Named(n));
    var w3 := Begun(w2, 0, target);
    Begins(ms, RACING, w2, 0, target);
    NoneTaken(w3, 0);
    WholeMigration(ms, w3, 0);
    StepsAre(ms, RACING, w3, 0, 10);
    w := Migrated(ms, w3, 0);
    RunAppend(ms, RACING, w0, [Start(1, target)], Steps(1, 2));
    RunAppend(ms, RACING, w0, [Start(1, target)] + Steps(1, 2), [Start(0, target)]);
    RunAppend(ms, RACING, w0, [Start(1, target)] + Steps(1, 2) + [Start(0, target)], Steps(0, 10));
    actions := [Start(1, target)] + Steps(1, 2) + [Start(0, target)] + Steps(0, 10);
  }

  lemma NoneTaken<D>(w: World<D>, pid: nat)
    requires pid in w.live && w.backups == map[]
    ensures NameOf(w, pid) == BackupName(w.live[pid].version, 0)
  {
  }

  /** Two processes are enough: whatever the first pending migration is, there is a run without any
      failure in which the only backup of the old database is replaced by a copy of the new one. */
  lemma RaceOverwritesBackup<D>(ms: seq<Migration<D>>, base: File<D>) returns (actions: seq<Action>, more: seq<Action>)
    requires ms != [] && base.version < ms[0].version && ms[0].apply(base.content).Some?
    ensures var n, early := BackupName(base.version, 0), Run(ms, RACING, Before(base, map[]), actions);
            early.backups == map[n := Whole(base)] && Threatened(early, n)
    ensures var n, late := BackupName(base.version, 0), Run(ms, RACING, Before(base, map[]), actions + more);
            late.db.Some? && late.db.value.version == ms[0].version && late.backups == map[n := Whole(late.db.value)]
  {
    hide Run, Next, After, Steps, Stepped;
    var n, w := BackupName(base.version, 0), Before(base, map[]);
    actions, w := FirstBackupTaken(ms, base);
    assert CanPlace(w, 1, n);
    ImageSteps(ms, w, 1, n);
    StepsAre(ms, RACING, w, 1, 4);
    more := Steps(1, 4);
    RunAppend(ms, RACING, Before(base, map[]), actions, more);
    assert Imaged(w, 1, n).backups == map[n := Whole(w.db.value)];
  }

  // ----- Restoring beside a second process -----

  const FAILING := Rules(false, true)

  /** Process 0 is about to restore the base from its backup. */
  predicate AboutToRestore<D(==)>(w: World<D>, base: File<D>) {
    0 in w.live && w.live[0].phase.Restoring? && w.live[0].phase.name in w.backups
      && w.backups[w.live[0].phase.name] == Whole(base)
  }

  lemma FirstFailsHard<D>(first: Migration<D>, second: Migration<D>, base: File<D>)
    returns (actions: seq<Action>, w: World<D>)
    requires base.version < first.version < second.version
    ensures w == Run([first, second], FAILING, Before(base, map[]), actions)
    ensures w.db == Some(base) && w.holder.None? && w.live.Keys == {0} && w.started == {0} && AboutToRestore(w, base)
  {
    hide Run, After, Steps, Stepped;
    var ms, target, w0 := [first, second], second.version, Before(base, map[]);
    var w1 := Begun(w0, 0, target);
    Begins(ms, FAILING, w0, 0, target);
    NoneTaken(w1, 0);
    BackupAndLock(ms, w1, 0);
    StepsAre(ms, FAILING, w1, 0, 8);
    var w2 := After(ms, w1, 0, 8);
    w := Next(ms, FAILING, w2, FailHard(0));
    OneAction(ms, FAILING, w2, FailHard(0));
    RunAppend(ms, FAILING, w0, [Start(0, target)], Steps(0, 8));
    RunAppend(ms, FAILING, w0, [Start(0, target)] + Steps(0, 8), [FailHard(0)]);
    actions := [Start(0, target)] + Steps(0, 8) + [FailHard(0)];
  }

  lemma SecondCommits<D>(first: Migration<D>, second: Migration<D>, base: File<D>, before: World<D>)
    returns (actions: seq<Action>, w: World<D>)
    requires base.version < first.version < second.version && first.apply(base.content).Some?
    requires before.db == Some(base) && before.holder.None? && before.live.Keys == {0} && before.started == {0}
    requires AboutToRestore(before, base)
    ensures w == Run([first, second], FAILING, before, actions)
    ensures w.holder.None? && AboutToRestore(w, base) && w.db.Some?
    ensures 1 in w.live && w.live[1] == Process(second.version, 1, first.version, Scanning)
  {
    hide Run, Next, After, Steps, Stepped, FreeName;
    var ms, target := [first, second], second.version;
    var w1 := Begun(before, 1, target);
    Begins(ms, FAILING, before, 1, target);
    WholeMigration(ms, w1, 1);
    var steps := NameOf(w1, 1).suffix + 10;
    StepsAre(ms, FAILING, w1, 1, steps);
    w := Migrated(ms, w1, 1);
    RunAppend(ms, FAILING, before, [Start(1, target)], Steps(1, steps));
    actions := [Start(1, target)] + Steps(1, steps);
    assert w.live[0] == before.live[0] && before.live[0].phase.name != NameOf(w1, 1);
  }

  lemma RestoreUndoes<D>(ms: seq<Migration<D>>, base: File<D>, before: World<D>)
    requires before.holder.None? && AboutToRestore(before, base) && 1 in before.live
    ensures var w := After(ms, before, 0, 2);
            w.db == Some(base) && w.holder.None? && 1 in w.live && w.live[1] == before.live[1]
  {
    hide After;
    FourSteps(ms, before, 0);
  }

  /** A restore undoes what another process committed meanwhile; that process then applies its next
      migration to the older content. Afterwards the recorded version claims a migration that the
      content lacks. */
  lemma RestoreRaceLosesMigration<D>(first: Migration<D>, second: Migration<D>, base: File<D>, once: D)
    returns (actions: seq<Action>)
    requires base.version < first.version < second.version
    requires first.apply(base.content) == Some(once) && second.apply(base.content).Some?
    requires second.apply(once) != second.apply(base.content)
    ensures var w := Run([first, second], FAILING, Before(base, map[]), actions);
            w.db.Some? && w.db.value.version == second.version && !IsUpgrade([first, second], base, w.db.value)
  {
    hide Run, Next, After, Steps, Stepped, FreeName, IsUpgrade;
    var ms := [first, second];
    var a1, w1 := FirstFailsHard(first, second, base);
    var a2, w2 := SecondCommits(first, second, base, w1);
    RestoreUndoes(ms, base, w2);
    StepsAre(ms, FAILING, w2, 0, 2);
    var w3 := After(ms, w2, 0, 2);
    WholeMigration(ms, w3, 1);
    var steps := NameOf(w3, 1).suffix + 10;
    StepsAre(ms, FAILING, w3, 1, steps);
    RunAppend(ms, FAILING, Before(base, map[]), a1, a2);
    RunAppend(ms, FAILING, Before(base, map[]), a1 + a2, Steps(0, 2));
    RunAppend(ms, FAILING, Before(base, map[]), a1 + a2 + Steps(0, 2), Steps(1, steps));
    actions := a1 + a2 + Steps(0, 2) + Steps(1, steps);
    SkippedIsNoUpgrade(first, second, base, once);
  }

  lemma SkippedIsNoUpgrade<D>(first: Migration<D>, second: Migration<D>, base: File<D>, once: D)
    requires base.version < first.version < second.version
    requires first.apply(base.content) == Some(once) && second.apply(base.content).Some?
    requires second.apply(once) != second.apply(base.content)
    ensures !IsUpgrade([first, second], base, File(second.version, second.apply(base.content).value))
  {
    hide Between, ApplyAll;
    BetweenOne(first, base.version, second.version);
    BetweenOne(second, base.version, second.version);
    BetweenAdds([first], [second], base.version, second.version);
    assert [first] + [second] == [first, second];
    TwoApplied(first, second, base.content);
  }

  lemma TwoApplied<D>(first: Migration<D>, second: Migration<D>, d: D)
    requires first.apply(d).Some?
    ensures ApplyAll([first, second], d) == second.apply(first.apply(d).value)
  {
    assert [first][..0] == [] && [first, second][..1] == [first];
    assert ApplyAll([first], d) == first.apply(d);
  }
}
