/** Undisturbed stretches of one process among others (`MigrationRaces`): choosing a name, taking the
    backup, and committing. */
module MigrationRuns {
  import opened Text
  import opened Migrate
  import opened MigrationRaces

  lemma {:induction false} RunAppend<D>(ms: seq<Migration<D>>, rules: Rules, w: World<D>, a: seq<Action>,
                                        b: seq<Action>)
    ensures Run(ms, rules, w, a + b) == Run(ms, rules, Run(ms, rules, w, a), b)
  {
    hide Next;
    if b == [] {
      assert a + b == a;
    } else {
      assert (a + b)[..|a + b| - 1] == a + b[..|b| - 1];
      RunAppend(ms, rules, w, a, b[..|b| - 1]);
    }
  }

  lemma OneAction<D>(ms: seq<Migration<D>>, rules: Rules, w: World<D>, a: Action)
    ensures Run(ms, rules, w, [a]) == Next(ms, rules, w, a)
  {
    hide Next;
    assert [a][..0] == [];
  }

  /** `n` steps of one process. */
  function Steps(pid: nat, n: nat): seq<Action> {
    seq(n, i => Step(pid))
  }

  /** The world after them. */
  function After<D(==)>(ms: seq<Migration<D>>, w: World<D>, pid: nat, n: nat): World<D> {
    if n == 0 then w
    else
      var x := After(ms, w, pid, n - 1);
      if pid in x.live then Stepped(ms, x, pid) else x
  }

  lemma {:induction false} StepsAre<D>(ms: seq<Migration<D>>, rules: Rules, w: World<D>, pid: nat, n: nat)
    ensures Run(ms, rules, w, Steps(pid, n)) == After(ms, w, pid, n)
  {
    hide Stepped;
    if n > 0 {
      StepsAre(ms, rules, w, pid, n - 1);
      assert Steps(pid, n)[..n - 1] == Steps(pid, n - 1);
    }
  }

  lemma {:induction false} AfterAdds<D>(ms: seq<Migration<D>>, w: World<D>, pid: nat, m: nat, n: nat)
    ensures After(ms, w, pid, m + n) == After(ms, After(ms, w, pid, m), pid, n)
  {
    hide Stepped;
    if n > 0 { AfterAdds(ms, w, pid, m, n - 1); }
  }

  /** At a migration it will back up for. */
  predicate Ready<D>(ms: seq<Migration<D>>, w: World<D>, pid: nat) {
    && pid in w.live && w.live[pid].phase.Scanning? && w.db.Some? && w.live[pid].k < |ms|
    && w.live[pid].version < ms[w.live[pid].k].version <= w.live[pid].target
  }

  lemma Renaming<D>(w: World<D>, pid: nat, f: Phase<D>, g: Phase<D>)
    requires pid in w.live
    ensures InPhase(InPhase(w, pid, f), pid, g) == InPhase(w, pid, g)
  {
    assert w.live[pid := w.live[pid].(phase := f)][pid := w.live[pid].(phase := g)]
           == w.live[pid := w.live[pid].(phase := g)];
  }

  lemma ProbeStep<D>(ms: seq<Migration<D>>, w: World<D>, pid: nat, s: nat)
    requires pid in w.live && w.live[pid].phase == Probing(s)
    ensures var name := BackupName(w.live[pid].version, s);
            Stepped(ms, w, pid) == InPhase(w, pid, if name in w.backups then Probing(s + 1) else Named(name))
  {
  }

  lemma {:induction false} ProbeSteps<D>(ms: seq<Migration<D>>, w: World<D>, pid: nat, s: nat)
    requires pid in w.live && w.live[pid].phase == Probing(s)
    requires forall j :: 0 <= j < s ==> BackupName(w.live[pid].version, j) in w.backups
    ensures var v := w.live[pid].version;
            var free := FreeFrom(w.backups, v, s);
            free >= s && After(ms, w, pid, free - s + 1) == InPhase(w, pid, Named(BackupName(v, free)))
    decreases FreeFrom(w.backups, w.live[pid].version, s) - s
  {
    hide Stepped, After;
    var v := w.live[pid].version;
    OneStep(ms, w, pid);
    ProbeStep(ms, w, pid, s);
    if BackupName(v, s) in w.backups {
      var x := InPhase(w, pid, Probing(s + 1));
      SuffixesCount(w.backups, v, s + 1);
      ProbeSteps(ms, x, pid, s + 1);
      AfterAdds(ms, w, pid, 1, FreeFrom(w.backups, v, s) - s);
      Renaming(w, pid, Probing(s + 1), Named(BackupName(v, FreeFrom(w.backups, v, s))));
    }
  }

  lemma OneStep<D>(ms: seq<Migration<D>>, w: World<D>, pid: nat)
    requires pid in w.live
    ensures After(ms, w, pid, 1) == Stepped(ms, w, pid)
  {
    hide Stepped;
    assert After(ms, w, pid, 0) == w;
  }

  lemma FourSteps<D>(ms: seq<Migration<D>>, w: World<D>, pid: nat)
    requires pid in w.live
    ensures var a := Stepped(ms, w, pid);
            && After(ms, w, pid, 1) == a
            && (pid in a.live ==>
                  var b := Stepped(ms, a, pid);
                  && After(ms, w, pid, 2) == b
                  && (pid in b.live ==>
                        var c := Stepped(ms, b, pid);
                        && After(ms, w, pid, 3) == c
                        && (pid in c.live ==> After(ms, w, pid, 4) == Stepped(ms, c, pid))))
  {
    hide Stepped;
    assert After(ms, w, pid, 0) == w;
  }

  function NameOf<D>(w: World<D>, pid: nat): BackupName
    requires pid in w.live
  {
    FreeName(w.backups, w.live[pid].version)
  }

  lemma ReadyProbes<D>(ms: seq<Migration<D>>, w: World<D>, pid: nat)
    requires Ready(ms, w, pid)
    ensures Stepped(ms, w, pid) == InPhase(w, pid, Probing(0))
  {
    hide BackupStep;
  }

  /** A ready process chooses the first free name. */
  lemma NameSteps<D>(ms: seq<Migration<D>>, w: World<D>, pid: nat)
    requires Ready(ms, w, pid)
    ensures After(ms, w, pid, NameOf(w, pid).suffix + 2) == InPhase(w, pid, Named(NameOf(w, pid)))
  {
    hide FreeFrom, Stepped, After;
    var x, name := InPhase(w, pid, Probing(0)), NameOf(w, pid);
    ReadyProbes(ms, w, pid);
    OneStep(ms, w, pid);
    ProbeSteps(ms, x, pid, 0);
    AfterAdds(ms, w, pid, 1, name.suffix + 1);
    Renaming(w, pid, Probing(0), Named(name));
  }

  /** The world once a process that chose a name has renamed its snapshot there. */
  function Imaged<D>(w: World<D>, pid: nat, name: BackupName): World<D>
    requires pid in w.live && w.db.Some?
  {
    InPhase(w.(backups := w.backups[name := Whole(w.db.value)], partials := w.partials - {name},
               placed := w.placed + [name]),
            pid, Placed(name))
  }

  lemma ImageSteps<D>(ms: seq<Migration<D>>, w: World<D>, pid: nat, name: BackupName)
    requires pid in w.live && w.live[pid].phase == Named(name) && w.db.Some?
    ensures After(ms, w, pid, 4) == Imaged(w, pid, name)
  {
    hide After;
    FourSteps(ms, w, pid);
    BackupSteps(ms, w, pid);
    hide Stepped;
    var a := BackupStep(w, pid);
    var b := BackupStep(a, pid);
    var c := BackupStep(b, pid);
    assert b.partials == w.partials[name := Writing(pid)];
    assert c.partials == w.partials[name := Whole(w.db.value)];
    assert c.backups[name := Whole(w.db.value)] == w.backups[name := Whole(w.db.value)];
    assert c.partials - {name} == w.partials - {name};
    assert BackupStep(c, pid).live == Imaged(w, pid, name).live;
  }

  lemma BackupSteps<D>(ms: seq<Migration<D>>, w: World<D>, pid: nat)
    requires pid in w.live && w.live[pid].phase.Named? && w.db.Some?
    ensures var a := BackupStep(w, pid);
            && Stepped(ms, w, pid) == a && pid in a.live && TakesBackup(a.live[pid].phase)
            && var b := BackupStep(a, pid);
            && Stepped(ms, a, pid) == b && pid in b.live && TakesBackup(b.live[pid].phase)
            && var c := BackupStep(b, pid);
            && Stepped(ms, b, pid) == c && pid in c.live && TakesBackup(c.live[pid].phase)
            && Stepped(ms, c, pid) == BackupStep(c, pid)
  {
  }

  /** The world after a process with its backup in place took the lock, or committed. */
  function Locked<D>(w: World<D>, pid: nat, name: BackupName): World<D>
    requires pid in w.live
  {
    InPhase(w.(holder := Some(pid)), pid, Holding(name))
  }

  function Committed<D>(ms: seq<Migration<D>>, w: World<D>, pid: nat): World<D>
    requires pid in w.live && w.db.Some? && w.live[pid].k < |ms| && ms[w.live[pid].k].apply(w.db.value.content).Some?
  {
    var p := w.live[pid];
    var m := ms[p.k];
    w.(db := Some(File(m.version, m.apply(w.db.value.content).value)), holder := None,
       applied := w.applied + [m.version],
       live := w.live[pid := Process(p.target, p.k + 1, m.version, Scanning)])
  }

  lemma LockSteps<D>(ms: seq<Migration<D>>, w: World<D>, pid: nat, name: BackupName)
    requires pid in w.live && w.live[pid].phase == Placed(name) && name in w.backups && w.db.Some? && w.holder.None?
    ensures After(ms, w, pid, 2) == Locked(w, pid, name)
  {
    hide After;
    FourSteps(ms, w, pid);
    var a := Stepped(ms, w, pid);
    assert Stepped(ms, a, pid).live == Locked(w, pid, name).live;
  }

  lemma CommitSteps<D>(ms: seq<Migration<D>>, w: World<D>, pid: nat, name: BackupName)
    requires pid in w.live && w.live[pid].phase == Holding(name) && w.db.Some? && w.holder == Some(pid)
    requires w.live[pid].k < |ms| && w.db.value.version < ms[w.live[pid].k].version
    requires ms[w.live[pid].k].apply(w.db.value.content).Some?
    ensures After(ms, w, pid, 2) == Committed(ms, w, pid)
  {
    hide After;
    FourSteps(ms, w, pid);
    var a := Stepped(ms, w, pid);
    assert Stepped(ms, a, pid).live == Committed(ms, w, pid).live;
  }

  /** From ready to holding the lock, undisturbed. */
  lemma BackupAndLock<D>(ms: seq<Migration<D>>, w: World<D>, pid: nat)
    requires Ready(ms, w, pid) && w.holder.None?
    ensures var name := NameOf(w, pid);
            After(ms, w, pid, name.suffix + 8) == Locked(Imaged(InPhase(w, pid, Named(name)), pid, name), pid, name)
  {
    hide After, FreeName, Stepped;
    var name := NameOf(w, pid);
    var a := InPhase(w, pid, Named(name));
    NameSteps(ms, w, pid);
    ImageSteps(ms, a, pid, name);
    LockSteps(ms, Imaged(a, pid, name), pid, name);
    AfterAdds(ms, w, pid, name.suffix + 2, 4);
    AfterAdds(ms, w, pid, name.suffix + 6, 2);
  }

  /** What a process leaves that backs up and commits undisturbed. */
  function Migrated<D>(ms: seq<Migration<D>>, w: World<D>, pid: nat): World<D>
    requires Ready(ms, w, pid) && ms[w.live[pid].k].apply(w.db.value.content).Some?
  {
    var name, p := NameOf(w, pid), w.live[pid];
    var m := ms[p.k];
    w.(db := Some(File(m.version, m.apply(w.db.value.content).value)), holder := None,
       applied := w.applied + [m.version],
       backups := w.backups[name := Whole(w.db.value)], partials := w.partials - {name}, placed := w.placed + [name],
       live := w.live[pid := Process(p.target, p.k + 1, m.version, Scanning)])
  }

  lemma WholeMigration<D>(ms: seq<Migration<D>>, w: World<D>, pid: nat)
    requires Ready(ms, w, pid) && w.holder.None? && w.db.value.version < ms[w.live[pid].k].version
    requires ms[w.live[pid].k].apply(w.db.value.content).Some?
    ensures After(ms, w, pid, NameOf(w, pid).suffix + 10) == Migrated(ms, w, pid)
  {
    hide After, FreeName, Stepped;
    var name := NameOf(w, pid);
    var x := Locked(Imaged(InPhase(w, pid, Named(name)), pid, name), pid, name);
    BackupAndLock(ms, w, pid);
    CommitSteps(ms, x, pid, name);
    AfterAdds(ms, w, pid, name.suffix + 8, 2);
    assert Committed(ms, x, pid).live == Migrated(ms, w, pid).live;
  }
}
