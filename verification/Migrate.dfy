/** The migration runner (`store/migrate.py`) as one process runs it, on the database file and the
    backups beside it. */
module Migrate {
  import opened Text

  /** A migration's statements on the content of the database; `None` when one of them fails. */
  datatype Migration<!D> = Migration(version: int, apply: D -> Option<D>)

  /** A database file: its `user_version` and everything else in it. */
  datatype File<D> = File(version: int, content: D)

  /** `.bak-N` has suffix 0, `.bak-N.s` suffix `s`. */
  datatype BackupName = BackupName(version: int, suffix: nat)

  predicate Ordered<D>(ms: seq<Migration<D>>) {
    forall i, j :: 0 <= i < j < |ms| ==> ms[i].version < ms[j].version
  }

  /** The migrations above `lo` and up to `hi`. */
  function Between<D>(ms: seq<Migration<D>>, lo: int, hi: int): seq<Migration<D>> {
    if ms == [] then []
    else
      Between(ms[..|ms| - 1], lo, hi) + if lo < ms[|ms| - 1].version <= hi then [ms[|ms| - 1]] else []
  }

  /** Applying migrations in order. */
  function ApplyAll<D>(ms: seq<Migration<D>>, d: D): Option<D> {
    if ms == [] then Some(d)
    else
      var before := ApplyAll(ms[..|ms| - 1], d);
      if before.None? then None else ms[|ms| - 1].apply(before.value)
  }

  /** The file that `base` becomes at version `v`: every migration up to `v`, each once, in order. */
  function Upgraded<D>(ms: seq<Migration<D>>, base: File<D>, v: int): Option<File<D>> {
    var content := ApplyAll(Between(ms, base.version, v), base.content);
    if content.None? then None else Some(File(v, content.value))
  }

  predicate IsUpgrade<D(==)>(ms: seq<Migration<D>>, base: File<D>, file: File<D>) {
    base.version <= file.version && Upgraded(ms, base, file.version) == Some(file)
  }

  lemma {:induction false} BetweenAbove<D>(ms: seq<Migration<D>>, lo: int, hi: int)
    requires forall i :: 0 <= i < |ms| ==> ms[i].version > hi || ms[i].version <= lo
    ensures Between(ms, lo, hi) == []
  {
    if ms != [] { BetweenAbove(ms[..|ms| - 1], lo, hi); }
  }

  lemma {:induction false} BetweenSame<D>(ms: seq<Migration<D>>, lo: int, hi: int, to: int)
    requires forall i :: 0 <= i < |ms| ==> (ms[i].version <= hi <==> ms[i].version <= to)
    ensures Between(ms, lo, hi) == Between(ms, lo, to)
  {
    if ms != [] { BetweenSame(ms[..|ms| - 1], lo, hi, to); }
  }

  lemma {:induction false} BetweenAdds<D>(a: seq<Migration<D>>, b: seq<Migration<D>>, lo: int, hi: int)
    ensures Between(a + b, lo, hi) == Between(a, lo, hi) + Between(b, lo, hi)
  {
    if b == [] {
      assert a + b == a;
    } else {
      assert (a + b)[..|a + b| - 1] == a + b[..|b| - 1];
      BetweenAdds(a, b[..|b| - 1], lo, hi);
    }
  }

  predicate EarlierDone<D>(ms: seq<Migration<D>>, k: nat, v: int)
    requires k <= |ms|
  {
    forall i :: 0 <= i < k ==> ms[i].version <= v
  }

  /** When everything before migration `k` is applied and it is not, it is the next one. */
  lemma NextMigration<D>(ms: seq<Migration<D>>, lo: int, v: int, k: nat)
    requires Ordered(ms) && k < |ms| && lo <= v < ms[k].version
    requires EarlierDone(ms, k, v)
    ensures Between(ms, lo, ms[k].version) == Between(ms, lo, v) + [ms[k]]
  {
    hide Between;
    var to := ms[k].version;
    var a, b, c := ms[..k], [ms[k]], ms[k + 1..];
    assert ms == a + b + c;
    BetweenAdds(a + b, c, lo, to);
    BetweenAdds(a + b, c, lo, v);
    BetweenAdds(a, b, lo, to);
    BetweenAdds(a, b, lo, v);
    BetweenSame(a, lo, v, to);
    BetweenAbove(c, lo, to);
    BetweenAbove(c, lo, v);
    BetweenOne(ms[k], lo, to);
    BetweenAbove(b, lo, v);
  }

  lemma BetweenOne<D>(m: Migration<D>, lo: int, hi: int)
    requires lo < m.version <= hi
    ensures Between([m], lo, hi) == [m]
  {
    assert [m][..0] == [];
  }

  lemma NextUpgrade<D>(ms: seq<Migration<D>>, base: File<D>, file: File<D>, k: nat)
    requires Ordered(ms) && k < |ms| && IsUpgrade(ms, base, file) && file.version < ms[k].version
    requires EarlierDone(ms, k, file.version)
    requires ms[k].apply(file.content).Some?
    ensures IsUpgrade(ms, base, File(ms[k].version, ms[k].apply(file.content).value))
  {
    NextMigration(ms, base.version, file.version, k);
    var done := Between(ms, base.version, file.version);
    assert (done + [ms[k]])[..|done|] == done;
  }

  // ----- Backup names -----

  lemma {:induction false} SuffixesCount<T>(backups: map<BackupName, T>, v: int, s: nat)
    requires forall j :: 0 <= j < s ==> BackupName(v, j) in backups
    ensures s <= |backups|
  {
    var names := set j | 0 <= j < s :: BackupName(v, j);
    SuffixSet(v, s);
    assert names <= backups.Keys;
    SubsetSize(names, backups.Keys);
  }

  lemma {:induction false} SuffixSet(v: int, s: nat)
    ensures |set j | 0 <= j < s :: BackupName(v, j)| == s
  {
    if s > 0 {
      SuffixSet(v, s - 1);
      var init := set j | 0 <= j < s - 1 :: BackupName(v, j);
      assert (set j | 0 <= j < s :: BackupName(v, j)) == init + {BackupName(v, s - 1)};
    }
  }

  /** The first suffix from `s` on that is not taken. */
  function FreeFrom<T>(backups: map<BackupName, T>, v: int, s: nat): (free: nat)
    requires forall j :: 0 <= j < s ==> BackupName(v, j) in backups
    ensures BackupName(v, free) !in backups && forall j :: 0 <= j < free ==> BackupName(v, j) in backups
    decreases |backups| - s
  {
    if BackupName(v, s) !in backups then s
    else
      SuffixesCount(backups, v, s + 1);
      FreeFrom(backups, v, s + 1)
  }

  function FreeName<T>(backups: map<BackupName, T>, v: int): (name: BackupName)
    ensures name !in backups && name.version == v
  {
    BackupName(v, FreeFrom(backups, v, 0))
  }

  /** `_free_backup_path`. */
  method FreeBackupPath<T>(backups: map<BackupName, T>, v: int) returns (name: BackupName)
    ensures name == FreeName(backups, v)
  {
    name := BackupName(v, 0);
    while name in backups
      invariant name.version == v
      invariant forall j :: 0 <= j < name.suffix ==> BackupName(v, j) in backups
      invariant FreeFrom(backups, v, 0) == FreeFrom(backups, v, name.suffix)
      decreases |backups| - name.suffix
    {
      SuffixesCount(backups, v, name.suffix + 1);
      name := BackupName(v, name.suffix + 1);
    }
  }

  // ----- One process, undisturbed -----

  datatype MigrateResult = Reached(version: int) | MigrationError(at: int)

  lemma BaseIsUpgrade<D>(ms: seq<Migration<D>>, base: File<D>)
    ensures IsUpgrade(ms, base, base)
  {
    BetweenAbove(ms, base.version, base.version);
  }

  class Store<!D(==)> {
    var db: File<D>
    var backups: map<BackupName, File<D>>

    constructor (db: File<D>)
      ensures this.db == db && backups == map[]
    {
      this.db, backups := db, map[];
    }

    /** `migrate`: back up, then apply, one migration at a time; the first that fails is rolled back
        and ends the run. The database is always an upgrade of what it was; every backup there was is
        kept as it was, and every new one is the whole state at the version in its name. */
    method Run(ms: seq<Migration<D>>, target: int) returns (r: MigrateResult, ghost attempts: nat)
      requires Ordered(ms)
      modifies this
      ensures IsUpgrade(ms, old(db), db)
      ensures r.Reached? ==> r.version == db.version && forall i :: 0 <= i < |ms| && ms[i].version <= target ==>
                ms[i].version <= db.version
      ensures r.MigrationError? ==> exists k :: 0 <= k < |ms| && r.at == ms[k].version && ms[k].apply(db.content).None?
                                      && db.version < r.at <= target && EarlierDone(ms, k, db.version)
      ensures forall n :: n in old(backups) ==> n in backups && backups[n] == old(backups)[n]
      ensures forall n :: n in backups && n !in old(backups) ==>
                n.version == backups[n].version && IsUpgrade(ms, old(db), backups[n])
      ensures |backups| == |old(backups)| + attempts
      ensures attempts == |Between(ms, old(db).version, db.version)| + if r.MigrationError? then 1 else 0
    {
      hide IsUpgrade, Between, FreeFrom, FreeName, ApplyAll;
      ghost var start := db;
      var version := db.version;
      attempts := 0;
      BaseIsUpgrade(ms, db);
      NothingBetween(ms, db.version);
      for k := 0 to |ms|
        invariant version == db.version && IsUpgrade(ms, start, db) && start.version <= version
        invariant forall i :: 0 <= i < k && ms[i].version <= target ==> ms[i].version <= version
        invariant forall n :: n in old(backups) ==> n in backups && backups[n] == old(backups)[n]
        invariant forall n :: n in backups && n !in old(backups) ==>
                    n.version == backups[n].version && IsUpgrade(ms, start, backups[n])
        invariant |backups| == |old(backups)| + attempts && attempts == |Between(ms, start.version, version)|
      {
        var migration := ms[k];
        if migration.version <= version || migration.version > target { continue; }
        var backup := FreeBackupPath(backups, version);
        backups := backups[backup := db];
        attempts := attempts + 1;
        var content := migration.apply(db.content);
        assert EarlierDone(ms, k, version) by {
          forall i | 0 <= i < k ensures ms[i].version <= version {
            assert ms[i].version < ms[k].version <= target;
          }
        }
        if content.None? { return MigrationError(migration.version), attempts; }
        NextUpgrade(ms, start, db, k);
        NextMigration(ms, start.version, version, k);
        db := File(migration.version, content.value);
        version := migration.version;
      }
      r := Reached(version);
    }
  }

  lemma NothingBetween<D>(ms: seq<Migration<D>>, v: int)
    ensures Between(ms, v, v) == []
  {
    BetweenAbove(ms, v, v);
  }
}
