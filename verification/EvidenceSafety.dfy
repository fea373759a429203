/** What the writes of `EvidenceStore` keep over every run: the evidence floor, exactness of the
    links under the rollback rule, and evidence that never stops resolving. */
module EvidenceSafety {
  import opened Text
  import opened MemoryTable
  import opened EvidenceStore
  import Normalize
  import QuoteGate

  // ----- Reading anchors back -----

  lemma {:induction false} AnchorsConcat(a: seq<Evidence>, b: seq<Evidence>, id: int)
    ensures AnchorsOf(a + b, id) == AnchorsOf(a, id) + AnchorsOf(b, id)
  {
    if b == [] {
      assert a + b == a;
    } else {
      assert (a + b)[..|a + b| - 1] == a + b[..|b| - 1];
      AnchorsConcat(a, b[..|b| - 1], id);
    }
  }

  lemma {:induction false} AnchorsOfRows(id: int, anchors: seq<Anchor>, other: int)
    ensures AnchorsOf(RowsFor(id, anchors), other) == if other == id then anchors else []
  {
    if anchors != [] {
      var n := |anchors| - 1;
      assert RowsFor(id, anchors)[..n] == RowsFor(id, anchors[..n]);
      AnchorsOfRows(id, anchors[..n], other);
      assert anchors == anchors[..n] + [anchors[n]];
    }
  }

  lemma {:induction false} AnchorsExist(evidence: seq<Evidence>, id: int)
    ensures AnchorsOf(evidence, id) != [] <==> id in Evidenced(evidence)
  {
    if evidence != [] {
      var n := |evidence| - 1;
      AnchorsExist(evidence[..n], id);
      if id in Evidenced(evidence[..n]) {
        var k :| 0 <= k < n && evidence[..n][k].memory == id;
        assert evidence[k].memory == id;
      }
      if id in Evidenced(evidence) && evidence[n].memory != id {
        var k :| 0 <= k < |evidence| && evidence[k].memory == id;
        assert evidence[..n][k].memory == id;
      }
    }
  }

  lemma StoredAll(db: Db, anchors: seq<Anchor>)
    ensures AllStorable(db, anchors) <==> Stored(db, anchors) == |anchors|
  {
  }

  // ----- What one write does -----

  /** A write that succeeds adds one memory at a new id, links it to the anchors of this call after
      any row already filed under that id, and touches no other memory's links. */
  lemma WriteEffect(db: Db, row: Memory, anchors: seq<Anchor>)
    requires Shaped(db.memories) && Written(db, row, anchors).1.Some?
    ensures var (db', wrote) := Written(db, row, anchors);
            var id := wrote.value;
            && id == ReservedId(db.memories) && id !in db.memories && db'.memories == db.memories[id := row]
              && Shaped(db'.memories)
            && Preserves(db.memories, db'.memories)
            && anchors != [] && AllStorable(db, anchors)
            && db'.evidence == db.evidence + RowsFor(id, anchors)
            && db'.chunks == db.chunks && db'.events == db.events
            && AnchorsOf(db'.evidence, id) == AnchorsOf(db.evidence, id) + anchors
            && forall other :: other != id ==> AnchorsOf(db'.evidence, other) == AnchorsOf(db.evidence, other)
  {
    var (db', wrote) := Written(db, row, anchors);
    var id := wrote.value;
    StoredAll(db, anchors);
    assert anchors[..|anchors|] == anchors;
    InsertKeeps(db.memories, Evidenced(db'.evidence), false, Some(id), row);
    forall other
      ensures AnchorsOf(db'.evidence, other) == AnchorsOf(db.evidence, other) + if other == id then anchors else []
    {
      AnchorsConcat(db.evidence, RowsFor(id, anchors), other);
      AnchorsOfRows(id, anchors, other);
    }
  }

  /** A write that raises leaves the memories alone; it may leave children under the reserved id. */
  lemma FailedWriteEffect(db: Db, row: Memory, anchors: seq<Anchor>)
    requires Written(db, row, anchors).1.None?
    ensures var db' := Written(db, row, anchors).0;
            && db'.memories == db.memories && db'.chunks == db.chunks && db'.events == db.events
            && db.evidence <= db'.evidence
            && forall k :: |db.evidence| <= k < |db'.evidence| ==> db'.evidence[k].memory == ReservedId(db.memories)
  {
  }

  /** A supersession that is stored was the first of its predecessor, does not lower confidence, keeps
      the predecessor's row as it was, and is the one successor found from then on. */
  lemma SupersessionLinks(db: Db, predecessor: int, statement: string, origin: string, tier: int, anchors: seq<Anchor>,
                          session: Option<int>, at: string)
    requires Shaped(db.memories) && predecessor in db.memories
    requires Written(db, SuccessorRow(db.memories, predecessor, statement, origin, tier, session, at), anchors).1.Some?
    ensures var (db', wrote) :=
            Written(db, SuccessorRow(db.memories, predecessor, statement, origin, tier, session, at), anchors);
            && !Superseded(db.memories, predecessor) && tier <= db.memories[predecessor].tier
            && predecessor in db'.memories && db'.memories[predecessor] == db.memories[predecessor]
            && wrote.value in db'.memories
            && db'.memories[wrote.value] ==
               Memory(db.memories[predecessor].project,
                      if session.Some? then session else db.memories[predecessor].session,
                      statement, origin, tier, Some(predecessor), at)
            && (forall i :: i in db'.memories && db'.memories[i].supersedes == Some(predecessor) ==> i == wrote.value)
  {
    hide Shaped;
    var row := SuccessorRow(db.memories, predecessor, statement, origin, tier, session, at);
    WriteEffect(db, row, anchors);
    var (db', wrote) := Written(db, row, anchors);
    GuardsPassed(db.memories, Evidenced(db'.evidence), wrote.value, row);
    var id := wrote.value;
    forall i | i in db'.memories && db'.memories[i].supersedes == Some(predecessor) ensures i == id {
      if i in db.memories { PointsElsewhere(db.memories, i, predecessor); }
    }
  }

  /** The id reserved for a new memory is one more than the highest there is. */
  lemma ReservedIsNext(m: Rows)
    ensures m == map[] ==> ReservedId(m) == 1
    ensures m != map[] ==> ReservedId(m) - 1 in m && forall i :: i in m ==> i < ReservedId(m)
  {
  }

  lemma PointsElsewhere(m: Rows, i: int, id: int)
    requires i in m && !Superseded(m, id)
    ensures m[i].supersedes != Some(id)
  {
  }

  lemma GuardsPassed(m: Rows, evidenced: set<int>, id: int, row: Memory)
    ensures InsertRow(m, evidenced, false, Some(id), row).Some? && row.supersedes.Some? ==>
              && row.supersedes.value in m && !Superseded(m, row.supersedes.value)
                && row.tier <= m[row.supersedes.value].tier
  {
  }

  // ----- The floor: no run at all can leave a memory without evidence -----

  predicate Floor(db: Db) {
    forall id :: id in db.memories ==> id in Evidenced(db.evidence)
  }

  ghost predicate Sane(db: Db) {
    Shaped(db.memories) && Floor(db)
  }

  lemma EvidencedGrows(a: seq<Evidence>, b: seq<Evidence>)
    requires a <= b
    ensures Evidenced(a) <= Evidenced(b)
  {
    forall id | id in Evidenced(a) ensures id in Evidenced(b) {
      var k :| 0 <= k < |a| && a[k].memory == id;
      assert b[k].memory == id;
    }
  }

  lemma WriteSane(db: Db, row: Memory, anchors: seq<Anchor>)
    requires Sane(db)
    ensures Sane(Written(db, row, anchors).0)
  {
    var (db', wrote) := Written(db, row, anchors);
    if wrote.Some? {
      WriteEffect(db, row, anchors);
      EvidencedGrows(db.evidence, db'.evidence);
      AnchorsExist(db'.evidence, wrote.value);
    } else {
      FailedWriteEffect(db, row, anchors);
      EvidencedGrows(db.evidence, db'.evidence);
    }
  }

  lemma AfterSane(c: Conn, command: Command)
    requires Sane(c.committed) && Sane(c.working)
    ensures Sane(After(c, command).committed) && Sane(After(c, command).working)
  {
    match command
    case Write(row, anchors) => WriteSane(c.working, row, anchors);
    case Admit(d, cap) =>
      var g := GroundedIn(c.working, d);
      if g.Grounded? {
        WriteSane(c.working, Memory(d.project, d.session, d.statement, d.origin, cap(g.tier), d.supersedes, d.at),
                  [Anchor(Some(d.chunk), None, g.start, g.end)]);
      }
    case _ =>
  }

  /** In every state of every run, committed or not, each memory has evidence and the supersession
      chains are well shaped. */
  lemma {:induction false} EvidenceFloor(commands: seq<Command>)
    ensures var c := AfterAll(Conn(EMPTY_DB, EMPTY_DB), commands);
            Sane(c.committed) && Sane(c.working)
  {
    if commands == [] {
      EmptyIsShaped();
    } else {
      EvidenceFloor(commands[..|commands| - 1]);
      AfterSane(AfterAll(Conn(EMPTY_DB, EMPTY_DB), commands[..|commands| - 1]), commands[|commands| - 1]);
    }
  }

  // ----- Exactness: the links are the anchors that the write was given -----

  /** The anchors each memory's own write was called with. */
  type Ledger = map<int, seq<Anchor>>

  /** What a command asked to be written, if it wrote. */
  function Asked(c: Conn, command: Command): Option<(int, seq<Anchor>)> {
    match command
    case Write(row, anchors) =>
      var wrote := Written(c.working, row, anchors).1;
      if wrote.Some? then Some((wrote.value, anchors)) else None
    case Admit(d, cap) =>
      var wrote, g := Admitted(c.working, d, cap).1, GroundedIn(c.working, d);
      if wrote.Some? && g.Grounded? then Some((wrote.value, [Anchor(Some(d.chunk), None, g.start, g.end)])) else None
    case _ => None
  }

  predicate Raised(c: Conn, command: Command) {
    (command.Write? || command.Admit?) && Asked(c, command).None?
  }

  /** The run with its two ledgers, committed and working. */
  datatype Audit = Audit(conn: Conn, saved: Ledger, pending: Ledger)

  const FIRST_AUDIT := Audit(Conn(EMPTY_DB, EMPTY_DB), map[], map[])

  function Audited(a: Audit, command: Command): Audit {
    var conn := After(a.conn, command);
    match command
    case Commit => Audit(conn, if NoOrphans(a.conn.working) then a.pending else a.saved, a.pending)
    case Rollback => Audit(conn, a.saved, a.saved)
    case _ =>
      var asked := Asked(a.conn, command);
      Audit(conn, a.saved, if asked.Some? then a.pending[asked.value.0 := asked.value.1] else a.pending)
  }

  function AuditedAll(commands: seq<Command>): Audit {
    if commands == [] then FIRST_AUDIT else Audited(AuditedAll(commands[..|commands| - 1]), commands[|commands| - 1])
  }

  /** Every memory's links are exactly what its write was given, and no row lacks its memory. */
  ghost predicate Exact(db: Db, ledger: Ledger) {
    && Sane(db) && NoOrphans(db) && ledger.Keys == db.memories.Keys
    && forall id :: id in ledger ==> AnchorsOf(db.evidence, id) == ledger[id]
  }

  /** The rollback rule of the daemon: a write that raises is followed by a rollback. */
  predicate RollsBack(commands: seq<Command>) {
    forall k :: 0 <= k < |commands| - 1 && Raised(AuditedAll(commands[..k]).conn, commands[k]) ==>
        commands[k + 1] == Rollback
  }

  lemma NoRowsAhead(db: Db)
    requires NoOrphans(db)
    ensures AnchorsOf(db.evidence, ReservedId(db.memories)) == []
  {
    AnchorsExist(db.evidence, ReservedId(db.memories));
  }

  lemma WriteExact(db: Db, ledger: Ledger, row: Memory, anchors: seq<Anchor>)
    requires Exact(db, ledger) && Written(db, row, anchors).1.Some?
    ensures Exact(Written(db, row, anchors).0, ledger[Written(db, row, anchors).1.value := anchors])
  {
    hide Sane, Shaped, AllStorable, Preserves, Written, AnchorsOf, ReservedId;
    var (db', wrote) := Written(db, row, anchors);
    assert Shaped(db.memories) by { SaneShape(db); }
    WriteEffect(db, row, anchors);
    WriteSane(db, row, anchors);
    NoRowsAhead(db);
    var id := wrote.value;
    assert AnchorsOf(db'.evidence, id) == anchors;
    forall k | 0 <= k < |db'.evidence| ensures db'.evidence[k].memory in db'.memories {
      if k < |db.evidence| { assert db'.evidence[k] == db.evidence[k]; }
    }
  }

  lemma SaneShape(db: Db)
    requires Sane(db)
    ensures Shaped(db.memories)
  {
  }

  lemma AuditedExact(a: Audit, command: Command)
    requires Exact(a.conn.committed, a.saved) && Exact(a.conn.working, a.pending)
    ensures Exact(Audited(a, command).conn.committed, Audited(a, command).saved)
    ensures !Raised(a.conn, command) ==> Exact(Audited(a, command).conn.working, Audited(a, command).pending)
  {
    hide Written, AnchorsOf, Shaped;
    match command
    case Write(row, anchors) =>
      if Written(a.conn.working, row, anchors).1.Some? { WriteExact(a.conn.working, a.pending, row, anchors); }
    case Admit(d, cap) =>
      var g := GroundedIn(a.conn.working, d);
      if g.Grounded? && Admitted(a.conn.working, d, cap).1.Some? {
        WriteExact(a.conn.working, a.pending,
                   Memory(d.project, d.session, d.statement, d.origin, cap(g.tier), d.supersedes, d.at),
                   [Anchor(Some(d.chunk), None, g.start, g.end)]);
      }
    case _ =>
  }

  lemma NothingIsExact()
    ensures Exact(AuditedAll([]).conn.committed, AuditedAll([]).saved)
            && Exact(AuditedAll([]).conn.working, AuditedAll([]).pending)
  {
    EmptyIsShaped();
  }

  /** Under the rollback rule every committed memory is linked to exactly the anchors of its own
      write, although children are written first and ids are only reserved. */
  lemma {:induction false} EvidenceExactness(commands: seq<Command>)
    requires RollsBack(commands)
    ensures var a := AuditedAll(commands);
            && a.conn == AfterAll(Conn(EMPTY_DB, EMPTY_DB), commands)
            && Exact(a.conn.committed, a.saved)
            && (Exact(a.conn.working, a.pending)
                || (commands != [] && Raised(AuditedAll(commands[..|commands| - 1]).conn, commands[|commands| - 1])))
  {
    hide Written, Admitted, Pruned, Exact;
    if commands == [] {
      NothingIsExact();
    } else {
      var n := |commands| - 1;
      forall k | 0 <= k < n - 1 && Raised(AuditedAll(commands[..n][..k]).conn, commands[..n][k])
        ensures commands[..n][k + 1] == Rollback
      {
        assert commands[..n][..k] == commands[..k];
      }
      EvidenceExactness(commands[..n]);
      var before := AuditedAll(commands[..n]);
      if Exact(before.conn.working, before.pending) {
        AuditedExact(before, commands[n]);
      } else {
        assert commands[..n][..n - 1] == commands[..n - 1];
        assert commands[n] == Rollback;
      }
    }
  }

  /** A later write adopts whatever a failed one left behind: the links are exact if and only if no
      row was already filed under the reserved id. */
  lemma AdoptionExactly(db: Db, row: Memory, anchors: seq<Anchor>)
    requires Shaped(db.memories) && Written(db, row, anchors).1.Some?
    ensures var (db', wrote) := Written(db, row, anchors);
            AnchorsOf(db'.evidence, wrote.value) == anchors <==> ReservedId(db.memories) !in Evidenced(db.evidence)
  {
    WriteEffect(db, row, anchors);
    AnchorsExist(db.evidence, ReservedId(db.memories));
    var found := AnchorsOf(db.evidence, ReservedId(db.memories));
    assert |found + anchors| == |found| + |anchors|;
    if found == [] { assert found + anchors == anchors; }
  }

  /** Without the rollback rule it does happen: a write refused for its tier leaves its anchor to
      the next memory, and the commit goes through. */
  lemma OrphanIsAdopted()
    ensures var chunk := Chunk("ship it", 0);
            var a, b := Anchor(Some(1), None, 0, 4), Anchor(Some(1), None, 5, 7);
            var commands := [AddChunk(1, chunk), Write(Memory(1, None, "x", "o", 9, None, ""), [a]),
                             Write(Memory(1, None, "y", "o", 4, None, ""), [b]), Commit];
            var db := AfterAll(Conn(EMPTY_DB, EMPTY_DB), commands).committed;
            1 in db.memories && db.memories[1].statement == "y" && AnchorsOf(db.evidence, 1) == [a, b]
  {
    var chunk := Chunk("ship it", 0);
    var a, b := Anchor(Some(1), None, 0, 4), Anchor(Some(1), None, 5, 7);
    var bad, good := Memory(1, None, "x", "o", 9, None, ""), Memory(1, None, "y", "o", 4, None, "");
    var c0 := Conn(EMPTY_DB, EMPTY_DB);
    var c1 := After(c0, AddChunk(1, chunk));
    var c2 := After(c1, Write(bad, [a]));
    var c3 := After(c2, Write(good, [b]));
    AfterFour(c0, AddChunk(1, chunk), Write(bad, [a]), Write(good, [b]), Commit);
    var e1, e2 := [Evidence(1, a)], [Evidence(1, a), Evidence(1, b)];
    StoredAll(c1.working, [a]);
    assert [a][..1] == [a];
    assert RowsFor(1, [a]) == e1;
    assert c2.working == c1.working.(evidence := e1);
    StoredAll(c2.working, [b]);
    assert [b][..1] == [b];
    assert e1 + RowsFor(1, [b]) == e2;
    assert e2[0].memory == 1;
    assert 1 in Evidenced(e2);
    assert InsertRow(map[], Evidenced(e2), false, Some(1), good) == Some(map[1 := good]) by {
      assert Conflicts(map[], 1, good, {}) == {};
      assert (map[] - ({} + {}))[1 := good] == map[1 := good];
    }
    assert c3.working == c2.working.(evidence := e2, memories := map[1 := good]);
    assert e2[..1] == e1 && e1[..0] == [];
    assert AnchorsOf(e1, 1) == [a];
  }

  lemma AfterFour(c: Conn, p: Command, q: Command, r: Command, s: Command)
    ensures AfterAll(c, [p, q, r, s]) == After(After(After(After(c, p), q), r), s)
  {
    assert [p, q, r, s][..3] == [p, q, r] && [p, q, r][..2] == [p, q] && [p, q][..1] == [p] && [p][..0] == [];
    assert AfterAll(c, [p]) == After(c, p);
    assert AfterAll(c, [p, q]) == After(After(c, p), q);
    assert AfterAll(c, [p, q, r]) == After(After(After(c, p), q), r);
  }

  // ----- Durability -----

  /** `db'` still has every memory, every evidence row, and every source an evidence row names. */
  ghost predicate Carries(db: Db, db': Db) {
    && db.evidence <= db'.evidence
    && Preserves(db.memories, db'.memories)
    && (forall k :: 0 <= k < |db.evidence| ==> SourceKept(db, db', db.evidence[k].anchor))
  }

  predicate SourceKept(db: Db, db': Db, a: Anchor) {
    && (a.chunk.Some? && a.chunk.value in db.chunks ==>
          a.chunk.value in db'.chunks && db'.chunks[a.chunk.value].content == db.chunks[a.chunk.value].content)
    && (a.event.Some? && a.event.value in db.events ==>
          a.event.value in db'.events && db'.events[a.event.value] == db.events[a.event.value])
  }

  lemma CarriesTransitive(a: Db, b: Db, c: Db)
    requires Carries(a, b) && Carries(b, c)
    ensures Carries(a, c)
  {
    PreservesTransitive(a.memories, b.memories, c.memories);
    forall k | 0 <= k < |a.evidence| ensures SourceKept(a, c, a.evidence[k].anchor) {
      assert a.evidence[k] == b.evidence[k];
      assert SourceKept(a, b, a.evidence[k].anchor) && SourceKept(b, c, b.evidence[k].anchor);
    }
  }

  lemma WriteCarries(db: Db, row: Memory, anchors: seq<Anchor>)
    requires Shaped(db.memories)
    ensures Carries(db, Written(db, row, anchors).0)
  {
    hide Shaped, AllStorable;
    if Written(db, row, anchors).1.Some? {
      WriteEffect(db, row, anchors);
    } else {
      FailedWriteEffect(db, row, anchors);
    }
  }

  /** Pruning keeps a chunk exactly when it is young enough or some evidence cites it, and nothing else
      changes. */
  lemma PruneExactly(db: Db, cutoff: int)
    ensures var after := Pruned(db, cutoff);
            && after.memories == db.memories && after.evidence == db.evidence && after.events == db.events
            && (forall c :: c in after.chunks ==> c in db.chunks && after.chunks[c] == db.chunks[c])
            && (forall c :: c in db.chunks ==> (c in after.chunks <==>
                  || db.chunks[c].createdAt >= cutoff
                  || exists k :: 0 <= k < |db.evidence| && db.evidence[k].anchor.chunk == Some(c)))
  {
  }

  lemma PruneCarries(db: Db, cutoff: int)
    ensures Carries(db, Pruned(db, cutoff))
  {
    forall k | 0 <= k < |db.evidence| ensures SourceKept(db, Pruned(db, cutoff), db.evidence[k].anchor) {
      if db.evidence[k].anchor.chunk.Some? {
        assert Cited(db.evidence, db.evidence[k].anchor.chunk.value);
      }
    }
  }

  lemma AddCarries(c: Conn, command: Command)
    requires command.AddChunk? || command.AddEvent? || command.Commit?
    ensures Carries(c.working, After(c, command).working)
  {
  }

  lemma WorkingCarries(c: Conn, command: Command)
    requires Sane(c.working) && command != Rollback
    ensures Carries(c.working, After(c, command).working)
  {
    hide Carries, Written, Pruned, Floor, Shaped;
    match command
    case Write(row, anchors) => WriteCarries(c.working, row, anchors);
    case Admit(d, cap) =>
      var g := GroundedIn(c.working, d);
      if g.Grounded? {
        WriteCarries(c.working, Memory(d.project, d.session, d.statement, d.origin, cap(g.tier), d.supersedes, d.at),
                     [Anchor(Some(d.chunk), None, g.start, g.end)]);
      } else {
        SelfCarries(c.working);
      }
    case Prune(cutoff) => PruneCarries(c.working, cutoff);
    case _ => AddCarries(c, command);
  }

  /** What is committed stays, through every later command, commit and rollback. */
  lemma {:induction false} CommittedStays(c: Conn, commands: seq<Command>)
    requires Sane(c.committed) && c.working == c.committed
    ensures var d := AfterAll(c, commands);
            && Sane(d.committed) && Sane(d.working) && Carries(c.committed, d.committed)
              && Carries(c.committed, d.working)
  {
    hide Sane, Carries, Written, Admitted, Pruned;
    if commands == [] {
      SelfCarries(c.committed);
    } else {
      var n := |commands| - 1;
      CommittedStays(c, commands[..n]);
      var before := AfterAll(c, commands[..n]);
      AfterSane(before, commands[n]);
      if commands[n] != Rollback {
        WorkingCarries(before, commands[n]);
        CarriesTransitive(c.committed, before.working, After(before, commands[n]).working);
      }
    }
  }

  lemma SelfCarries(db: Db)
    ensures Carries(db, db)
  {
  }

  lemma CarriedResolves(db: Db, db': Db, k: nat)
    requires Carries(db, db') && Resolve(db, k).Resolved?
    ensures Resolve(db', k) == Resolve(db, k)
  {
    assert db'.evidence[k] == db.evidence[k];
    assert SourceKept(db, db', db.evidence[k].anchor);
  }

  /** The evidence row of an admission resolves to the quote that was grounded. */
  lemma AdmissionResolves(db: Db, d: Decision, cap: int -> int)
    requires Sane(db) && Admitted(db, d, cap).1.Some?
    ensures var db' := Admitted(db, d, cap).0;
            |db'.evidence| == |db.evidence| + 1 && Resolve(db', |db.evidence|) == Resolved(d.quote)
  {
    hide QuoteGate.TierOf, QuoteGate.ChunkChannel, InsertRow, Shaped;
    var g := GroundedIn(db, d);
    var row := Memory(d.project, d.session, d.statement, d.origin, cap(g.tier), d.supersedes, d.at);
    var anchors := [Anchor(Some(d.chunk), None, g.start, g.end)];
    WriteEffect(db, row, anchors);
    var db' := Admitted(db, d, cap).0;
    assert db'.evidence[|db.evidence|].anchor == anchors[0];
  }

  lemma {:induction false} AfterConcat(c: Conn, xs: seq<Command>, ys: seq<Command>)
    ensures AfterAll(c, xs + ys) == AfterAll(AfterAll(c, xs), ys)
  {
    hide After;
    if ys == [] {
      assert xs + ys == xs;
    } else {
      assert (xs + ys)[..|xs + ys| - 1] == xs + ys[..|ys| - 1];
      AfterConcat(c, xs, ys[..|ys| - 1]);
    }
  }

  lemma AfterOne(c: Conn, command: Command)
    ensures AfterAll(c, [command]) == After(c, command)
  {
    assert [command][..0] == [];
  }

  /** Until a rollback nothing that is pending is lost either. */
  lemma {:induction false} PendingStays(c: Conn, commands: seq<Command>)
    requires Sane(c.committed) && Sane(c.working) && Rollback !in commands
    ensures var d := AfterAll(c, commands);
            Sane(d.committed) && Sane(d.working) && Carries(c.working, d.working)
  {
    hide Sane, Carries, Written, Admitted, Pruned;
    if commands == [] {
      SelfCarries(c.working);
    } else {
      var n := |commands| - 1;
      assert commands[n] in commands;
      PendingStays(c, commands[..n]);
      var before := AfterAll(c, commands[..n]);
      AfterSane(before, commands[n]);
      WorkingCarries(before, commands[n]);
      CarriesTransitive(c.working, before.working, After(before, commands[n]).working);
    }
  }

  /** The connection after `before`, an admission, whatever the same transaction still does, its commit,
      and everything that comes later. */
  function Run(before: seq<Command>, admit: Command, meanwhile: seq<Command>, later: seq<Command>): Conn {
    AfterAll(Conn(EMPTY_DB, EMPTY_DB), before + [admit] + meanwhile + [Commit] + later)
  }

  lemma RunSteps(before: seq<Command>, admit: Command, meanwhile: seq<Command>, later: seq<Command>)
    ensures var c := After(AfterAll(Conn(EMPTY_DB, EMPTY_DB), before), admit);
            Run(before, admit, meanwhile, later) == AfterAll(After(AfterAll(c, meanwhile), Commit), later)
  {
    hide After;
    var start := Conn(EMPTY_DB, EMPTY_DB);
    AfterConcat(start, before + [admit] + meanwhile + [Commit], later);
    AfterConcat(start, before + [admit] + meanwhile, [Commit]);
    AfterConcat(start, before + [admit], meanwhile);
    AfterConcat(start, before, [admit]);
    AfterOne(AfterAll(start, before), admit);
    AfterOne(AfterAll(start, before + [admit] + meanwhile), Commit);
  }

  /** Once the transaction of an admission commits, whatever else it did before and after the admission,
      the admitted evidence resolves to exactly the grounded quote in every state that any later
      commands can reach, and its memory is never lost or rewritten. */
  lemma EvidenceDurability(before: seq<Command>, d: Decision, cap: int -> int, meanwhile: seq<Command>,
                           later: seq<Command>)
    requires Admitted(AfterAll(Conn(EMPTY_DB, EMPTY_DB), before).working, d, cap).1.Some? && Rollback !in meanwhile
    requires NoOrphans(AfterAll(After(AfterAll(Conn(EMPTY_DB, EMPTY_DB), before), Admit(d, cap)), meanwhile).working)
    ensures var db := AfterAll(Conn(EMPTY_DB, EMPTY_DB), before).working;
            var (admitted, wrote) := Admitted(db, d, cap);
            var e := Run(before, Admit(d, cap), meanwhile, later);
            && Resolve(e.committed, |db.evidence|) == Resolve(e.working, |db.evidence|) == Resolved(d.quote)
            && Stands(admitted, e.committed, wrote.value, d.statement)
              && Stands(admitted, e.working, wrote.value, d.statement)
  {
    hide Admitted, Shaped, Resolve, After, AfterAll, Sane, NoOrphans, Carries, Stands;
    var c := AfterAll(Conn(EMPTY_DB, EMPTY_DB), before);
    EvidenceFloor(before);
    AfterAdmit(c, d, cap);
    AfterSane(c, Admit(d, cap));
    var c' := AfterAll(After(c, Admit(d, cap)), meanwhile);
    PendingStays(After(c, Admit(d, cap)), meanwhile);
    AfterCommit(c');
    CommittedStays(After(c', Commit), later);
    RunSteps(before, Admit(d, cap), meanwhile, later);
    var e := Run(before, Admit(d, cap), meanwhile, later);
    AdmissionLasts(c.working, d, cap, c'.working, e.committed);
    AdmissionLasts(c.working, d, cap, c'.working, e.working);
  }

  /** The memory is still there, saying what it said, in all its lasting columns. */
  predicate Stands(db: Db, db': Db, id: int, statement: string) {
    && id in db.memories && id in db'.memories
    && Lasting(db'.memories[id]) == Lasting(db.memories[id]) && db'.memories[id].statement == statement
  }

  lemma AfterAdmit(c: Conn, d: Decision, cap: int -> int)
    ensures After(c, Admit(d, cap)) == c.(working := Admitted(c.working, d, cap).0)
  {
  }

  lemma AfterCommit(c: Conn)
    requires NoOrphans(c.working)
    ensures After(c, Commit) == Conn(c.working, c.working)
  {
  }

  lemma AdmissionLasts(db: Db, d: Decision, cap: int -> int, saved: Db, end: Db)
    requires Sane(db) && Admitted(db, d, cap).1.Some?
    requires Carries(Admitted(db, d, cap).0, saved) && Carries(saved, end)
    ensures Resolve(end, |db.evidence|) == Resolved(d.quote)
    ensures Stands(Admitted(db, d, cap).0, end, Admitted(db, d, cap).1.value, d.statement)
  {
    hide Admitted, Shaped, Resolve, Sane;
    AdmissionResolves(db, d, cap);
    AdmissionStores(db, d, cap);
    CarriesTransitive(Admitted(db, d, cap).0, saved, end);
    CarriedResolves(Admitted(db, d, cap).0, end, |db.evidence|);
  }

  /** The row an admission writes says what was decided, at a tier the source's cap allows. */
  lemma AdmissionStores(db: Db, d: Decision, cap: int -> int)
    requires Sane(db) && Admitted(db, d, cap).1.Some?
    ensures var (db', wrote) := Admitted(db, d, cap);
            var g := GroundedIn(db, d);
            && g.Grounded? && wrote.value !in db.memories && wrote.value in db'.memories
            && db'.memories[wrote.value].statement == d.statement && db'.memories[wrote.value].tier == cap(g.tier)
  {
    hide QuoteGate.TierOf, QuoteGate.ChunkChannel, InsertRow, Shaped;
    var g := GroundedIn(db, d);
    WriteEffect(db, Memory(d.project, d.session, d.statement, d.origin, cap(g.tier), d.supersedes, d.at),
                [Anchor(Some(d.chunk), None, g.start, g.end)]);
  }

  /** Tier-1 soundness end to end: a memory admitted at tier 1 from a chunk that stores the rendering
      of one record is the human's own words, from before any tool result of that record. */
  lemma TierOneMemory(db: Db, d: Decision, cap: int -> int, r: Normalize.Record)
    requires Sane(db) && Admitted(db, d, cap).1.Some?
    requires forall t :: cap(t) >= t
    requires ContentOf(db, d.chunk) == Some(Normalize.ChunkOf(r))
    ensures var (db', wrote) := Admitted(db, d, cap);
            var anchor := db'.evidence[|db.evidence|].anchor;
            db'.memories[wrote.value].tier == 1 ==>
              && r.UserRecord? && r.human
              && Normalize.ChunkOf(r)[anchor.start..anchor.end] == d.quote
              && (QuoteGate.FirstResult(r).Some? ==> anchor.end <= QuoteGate.FirstResult(r).value)
              && QuoteGate.SameCore(d.statement, d.quote)
  {
    hide Normalize.ChunkOf, QuoteGate.FirstResult, QuoteGate.SameCore, QuoteGate.TierOf,
         QuoteGate.ChunkChannel;
    hide InsertRow, Shaped;
    var g := GroundedIn(db, d);
    AdmissionStores(db, d, cap);
    WriteEffect(db, Memory(d.project, d.session, d.statement, d.origin, cap(g.tier), d.supersedes, d.at),
                [Anchor(Some(d.chunk), None, g.start, g.end)]);
    var db' := Admitted(db, d, cap).0;
    assert db'.evidence[|db.evidence|].anchor == Anchor(Some(d.chunk), None, g.start, g.end);
    QuoteGate.TierOneSound(r, d.quote, d.statement, d.cited);
    assert cap(g.tier) >= g.tier;
    QuoteGate.TierIsOneOrFour(Normalize.ChunkOf(r), d.statement, g.start, g.end);
  }
}
