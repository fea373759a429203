/** What an extraction pass leaves of its claims (`extract/persist.py`): each one, in its order, as a
    memory that says what was claimed, with evidence that resolves to the quote. */
module ClaimStorage {
  import opened Text
  import opened MemoryTable
  import opened EvidenceStore
  import opened EvidenceSafety
  import opened Persist
  import QuoteGate

  /** Everything stored before is stored unchanged. */
  ghost predicate Extends(db: Db, db': Db) {
    && (forall i :: i in db.memories ==> i in db'.memories && db'.memories[i] == db.memories[i])
    && db.evidence <= db'.evidence && db'.chunks == db.chunks && db'.events == db.events
  }

  /** Some evidence row of the memory `id` resolves to `quote` in `chunk`. */
  ghost predicate Backed(db: Db, id: int, chunk: int, quote: string) {
    exists k: nat :: EvidenceAt(db, k, id, chunk) && Resolve(db, k) == Resolved(quote)
  }

  predicate EvidenceAt(db: Db, k: nat, id: int, chunk: int) {
    k < |db.evidence| && db.evidence[k].memory == id && db.evidence[k].anchor.chunk == Some(chunk)
  }

  /** The memory `id` says what was decided, and its evidence resolves to the quote. */
  ghost predicate Keeps(db: Db, id: int, d: Decision, cap: int -> int) {
    && id in db.memories
    && (var row := db.memories[id];
        && row.project == d.project && row.session == d.session && row.supersedes == d.supersedes
        && row.statement == d.statement && row.origin == d.origin && row.createdAt == d.at
        && (row.tier == cap(1) || row.tier == cap(4)))
    && Backed(db, id, d.chunk, d.quote)
  }

  /** The same of a claim as the extractor made it. */
  ghost predicate StoredClaim(db: Db, id: int, pass: Pass, c: Claim, origin: string) {
    && id in db.memories
    && (var row := db.memories[id];
        && row.project == pass.project && row.session == pass.session && row.supersedes == None
        && row.statement == c.statement && row.origin == origin && row.createdAt == pass.now
        && (row.tier == pass.cap(1) || row.tier == pass.cap(4)))
    && Backed(db, id, c.chunk, c.quote)
  }

  lemma ExtendsTransitive(a: Db, b: Db, c: Db)
    requires Extends(a, b) && Extends(b, c)
    ensures Extends(a, c)
  {
  }

  lemma BackedStays(db: Db, db': Db, id: int, chunk: int, quote: string)
    requires Extends(db, db') && Backed(db, id, chunk, quote)
    ensures Backed(db', id, chunk, quote)
  {
    var k: nat :| EvidenceAt(db, k, id, chunk) && Resolve(db, k) == Resolved(quote);
    assert db'.evidence[k] == db.evidence[k];
    assert EvidenceAt(db', k, id, chunk) && Resolve(db', k) == Resolve(db, k);
  }

  lemma KeepsStays(db: Db, db': Db, id: int, d: Decision, cap: int -> int)
    requires Extends(db, db') && Keeps(db, id, d, cap)
    ensures Keeps(db', id, d, cap)
  {
    hide Backed;
    BackedStays(db, db', id, d.chunk, d.quote);
  }

  lemma GroundedTier(content: string, statement: string, start: nat, end: nat)
    requires start <= end <= |content|
    ensures QuoteGate.TierOf(content, statement, start, end) in {1, 4}
  {
    QuoteGate.TierIsOneOrFour(content, statement, start, end);
  }

  lemma RowWritten(db: Db, d: Decision, cap: int -> int)
    requires Sane(db) && Admitted(db, d, cap).1.Some?
    ensures var (db', wrote) := Admitted(db, d, cap);
            var g := GroundedIn(db, d);
            && g.Grounded? && wrote.value !in db.memories
            && db'.memories == db.memories[wrote.value :=
                 Memory(d.project, d.session, d.statement, d.origin, cap(g.tier), d.supersedes, d.at)]
            && db'.evidence == db.evidence + [Evidence(wrote.value, Anchor(Some(d.chunk), None, g.start, g.end))]
            && db'.chunks == db.chunks && db'.events == db.events
  {
    hide QuoteGate.TierOf, QuoteGate.ChunkChannel, InsertRow, Shaped;
    var g := GroundedIn(db, d);
    WriteEffect(db, Memory(d.project, d.session, d.statement, d.origin, cap(g.tier), d.supersedes, d.at),
                [Anchor(Some(d.chunk), None, g.start, g.end)]);
  }

  /** One decision that is admitted. */
  lemma DecisionAdmitted(db: Db, d: Decision, cap: int -> int)
    requires Sane(db) && Admitted(db, d, cap).1.Some?
    ensures var (db', wrote) := Admitted(db, d, cap);
            && wrote.value !in db.memories && db'.memories.Keys == db.memories.Keys + {wrote.value}
            && Extends(db, db') && Keeps(db', wrote.value, d, cap)
  {
    hide Admitted, Resolve, QuoteGate.TierOf, QuoteGate.ChunkChannel, Shaped;
    var g := GroundedIn(db, d);
    var (db', wrote) := Admitted(db, d, cap);
    RowWritten(db, d, cap);
    AdmissionResolves(db, d, cap);
    assert EvidenceAt(db', |db.evidence|, wrote.value, d.chunk);
    GroundedTier(db.chunks[d.chunk].content, d.statement, g.start, g.end);
  }

  lemma AdmittedSane(db: Db, d: Decision, cap: int -> int)
    requires Sane(db)
    ensures Sane(Admitted(db, d, cap).0)
  {
    hide Sane, Written;
    var g := GroundedIn(db, d);
    if g.Grounded? {
      WriteSane(db, Memory(d.project, d.session, d.statement, d.origin, cap(g.tier), d.supersedes, d.at),
                [Anchor(Some(d.chunk), None, g.start, g.end)]);
    }
  }

  function IdSet(ids: seq<int>): set<int> {
    set i | 0 <= i < |ids| :: ids[i]
  }

  predicate AllNew(ids: seq<int>, db: Db) {
    && (forall i, j :: 0 <= i < j < |ids| ==> ids[i] != ids[j])
    && forall i :: 0 <= i < |ids| ==> ids[i] !in db.memories
  }

  /** Decisions that are all admitted. */
  lemma OneMoreKept(db: Db, before: Db, after: Db, ids: seq<int>, id: int)
    requires AllNew(ids, db) && Extends(db, before) && id !in before.memories
    requires before.memories.Keys == db.memories.Keys + IdSet(ids)
    requires after.memories.Keys == before.memories.Keys + {id}
    ensures AllNew(ids + [id], db) && after.memories.Keys == db.memories.Keys + IdSet(ids + [id])
  {
    var all := ids + [id];
    assert all[|ids|] == id && forall i :: 0 <= i < |ids| ==> all[i] == ids[i];
    assert IdSet(all) == IdSet(ids) + {id};
    forall i | 0 <= i < |ids| ensures ids[i] != id { assert ids[i] in IdSet(ids); }
  }

  /** Decisions that are all admitted. */
  lemma {:induction false} AllKept(db: Db, ds: seq<Decision>, cap: int -> int)
    requires Sane(db) && AdmitAll(db, ds, cap).1.Some?
    ensures var (db', ids) := AdmitAll(db, ds, cap);
            && Sane(db') && Extends(db, db') && |ids.value| == |ds| && AllNew(ids.value, db)
            && db'.memories.Keys == db.memories.Keys + IdSet(ids.value)
            && forall i :: 0 <= i < |ds| ==> Keeps(db', ids.value[i], ds[i], cap)
  {
    hide Sane, Keeps, Admitted, Extends, AllNew, IdSet;
    if ds == [] {
      ExtendsItself(db);
      NothingNew(db);
    } else {
      var n := |ds| - 1;
      var (before, ids) := AdmitAll(db, ds[..n], cap);
      var (after, id) := Admitted(before, ds[n], cap);
      AllKept(db, ds[..n], cap);
      DecisionAdmitted(before, ds[n], cap);
      AdmittedSane(before, ds[n], cap);
      ExtendsTransitive(db, before, after);
      OneMoreKept(db, before, after, ids.value, id.value);
      var all := ids.value + [id.value];
      forall i | 0 <= i < |ds| ensures Keeps(after, all[i], ds[i], cap) {
        if i < n {
          assert ds[..n][i] == ds[i];
          KeepsStays(before, after, all[i], ds[i], cap);
        }
      }
    }
  }

  lemma NothingNew(db: Db)
    ensures AllNew([], db) && db.memories.Keys == db.memories.Keys + IdSet([])
  {
  }

  lemma ExtendsItself(db: Db)
    ensures Extends(db, db)
  {
  }

  /** A pass that is not refused stores every decision and then every resolved question, each as one new
      memory under its own origin, and no other memory. */
  lemma PassStoresClaims(store: Store, pass: Pass, e: Extraction)
    requires Sane(store.db) && Persisted(store, pass, e).1.Some?
    ensures var (after, ids) := Persisted(store, pass, e);
            && |ids.value| == |e.decisions| + |e.resolvedQuestions| && AllNew(ids.value, store.db)
            && after.db.memories.Keys == store.db.memories.Keys + IdSet(ids.value)
            && Extends(store.db, after.db)
            && (forall i :: 0 <= i < |e.decisions| ==>
                  StoredClaim(after.db, ids.value[i], pass, e.decisions[i], pass.origin + ":decision"))
            && (forall i :: |e.decisions| <= i < |ids.value| ==>
                  StoredClaim(after.db, ids.value[i], pass, e.resolvedQuestions[i - |e.decisions|],
                              pass.origin + ":resolved_question"))
  {
    hide Sane, Keeps, StoredClaim, AdmitAll, Extends, Upserts;
    var ds := Claims(pass, e);
    AllKept(store.db, ds, pass.cap);
    assert ":" + "decision" == ":decision" && ":" + "resolved_question" == ":resolved_question";
    var (after, ids) := Persisted(store, pass, e);
    forall i | 0 <= i < |ds|
      ensures i < |e.decisions| ==>
        StoredClaim(after.db, ids.value[i], pass, e.decisions[i], pass.origin + ":decision")
      ensures i >= |e.decisions| ==> StoredClaim(after.db, ids.value[i], pass, e.resolvedQuestions[i - |e.decisions|],
                                                 pass.origin + ":resolved_question")
    {
      if i < |e.decisions| {
        KeptClaim(after.db, ids.value[i], pass, e.decisions[i], "decision");
      } else {
        KeptClaim(after.db, ids.value[i], pass, e.resolvedQuestions[i - |e.decisions|], "resolved_question");
      }
    }
  }

  lemma KeptClaim(db: Db, id: int, pass: Pass, c: Claim, kind: string)
    requires Keeps(db, id, DecisionOf(pass, c, kind), pass.cap)
    ensures StoredClaim(db, id, pass, c, pass.origin + (":" + kind))
  {
    assert pass.origin + ":" + kind == pass.origin + (":" + kind);
  }
}
