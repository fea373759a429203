/** Memories and the evidence behind them on one connection: child-first writes
    (`memory/write.py`), quote admission (`extract/quote_gate.py`), live span resolution
    (`memory/evidence.py`) and pruning (`store/rollup.py`), between commit and rollback. */
module EvidenceStore {
  import opened Text
  import opened MemoryTable
  import QuoteGate

  /** A span of a stored chunk or event. */
  datatype Anchor = Anchor(chunk: Option<int>, event: Option<int>, start: int, end: int)
  datatype Evidence = Evidence(memory: int, anchor: Anchor)
  datatype Chunk = Chunk(content: string, createdAt: int)

  /** The tables. Evidence rows are never deleted, so a row's id is its position. */
  datatype Db = Db(memories: Rows, evidence: seq<Evidence>, chunks: map<int, Chunk>, events: map<int, string>)

  const EMPTY_DB := Db(map[], [], map[], map[])

  function AnchorsOf(evidence: seq<Evidence>, id: int): seq<Anchor> {
    if evidence == [] then []
    else AnchorsOf(evidence[..|evidence| - 1], id)
         + if evidence[|evidence| - 1].memory == id then [evidence[|evidence| - 1].anchor] else []
  }

  function Evidenced(evidence: seq<Evidence>): set<int> {
    set k | 0 <= k < |evidence| :: evidence[k].memory
  }

  predicate Cited(evidence: seq<Evidence>, chunk: int) {
    exists k :: 0 <= k < |evidence| && evidence[k].anchor.chunk == Some(chunk)
  }

  // ----- write_memory -----

  predicate IsMax(s: set<int>, x: int) {
    x in s && forall y :: y in s ==> y <= x
  }

  lemma {:induction false} MaxExists(s: set<int>)
    requires s != {}
    ensures exists x :: IsMax(s, x)
  {
    var x := AnElement(s);
    if s == {x} {
      assert IsMax(s, x);
    } else {
      var rest := s - {x};
      assert s == rest + {x};
      MaxExists(rest);
      var z :| IsMax(rest, z);
      assert IsMax(s, if x > z then x else z);
    }
  }

  /** `COALESCE(MAX(id), 0) + 1`. */
  function ReservedId(m: Rows): (id: int)
    ensures forall i :: i in m ==> i < id
  {
    if m == map[] then 1
    else
      MaxExists(m.Keys);
      var top :| top in m.Keys && IsMax(m.Keys, top);
      top + 1
  }

  /** The CHECKs and immediate foreign keys of one evidence row. */
  predicate AnchorStorable(db: Db, a: Anchor) {
    && 0 <= a.start < a.end && (a.chunk.Some? || a.event.Some?)
    && (a.chunk.Some? ==> a.chunk.value in db.chunks) && (a.event.Some? ==> a.event.value in db.events)
  }

  predicate AllStorable(db: Db, anchors: seq<Anchor>) {
    forall k :: 0 <= k < |anchors| ==> AnchorStorable(db, anchors[k])
  }

  function RowsFor(id: int, anchors: seq<Anchor>): seq<Evidence> {
    seq(|anchors|, k requires 0 <= k < |anchors| => Evidence(id, anchors[k]))
  }

  /** The anchors before the first one that cannot be stored. */
  function Stored(db: Db, anchors: seq<Anchor>): (n: nat)
    ensures n <= |anchors|
    ensures forall k :: 0 <= k < n ==> AnchorStorable(db, anchors[k])
    ensures n < |anchors| ==> !AnchorStorable(db, anchors[n])
  {
    if anchors == [] || !AnchorStorable(db, anchors[0]) then 0
    else
      var n := Stored(db, anchors[1..]);
      assert forall k :: 0 < k < 1 + n ==> anchors[k] == anchors[1..][k - 1];
      1 + n
  }

  /** The tables after `write_memory`, and the id it returned. A write that raises keeps the child
      rows it had already inserted: undoing them is the caller's rollback. */
  function Written(db: Db, row: Memory, anchors: seq<Anchor>): (Db, Option<int>) {
    if anchors == [] then (db, None)
    else
      var id := ReservedId(db.memories);
      var children := db.(evidence := db.evidence + RowsFor(id, anchors[..Stored(db, anchors)]));
      if !AllStorable(db, anchors) then (children, None)
      else
        var inserted := InsertRow(db.memories, Evidenced(children.evidence), false, Some(id), row);
        if inserted.None? then (children, None) else (children.(memories := inserted.value), Some(id))
  }

  /** The successor row of `supersede_memory`: the predecessor's scope, and its session by default. */
  function SuccessorRow(m: Rows, predecessor: int, statement: string, origin: string, tier: int, session: Option<int>,
                        at: string): Memory
    requires predecessor in m
  {
    var was := m[predecessor];
    Memory(was.project, if session.None? then was.session else session, statement, origin, tier, Some(predecessor), at)
  }

  // ----- admit_decision, prune_ephemeral, resolve_evidence -----

  datatype Decision = Decision(
    project: int, session: Option<int>, statement: string, quote: string, chunk: int,
    origin: string, cited: Option<(int, int)>, supersedes: Option<int>, at: string)

  function ContentOf(db: Db, chunk: int): Option<string> {
    if chunk in db.chunks then Some(db.chunks[chunk].content) else None
  }

  function GroundedIn(db: Db, d: Decision): QuoteGate.Grounding {
    QuoteGate.GroundQuote(ContentOf(db, d.chunk), d.quote, d.statement, d.cited)
  }

  /** `admit_decision` with the tier cap of the decision's source. */
  function Admitted(db: Db, d: Decision, cap: int -> int): (Db, Option<int>) {
    match GroundedIn(db, d)
    case Rejected(_) => (db, None)
    case Grounded(start, end, tier, _) =>
      Written(db, Memory(d.project, d.session, d.statement, d.origin, cap(tier), d.supersedes, d.at),
              [Anchor(Some(d.chunk), None, start, end)])
  }

  predicate Expired(db: Db, chunk: int, cutoff: int) {
    chunk in db.chunks && db.chunks[chunk].createdAt < cutoff && !Cited(db.evidence, chunk)
  }

  function Pruned(db: Db, cutoff: int): Db {
    db.(chunks := map c | c in db.chunks && !Expired(db, c, cutoff) :: db.chunks[c])
  }

  datatype Resolution = NoSuchEvidence | NoSource | SourceGone | SourceTruncated | Resolved(text: string)

  /** `resolve_evidence`: the slice of what the source holds now. */
  function Resolve(db: Db, k: int): Resolution {
    if !(0 <= k < |db.evidence|) then NoSuchEvidence
    else
      var a := db.evidence[k].anchor;
      if a.chunk.Some? then
        if a.chunk.value !in db.chunks then SourceGone else Sliced(db.chunks[a.chunk.value].content, a)
      else if a.event.Some? then
        if a.event.value !in db.events then SourceGone else Sliced(db.events[a.event.value], a)
      else NoSource
  }

  function Sliced(content: string, a: Anchor): Resolution {
    if a.end > |content| then SourceTruncated
    else if 0 <= a.start <= a.end then Resolved(content[a.start..a.end])
    else Resolved("")
  }

  // ----- One connection -----

  datatype Command =
    | AddChunk(chunkId: int, chunk: Chunk)
    | AddEvent(eventId: int, payload: string)
    | Write(row: Memory, anchors: seq<Anchor>)
    | Admit(decision: Decision, cap: int -> int)
    | Prune(cutoff: int)
    | Commit
    | Rollback

  datatype Conn = Conn(committed: Db, working: Db)

  /** The deferred foreign key, checked at commit: every evidence row has its memory. */
  predicate NoOrphans(db: Db) {
    forall k :: 0 <= k < |db.evidence| ==> db.evidence[k].memory in db.memories
  }

  function After(c: Conn, command: Command): Conn {
    match command
    case AddChunk(id, chunk) =>
      if id in c.working.chunks then c else c.(working := c.working.(chunks := c.working.chunks[id := chunk]))
    case AddEvent(id, payload) =>
      if id in c.working.events then c else c.(working := c.working.(events := c.working.events[id := payload]))
    case Write(row, anchors) => c.(working := Written(c.working, row, anchors).0)
    case Admit(d, cap) => c.(working := Admitted(c.working, d, cap).0)
    case Prune(cutoff) => c.(working := Pruned(c.working, cutoff))
    case Commit => if NoOrphans(c.working) then c.(committed := c.working) else c
    case Rollback => c.(working := c.committed)
  }

  function AfterAll(c: Conn, commands: seq<Command>): Conn {
    if commands == [] then c else After(AfterAll(c, commands[..|commands| - 1]), commands[|commands| - 1])
  }

  /** The connection as an object. */
  class Connection {
    var committed: Db
    var working: Db

    constructor ()
      ensures State() == Conn(EMPTY_DB, EMPTY_DB)
    {
      committed, working := EMPTY_DB, EMPTY_DB;
    }

    function State(): Conn
      reads this
    {
      Conn(committed, working)
    }

    /** Evidence first, against the reserved id; then the parent row. */
    method WriteMemory(row: Memory, anchors: seq<Anchor>) returns (id: Option<int>)
      modifies this
      ensures State() == After(old(State()), Write(row, anchors))
      ensures id == Written(old(working), row, anchors).1
    {
      hide InsertRow;
      if anchors == [] { return None; }
      var reserved := ReservedId(working.memories);
      for k := 0 to |anchors|
        invariant committed == old(committed)
        invariant working == old(working).(evidence := old(working).evidence + RowsFor(reserved, anchors[..k]))
        invariant k <= Stored(old(working), anchors)
      {
        if !AnchorStorable(working, anchors[k]) {
          assert !AnchorStorable(old(working), anchors[k]);
          return None;
        }
        assert AnchorStorable(old(working), anchors[k]);
        assert RowsFor(reserved, anchors[..k + 1]) == RowsFor(reserved, anchors[..k])
               + [Evidence(reserved, anchors[k])];
        working := working.(evidence := working.evidence + [Evidence(reserved, anchors[k])]);
      }
      assert anchors[..|anchors|] == anchors;
      var inserted := InsertRow(working.memories, Evidenced(working.evidence), false, Some(reserved), row);
      if inserted.None? { return None; }
      working := working.(memories := inserted.value);
      return Some(reserved);
    }

    /** `supersede_memory`: reads the predecessor's scope, then writes an ordinary memory. */
    method SupersedeMemory(predecessor: int, statement: string, origin: string, tier: int, anchors: seq<Anchor>,
                           session: Option<int>, at: string) returns (id: Option<int>)
      modifies this
      ensures predecessor !in old(working).memories ==> id.None? && State() == old(State())
      ensures predecessor in old(working).memories ==>
                var row := SuccessorRow(old(working).memories, predecessor, statement, origin, tier, session, at);
                State() == After(old(State()), Write(row, anchors)) && id == Written(old(working), row, anchors).1
    {
      if predecessor !in working.memories { return None; }
      id := WriteMemory(SuccessorRow(working.memories, predecessor, statement, origin, tier, session, at), anchors);
    }

    method AdmitDecision(d: Decision, cap: int -> int) returns (id: Option<int>)
      modifies this
      ensures State() == After(old(State()), Admit(d, cap))
      ensures id == Admitted(old(working), d, cap).1
    {
      var g := GroundedIn(working, d);
      if g.Rejected? { return None; }
      id := WriteMemory(Memory(d.project, d.session, d.statement, d.origin, cap(g.tier), d.supersedes, d.at),
                        [Anchor(Some(d.chunk), None, g.start, g.end)]);
    }

    /** Deletes one expired chunk at a time, as the source does. */
    method PruneEphemeral(cutoff: int) returns (deleted: nat)
      modifies this
      ensures State() == After(old(State()), Prune(cutoff))
      ensures deleted == |old(working).chunks| - |working.chunks|
    {
      hide Expired;
      var db := working;
      var expired := set c | c in db.chunks && Expired(db, c, cutoff);
      var left := expired;
      while left != {}
        invariant left <= expired && committed == old(committed)
        invariant working == db.(chunks := map c | c in db.chunks && (c !in expired || c in left) :: db.chunks[c])
      {
        var c :| c in left;
        var chunks := working.chunks - {c};
        left := left - {c};
        assert chunks == map c | c in db.chunks && (c !in expired || c in left) :: db.chunks[c];
        working := working.(chunks := chunks);
      }
      assert working.chunks.Keys == db.chunks.Keys - expired;
      deleted := |expired|;
      assert |db.chunks.Keys - expired| == |db.chunks.Keys| - |expired|;
      assert working.chunks == Pruned(db, cutoff).chunks;
    }

    method CommitWork() returns (ok: bool)
      modifies this
      ensures State() == After(old(State()), Commit) && ok == NoOrphans(old(working))
    {
      ok := NoOrphans(working);
      if ok { committed := working; }
    }

    method RollbackWork()
      modifies this
      ensures State() == After(old(State()), Rollback)
    {
      working := committed;
    }
  }
}
