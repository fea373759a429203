/** What replays of a growing file guarantee (`replay.py`), over every interleaving of appends with
    finished and interrupted replays. */
module ReplaySafety {
  import opened Text
  import opened Tail
  import opened Normalize
  import opened Replay

  /** A replay that opens a session finds nothing of it; every row it adds is its own. */
  lemma ReplayedSound(t: Tables, key: string, events: seq<Event>, s: nat)
    requires Sound(t)
    ensures SessionSound(Replayed(t, key, events), s)
    ensures var (known, session, isNew) := SessionFor(t, key);
            EventsIn(Replayed(t, key, events).events, s) == EventsIn(t.events, s) + if s == session then events else []
  {
    hide EventsIn, ChunksIn, MemoriesIn, Messages, Chunked, ChunkOf, MaxSeq, FindSession, IngestAll;
    var (known, session, isNew) := SessionFor(t, key);
    assert SessionSound(t, session) && SessionSound(t, s);
    var g := Ingest(known, NextSeq(known, session), None);
    assert Numbered(g, session) by { NumberedAtStart(known, session); }
    IngestAdds(g, session, events, s);
    var done := IngestAll(g, session, events);
    AnchorInRange(g, session, events);
    assert EventsIn(t.events, s) + [] == EventsIn(t.events, s);
    assert s == session ==> Chunked(ChunksIn(done.tables.chunks, s), Messages(EventsIn(done.tables.events, s)));
    if isNew && done.anchor.Some? {
      MemoriesAppend(done.tables.memories,
                     MemoryRow(session, done.anchor.value, 0, |done.tables.chunks[done.anchor.value].content|), s);
    }
  }

  lemma NumberedAtStart(t: Tables, session: nat)
    requires Chunked(ChunksIn(t.chunks, session), Messages(EventsIn(t.events, session)))
    ensures Numbered(Ingest(t, NextSeq(t, session), None), session)
  {
    hide ChunkOf, EventsIn, Messages;
    MaxSeqIsCount(t.chunks, session);
  }

  lemma MemoriesAppend(rows: seq<MemoryRow>, row: MemoryRow, s: nat)
    ensures MemoriesIn(rows + [row], s) == MemoriesIn(rows, s) + if row.session == s then [row] else []
  {
    assert (rows + [row])[..|rows|] == rows;
  }

  lemma ReplayedAllSound(t: Tables, key: string, events: seq<Event>)
    requires Sound(t)
    ensures Sound(Replayed(t, key, events))
  {
    hide SessionSound, IngestAll, NextSeq;
    var after := Replayed(t, key, events);
    SessionsKept(t, key, events);
    MemoriesAnchored(t, key, events);
    forall s: nat ensures SessionSound(after, s) {
      ReplayedSound(t, key, events, s);
    }
  }

  lemma MemoriesAnchored(t: Tables, key: string, events: seq<Event>)
    requires forall k :: 0 <= k < |t.memories| ==> Anchored(t, t.memories[k])
    ensures var after := Replayed(t, key, events); forall k :: 0 <= k < |after.memories| ==>
              Anchored(after, after.memories[k])
  {
    hide IngestAll, NextSeq, FindSession;
    var (known, session, isNew) := SessionFor(t, key);
    var g := Ingest(known, NextSeq(known, session), None);
    AnchorInRange(g, session, events);
    MemoriesUntouched(g, session, events);
    var done, after := IngestAll(g, session, events), Replayed(t, key, events);
    assert after.chunks == done.tables.chunks;
    forall k | 0 <= k < |t.memories| ensures Anchored(after, t.memories[k]) {
      assert Anchored(t, t.memories[k]);
    }
  }

  lemma {:induction false} MemoriesUntouched(g: Ingest, session: nat, events: seq<Event>)
    ensures IngestAll(g, session, events).tables.memories == g.tables.memories
  {
    if events != [] { MemoriesUntouched(g, session, events[..|events| - 1]); }
  }

  lemma SessionsKept(t: Tables, key: string, events: seq<Event>)
    ensures Replayed(t, key, events).sessions == SessionFor(t, key).0.sessions
  {
    var (known, session, isNew) := SessionFor(t, key);
    SessionsUntouched(Ingest(known, NextSeq(known, session), None), session, events);
  }

  lemma {:induction false} SessionsUntouched(g: Ingest, session: nat, events: seq<Event>)
    ensures IngestAll(g, session, events).tables.sessions == g.tables.sessions
  {
    if events != [] { SessionsUntouched(g, session, events[..|events| - 1]); }
  }

  // ----- Runs -----

  /** How far a replay gets: before its commit, between commit and cursor save, or to the end. */
  datatype Stop = BeforeCommit | BeforeSave | AtEnd

  datatype Action = Append(key: string, bytes: seq<byte>) | Replay(key: string, stop: Stop)

  datatype World = World(files: map<string, seq<byte>>, tables: Tables, cursors: map<string, nat>)

  function FileOf(w: World, key: string): seq<byte> {
    if key in w.files then w.files[key] else []
  }

  /** A replay of a file that does not exist raises before anything is committed. */
  function Next(decode: Decoder<Event>, w: World, a: Action): World {
    match a
    case Append(key, bytes) => w.(files := w.files[key := FileOf(w, key) + bytes])
    case Replay(key, stop) =>
      var (events, offset) := Tailed(decode, FileOf(w, key), Load(w.cursors, key));
      if key !in w.files then w
      else match stop
      case BeforeCommit => w
      case BeforeSave => w.(tables := Replayed(w.tables, key, events))
      case AtEnd => w.(tables := Replayed(w.tables, key, events), cursors := w.cursors[key := offset])
  }

  function Run(decode: Decoder<Event>, actions: seq<Action>): World {
    if actions == [] then World(map[], EMPTY, map[])
    else Next(decode, Run(decode, actions[..|actions| - 1]), actions[|actions| - 1])
  }

  /** The events stored for one session. */
  function Ingested(t: Tables, key: string): seq<Event> {
    var at := FindSession(t.sessions, key);
    if at.None? then [] else EventsIn(t.events, at.value)
  }

  /** The events of the complete lines before the cursor. */
  function Consumed(decode: Decoder<Event>, w: World, key: string): seq<Event>
    requires Load(w.cursors, key) <= |FileOf(w, key)|
  {
    EventsOf(decode, Records(FileOf(w, key)[..Load(w.cursors, key)]))
  }

  /** `a` with extra events in between. */
  predicate Subsequence(a: seq<Event>, b: seq<Event>) {
    if a == [] then true
    else if b == [] then false
    else if a[|a| - 1] == b[|b| - 1] && Subsequence(a[..|a| - 1], b[..|b| - 1]) then true
    else Subsequence(a, b[..|b| - 1])
  }

  lemma {:induction false} SubsequenceAppend(a: seq<Event>, b: seq<Event>, x: seq<Event>)
    requires Subsequence(a, b)
    ensures Subsequence(a + x, b + x)
  {
    if x == [] {
      assert a + x == a && b + x == b;
    } else {
      var n := |x| - 1;
      SubsequenceAppend(a, b, x[..n]);
      assert (a + x)[..|a + x| - 1] == a + x[..n] && (b + x)[..|b + x| - 1] == b + x[..n];
    }
  }

  lemma {:induction false} SubsequenceExtend(a: seq<Event>, b: seq<Event>, x: seq<Event>)
    requires Subsequence(a, b)
    ensures Subsequence(a, b + x)
  {
    if x == [] {
      assert b + x == b;
    } else {
      var n := |x| - 1;
      SubsequenceExtend(a, b, x[..n]);
      assert (b + x)[..|b + x| - 1] == b + x[..n];
    }
  }

  /** Cursor, stored events and session of one key agree with its file; `exact` when no replay was cut
      between commit and save. */
  predicate KeySound(decode: Decoder<Event>, w: World, key: string, exact: bool) {
    && AtLineStart(FileOf(w, key), Load(w.cursors, key))
    && Subsequence(Consumed(decode, w, key), Ingested(w.tables, key))
    && (exact ==> Ingested(w.tables, key) == Consumed(decode, w, key))
  }

  lemma NewSessionIsLast(t: Tables, key: string, other: string)
    requires Sound(t)
    ensures var (known, session, isNew) := SessionFor(t, key);
            && FindSession(known.sessions, key) == Some(session)
            && (other != key ==> FindSession(known.sessions, other) == FindSession(t.sessions, other))
            && (FindSession(t.sessions, other).Some? && other != key ==>
                  FindSession(t.sessions, other).value != session)
  {
    hide SessionSound;
    var at := FindSession(t.sessions, key);
    if at.None? { assert (t.sessions + [key])[..|t.sessions|] == t.sessions; }
  }

  /** Stored events of every session after a committed replay. */
  lemma IngestedAfter(t: Tables, key: string, events: seq<Event>, other: string)
    requires Sound(t)
    ensures Ingested(Replayed(t, key, events), other) == Ingested(t, other) + if other == key then events else []
  {
    hide EventsIn, FindSession, IngestAll, NextSeq;
    SessionsKept(t, key, events);
    NewSessionIsLast(t, key, other);
    var (known, session, isNew) := SessionFor(t, key);
    var at := FindSession(known.sessions, other);
    if at.Some? {
      ReplayedSound(t, key, events, at.value);
      assert SessionSound(t, session);
    }
  }

  /** What a tail adds to what was consumed. */
  lemma TailedIsRest(decode: Decoder<Event>, file: seq<byte>, cursor: nat)
    requires AtLineStart(file, cursor)
    ensures var (events, offset) := Tailed(decode, file, cursor);
            && AtLineStart(file, offset) && offset == CompleteLength(file) && cursor <= offset
            && EventsOf(decode, Records(file[..offset])) == EventsOf(decode, Records(file[..cursor])) + events
            && EventsOf(decode, Records(file[..offset])) == EventsOf(decode, Records(file))
  {
    hide ReadCompleteRecords, Records, EventsOf;
    ReadIsExact(file, cursor);
    var (records, offset) := ReadCompleteRecords(file, cursor);
    DecodeConcat(decode, Records(file[..cursor]), records);
  }

  lemma AppendKeepsKey(decode: Decoder<Event>, w: World, key: string, exact: bool, a: Action)
    requires a.Append? && KeySound(decode, w, key, exact)
    ensures KeySound(decode, Next(decode, w, a), key, exact)
  {
    hide Records, EventsOf, Subsequence;
    var c := Load(w.cursors, key);
    if a.key == key { assert (FileOf(w, key) + a.bytes)[..c] == FileOf(w, key)[..c]; }
  }

  lemma ReplayKeepsKey(decode: Decoder<Event>, w: World, key: string, exact: bool, a: Action)
    requires a.Replay? && KeySound(decode, w, key, exact) && KeySound(decode, w, a.key, exact) && Sound(w.tables)
    requires exact ==> a.stop != BeforeSave
    ensures KeySound(decode, Next(decode, w, a), key, exact)
  {
    hide Records, EventsOf, Subsequence, Tailed, Replayed, Ingested, CompleteLength, Sound;
    var file, cursor := FileOf(w, a.key), Load(w.cursors, a.key);
    TailedIsRest(decode, file, cursor);
    var (events, offset) := Tailed(decode, file, cursor);
    IngestedAfter(w.tables, a.key, events, key);
    var stored := Ingested(w.tables, key);
    if a.key == key {
      SubsequenceAppend(Consumed(decode, w, key), stored, events);
      SubsequenceExtend(Consumed(decode, w, key), stored, events);
    } else {
      assert stored + [] == stored;
    }
  }

  predicate NoLostSave(actions: seq<Action>) {
    forall i :: 0 <= i < |actions| ==> actions[i].Replay? ==> actions[i].stop != BeforeSave
  }

  lemma {:induction false} RunSound(decode: Decoder<Event>, actions: seq<Action>, key: string)
    ensures Sound(Run(decode, actions).tables) && KeySound(decode, Run(decode, actions), key, NoLostSave(actions))
    decreases |actions|
  {
    hide Sound, KeySound, Replayed, Tailed;
    if actions == [] {
      StartSound(decode, key);
    } else {
      var n := |actions| - 1;
      var init, a := actions[..n], actions[n];
      RunSound(decode, init, key);
      var w := Run(decode, init);
      assert NoLostSave(actions) ==> NoLostSave(init);
      if !NoLostSave(actions) { Weaken(decode, w, key, NoLostSave(init)); }
      match a
      case Append(_, _) => AppendKeepsKey(decode, w, key, NoLostSave(actions), a);
      case Replay(other, stop) =>
        RunSound(decode, init, other);
        if !NoLostSave(actions) { Weaken(decode, w, other, NoLostSave(init)); }
        ReplayKeepsKey(decode, w, key, NoLostSave(actions), a);
        ReplayedAllSound(w.tables, other, Tailed(decode, FileOf(w, other), Load(w.cursors, other)).0);
    }
  }

  lemma Weaken(decode: Decoder<Event>, w: World, key: string, exact: bool)
    requires KeySound(decode, w, key, exact)
    ensures KeySound(decode, w, key, false)
  {
  }

  lemma StartSound(decode: Decoder<Event>, key: string)
    ensures Sound(EMPTY) && KeySound(decode, World(map[], EMPTY, map[]), key, true)
  {
    assert forall s: nat :: SessionSound(EMPTY, s);
    assert Split([]) == [[]] && Records([]) == [];
  }

  // ----- Main results -----

  /** Over every interleaving of appends and replays, whole or cut short anywhere: each cursor is a
      line start; everything before it is stored, in order, so nothing is ever lost; chunk numbers are
      1..n; the chunks of a session join to the transcript of its stored messages; and a session has at
      most one memory. */
  lemma NothingIsLost(decode: Decoder<Event>, actions: seq<Action>, key: string)
    ensures var w := Run(decode, actions);
            && AtLineStart(FileOf(w, key), Load(w.cursors, key))
            && Subsequence(Consumed(decode, w, key), Ingested(w.tables, key))
    ensures var t := Run(decode, actions).tables;
            forall s: nat :: s < |t.sessions| ==>
              && Chunked(ChunksIn(t.chunks, s), Messages(EventsIn(t.events, s)))
              && Contents(ChunksIn(t.chunks, s)) == NormalizeRecords(Messages(EventsIn(t.events, s)))
              && |MemoriesIn(t.memories, s)| <= 1
    ensures var t := Run(decode, actions).tables; forall k :: 0 <= k < |t.memories| ==> Anchored(t, t.memories[k])
  {
    hide Anchored, Subsequence, ChunkOf, EventsIn, ChunksIn, MemoriesIn, Messages, Chunked, NormalizeRecords, Consumed;
    RunSound(decode, actions, key);
    var t := Run(decode, actions).tables;
    forall s: nat | s < |t.sessions|
      ensures Chunked(ChunksIn(t.chunks, s), Messages(EventsIn(t.events, s))) && |MemoriesIn(t.memories, s)| <= 1
      ensures Contents(ChunksIn(t.chunks, s)) == NormalizeRecords(Messages(EventsIn(t.events, s)))
    {
      assert SessionSound(t, s);
      ChunksAreTranscript(ChunksIn(t.chunks, s), Messages(EventsIn(t.events, s)));
    }
  }

  // ----- Nothing but duplicates is added -----

  /** The events `lo` up to `hi` of the file, as one replay found them behind its cursor. */
  datatype Slice = Slice(lo: nat, hi: nat)

  predicate EndOf(s: Slice, at: nat) {
    at == s.lo || at == s.hi
  }

  /** Each replay starts where the one before it started, if that one's cursor was not saved, or else
      where it ended; `done` is the cursor now. */
  predicate Chained(slices: seq<Slice>, done: nat, total: nat) {
    && (forall i :: 0 <= i < |slices| ==> slices[i].lo <= slices[i].hi <= total)
    && (forall i :: 0 < i < |slices| ==> slices[i - 1].hi <= slices[i].hi && EndOf(slices[i - 1], slices[i].lo))
    && (if slices == [] then done == 0 else slices[0].lo == 0 && EndOf(slices[|slices| - 1], done))
  }

  function Told(all: seq<Event>, slices: seq<Slice>): seq<Event>
    requires forall i :: 0 <= i < |slices| ==> slices[i].lo <= slices[i].hi <= |all|
  {
    if slices == [] then []
    else
      var last := slices[|slices| - 1];
      Told(all, slices[..|slices| - 1]) + all[last.lo..last.hi]
  }

  function AllOf(decode: Decoder<Event>, w: World, key: string): seq<Event> {
    EventsOf(decode, Records(FileOf(w, key)))
  }

  lemma {:induction false} ToldOfMore(all: seq<Event>, more: seq<Event>, slices: seq<Slice>)
    requires forall i :: 0 <= i < |slices| ==> slices[i].lo <= slices[i].hi <= |all|
    ensures Told(all + more, slices) == Told(all, slices)
  {
    if slices != [] {
      var last := slices[|slices| - 1];
      ToldOfMore(all, more, slices[..|slices| - 1]);
      assert (all + more)[last.lo..last.hi] == all[last.lo..last.hi];
    }
  }

  lemma {:induction false} ToldIsTrue(all: seq<Event>, slices: seq<Slice>)
    requires forall i :: 0 <= i < |slices| ==> slices[i].lo <= slices[i].hi <= |all|
    ensures forall e :: e in Told(all, slices) ==> e in all
  {
    if slices != [] { ToldIsTrue(all, slices[..|slices| - 1]); }
  }

  /** Appending bytes only adds complete lines. */
  lemma AppendExtends(decode: Decoder<Event>, file: seq<byte>, bytes: seq<byte>)
    ensures EventsOf(decode, Records(file)) <= EventsOf(decode, Records(file + bytes))
  {
    hide Records, EventsOf, CompleteLength;
    var c := CompleteLength(file);
    PartialIsSuffix(file);
    TailedIsRest(decode, file, c);
    assert (file + bytes)[..c] == file[..c];
    TailedIsRest(decode, file + bytes, c);
    NothingNew(decode, file, c);
  }

  ghost predicate Retold(decode: Decoder<Event>, w: World, key: string, slices: seq<Slice>) {
    && AtLineStart(FileOf(w, key), Load(w.cursors, key))
    && Chained(slices, |Consumed(decode, w, key)|, |AllOf(decode, w, key)|)
    && Ingested(w.tables, key) == Told(AllOf(decode, w, key), slices)
  }

  lemma AppendRetells(decode: Decoder<Event>, w: World, key: string, a: Action, slices: seq<Slice>)
    requires a.Append? && Retold(decode, w, key, slices)
    ensures Retold(decode, Next(decode, w, a), key, slices)
  {
    hide Records, EventsOf, Told;
    var c, file := Load(w.cursors, key), FileOf(w, key);
    if a.key == key {
      assert (file + a.bytes)[..c] == file[..c];
      AppendExtends(decode, file, a.bytes);
      var all, more := AllOf(decode, w, key), AllOf(decode, Next(decode, w, a), key);
      assert more == all + more[|all|..];
      ToldOfMore(all, more[|all|..], slices);
    }
  }

  lemma ChainedOneMore(slices: seq<Slice>, done: nat, total: nat, now: nat)
    requires Chained(slices, done, total) && done <= total && (now == done || now == total)
    ensures Chained(slices + [Slice(done, total)], now, total)
  {
    var n, more := |slices|, slices + [Slice(done, total)];
    assert forall i :: 0 <= i < n ==> more[i] == slices[i];
    assert more[n] == Slice(done, total);
  }

  lemma ToldOneMore(all: seq<Event>, slices: seq<Slice>, done: nat)
    requires done <= |all| && forall i :: 0 <= i < |slices| ==> slices[i].lo <= slices[i].hi <= |all|
    ensures Told(all, slices + [Slice(done, |all|)]) == Told(all, slices) + all[done..]
  {
    assert (slices + [Slice(done, |all|)])[..|slices|] == slices;
    assert all[done..|all|] == all[done..];
  }

  lemma ReplayRetells(decode: Decoder<Event>, w: World, key: string, stop: Stop, slices: seq<Slice>)
    returns (told: seq<Slice>)
    requires Retold(decode, w, key, slices) && Sound(w.tables)
    ensures Retold(decode, Next(decode, w, Replay(key, stop)), key, told)
  {
    hide Records, EventsOf, Tailed, Replayed, Ingested, CompleteLength, Sound, Told;
    var all, file, cursor := AllOf(decode, w, key), FileOf(w, key), Load(w.cursors, key);
    TailedIsRest(decode, file, cursor);
    var (events, offset) := Tailed(decode, file, cursor);
    IngestedAfter(w.tables, key, events, key);
    if key !in w.files || stop == BeforeCommit {
      told := slices;
    } else {
      var done := |Consumed(decode, w, key)|;
      told := slices + [Slice(done, |all|)];
      assert all[done..] == events;
      ChainedOneMore(slices, done, |all|, if stop == AtEnd then |all| else done);
      ToldOneMore(all, slices, done);
    }
  }

  lemma OthersRetell(decode: Decoder<Event>, w: World, key: string, a: Action, slices: seq<Slice>)
    requires Retold(decode, w, key, slices) && Sound(w.tables) && a.Replay? && a.key != key
    ensures Retold(decode, Next(decode, w, a), key, slices)
  {
    hide Records, EventsOf, Tailed, Replayed, Ingested, CompleteLength, Sound, Told, Chained;
    var (events, offset) := Tailed(decode, FileOf(w, a.key), Load(w.cursors, a.key));
    IngestedAfter(w.tables, a.key, events, key);
    assert Ingested(w.tables, key) + [] == Ingested(w.tables, key);
  }

  /** Nor is anything made up: over every such interleaving, what is stored of a session is the slices
      its replays found behind the cursor, each starting where the one before it ended, or started if
      that one died before saving its cursor. Only lines of the file are stored, and only a lost cursor
      makes any of them stored again. */
  lemma {:induction false} OnlyDuplicates(decode: Decoder<Event>, actions: seq<Action>, key: string)
    returns (slices: seq<Slice>)
    ensures Retold(decode, Run(decode, actions), key, slices)
    ensures forall e :: e in Ingested(Run(decode, actions).tables, key) ==>
              e in AllOf(decode, Run(decode, actions), key)
  {
    hide Retold, Sound, AllOf, Ingested;
    if actions == [] {
      slices := [];
      StartRetold(decode, key);
    } else {
      var n := |actions| - 1;
      var w, a := Run(decode, actions[..n]), actions[n];
      slices := OnlyDuplicates(decode, actions[..n], key);
      RunSound(decode, actions[..n], key);
      if a.Append? {
        AppendRetells(decode, w, key, a, slices);
      } else if a.key == key {
        slices := ReplayRetells(decode, w, key, a.stop, slices);
      } else {
        OthersRetell(decode, w, key, a, slices);
      }
    }
    RetoldIsTrue(decode, Run(decode, actions), key, slices);
  }

  lemma StartRetold(decode: Decoder<Event>, key: string)
    ensures Retold(decode, World(map[], EMPTY, map[]), key, [])
  {
    assert Split([]) == [[]] && Records([]) == [];
  }

  lemma RetoldIsTrue(decode: Decoder<Event>, w: World, key: string, slices: seq<Slice>)
    requires Retold(decode, w, key, slices)
    ensures forall e :: e in Ingested(w.tables, key) ==> e in AllOf(decode, w, key)
  {
    hide Ingested, Records, EventsOf;
    ToldIsTrue(AllOf(decode, w, key), slices);
  }

  function Contents(chunks: seq<ChunkRow>): string {
    if chunks == [] then "" else Contents(chunks[..|chunks| - 1]) + chunks[|chunks| - 1].content
  }

  lemma {:induction false} ChunksAreTranscript(chunks: seq<ChunkRow>, messages: seq<Record>)
    requires Chunked(chunks, messages)
    ensures Contents(chunks) == NormalizeRecords(messages)
  {
    hide ChunkOf, NormalizeRecords;
    ChunksConcatenate(messages);
    ContentsConcatenated(chunks, messages);
  }

  lemma {:induction false} ContentsConcatenated(chunks: seq<ChunkRow>, messages: seq<Record>)
    requires Chunked(chunks, messages)
    ensures Contents(chunks) == Concatenated(messages)
  {
    hide ChunkOf;
    if chunks != [] { ContentsConcatenated(chunks[..|chunks| - 1], messages[..|messages| - 1]); }
  }

  /** As long as no replay was cut between its commit and its cursor save, ingest is exactly once: what
      is stored is exactly the complete lines before the cursor; and after a whole replay, exactly the
      complete lines of the file, torn line excluded. */
  lemma ExactlyOnce(decode: Decoder<Event>, actions: seq<Action>, key: string)
    requires NoLostSave(actions)
    ensures var w := Run(decode, actions);
            Load(w.cursors, key) <= |FileOf(w, key)| && Ingested(w.tables, key) == Consumed(decode, w, key)
    ensures var w := Run(decode, actions + [Replay(key, AtEnd)]);
            Ingested(w.tables, key) == EventsOf(decode, Records(FileOf(w, key)))
  {
    hide Subsequence, Ingested, Records, EventsOf, Replayed, Tailed, CompleteLength, Sound;
    RunSound(decode, actions, key);
    var w := Run(decode, actions);
    TailedIsRest(decode, FileOf(w, key), Load(w.cursors, key));
    IngestedAfter(w.tables, key, Tailed(decode, FileOf(w, key), Load(w.cursors, key)).0, key);
    if key !in w.files { assert FileOf(w, key)[..Load(w.cursors, key)] == FileOf(w, key); }
    assert (actions + [Replay(key, AtEnd)])[..|actions|] == actions;
  }

  /** Replaying again without new complete lines writes no row and keeps the cursor. */
  lemma SecondReplayWritesNothing(decode: Decoder<Event>, actions: seq<Action>, key: string)
    ensures var w := Run(decode, actions + [Replay(key, AtEnd)]);
            Next(decode, w, Replay(key, AtEnd)) == w
  {
    hide Subsequence, Records, EventsOf, Replayed, Sound;
    RunSound(decode, actions, key);
    var before := Run(decode, actions);
    assert (actions + [Replay(key, AtEnd)])[..|actions|] == actions;
    var w := Run(decode, actions + [Replay(key, AtEnd)]);
    var file := FileOf(w, key);
    if key in w.files {
      TailedIsRest(decode, file, Load(before.cursors, key));
      NothingNew(decode, file, Load(w.cursors, key));
      ReplayNothing(before.tables, key, Tailed(decode, file, Load(before.cursors, key)).0);
      assert w.cursors[key := Load(w.cursors, key)] == w.cursors;
    }
  }

  lemma NothingNew(decode: Decoder<Event>, file: seq<byte>, cursor: nat)
    requires cursor == CompleteLength(file)
    ensures Tailed(decode, file, cursor) == ([], cursor)
  {
    PartialIsSuffix(file);
    NoLineNoRecord(file[cursor..]);
  }

  lemma ReplayNothing(t: Tables, key: string, events: seq<Event>)
    ensures Replayed(Replayed(t, key, events), key, []) == Replayed(t, key, events)
  {
    hide IngestAll, NextSeq;
    SessionsKept(t, key, events);
    var (known, session, isNew) := SessionFor(t, key);
    KnownAfter(t, key);
    var after := Replayed(t, key, events);
    IngestNothing(Ingest(after, NextSeq(after, session), None), session);
  }

  lemma KnownAfter(t: Tables, key: string)
    ensures FindSession(SessionFor(t, key).0.sessions, key) == Some(SessionFor(t, key).1)
  {
    if FindSession(t.sessions, key).None? { assert (t.sessions + [key])[..|t.sessions|] == t.sessions; }
  }

  lemma IngestNothing(g: Ingest, session: nat)
    ensures IngestAll(g, session, []) == g
  {
  }
}
