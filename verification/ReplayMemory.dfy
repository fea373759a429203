/** When a replay (`replay.py`) writes the one memory of a session, and which chunk it cites. */
module ReplayMemory {
  import opened Text
  import opened Tail
  import opened Normalize
  import opened Replay
  import opened ReplaySafety

  /** Some event is a message that renders to text. */
  predicate SaysSomething(events: seq<Event>) {
    exists i :: 0 <= i < |events| && events[i].Message? && ChunkOf(events[i].record) != ""
  }

  /** The first chunk of a session that says something. */
  predicate FirstSpeaking(t: Tables, session: nat, chunk: nat) {
    && chunk < |t.chunks| && t.chunks[chunk].session == session && t.chunks[chunk].content != ""
    && forall c :: 0 <= c < chunk && t.chunks[c].session == session ==> t.chunks[c].content == ""
  }

  predicate NoneSpeaks(t: Tables, session: nat) {
    forall c :: 0 <= c < |t.chunks| && t.chunks[c].session == session ==> t.chunks[c].content == ""
  }

  /** The anchor is the first chunk of the session that says something. */
  lemma {:induction false} AnchorIsFirst(g: Ingest, session: nat, events: seq<Event>)
    requires g.anchor.None? && NoneSpeaks(g.tables, session)
    ensures var h := IngestAll(g, session, events);
            && g.tables.chunks <= h.tables.chunks
            && (h.anchor.Some? <==> SaysSomething(events))
            && (if h.anchor.Some? then FirstSpeaking(h.tables, session, h.anchor.value)
                else NoneSpeaks(h.tables, session))
  {
    hide ChunkOf;
    if events != [] {
      var n := |events| - 1;
      AnchorIsFirst(g, session, events[..n]);
      assert SaysSomething(events)
             <==> SaysSomething(events[..n]) || (events[n].Message? && ChunkOf(events[n].record) != "") by {
        if i :| 0 <= i < n && events[i].Message? && ChunkOf(events[i].record) != "" {
          assert events[..n][i] == events[i];
        }
      }
    }
  }

  lemma {:induction false} NoChunksOfNew(rows: seq<ChunkRow>, session: nat)
    requires ChunksIn(rows, session) == []
    ensures forall c :: 0 <= c < |rows| ==> rows[c].session != session
  {
    if rows != [] { NoChunksOfNew(rows[..|rows| - 1], session); }
  }

  /** A session that is not stored has no chunk. */
  lemma NewIsSilent(t: Tables, session: nat)
    requires Sound(t) && session >= |t.sessions|
    ensures NoneSpeaks(t, session)
  {
    hide Messages, Chunked, MemoriesIn, EventsIn, ChunksIn;
    assert SessionSound(t, session);
    NothingChunked(t, session);
    NoChunksOfNew(t.chunks, session);
  }

  lemma NothingChunked(t: Tables, session: nat)
    requires Chunked(ChunksIn(t.chunks, session), Messages([]))
    ensures ChunksIn(t.chunks, session) == []
  {
  }

  /** The memory that a replay under `key` adds, if any. */
  predicate AddsMemory(t: Tables, after: Tables, key: string) {
    && |after.memories| == |t.memories| + 1 && after.memories[..|t.memories|] == t.memories
    && var m := after.memories[|t.memories|];
       && m.session < |after.sessions| && after.sessions[m.session] == key
       && FirstSpeaking(after, m.session, m.chunk) && m.start == 0 && m.end == |after.chunks[m.chunk].content|
  }

  /** A replay writes a memory exactly if no session was stored under its key and some message it
      found renders to text; it cites the whole of the first chunk that does. Otherwise it writes none. */
  lemma RemembersExactly(t: Tables, key: string, events: seq<Event>)
    requires Sound(t)
    ensures var after := Replayed(t, key, events);
            if key !in t.sessions
              && SaysSomething(events) then AddsMemory(t, after, key) else after.memories == t.memories
  {
    hide IngestAll, NextSeq, Sound, NoneSpeaks, FirstSpeaking, SaysSomething;
    var (known, session, isNew) := SessionFor(t, key);
    var g := Ingest(known, NextSeq(known, session), None);
    var done := IngestAll(g, session, events);
    AnchorInRange(g, session, events);
    MemoriesUntouched(g, session, events);
    SessionsUntouched(g, session, events);
    StoredOrNew(t, key);
    if isNew {
      NewIsSilent(t, session);
      SilentToo(t, known, session);
      AnchorIsFirst(g, session, events);
      if done.anchor.Some? {
        SpeakingToo(done.tables, Remembered(done.tables, session, done.anchor.value), session, done.anchor.value);
      }
    }
  }

  lemma StoredOrNew(t: Tables, key: string)
    ensures var (known, session, isNew) := SessionFor(t, key);
            && (isNew <==> key !in t.sessions) && session < |known.sessions| && known.sessions[session] == key
            && (isNew ==> session == |t.sessions|)
  {
  }

  lemma SilentToo(t: Tables, u: Tables, session: nat)
    requires t.chunks == u.chunks && NoneSpeaks(t, session)
    ensures NoneSpeaks(u, session)
  {
  }

  lemma SpeakingToo(t: Tables, u: Tables, session: nat, chunk: nat)
    requires t.chunks == u.chunks && FirstSpeaking(t, session, chunk)
    ensures FirstSpeaking(u, session, chunk)
  {
  }

  // ----- Over runs -----

  /** Action `i` commits a replay under `key`. */
  predicate Commits(decode: Decoder<Event>, actions: seq<Action>, i: nat, key: string) {
    && i < |actions| && actions[i].Replay? && actions[i].key == key && actions[i].stop != BeforeCommit
    && key in Run(decode, actions[..i]).files
  }

  /** It is the first that does, and it finds something that is said. */
  predicate FirstSays(decode: Decoder<Event>, actions: seq<Action>, i: nat, key: string) {
    && Commits(decode, actions, i, key) && (forall j: nat :: j < i ==> !Commits(decode, actions, j, key))
    && var w := Run(decode, actions[..i]); SaysSomething(Tailed(decode, FileOf(w, key), Load(w.cursors, key)).0)
  }

  ghost predicate HasMemory(t: Tables, key: string) {
    exists k ::
        0 <= k < |t.memories| && t.memories[k].session < |t.sessions| && t.sessions[t.memories[k].session] == key
  }

  ghost predicate EverCommits(decode: Decoder<Event>, actions: seq<Action>, key: string) {
    exists i: nat :: Commits(decode, actions, i, key)
  }

  ghost predicate FirstSpoke(decode: Decoder<Event>, actions: seq<Action>, key: string) {
    exists i: nat :: FirstSays(decode, actions, i, key)
  }

  lemma CommitsEarlier(decode: Decoder<Event>, actions: seq<Action>, n: nat, i: nat, key: string)
    requires i < n <= |actions|
    ensures Commits(decode, actions[..n], i, key) == Commits(decode, actions, i, key)
    ensures Run(decode, actions[..n][..i]) == Run(decode, actions[..i])
  {
    assert actions[..n][..i] == actions[..i];
  }

  /** What one more action adds. */
  lemma CommitsNext(decode: Decoder<Event>, actions: seq<Action>, key: string)
    requires actions != []
    ensures var n := |actions| - 1;
            && (EverCommits(decode, actions, key)
                <==> EverCommits(decode, actions[..n], key) || Commits(decode, actions, n, key))
            && (FirstSpoke(decode, actions, key) <==>
                  FirstSpoke(decode, actions[..n], key) ||
                  (!EverCommits(decode, actions[..n], key) && FirstSays(decode, actions, n, key)))
  {
    hide Run, Tailed, SaysSomething;
    var n := |actions| - 1;
    forall i: nat | i < n
      ensures Commits(decode, actions[..n], i, key) == Commits(decode, actions, i, key)
      ensures FirstSays(decode, actions[..n], i, key) == FirstSays(decode, actions, i, key)
    {
      forall j: nat | j <= i ensures Commits(decode, actions[..n], j, key) == Commits(decode, actions, j, key) {
        CommitsEarlier(decode, actions, n, j, key);
      }
      CommitsEarlier(decode, actions, n, i, key);
    }
    if EverCommits(decode, actions, key) {
      var i: nat :| Commits(decode, actions, i, key);
      assert i < n ==> Commits(decode, actions[..n], i, key);
    }
    if FirstSpoke(decode, actions, key) {
      var i: nat :| FirstSays(decode, actions, i, key);
      if i < n { assert FirstSays(decode, actions[..n], i, key); }
    }
    if FirstSpoke(decode, actions[..n], key) {
      var i: nat :| FirstSays(decode, actions[..n], i, key);
      assert FirstSays(decode, actions, i, key);
    }
    if EverCommits(decode, actions[..n], key) {
      var i: nat :| Commits(decode, actions[..n], i, key);
      assert Commits(decode, actions, i, key);
    }
  }

  predicate Named(t: Tables, m: MemoryRow, key: string) {
    m.session < |t.sessions| && t.sessions[m.session] == key
  }

  /** Old memories keep their session's name. */
  lemma OldMemories(t: Tables, after: Tables, other: string)
    requires t.sessions <= after.sessions && t.memories <= after.memories
    requires forall k :: 0 <= k < |t.memories| ==> t.memories[k].session < |t.sessions|
    ensures HasMemory(t, other) <==> exists k :: 0 <= k < |t.memories| && Named(after, after.memories[k], other)
  {
    assert forall k :: 0 <= k < |t.memories| ==> after.memories[k] == t.memories[k];
    if HasMemory(t, other) {
      var k :| 0 <= k < |t.memories| && t.memories[k].session < |t.sessions|
        && t.sessions[t.memories[k].session] == other;
      assert Named(after, after.memories[k], other);
    }
    if k :| 0 <= k < |t.memories| && Named(after, after.memories[k], other) {
      assert t.sessions[t.memories[k].session] == other;
    }
  }

  lemma HasIsNamed(t: Tables, other: string)
    ensures HasMemory(t, other) <==> exists k :: 0 <= k < |t.memories| && Named(t, t.memories[k], other)
  {
    if k :| 0 <= k < |t.memories| && Named(t, t.memories[k], other) {
      assert t.sessions[t.memories[k].session] == other;
    }
  }

  lemma MemoriesGrow(t: Tables, after: Tables, key: string, other: string)
    requires t.sessions <= after.sessions && (after.memories == t.memories || AddsMemory(t, after, key))
    requires forall k :: 0 <= k < |t.memories| ==> t.memories[k].session < |t.sessions|
    ensures HasMemory(after, other) <==> HasMemory(t, other) || (after.memories != t.memories && other == key)
  {
    hide HasMemory, FirstSpeaking;
    assert t.memories <= after.memories;
    OldMemories(t, after, other);
    HasIsNamed(after, other);
    if AddsMemory(t, after, key) { assert Named(after, after.memories[|t.memories|], key); }
  }

  lemma HasMemoryAfter(t: Tables, key: string, events: seq<Event>, other: string)
    requires Sound(t)
    ensures var after := Replayed(t, key, events);
            && (HasMemory(after, other) <==>
                  HasMemory(t, other) || (other == key && key !in t.sessions && SaysSomething(events)))
            && (other in after.sessions <==> other in t.sessions || other == key)
  {
    hide Replayed, SaysSomething, FirstSpeaking, HasMemory, Sound;
    RemembersExactly(t, key, events);
    SessionsKept(t, key, events);
    SessionsGrow(t, key);
    MemoriesNamed(t);
    MemoriesGrow(t, Replayed(t, key, events), key, other);
  }

  lemma SessionsGrow(t: Tables, key: string)
    ensures var s := SessionFor(t, key).0.sessions;
            s == if key in t.sessions then t.sessions else t.sessions + [key]
  {
  }

  /** Every memory belongs to a stored session. */
  lemma MemoriesNamed(t: Tables)
    requires Sound(t)
    ensures forall k :: 0 <= k < |t.memories| ==> t.memories[k].session < |t.sessions|
  {
    hide Messages, Chunked, EventsIn, ChunksIn;
    forall k | 0 <= k < |t.memories| ensures t.memories[k].session < |t.sessions| {
      var s := t.memories[k].session;
      assert SessionSound(t, s);
      MemoryListed(t.memories, k);
    }
  }

  lemma {:induction false} MemoryListed(rows: seq<MemoryRow>, k: nat)
    requires k < |rows|
    ensures MemoriesIn(rows, rows[k].session) != []
  {
    if k < |rows| - 1 { MemoryListed(rows[..|rows| - 1], k); }
  }

  /** Over every interleaving of appends and replays, whole or cut short anywhere: a session is stored
      exactly if some replay committed under its key, and has a memory exactly if the first of them
      found a message that renders to text. */
  lemma {:induction false} MemoryExactly(decode: Decoder<Event>, actions: seq<Action>, key: string)
    ensures var t := Run(decode, actions).tables;
            && (key in t.sessions <==> EverCommits(decode, actions, key))
            && (HasMemory(t, key) <==> FirstSpoke(decode, actions, key))
  {
    hide Sound, Replayed, Tailed, EverCommits, FirstSpoke, HasMemory, SaysSomething;
    if actions == [] {
      NothingYet(decode, key);
    } else {
      var n := |actions| - 1;
      var a, w := actions[n], Run(decode, actions[..n]);
      MemoryExactly(decode, actions[..n], key);
      RunSound(decode, actions[..n], key);
      CommitsNext(decode, actions, key);
      NeverTwice(decode, actions, key);
      if a.Replay? {
        HasMemoryAfter(w.tables, a.key, Tailed(decode, FileOf(w, a.key), Load(w.cursors, a.key)).0, key);
      }
    }
  }

  lemma NothingYet(decode: Decoder<Event>, key: string)
    ensures !EverCommits(decode, [], key) && !FirstSpoke(decode, [], key) && !HasMemory(EMPTY, key)
  {
  }

  lemma NeverTwice(decode: Decoder<Event>, actions: seq<Action>, key: string)
    requires actions != []
    ensures var n := |actions| - 1;
            var w := Run(decode, actions[..n]);
            !EverCommits(decode, actions[..n], key) ==>
              (FirstSays(decode, actions, n, key) <==>
                 Commits(decode, actions, n, key)
                   && SaysSomething(Tailed(decode, FileOf(w, key), Load(w.cursors, key)).0))
  {
    hide Run, Tailed, SaysSomething;
    var n := |actions| - 1;
    if !EverCommits(decode, actions[..n], key) {
      forall j: nat | j < n ensures !Commits(decode, actions, j, key) {
        CommitsEarlier(decode, actions, n, j, key);
      }
    }
  }
}
