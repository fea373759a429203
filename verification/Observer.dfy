/** The observer's tick (`observer/daemon.py`, `observer/scheduler.py`, `ingest/cursors.py`): tail every
    discovered session, extract from those whose cursor moved, and persist a cursor only after the
    extraction behind it succeeded. */
module Observer {
  import opened Text
  import opened Tail
  import opened Persist

  datatype Key = Key(source: string, session: string)
  datatype Backoff = Backoff(attempts: nat, retryAt: real)

  const CLAUDE_CODE := "claude-code"
  const INITIAL_FAILURE_BACKOFF_SECONDS := 30.0
  const MAX_FAILURE_BACKOFF_SECONDS := 900.0

  // ----- Durable cursors and retry times -----

  /** Cursor files: those under the key's own name, and older ones named by session key alone. */
  datatype Cursors = Cursors(saved: map<Key, nat>, older: map<string, nat>)

  /** `CursorStore.load`. */
  function Load(c: Cursors, key: Key): nat {
    if key in c.saved then c.saved[key]
    else if key.source == CLAUDE_CODE && key.session in c.older then c.older[key.session]
    else 0
  }

  class CursorStore {
    var files: Cursors

    constructor (older: map<string, nat>)
      ensures files == Cursors(map[], older)
    {
      files := Cursors(map[], older);
    }

    /** The key reads back the new offset, every other key its old one. */
    method Save(key: Key, offset: nat)
      modifies this
      ensures files == old(files).(saved := old(files).saved[key := offset])
      ensures forall k :: Load(files, k) == if k == key then offset else Load(old(files), k)
    {
      files := files.(saved := files.saved[key := offset]);
    }
  }

  /** `initial_seconds * 2 ** k`. */
  function Doubled(k: nat): real {
    if k == 0 then INITIAL_FAILURE_BACKOFF_SECONDS else 2.0 * Doubled(k - 1)
  }

  /** The wait after the `attempts`-th failure in a row. */
  function Delay(attempts: nat): real
    requires attempts >= 1
  {
    if Doubled(attempts - 1) <= MAX_FAILURE_BACKOFF_SECONDS then Doubled(attempts - 1) else MAX_FAILURE_BACKOFF_SECONDS
  }

  function Attempts(entries: map<Key, Backoff>, key: Key): nat {
    if key in entries then entries[key].attempts else 0
  }

  function Failing(entries: map<Key, Backoff>, key: Key, now: real): map<Key, Backoff> {
    var n := Attempts(entries, key) + 1;
    entries[key := Backoff(n, now + Delay(n))]
  }

  class FailureBackoffStore {
    var entries: map<Key, Backoff>

    constructor ()
      ensures entries == map[]
    {
      entries := map[];
    }

    method RecordFailure(key: Key, now: real) returns (retryAt: real)
      modifies this
      ensures entries == Failing(old(entries), key, now) && retryAt == entries[key].retryAt
    {
      var attempts := (if key in entries then entries[key].attempts else 0) + 1;
      retryAt := now + Delay(attempts);
      entries := entries[key := Backoff(attempts, retryAt)];
    }

    method Clear(key: Key)
      modifies this
      ensures entries == old(entries) - {key}
    {
      entries := entries - {key};
    }
  }

  // ----- Planning -----

  /** A discovered session and the content of its file when it is tailed. */
  datatype Ref = Ref(key: Key, file: seq<byte>)
  datatype Work = Work(key: Key, before: nat, after: nat)

  function Reached(file: seq<byte>, before: nat): nat {
    PartialLength(file[if |file| < before then 0 else before..]);
    ReadCompleteRecords(file, before).1
  }

  predicate Moved(c: Cursors, ref: Ref) {
    Reached(ref.file, Load(c, ref.key)) != Load(c, ref.key)
  }

  function Scheduled(c: Cursors, refs: seq<Ref>): seq<Work> {
    if refs == [] then []
    else
      var last := refs[|refs| - 1];
      var before := Load(c, last.key);
      Scheduled(c, refs[..|refs| - 1]) + if Moved(c, last) then [Work(last.key, before, Reached(last.file, before))]
        else []
  }

  function Skipped(c: Cursors, refs: seq<Ref>): seq<Key> {
    if refs == [] then []
    else Skipped(c, refs[..|refs| - 1]) + if Moved(c, refs[|refs| - 1]) then [] else [refs[|refs| - 1].key]
  }

  /** `plan_tick`: reads cursors, writes none. */
  method PlanTick(store: CursorStore, refs: seq<Ref>) returns (scheduled: seq<Work>, skipped: seq<Key>)
    ensures scheduled == Scheduled(store.files, refs) && skipped == Skipped(store.files, refs)
  {
    hide Reached;
    scheduled, skipped := [], [];
    for i := 0 to |refs|
      invariant scheduled == Scheduled(store.files, refs[..i]) && skipped == Skipped(store.files, refs[..i])
    {
      assert refs[..i + 1][..i] == refs[..i];
      var before := Load(store.files, refs[i].key);
      var after := Reached(refs[i].file, before);
      if after == before {
        skipped := skipped + [refs[i].key];
      } else {
        scheduled := scheduled + [Work(refs[i].key, before, after)];
      }
    }
    assert refs[..|refs|] == refs;
  }

  // ----- Extraction and what a tick persists -----

  /** What one extraction did: the tables it left pending, whether the inference client committed
      what was pending before the request, whether it raised, and whether the rollback then failed. */
  datatype Effect = Effect(pending: Store, committedFirst: bool, raised: bool, rollbackFails: bool)

  type Extractor = (Work, Store) -> Effect

  datatype Obs = Obs(committed: Store, working: Store, cursors: Cursors, backoff: map<Key, Backoff>)
  datatype Verdict = Extracted | Failed | Deferred

  function Decide(s: Obs, w: Work, now: real, extract: Extractor): Verdict {
    if w.key in s.backoff && now < s.backoff[w.key].retryAt then Deferred
    else if extract(w, s.working).raised then Failed
    else Extracted
  }

  function AfterWork(s: Obs, w: Work, now: real, extract: Extractor): Obs {
    var e := extract(w, s.working);
    match Decide(s, w, now, extract)
    case Deferred => s
    case Failed =>
      var committed := if e.committedFirst then s.working else s.committed;
      Obs(committed, if e.rollbackFails then e.pending else committed, s.cursors, Failing(s.backoff, w.key, now))
    case Extracted =>
      Obs(e.pending, e.pending, s.cursors.(saved := s.cursors.saved[w.key := w.after]), s.backoff - {w.key})
  }

  function AfterWorks(s: Obs, works: seq<Work>, now: real, extract: Extractor): Obs {
    if works == [] then s
    else AfterWork(AfterWorks(s, works[..|works| - 1], now, extract), works[|works| - 1], now, extract)
  }

  /** The keys of the works with one verdict, in order. */
  function Judged(s: Obs, works: seq<Work>, now: real, extract: Extractor, verdict: Verdict): seq<Key> {
    if works == [] then []
    else
      var init, last := works[..|works| - 1], works[|works| - 1];
      Judged(s, init, now, extract, verdict) +
      if Decide(AfterWorks(s, init, now, extract), last, now, extract) == verdict then [last.key] else []
  }

  datatype Tick = Tick(refs: seq<Ref>, now: real, extract: Extractor)
  datatype TickResult = TickResult(tick: nat, scheduled: seq<Work>, skipped: seq<Key>,
                                   extracted: seq<Key>, failed: seq<Key>, deferred: seq<Key>)

  function AfterTick(s: Obs, t: Tick): Obs {
    AfterWorks(s, Scheduled(s.cursors, t.refs), t.now, t.extract)
  }

  function AfterTicks(s: Obs, ticks: seq<Tick>): Obs {
    if ticks == [] then s else AfterTick(AfterTicks(s, ticks[..|ticks| - 1]), ticks[|ticks| - 1])
  }

  function ResultOf(s: Obs, t: Tick, number: nat): TickResult {
    var works := Scheduled(s.cursors, t.refs);
    TickResult(number, works, Skipped(s.cursors, t.refs), Judged(s, works, t.now, t.extract, Extracted),
               Judged(s, works, t.now, t.extract, Failed), Judged(s, works, t.now, t.extract, Deferred))
  }

  class ObserverDaemon {
    const cursors: CursorStore
    const backoff: FailureBackoffStore
    var committed: Store
    var working: Store
    var ticks: nat

    constructor (cursors: CursorStore, backoff: FailureBackoffStore, store: Store)
      ensures this.cursors == cursors && this.backoff == backoff && ticks == 0
      ensures State() == Obs(store, store, cursors.files, backoff.entries)
    {
      this.cursors, this.backoff := cursors, backoff;
      committed, working, ticks := store, store, 0;
    }

    function State(): Obs
      reads this, cursors, backoff
    {
      Obs(committed, working, cursors.files, backoff.entries)
    }

    /** One scheduled session: nothing of it may stop the loop. */
    method TryExtract(w: Work, now: real, extract: Extractor) returns (verdict: Verdict)
      modifies this, cursors, backoff
      ensures State() == AfterWork(old(State()), w, now, extract)
      ensures verdict == Decide(old(State()), w, now, extract) && ticks == old(ticks)
    {
      hide Delay;
      if w.key in backoff.entries && now < backoff.entries[w.key].retryAt {
        return Deferred;
      }
      var e := extract(w, working);
      if e.committedFirst { committed := working; }
      working := e.pending;
      if e.raised {
        if !e.rollbackFails { working := committed; }
        var _ := backoff.RecordFailure(w.key, now);
        return Failed;
      }
      committed := working;
      cursors.Save(w.key, w.after);
      backoff.Clear(w.key);
      return Extracted;
    }

    method Tick(t: Tick) returns (result: TickResult)
      modifies this, cursors, backoff
      ensures State() == AfterTick(old(State()), t)
      ensures ticks == old(ticks) + 1 && result == ResultOf(old(State()), t, ticks)
    {
      hide AfterWork, Decide, Scheduled, Skipped;
      ghost var start := State();
      ticks := ticks + 1;
      var works, skipped := PlanTick(cursors, t.refs);
      var extracted: seq<Key>, failed: seq<Key>, deferred: seq<Key> := [], [], [];
      for i := 0 to |works|
        invariant ticks == old(ticks) + 1
        invariant State() == AfterWorks(start, works[..i], t.now, t.extract)
        invariant extracted == Judged(start, works[..i], t.now, t.extract, Extracted)
        invariant failed == Judged(start, works[..i], t.now, t.extract, Failed)
        invariant deferred == Judged(start, works[..i], t.now, t.extract, Deferred)
      {
        assert works[..i + 1][..i] == works[..i];
        var verdict := TryExtract(works[i], t.now, t.extract);
        match verdict
        case Extracted => extracted := extracted + [works[i].key];
        case Failed => failed := failed + [works[i].key];
        case Deferred => deferred := deferred + [works[i].key];
      }
      assert works[..|works|] == works;
      result := TickResult(ticks, works, skipped, extracted, failed, deferred);
    }
  }
}
