/** What runs of the observer guarantee: a persisted cursor means a successful extraction, a failure
    changes nothing but the retry time and stays scheduled, and retries back off. */
module ObserverSafety {
  import opened Text
  import opened Tail
  import opened Persist
  import opened Observer

  // ----- Skipping -----

  /** A session is skipped exactly when its file did not shrink below the cursor and no newline
      arrived after it: a torn line alone never earns an extraction, a complete one always does. */
  lemma SkippedExactly(c: Cursors, ref: Ref)
    ensures !Moved(c, ref) <==> Load(c, ref.key) <= |ref.file| && NEWLINE !in ref.file[Load(c, ref.key)..]
  {
    var before := Load(c, ref.key);
    var from := if |ref.file| < before then 0 else before;
    NothingCompleteExactly(ref.file[from..]);
    PartialLength(ref.file[from..]);
  }

  // ----- Persisted cursors -----

  /** Work `j` of tick `i` belongs to `key`, reached `offset`, and its extraction succeeded. */
  predicate ExtractedAt(s: Obs, ticks: seq<Tick>, i: nat, j: nat, key: Key, offset: nat) {
    i < |ticks| &&
    var start, t := AfterTicks(s, ticks[..i]), ticks[i];
    WorkExtracted(start, Scheduled(start.cursors, t.refs), t, j, key, offset)
  }

  predicate WorkExtracted(start: Obs, works: seq<Work>, t: Tick, j: nat, key: Key, offset: nat) {
    && j < |works| && works[j].key == key && works[j].after == offset
    && Decide(AfterWorks(start, works[..j], t.now, t.extract), works[j], t.now, t.extract) == Extracted
  }

  lemma {:induction false} CursorFromWork(start: Obs, works: seq<Work>, t: Tick, key: Key)
    ensures var after := Load(AfterWorks(start, works, t.now, t.extract).cursors, key);
            after == Load(start.cursors, key) || exists j: nat :: WorkExtracted(start, works, t, j, key, after)
  {
    hide Decide, Failing;
    if works != [] {
      var n := |works| - 1;
      CursorFromWork(start, works[..n], t, key);
      var was := Load(AfterWorks(start, works[..n], t.now, t.extract).cursors, key);
      var after := Load(AfterWorks(start, works, t.now, t.extract).cursors, key);
      if after != was {
        assert WorkExtracted(start, works, t, n, key, after);
      } else if was != Load(start.cursors, key) {
        var j: nat :| WorkExtracted(start, works[..n], t, j, key, was);
        assert works[..n][..j] == works[..j];
        assert WorkExtracted(start, works, t, j, key, after);
      }
    }
  }

  /** Over every run, a cursor that is not the one the run started with was written by a tick that
      reached it and then extracted that session successfully. */
  lemma {:induction false} CursorWasExtracted(s: Obs, ticks: seq<Tick>, key: Key)
    ensures var c := Load(AfterTicks(s, ticks).cursors, key);
            c == Load(s.cursors, key) || exists i: nat, j: nat :: ExtractedAt(s, ticks, i, j, key, c)
  {
    hide AfterWorks, Scheduled;
    if ticks != [] {
      var n := |ticks| - 1;
      CursorWasExtracted(s, ticks[..n], key);
      var start := AfterTicks(s, ticks[..n]);
      var c := Load(AfterTicks(s, ticks).cursors, key);
      CursorFromWork(start, Scheduled(start.cursors, ticks[n].refs), ticks[n], key);
      if c != Load(start.cursors, key) {
        var j: nat :| WorkExtracted(start, Scheduled(start.cursors, ticks[n].refs), ticks[n], j, key, c);
        assert ExtractedAt(s, ticks, n, j, key, c);
      } else if c != Load(s.cursors, key) {
        var i: nat, j: nat :| ExtractedAt(s, ticks[..n], i, j, key, c);
        assert ticks[..n][..i] == ticks[..i];
        assert ExtractedAt(s, ticks, i, j, key, c);
      }
    }
  }

  /** Every content of the session's file that the run saw is a prefix of `file`. */
  predicate AppendOnly(ticks: seq<Tick>, key: Key, file: seq<byte>) {
    forall i, r :: 0 <= i < |ticks| && 0 <= r < |ticks[i].refs| && ticks[i].refs[r].key == key ==>
        ticks[i].refs[r].file <= file
  }

  lemma ReachesLastLine(file: seq<byte>, whole: seq<byte>, before: nat)
    requires file <= whole && AtLineStart(whole, before)
    ensures Reached(file, before) == CompleteLength(file) && AtLineStart(whole, Reached(file, before))
  {
    if before <= |file| {
      assert AtLineStart(file, before);
      ReadIsExact(file, before);
    } else {
      ShrinkIsTheOnlyRetreat(file, before);
    }
  }

  /** A work comes from a discovered file. */
  lemma {:induction false} ScheduledFrom(c: Cursors, refs: seq<Ref>, j: nat)
    requires j < |Scheduled(c, refs)|
    ensures var w := Scheduled(c, refs)[j];
            exists r ::
                0 <= r < |refs| && refs[r].key == w.key && w.before == Load(c, w.key)
                  && w.after == Reached(refs[r].file, w.before)
  {
    hide Reached, Load;
    var n := |refs| - 1;
    if j < |Scheduled(c, refs[..n])| {
      ScheduledFrom(c, refs[..n], j);
      var w := Scheduled(c, refs)[j];
      var r :| 0 <= r < n && refs[..n][r].key == w.key && w.after == Reached(refs[..n][r].file, w.before);
      assert refs[r] == refs[..n][r];
    } else {
      assert refs[n].key == Scheduled(c, refs)[j].key;
    }
  }

  /** The extraction behind work `j` of tick `i` started when the whole of `seen` was on disk. */
  predicate SawFile(ticks: seq<Tick>, i: nat, key: Key, seen: seq<byte>) {
    i < |ticks| && Ref(key, seen) in ticks[i].refs
  }

  /** On an append-only file a persisted cursor means that some extraction of the session succeeded
      after its tail had seen a content whose complete lines end exactly there; the cursor is a line
      start of the file ever after. */
  lemma {:induction false} PersistedCursorIsExtracted(s: Obs, ticks: seq<Tick>, key: Key, file: seq<byte>)
    requires Load(s.cursors, key) == 0 && AppendOnly(ticks, key, file)
    ensures var c := Load(AfterTicks(s, ticks).cursors, key);
            && AtLineStart(file, c)
            && (c > 0 ==> exists i: nat, j: nat, seen ::
                  ExtractedAt(s, ticks, i, j, key, c) && SawFile(ticks, i, key, seen) && c == CompleteLength(seen))
    decreases |ticks|
  {
    hide Reached, CompleteLength, Decide, AfterWorks, Scheduled;
    var c := Load(AfterTicks(s, ticks).cursors, key);
    CursorWasExtracted(s, ticks, key);
    if c != 0 {
      var i: nat, j: nat :| ExtractedAt(s, ticks, i, j, key, c);
      var start := AfterTicks(s, ticks[..i]);
      PersistedCursorIsExtracted(s, ticks[..i], key, file);
      ScheduledFrom(start.cursors, ticks[i].refs, j);
      var w := Scheduled(start.cursors, ticks[i].refs)[j];
      var r :| 0 <= r < |ticks[i].refs| && ticks[i].refs[r].key == key && c == Reached(ticks[i].refs[r].file, w.before);
      var seen := ticks[i].refs[r].file;
      ReachesLastLine(seen, file, Load(start.cursors, key));
      assert ticks[i].refs[r] == Ref(key, seen);
      assert SawFile(ticks, i, key, seen);
    }
  }

  /** Work left by a failure is never forgotten: until an extraction of the session succeeds, every
      later discovery of its grown file schedules it again. */
  lemma UnfinishedStaysScheduled(s: Obs, ticks: seq<Tick>, key: Key, seen: seq<byte>, later: seq<byte>)
    requires Load(s.cursors, key) <= |seen| && Moved(s.cursors, Ref(key, seen)) && seen <= later
    requires forall i: nat, j: nat, offset: nat :: !ExtractedAt(s, ticks, i, j, key, offset)
    ensures Moved(AfterTicks(s, ticks).cursors, Ref(key, later))
  {
    hide AfterTicks, ExtractedAt, Reached;
    CursorWasExtracted(s, ticks, key);
    SkippedExactly(s.cursors, Ref(key, seen));
    SkippedExactly(AfterTicks(s, ticks).cursors, Ref(key, later));
    var c := Load(s.cursors, key);
    assert later[c..][..|seen| - c] == seen[c..];
  }

  // ----- Failures leave the store alone -----

  /** Nothing is pending between two sessions. */
  predicate Clean(s: Obs) {
    s.working == s.committed
  }

  ghost predicate RollsBack(extract: Extractor) {
    forall w, store :: !extract(w, store).rollbackFails
  }

  lemma {:induction false} WorksStayClean(s: Obs, works: seq<Work>, now: real, extract: Extractor)
    requires Clean(s) && RollsBack(extract)
    ensures Clean(AfterWorks(s, works, now, extract))
    ensures Judged(s, works, now, extract, Extracted) == [] ==>
              AfterWorks(s, works, now, extract).committed == s.committed
                && AfterWorks(s, works, now, extract).cursors == s.cursors
  {
    hide Decide, Failing;
    if works != [] {
      WorksStayClean(s, works[..|works| - 1], now, extract);
    }
  }

  function ExtractedIn(s: Obs, t: Tick): seq<Key> {
    ResultOf(s, t, 0).extracted
  }

  /** A run in which no extraction succeeds commits nothing and moves no cursor. */
  lemma {:induction false} OnlySuccessesPersist(s: Obs, ticks: seq<Tick>)
    requires Clean(s) && forall i :: 0 <= i < |ticks| ==> RollsBack(ticks[i].extract)
    ensures Clean(AfterTicks(s, ticks))
    ensures (forall i :: 0 <= i < |ticks| ==> ExtractedIn(AfterTicks(s, ticks[..i]), ticks[i]) == []) ==>
              AfterTicks(s, ticks).committed == s.committed && AfterTicks(s, ticks).cursors == s.cursors
  {
    hide AfterWorks, Judged, Scheduled, Skipped, RollsBack;
    if ticks != [] {
      var n := |ticks| - 1;
      OnlySuccessesPersist(s, ticks[..n]);
      var start := AfterTicks(s, ticks[..n]);
      WorksStayClean(start, Scheduled(start.cursors, ticks[n].refs), ticks[n].now, ticks[n].extract);
      if forall i :: 0 <= i < |ticks| ==> ExtractedIn(AfterTicks(s, ticks[..i]), ticks[i]) == [] {
        forall i | 0 <= i < n ensures ExtractedIn(AfterTicks(s, ticks[..n][..i]), ticks[..n][i]) == [] {
          assert ticks[..n][..i] == ticks[..i];
        }
        assert ExtractedIn(start, ticks[n]) == [];
      }
    }
  }

  // ----- Backoff -----

  /** Failures of one session in a row, and when the last of them happened. */
  datatype Streak = Streak(failures: nat, last: real)

  function StreakOver(k: Streak, s: Obs, works: seq<Work>, now: real, extract: Extractor, key: Key): Streak {
    if works == [] then k
    else
      var init, w := works[..|works| - 1], works[|works| - 1];
      var before := StreakOver(k, s, init, now, extract, key);
      if w.key != key then before
      else
        match Decide(AfterWorks(s, init, now, extract), w, now, extract)
        case Extracted => Streak(0, now)
        case Failed => Streak(before.failures + 1, now)
        case Deferred => before
  }

  function StreakAfter(s: Obs, ticks: seq<Tick>, key: Key): Streak {
    if ticks == [] then Streak(0, 0.0)
    else
      var init, t := ticks[..|ticks| - 1], ticks[|ticks| - 1];
      var start := AfterTicks(s, init);
      StreakOver(StreakAfter(s, init, key), start, Scheduled(start.cursors, t.refs), t.now, t.extract, key)
  }

  predicate Recorded(entries: map<Key, Backoff>, key: Key, k: Streak) {
    if k.failures == 0 then key !in entries
    else key in entries && entries[key] == Backoff(k.failures, k.last + Delay(k.failures))
  }

  lemma {:induction false} StreakRecorded(k: Streak, s: Obs, works: seq<Work>, now: real, extract: Extractor, key: Key)
    requires Recorded(s.backoff, key, k)
    ensures Recorded(AfterWorks(s, works, now, extract).backoff, key, StreakOver(k, s, works, now, extract, key))
  {
    hide Decide, Delay;
    if works != [] { StreakRecorded(k, s, works[..|works| - 1], now, extract, key); }
  }

  /** After every run, the store holds a retry time for a session exactly when its last attempt failed,
      and then it lies the delay of that many failures in a row after the last of them. */
  lemma {:induction false} BackoffIsStreak(s: Obs, ticks: seq<Tick>, key: Key)
    requires key !in s.backoff
    ensures Recorded(AfterTicks(s, ticks).backoff, key, StreakAfter(s, ticks, key))
  {
    hide Recorded, AfterWorks, StreakOver, Scheduled;
    if ticks == [] {
      NoStreak(s.backoff, key);
    } else {
      var init, t := ticks[..|ticks| - 1], ticks[|ticks| - 1];
      BackoffIsStreak(s, init, key);
      var start := AfterTicks(s, init);
      StreakRecorded(StreakAfter(s, init, key), start, Scheduled(start.cursors, t.refs), t.now, t.extract, key);
    }
  }

  lemma NoStreak(entries: map<Key, Backoff>, key: Key)
    requires key !in entries
    ensures Recorded(entries, key, Streak(0, 0.0))
  {
  }

  lemma {:induction false} DoublingGrows(k: nat)
    requires k >= 5
    ensures Doubled(k) >= 960.0
  {
    if k > 5 { DoublingGrows(k - 1); } else {
      assert Doubled(0) == 30.0 && Doubled(1) == 60.0 && Doubled(2) == 120.0 && Doubled(3) == 240.0
             && Doubled(4) == 480.0;
    }
  }

  /** The delays: 30, 60, 120, 240 and 480 seconds, then always 900. */
  lemma DelaySchedule(n: nat)
    requires n >= 1
    ensures Delay(n) == if n == 1 then 30.0 else if n == 2 then 60.0 else if n == 3 then 120.0
                        else if n == 4 then 240.0 else if n == 5 then 480.0 else 900.0
  {
    if n >= 6 {
      DoublingGrows(n - 1);
    } else {
      assert Doubled(0) == 30.0 && Doubled(1) == 60.0 && Doubled(2) == 120.0 && Doubled(3) == 240.0
             && Doubled(4) == 480.0;
    }
  }

  /** After every run, a session is deferred exactly while less than the delay of its failures in a row
      has passed since the last of them. */
  lemma DeferredExactly(s: Obs, ticks: seq<Tick>, w: Work, now: real, extract: Extractor)
    requires w.key !in s.backoff
    ensures var k := StreakAfter(s, ticks, w.key);
            Decide(AfterTicks(s, ticks), w, now, extract) == Deferred <==>
            k.failures > 0 && now < k.last + Delay(k.failures)
  {
    hide AfterTicks, StreakAfter;
    BackoffIsStreak(s, ticks, w.key);
  }

  /** Cursor files named by session alone answer for Claude Code sessions without a file of their own,
      and for no other key. */
  lemma OlderFilesAreClaudes(saved: map<Key, nat>, older: map<string, nat>, key: Key)
    ensures key in saved ==> Load(Cursors(saved, older), key) == saved[key]
    ensures key !in saved && key.source != "claude-code" ==> Load(Cursors(saved, older), key) == 0
    ensures key !in saved && key.source == "claude-code" ==>
              Load(Cursors(saved, older), key) == if key.session in older then older[key.session] else 0
  {
  }
}
