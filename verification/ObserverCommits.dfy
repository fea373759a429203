/** What of an observer's run reaches the committed tables, over any run of ticks and with rollbacks that
    may fail; and that a run whose rollbacks work keeps the evidence of every memory exact. */
module ObserverCommits {
  import opened Text
  import opened Persist
  import opened Observer
  import opened ObserverSafety
  import EvidenceStore
  import EvidenceSafety

  // ----- A run of ticks as the attempts it makes -----

  datatype Attempt = Attempt(work: Work, now: real, extract: Extractor)

  function Verdict(s: Obs, a: Attempt): Verdict {
    Decide(s, a.work, a.now, a.extract)
  }

  function AfterAttempt(s: Obs, a: Attempt): Obs {
    AfterWork(s, a.work, a.now, a.extract)
  }

  function AfterAttempts(s: Obs, attempts: seq<Attempt>): Obs {
    if attempts == [] then s else AfterAttempt(AfterAttempts(s, attempts[..|attempts| - 1]), attempts[|attempts| - 1])
  }

  function AttemptsAt(works: seq<Work>, t: Tick): seq<Attempt> {
    seq(|works|, i requires 0 <= i < |works| => Attempt(works[i], t.now, t.extract))
  }

  function AttemptsOf(s: Obs, ticks: seq<Tick>): seq<Attempt> {
    if ticks == [] then []
    else
      var init, t := ticks[..|ticks| - 1], ticks[|ticks| - 1];
      AttemptsOf(s, init) + AttemptsAt(Scheduled(AfterTicks(s, init).cursors, t.refs), t)
  }

  lemma {:induction false} AttemptsConcat(s: Obs, a: seq<Attempt>, b: seq<Attempt>)
    ensures AfterAttempts(s, a + b) == AfterAttempts(AfterAttempts(s, a), b)
  {
    hide AfterAttempt;
    if b == [] {
      assert a + b == a;
    } else {
      assert (a + b)[..|a + b| - 1] == a + b[..|b| - 1];
      AttemptsConcat(s, a, b[..|b| - 1]);
    }
  }

  lemma {:induction false} WorksAreAttempts(s: Obs, works: seq<Work>, t: Tick)
    ensures AfterWorks(s, works, t.now, t.extract) == AfterAttempts(s, AttemptsAt(works, t))
  {
    hide AfterWork;
    if works != [] {
      var n := |works| - 1;
      WorksAreAttempts(s, works[..n], t);
      assert AttemptsAt(works, t)[..n] == AttemptsAt(works[..n], t);
    }
  }

  /** A run of ticks is the run of the attempts it makes. */
  lemma {:induction false} TicksAreAttempts(s: Obs, ticks: seq<Tick>)
    ensures AfterTicks(s, ticks) == AfterAttempts(s, AttemptsOf(s, ticks))
  {
    hide AfterWorks, AfterAttempt, Scheduled;
    if ticks != [] {
      var init, t := ticks[..|ticks| - 1], ticks[|ticks| - 1];
      TicksAreAttempts(s, init);
      var works := Scheduled(AfterTicks(s, init).cursors, t.refs);
      WorksAreAttempts(AfterTicks(s, init), works, t);
      AttemptsConcat(s, AttemptsOf(s, init), AttemptsAt(works, t));
    }
  }

  // ----- Which attempts' writes are committed -----

  function Before(s: Obs, attempts: seq<Attempt>, i: nat): Obs
    requires i <= |attempts|
  {
    AfterAttempts(s, attempts[..i])
  }

  function VerdictOf(s: Obs, attempts: seq<Attempt>, i: nat): Verdict
    requires i < |attempts|
  {
    Verdict(Before(s, attempts, i), attempts[i])
  }

  function EffectOf(s: Obs, attempts: seq<Attempt>, i: nat): Effect
    requires i < |attempts|
  {
    attempts[i].extract(attempts[i].work, Before(s, attempts, i).working)
  }

  predicate Succeeded(s: Obs, attempts: seq<Attempt>, i: nat) {
    i < |attempts| && VerdictOf(s, attempts, i) == Extracted
  }

  /** It failed, and so did the rollback: what it wrote stays pending. */
  predicate Lingers(s: Obs, attempts: seq<Attempt>, i: nat) {
    i < |attempts| && VerdictOf(s, attempts, i) == Failed && EffectOf(s, attempts, i).rollbackFails
  }

  /** It commits whatever was pending before it. */
  predicate Flushes(s: Obs, attempts: seq<Attempt>, i: nat) {
    && i < |attempts|
    && (Succeeded(s, attempts, i) || (VerdictOf(s, attempts, i) == Failed && EffectOf(s, attempts, i).committedFirst))
  }

  /** It neither commits nor discards what was pending before it. */
  predicate LeavesPending(s: Obs, attempts: seq<Attempt>, i: nat) {
    i < |attempts| && !Flushes(s, attempts, i) && (Lingers(s, attempts, i) || VerdictOf(s, attempts, i) == Deferred)
  }

  /** What attempt `i` wrote is still pending before attempt `j`. */
  predicate PendingUntil(s: Obs, attempts: seq<Attempt>, i: nat, j: nat) {
    Lingers(s, attempts, i) && i < j && forall m: nat :: i < m < j ==> LeavesPending(s, attempts, m)
  }

  /** It succeeded; or its failed rollback left it pending until a later attempt committed first. */
  predicate Reaches(s: Obs, attempts: seq<Attempt>, i: nat) {
    Succeeded(s, attempts, i) || exists j ::
        i < j < |attempts| && PendingUntil(s, attempts, i, j) && Flushes(s, attempts, j)
  }

  /** The attempts whose writes the committed and the pending tables hold. */
  datatype Logs = Logs(committed: seq<nat>, working: seq<nat>)

  function LogsOf(s: Obs, attempts: seq<Attempt>): Logs {
    if attempts == [] then Logs([], [])
    else
      var n := |attempts| - 1;
      var logs, e := LogsOf(s, attempts[..n]), EffectOf(s, attempts, n);
      match VerdictOf(s, attempts, n)
      case Deferred => logs
      case Failed =>
        var committed := if e.committedFirst then logs.working else logs.committed;
        Logs(committed, if e.rollbackFails then logs.working + [n] else committed)
      case Extracted => Logs(logs.working + [n], logs.working + [n])
  }

  predicate Ascending(log: seq<nat>, n: nat) {
    && (forall i :: 0 <= i < |log| ==> log[i] < n)
    && (forall i, j :: 0 <= i < j < |log| ==> log[i] < log[j])
  }

  lemma {:induction false} LogsAscend(s: Obs, attempts: seq<Attempt>)
    ensures Ascending(LogsOf(s, attempts).committed, |attempts|) && Ascending(LogsOf(s, attempts).working, |attempts|)
  {
    hide VerdictOf, EffectOf;
    if attempts != [] { LogsAscend(s, attempts[..|attempts| - 1]); }
  }

  /** The tables that the attempts of a log make of `store`, one after the other. */
  function Written(store: Store, attempts: seq<Attempt>, log: seq<nat>): Store
    requires Ascending(log, |attempts|)
  {
    if log == [] then store
    else
      var a := attempts[log[|log| - 1]];
      a.extract(a.work, Written(store, attempts, log[..|log| - 1])).pending
  }

  lemma {:induction false} WrittenEarlier(store: Store, attempts: seq<Attempt>, n: nat, log: seq<nat>)
    requires n <= |attempts| && Ascending(log, n)
    ensures Written(store, attempts, log) == Written(store, attempts[..n], log)
  {
    if log != [] { WrittenEarlier(store, attempts, n, log[..|log| - 1]); }
  }

  lemma WrittenNext(store: Store, attempts: seq<Attempt>, log: seq<nat>)
    requires attempts != [] && Ascending(log, |attempts| - 1)
    ensures var n := |attempts| - 1;
            && Written(store, attempts, log) == Written(store, attempts[..n], log)
            && Ascending(log + [n], |attempts|)
            && Written(store, attempts, log + [n])
              == attempts[n].extract(attempts[n].work, Written(store, attempts[..n], log)).pending
  {
    var n := |attempts| - 1;
    WrittenEarlier(store, attempts, n, log);
    assert (log + [n])[..|log|] == log;
  }

  lemma {:induction false} LogsTell(s: Obs, attempts: seq<Attempt>)
    requires Clean(s)
    ensures var logs, end := LogsOf(s, attempts), AfterAttempts(s, attempts);
            && Ascending(logs.committed, |attempts|) && Ascending(logs.working, |attempts|)
            && end.committed == Written(s.committed, attempts, logs.committed)
            && end.working == Written(s.committed, attempts, logs.working)
  {
    hide Written, Ascending, Failing;
    LogsAscend(s, attempts);
    if attempts == [] {
      NothingWritten(s.committed);
    } else {
      var n := |attempts| - 1;
      var logs := LogsOf(s, attempts[..n]);
      LogsTell(s, attempts[..n]);
      WrittenNext(s.committed, attempts, logs.committed);
      WrittenNext(s.committed, attempts, logs.working);
    }
  }

  lemma NothingWritten(store: Store)
    ensures Ascending([], 0) && Written(store, [], []) == store
  {
  }

  lemma EarlierSame(s: Obs, attempts: seq<Attempt>, n: nat, i: nat)
    requires i < n <= |attempts|
    ensures VerdictOf(s, attempts[..n], i) == VerdictOf(s, attempts, i)
            && EffectOf(s, attempts[..n], i) == EffectOf(s, attempts, i)
  {
    assert attempts[..n][..i] == attempts[..i];
  }

  lemma PendingUntilSame(s: Obs, attempts: seq<Attempt>, n: nat, i: nat, j: nat)
    requires n <= |attempts| && j <= n
    ensures PendingUntil(s, attempts[..n], i, j) <==> PendingUntil(s, attempts, i, j)
    ensures j < n ==>
              Flushes(s, attempts[..n], j) == Flushes(s, attempts, j)
                && Succeeded(s, attempts[..n], j) == Succeeded(s, attempts, j)
  {
    hide VerdictOf, EffectOf;
    forall m: nat | m < n
      ensures VerdictOf(s, attempts[..n], m) == VerdictOf(s, attempts, m)
              && EffectOf(s, attempts[..n], m) == EffectOf(s, attempts, m)
    {
      EarlierSame(s, attempts, n, m);
    }
    if i < j {
      assert Lingers(s, attempts[..n], i) == Lingers(s, attempts, i);
      assert forall m: nat :: i < m < j ==> LeavesPending(s, attempts[..n], m) == LeavesPending(s, attempts, m);
    }
  }

  lemma ReachesGrows(s: Obs, attempts: seq<Attempt>, i: nat)
    requires attempts != []
    ensures var n := |attempts| - 1;
            Reaches(s, attempts, i) <==>
              Reaches(s, attempts[..n], i) || (i == n && Succeeded(s, attempts, n))
              || (i < n && PendingUntil(s, attempts, i, n) && Flushes(s, attempts, n))
  {
    hide PendingUntil, Flushes;
    var n := |attempts| - 1;
    if i < n { PendingUntilSame(s, attempts, n, i, i); }
    forall j: nat | j < n
      ensures PendingUntil(s, attempts[..n], i, j) == PendingUntil(s, attempts, i, j)
      ensures Flushes(s, attempts[..n], j) == Flushes(s, attempts, j)
    {
      PendingUntilSame(s, attempts, n, i, j);
    }
  }

  /** Over any run, an attempt's writes are committed exactly if it succeeded, or its rollback failed
      and the first later attempt to settle what was pending committed it. They are pending exactly if
      they are committed, or their rollback failed and nothing has settled them yet. */
  lemma {:induction false} LogsExactly(s: Obs, attempts: seq<Attempt>, i: nat)
    ensures i in LogsOf(s, attempts).committed <==> Reaches(s, attempts, i)
    ensures i in LogsOf(s, attempts).working <==> Reaches(s, attempts, i) || PendingUntil(s, attempts, i, |attempts|)
  {
    hide VerdictOf, EffectOf, Reaches, PendingUntil;
    if attempts == [] {
      NothingReaches(s, i);
    } else {
      var n := |attempts| - 1;
      LogsExactly(s, attempts[..n], i);
      ReachesGrows(s, attempts, i);
      PendingUntilSame(s, attempts, n, i, n);
      PendingGrows(s, attempts, i);
      LogsAscend(s, attempts[..n]);
      LogsStep(s, attempts, i);
    }
  }

  lemma NothingReaches(s: Obs, i: nat)
    ensures !Reaches(s, [], i) && !PendingUntil(s, [], i, 0)
  {
  }

  lemma PendingGrows(s: Obs, attempts: seq<Attempt>, i: nat)
    requires attempts != []
    ensures var n := |attempts| - 1;
            PendingUntil(s, attempts, i, n + 1) <==>
              (i == n && Lingers(s, attempts, n)) || (PendingUntil(s, attempts, i, n) && LeavesPending(s, attempts, n))
  {
    hide Lingers, LeavesPending;
  }

  /** Membership after one more attempt. */
  lemma LogsStep(s: Obs, attempts: seq<Attempt>, i: nat)
    requires attempts != []
    ensures var n := |attempts| - 1;
            var was, logs := LogsOf(s, attempts[..n]), LogsOf(s, attempts);
            && (i in logs.committed <==>
                  (i in (if Flushes(s, attempts, n) then was.working else was.committed))
                    || (i == n && Succeeded(s, attempts, n)))
            && (i in logs.working <==>
                  i in logs.committed || (i == n && Lingers(s, attempts, n))
                  || (i in was.working && (Flushes(s, attempts, n) || LeavesPending(s, attempts, n))))
  {
    hide VerdictOf, EffectOf;
  }

  /** After every run of ticks from a clean store the committed tables are the initial ones with the
      writes of exactly the attempts that reach them, one after the other. */
  lemma CommittedExactly(s: Obs, ticks: seq<Tick>)
    requires Clean(s)
    ensures var attempts := AttemptsOf(s, ticks);
            var log := LogsOf(s, attempts).committed;
            && Ascending(log, |attempts|) && AfterTicks(s, ticks).committed == Written(s.committed, attempts, log)
            && forall i: nat :: i in log <==> Reaches(s, attempts, i)
  {
    hide Written, Ascending, LogsOf, Reaches, AttemptsOf, AfterAttempts;
    var attempts := AttemptsOf(s, ticks);
    TicksAreAttempts(s, ticks);
    LogsTell(s, attempts);
    forall i: nat ensures i in LogsOf(s, attempts).committed <==> Reaches(s, attempts, i) {
      LogsExactly(s, attempts, i);
    }
  }

  // ----- When rollbacks work -----

  ghost predicate AllRollBack(attempts: seq<Attempt>) {
    forall i :: 0 <= i < |attempts| ==> RollsBack(attempts[i].extract)
  }

  lemma {:induction false} AttemptsStayClean(s: Obs, attempts: seq<Attempt>)
    requires Clean(s) && AllRollBack(attempts)
    ensures Clean(AfterAttempts(s, attempts))
  {
    hide Failing;
    if attempts != [] { AttemptsStayClean(s, attempts[..|attempts| - 1]); }
  }

  /** While rollbacks work, each attempt of any run that is deferred or fails leaves the committed tables
      and the cursors as they were and nothing pending, whatever else the run does; and the committed
      tables hold the writes of exactly the attempts that succeeded. */
  lemma FailureChangesNothing(s: Obs, attempts: seq<Attempt>, i: nat)
    requires Clean(s) && AllRollBack(attempts) && i < |attempts|
    ensures var before, after := Before(s, attempts, i), Before(s, attempts, i + 1);
            !Succeeded(s, attempts, i) ==>
                after.committed == before.committed && after.cursors == before.cursors && Clean(after)
    ensures i in LogsOf(s, attempts).committed <==> Succeeded(s, attempts, i)
  {
    hide LogsOf, Failing;
    assert attempts[..i + 1][..i] == attempts[..i];
    AttemptsStayClean(s, attempts[..i]);
    LogsExactly(s, attempts, i);
    assert RollsBack(attempts[i].extract);
  }

  // ----- The rollback rule of the memory tables -----

  /** What an extraction may do to the tables: raise before it writes, or route one pass; it raises when
      a claim does not ground, and its rollback works. */
  ghost predicate RoutesOnePass(e: Effect, store: Store) {
    && !e.rollbackFails
    && ((e.raised && e.pending == store)
        || exists pass, x ::
            e.pending == Persisted(store, pass, x).0 && (Persisted(store, pass, x).1.None? ==> e.raised))
  }

  ghost predicate Routes(extract: Extractor) {
    forall w, store :: RoutesOnePass(extract(w, store), store)
  }

  const START := EvidenceStore.Conn(EvidenceStore.EMPTY_DB, EvidenceStore.EMPTY_DB)

  /** The commands bring a fresh connection to the daemon's tables by the rollback rule, and end with
      nothing pending. */
  ghost predicate Led(commands: seq<EvidenceStore.Command>, s: Obs) {
    && EvidenceSafety.RollsBack(commands) && !EndsRaised(commands)
    && EvidenceStore.AfterAll(START, commands) == EvidenceStore.Conn(s.committed.db, s.working.db)
    && Clean(s)
  }

  /** A daemon on a fresh store starts that way. */
  lemma FreshIsLed(state: seq<StateRow>, cursors: Cursors, backoff: map<Key, Backoff>)
    ensures var store := Store(state, EvidenceStore.EMPTY_DB); Led([], Obs(store, store, cursors, backoff))
  {
  }

  predicate EndsRaised(commands: seq<EvidenceStore.Command>) {
    var n := |commands| - 1;
    commands != [] && EvidenceSafety.Raised(EvidenceSafety.AuditedAll(commands[..n]).conn, commands[n])
  }

  /** One more command keeps the rule if the last one did not raise, or it is the rollback. */
  lemma RuleExtends(commands: seq<EvidenceStore.Command>, next: EvidenceStore.Command)
    requires EvidenceSafety.RollsBack(commands) && (EndsRaised(commands) ==> next == EvidenceStore.Rollback)
    ensures EvidenceSafety.RollsBack(commands + [next])
    ensures EvidenceStore.AfterAll(START, commands + [next])
            == EvidenceStore.After(EvidenceStore.AfterAll(START, commands), next)
    ensures EndsRaised(commands + [next]) <==> EvidenceSafety.Raised(EvidenceStore.AfterAll(START, commands), next)
  {
    hide EvidenceSafety.Raised, EvidenceStore.After, EvidenceSafety.Audited;
    var all, n := commands + [next], |commands|;
    assert all[..n] == commands;
    EvidenceSafety.EvidenceExactness(commands);
    forall k | 0 <= k < n && EvidenceSafety.Raised(EvidenceSafety.AuditedAll(all[..k]).conn, all[k])
      ensures all[k + 1] == EvidenceStore.Rollback
    {
      assert all[..k] == commands[..k] && all[k] == commands[k];
      if k == n - 1 { assert EndsRaised(commands); }
    }
  }

  /** Admitting claims one by one until one is refused follows the rule, up to the rollback that is due
      then. */
  lemma {:induction false} AdmissionsFollowRule(commands: seq<EvidenceStore.Command>,
                                                claims: seq<EvidenceStore.Decision>, cap: int -> int)
    returns (all: seq<EvidenceStore.Command>)
    requires EvidenceSafety.RollsBack(commands) && !EndsRaised(commands)
    ensures EvidenceSafety.RollsBack(all)
    ensures var c := EvidenceStore.AfterAll(START, commands);
            EvidenceStore.AfterAll(START, all) == c.(working := AdmitAll(c.working, claims, cap).0)
    ensures EndsRaised(all) <==> AdmitAll(EvidenceStore.AfterAll(START, commands).working, claims, cap).1.None?
  {
    hide EvidenceSafety.RollsBack, EndsRaised, EvidenceStore.Admitted;
    if claims == [] {
      all := commands;
    } else {
      var init, last := claims[..|claims| - 1], claims[|claims| - 1];
      all := AdmissionsFollowRule(commands, init, cap);
      if !EndsRaised(all) {
        RuleExtends(all, EvidenceStore.Admit(last, cap));
        AdmitRaises(EvidenceStore.AfterAll(START, all), last, cap);
        all := all + [EvidenceStore.Admit(last, cap)];
      }
    }
  }

  lemma AdmitRaises(c: EvidenceStore.Conn, d: EvidenceStore.Decision, cap: int -> int)
    ensures EvidenceSafety.Raised(c, EvidenceStore.Admit(d, cap)) <==> EvidenceStore.Admitted(c.working, d, cap).1.None?
    ensures EvidenceStore.After(c, EvidenceStore.Admit(d, cap))
            == c.(working := EvidenceStore.Admitted(c.working, d, cap).0)
  {
  }

  /** A settled run can commit: no evidence row lacks its memory. */
  lemma SettledCommits(commands: seq<EvidenceStore.Command>)
    requires EvidenceSafety.RollsBack(commands) && !EndsRaised(commands)
    ensures var c := EvidenceStore.AfterAll(START, commands);
            EvidenceStore.After(c, EvidenceStore.Commit) == EvidenceStore.Conn(c.working, c.working)
  {
    hide EvidenceSafety.RollsBack, EvidenceSafety.Raised, EvidenceSafety.AuditedAll, EvidenceStore.AfterAll,
         EvidenceSafety.Sane;
    EvidenceSafety.EvidenceExactness(commands);
  }

  /** Every attempt of the daemon is a stretch of commands under the rule. */
  lemma AttemptFollowsRule(commands: seq<EvidenceStore.Command>, s: Obs, a: Attempt)
    returns (all: seq<EvidenceStore.Command>)
    requires Led(commands, s) && Routes(a.extract)
    ensures Led(all, AfterAttempt(s, a))
  {
    hide EvidenceSafety.RollsBack, EndsRaised, EvidenceStore.AfterAll, AdmitAll, Failing;
    var e := a.extract(a.work, s.working);
    all := commands;
    assert RoutesOnePass(e, s.working);
    if Verdict(s, a) != Deferred {
      if e.raised && e.pending == s.working {
      } else {
        var pass, x :| e.pending == Persisted(s.working, pass, x).0
          && (Persisted(s.working, pass, x).1.None? ==> e.raised);
        all := AdmissionsFollowRule(commands, Claims(pass, x), pass.cap);
      }
      var end := if e.raised then EvidenceStore.Rollback else EvidenceStore.Commit;
      if !e.raised { SettledCommits(all); }
      RuleExtends(all, end);
      all := all + [end];
    }
  }

  lemma {:induction false} AttemptsFollowRule(commands: seq<EvidenceStore.Command>, s: Obs, attempts: seq<Attempt>)
    returns (all: seq<EvidenceStore.Command>)
    requires Led(commands, s) && forall i :: 0 <= i < |attempts| ==> Routes(attempts[i].extract)
    ensures Led(all, AfterAttempts(s, attempts))
  {
    hide Led, AfterAttempt, Routes;
    if attempts == [] {
      all := commands;
    } else {
      all := AttemptsFollowRule(commands, s, attempts[..|attempts| - 1]);
      all := AttemptFollowsRule(all, AfterAttempts(s, attempts[..|attempts| - 1]), attempts[|attempts| - 1]);
    }
  }

  /** The daemon keeps the rollback rule by itself: from tables reached under it, every run of ticks whose
      extractions route passes ends in tables where each memory is linked to exactly the anchors of its
      own write. */
  lemma DaemonKeepsEvidenceExact(commands: seq<EvidenceStore.Command>, s: Obs, ticks: seq<Tick>)
    returns (all: seq<EvidenceStore.Command>)
    requires Led(commands, s) && forall i :: 0 <= i < |ticks| ==> Routes(ticks[i].extract)
    ensures Led(all, AfterTicks(s, ticks))
    ensures EvidenceSafety.Exact(AfterTicks(s, ticks).committed.db, EvidenceSafety.AuditedAll(all).saved)
  {
    hide Led, AfterTicks, AfterAttempts, Routes, EvidenceSafety.Exact;
    TicksAreAttempts(s, ticks);
    AttemptsRoute(s, ticks);
    all := AttemptsFollowRule(commands, s, AttemptsOf(s, ticks));
    LedExact(all, AfterTicks(s, ticks));
  }

  lemma {:induction false} AttemptsRoute(s: Obs, ticks: seq<Tick>)
    requires forall i :: 0 <= i < |ticks| ==> Routes(ticks[i].extract)
    ensures forall i :: 0 <= i < |AttemptsOf(s, ticks)| ==> Routes(AttemptsOf(s, ticks)[i].extract)
  {
    hide Routes, AfterTicks, Scheduled;
    if ticks != [] { AttemptsRoute(s, ticks[..|ticks| - 1]); }
  }

  lemma LedExact(commands: seq<EvidenceStore.Command>, s: Obs)
    requires Led(commands, s)
    ensures EvidenceSafety.Exact(s.committed.db, EvidenceSafety.AuditedAll(commands).saved)
  {
    hide EvidenceSafety.RollsBack, EvidenceSafety.Exact;
    EvidenceSafety.EvidenceExactness(commands);
  }
}
