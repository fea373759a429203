/** The loop state both reducers fold (`summary/claude_code.py`, `summary/codex.py`), how a batch
    ends, and which parts of a snapshot the end of a batch overwrites. */
module ReducerLoop {
  import opened Text
  import opened SummaryModel
  import opened OpenQuestions

  datatype Loop = Loop(snap: Snapshot, open: Open)

  function LastReason(s: Snapshot): Reason {
    if s.reasons != [] then s.reasons[|s.reasons| - 1] else UnknownSource
  }

  /** The end of a batch: publish the questions, and fail closed when the source is not trusted. */
  function Close(l: Loop, kind: Kind): Snapshot {
    var s := l.snap.(questions := Shown(l.open, kind));
    if s.integrity == Unknown then WithUnknown(s, LastReason(s)) else s
  }

  /** What the package can hand back as an initial snapshot. */
  predicate Sound(s: Snapshot) {
    (s.integrity == Unknown ==> s.reasons != []) && |s.questions.items| <= MAX_COLLECTION_ITEMS
  }

  predicate SoundInitial(initial: Option<Snapshot>) {
    initial.Some? ==> Sound(initial.value)
  }

  ghost predicate SoundLoop(l: Loop) {
    (l.snap.integrity == Unknown ==> l.snap.reasons != []) && Bounded(l.open)
  }

  /** The snapshot apart from `questions`, which only the end of a batch writes for good. */
  function Core(s: Snapshot): Snapshot {
    s.(questions := Collection([], Unknown, None, None))
  }

  /** The part of a snapshot that `with_unknown` leaves alone. */
  function Kept(s: Snapshot): (string, string, seq<Activity>, set<string>, Claim, Provenance, seq<Reason>) {
    (s.source, s.sessionKey, s.recent, s.background, s.compaction, s.integrity, s.reasons)
  }

  predicate Trusted(s: Snapshot) {
    s.integrity == Unknown ==> s.reasons != []
  }

  lemma UnknownTrusted(s: Snapshot, reason: Reason)
    ensures Trusted(WithUnknown(s, reason)) && WithUnknown(s, reason).integrity == Unknown
  {
  }

  ghost predicate AgreeUpToOrder(s: Snapshot, s': Snapshot) {
    && Core(s) == Core(s')
    && s.questions.(items := []) == s'.questions.(items := [])
    && multiset(s.questions.items) == multiset(s'.questions.items)
  }

  lemma CloseSame(l: Loop, l': Loop, kind: Kind)
    requires Core(l.snap) == Core(l'.snap) && Shown(l.open, kind) == Shown(l'.open, kind)
    ensures Close(l, kind) == Close(l', kind)
  {
    var q := Shown(l.open, kind);
    assert l.snap.(questions := q) == Core(l.snap).(questions := q);
    assert l'.snap.(questions := q) == Core(l'.snap).(questions := q);
  }

  lemma CloseSameContent(l: Loop, l': Loop, kind: Kind)
    requires Core(l.snap) == Core(l'.snap) && SameContent(l.open, l'.open)
    ensures AgreeUpToOrder(Close(l', kind), Close(l, kind))
  {
    var q, q' := Shown(l.open, kind), Shown(l'.open, kind);
    assert l.snap.(questions := q) == Core(l.snap).(questions := q);
    assert l'.snap.(questions := q') == Core(l'.snap).(questions := q');
  }

  /** Once the source is not trusted, the end of a batch shows only what `with_unknown` keeps. */
  lemma CloseKept(l: Loop, l': Loop, kind: Kind)
    requires l.snap.integrity == Unknown && l.snap.reasons != [] && Kept(l.snap) == Kept(l'.snap)
    ensures Close(l, kind) == Close(l', kind)
  {
  }
}
