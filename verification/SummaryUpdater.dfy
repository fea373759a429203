/** The incremental reducer (`summary/reducer.py`) and the tail, replace and feed step that keeps a
    companion pane's snapshot current (`ui/companion_update.py`). */
module SummaryUpdater {
  import opened Text
  import opened SummaryModel
  import opened Tail

  /** One source's transition: reduce a batch from an initial snapshot. */
  type Reduction<!E> = (seq<E>, Option<Snapshot>) -> Snapshot

  function WithMalformed(s: Snapshot, malformed: nat): Snapshot {
    if malformed > 0 then WithUnknown(s, Malformed(malformed)) else s
  }

  /** `reduce_events`: the whole history in one pass. */
  function ReduceEvents<E>(apply: Reduction<E>, events: seq<E>, malformed: nat): Snapshot {
    WithMalformed(apply(events, None), malformed)
  }

  class SummaryReducer<E> {
    const apply: Reduction<E>
    var current: Snapshot
    var malformed: nat

    constructor (apply: Reduction<E>)
      ensures this.apply == apply && current == apply([], None) && malformed == 0
    {
      this.apply := apply;
      current := apply([], None);
      malformed := 0;
    }

    /** The `snapshot` property. */
    function View(): Snapshot
      reads this
    {
      WithMalformed(current, malformed)
    }

    method Feed(batch: seq<E>, more: nat, replace: bool) returns (view: Snapshot)
      modifies this
      ensures current == apply(batch, if replace then None else Some(old(current)))
      ensures malformed == if replace then more else old(malformed) + more
      ensures view == View()
    {
      if replace {
        current := apply(batch, None);
        malformed := more;
      } else {
        current := apply(batch, Some(current));
        malformed := malformed + more;
      }
      view := View();
    }
  }

  /** What a pane remembers between ticks. */
  datatype Runtime = Runtime(cursor: nat, current: Snapshot, malformed: nat)

  /** One refresh over the file as it is now. */
  function Refreshed<E>(r: Runtime, file: seq<byte>, decode: Decoder<E>, apply: Reduction<E>): Runtime {
    var (records, offset) := ReadCompleteRecords(file, r.cursor);
    PartialIsSuffix(if |file| < r.cursor then file[0..] else file[r.cursor..]);
    var events, more := EventsOf(decode, records), MalformedOf(decode, records);
    if offset < r.cursor then Runtime(offset, apply(events, None), more)
    else Runtime(offset, apply(events, Some(r.current)), r.malformed + more)
  }

  /** A pane's tailing state; `reducer` belongs to it alone. */
  class CompanionRuntime<E> {
    const decode: Decoder<E>
    const reducer: SummaryReducer<E>
    var cursor: nat

    constructor (decode: Decoder<E>, apply: Reduction<E>)
      ensures fresh(reducer) && reducer.apply == apply && this.decode == decode
      ensures State() == Runtime(0, apply([], None), 0)
    {
      this.decode := decode;
      reducer := new SummaryReducer(apply);
      cursor := 0;
    }

    function State(): Runtime
      reads this, reducer
    {
      Runtime(cursor, reducer.current, reducer.malformed)
    }

    /** The tail, replace and feed step of `refresh_once`. */
    method Refresh(file: seq<byte>) returns (view: Snapshot)
      modifies this, reducer
      ensures State() == Refreshed(old(State()), file, decode, reducer.apply)
      ensures view == WithMalformed(reducer.current, reducer.malformed)
    {
      var prior := cursor;
      var events, offset, more := TailFrom(decode, file, prior);
      PartialIsSuffix(if |file| < prior then file[0..] else file[prior..]);
      var replace := offset < prior;
      cursor := offset;
      view := reducer.Feed(events, more, replace);
    }
  }

  // ----- Runs: the file as each tick finds it -----

  function Observed<E>(files: seq<seq<byte>>, decode: Decoder<E>, apply: Reduction<E>): Runtime {
    if files == [] then Runtime(0, apply([], None), 0)
    else Refreshed(Observed(files[..|files| - 1], decode, apply), files[|files| - 1], decode, apply)
  }

  /** What every reduction gives and keeps, the updater holds after every run of file contents. */
  lemma {:induction false} ObservedKeeps<E(!new)>(files: seq<seq<byte>>, decode: Decoder<E>, apply: Reduction<E>,
                                                  good: Snapshot -> bool)
    requires forall events, initial: Option<Snapshot> :: (initial.Some? ==> good(initial.value)) ==>
               good(apply(events, initial))
    ensures good(Observed(files, decode, apply).current)
  {
    hide ReadCompleteRecords, EventsOf, MalformedOf;
    if files != [] { ObservedKeeps(files[..|files| - 1], decode, apply, good); }
  }

  /** What the updater can see: between two ticks the file kept everything before the cursor, or
      became shorter than the cursor. A tick's cursor is the end of its file's complete lines. */
  predicate SeenChange(before: seq<byte>, now: seq<byte>) {
    var c := CompleteLength(before);
    0 <= c <= |before| && (|now| < c || now[..c] == before[..c])
  }

  predicate SeenRun(files: seq<seq<byte>>) {
    forall i :: 0 < i < |files| ==> SeenChange(files[i - 1], files[i])
  }

  function AllEvents<E>(file: seq<byte>, decode: Decoder<E>): seq<E> {
    EventsOf(decode, Records(file))
  }

  /** What `now` adds to the events of `before`. */
  function AddedEvents<E(==)>(before: seq<byte>, now: seq<byte>, decode: Decoder<E>): seq<E> {
    var past, all := AllEvents(before, decode), AllEvents(now, decode);
    if past <= all then all[|past|..] else []
  }

  /** The file as the last tick found it; before the first tick, an empty one. */
  function Last(files: seq<seq<byte>>): seq<byte> {
    if files == [] then [] else files[|files| - 1]
  }

  /** The file no longer reaches the cursor of the tick before: the updater starts over. */
  predicate Shrank(before: seq<byte>, now: seq<byte>) {
    |now| < CompleteLength(before)
  }

  /** The cursor and the malformed count are those of a full replay of `file`. */
  ghost predicate Placed<E>(r: Runtime, file: seq<byte>, decode: Decoder<E>) {
    r.cursor == CompleteLength(file) && r.malformed == MalformedOf(decode, Records(file))
  }

  /** The runtime holds exactly what a full replay of `file` holds. */
  ghost predicate Current<E>(r: Runtime, file: seq<byte>, decode: Decoder<E>, apply: Reduction<E>) {
    Placed(r, file, decode) && r.current == apply(AllEvents(file, decode), None)
  }

  lemma RecordsBeforeCursor(file: seq<byte>)
    ensures var c := CompleteLength(file);
            AtLineStart(file, c) && Records(file[..c]) == Records(file)
  {
    var c := CompleteLength(file);
    PartialIsSuffix(file);
    assert file == file[..c] + file[c..];
    RecordsConcat(file[..c], file[c..]);
    NoLineNoRecord(file[c..]);
  }

  /** One tick: a shrunk file is reduced afresh, and otherwise exactly the events added since the last
      tick are reduced into the snapshot held. */
  lemma RefreshSplits<E>(r: Runtime, before: seq<byte>, now: seq<byte>, decode: Decoder<E>, apply: Reduction<E>)
    requires Placed(r, before, decode) && SeenChange(before, now)
    ensures var r', more := Refreshed(r, now, decode, apply), AddedEvents(before, now, decode);
            && Placed(r', now, decode)
            && (Shrank(before, now) ==> r'.current == apply(AllEvents(now, decode), None))
            && (!Shrank(before, now) ==>
                  AllEvents(now, decode) == AllEvents(before, decode) + more
                    && r'.current == apply(more, Some(r.current)))
  {
    hide Records, CompleteLength, EventsOf, MalformedOf;
    if Shrank(before, now) {
      ShrinkIsTheOnlyRetreat(now, r.cursor);
    } else {
      RecordsBeforeCursor(before);
      ReadIsExact(now, r.cursor);
      var (records, offset) := ReadCompleteRecords(now, r.cursor);
      DecodeConcat(decode, Records(before), records);
      assert Records(now) == Records(before) + records;
      AddedIs(before, now, decode, EventsOf(decode, records));
    }
  }

  lemma AddedIs<E>(before: seq<byte>, now: seq<byte>, decode: Decoder<E>, events: seq<E>)
    requires AllEvents(now, decode) == AllEvents(before, decode) + events
    ensures AddedEvents(before, now, decode) == events
  {
  }

  lemma NothingYet<E>(decode: Decoder<E>, apply: Reduction<E>)
    ensures Current(Observed([], decode, apply), [], decode, apply) && AllEvents([], decode) == []
  {
  }

  /** `now` is the last tick of the run and `before` the one before it. */
  lemma LastTick<E>(files: seq<seq<byte>>, decode: Decoder<E>, apply: Reduction<E>)
    requires files != [] && SeenRun(files)
    ensures var n := |files| - 1;
            && SeenRun(files[..n]) && SeenChange(Last(files[..n]), Last(files))
            && Observed(files, decode, apply)
              == Refreshed(Observed(files[..n], decode, apply), Last(files), decode, apply)
  {
    var n := |files| - 1;
    if n > 0 { assert files[..n][n - 1] == files[n - 1]; }
  }

  /** What a fresh reduction has and every batch keeps, the updater has after every run; and its cursor
      and malformed count are always those of a full replay. */
  lemma {:induction false} RunKeeps<E(!new)>(files: seq<seq<byte>>, decode: Decoder<E>, apply: Reduction<E>,
                                             tracks: (Snapshot, seq<E>) -> bool)
    requires SeenRun(files)
    requires forall past :: tracks(apply(past, None), past)
    requires forall s, past, more :: tracks(s, past) ==> tracks(apply(more, Some(s)), past + more)
    ensures var r := Observed(files, decode, apply);
            Placed(r, Last(files), decode) && tracks(r.current, AllEvents(Last(files), decode))
  {
    hide Observed, Refreshed, Placed, Shrank, AddedEvents, AllEvents, SeenRun;
    NothingYet(decode, apply);
    if files == [] {
      assert Placed(Observed([], decode, apply), [], decode) && tracks(apply([], None), []);
    } else {
      var n := |files| - 1;
      LastTick(files, decode, apply);
      RunKeeps(files[..n], decode, apply, tracks);
      RefreshSplits(Observed(files[..n], decode, apply), Last(files[..n]), Last(files), decode, apply);
    }
  }

  /** Cutting the history of `before` is harmless for the events that `now` adds. */
  ghost predicate HarmlessCut<E>(before: seq<byte>, now: seq<byte>, decode: Decoder<E>, apply: Reduction<E>) {
    var past, more := AllEvents(before, decode), AddedEvents(before, now, decode);
    apply(more, Some(apply(past, None))) == apply(past + more, None)
  }

  /** The last tick left the updater in step with a full replay: it started over, or its batch heals
      whatever earlier cuts lost, or the updater was in step and the new cut is harmless. */
  ghost predicate InStep<E>(files: seq<seq<byte>>, decode: Decoder<E>, apply: Reduction<E>, heals: seq<E> -> bool) {
    files == []
    || (var past, now := files[..|files| - 1], Last(files);
        || Shrank(Last(past), now)
        || heals(AddedEvents(Last(past), now, decode))
        || (InStep(past, decode, apply, heals) && HarmlessCut(Last(past), now, decode, apply)))
  }

  /** After every run of appends, truncations and replacements, and whatever its earlier cuts lost, an
      updater in step holds exactly what a full replay of the current file holds. */
  lemma {:induction false} RunEqualsReplay<E(!new)>(files: seq<seq<byte>>, decode: Decoder<E>, apply: Reduction<E>,
                                                    tracks: (Snapshot, seq<E>) -> bool, heals: seq<E> -> bool)
    requires SeenRun(files) && InStep(files, decode, apply, heals)
    requires forall past :: tracks(apply(past, None), past)
    requires forall s, past, more :: tracks(s, past) ==> tracks(apply(more, Some(s)), past + more)
    requires forall s, past, more :: tracks(s, past) && heals(more) ==> apply(more, Some(s)) == apply(past + more, None)
    ensures Current(Observed(files, decode, apply), Last(files), decode, apply)
    ensures var r := Observed(files, decode, apply); View(r) == Replay(apply, Last(files), decode)
  {
    hide Observed, Refreshed, Placed, Shrank, AddedEvents, AllEvents, SeenRun;
    NothingYet(decode, apply);
    if files != [] {
      var n := |files| - 1;
      LastTick(files, decode, apply);
      RunKeeps(files[..n], decode, apply, tracks);
      var r := Observed(files[..n], decode, apply);
      RefreshSplits(r, Last(files[..n]), Last(files), decode, apply);
      var past, more := AllEvents(Last(files[..n]), decode), AddedEvents(Last(files[..n]), Last(files), decode);
      if !Shrank(Last(files[..n]), Last(files)) && !heals(more) {
        RunEqualsReplay(files[..n], decode, apply, tracks, heals);
      }
    }
    ViewIsReplay(Observed(files, decode, apply), Last(files), decode, apply);
  }

  /** What the updater shows. */
  function View(r: Runtime): Snapshot {
    WithMalformed(r.current, r.malformed)
  }

  /** A full replay of `file`, malformed lines counted. */
  function Replay<E>(apply: Reduction<E>, file: seq<byte>, decode: Decoder<E>): Snapshot {
    ReduceEvents(apply, AllEvents(file, decode), MalformedOf(decode, Records(file)))
  }

  lemma ViewIsReplay<E>(r: Runtime, file: seq<byte>, decode: Decoder<E>, apply: Reduction<E>)
    requires Current(r, file, decode, apply)
    ensures View(r) == Replay(apply, file, decode)
  {
  }
}
