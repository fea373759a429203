/** How the pane's content rows are divided among its sections (`_allocate_rows` of
    `ui/companion_render.py`). */
module Rows {
  datatype Label = Request | Now | Ask | Command | Detail

  /** One number per section: its items, or its rows. */
  datatype Counts = Counts(request: nat, now: nat, ask: nat, command: nat, detail: nat) {
    function Of(section: Label): nat {
      match section
      case Request => request
      case Now => now
      case Ask => ask
      case Command => command
      case Detail => detail
    }

    function With(section: Label, n: nat): Counts {
      match section
      case Request => this.(request := n)
      case Now => this.(now := n)
      case Ask => this.(ask := n)
      case Command => this.(command := n)
      case Detail => this.(detail := n)
    }

    function Sum(): nat {
      request + now + ask + command + detail
    }
  }

  const NO_ROWS := Counts(0, 0, 0, 0, 0)
  const ROW_ORDER := [Request, Now, Ask, Command, Detail]
  const GROWTH_ORDER := [Request, Now, Ask]

  function Min(a: int, b: int): int {
    if a < b then a else b
  }

  /** The rows a section can grow to. */
  function Cap(section: Label, items: Counts): nat {
    if section == Request then items.request else 2
  }

  datatype Division = Division(counts: Counts, remaining: int)

  /** A section with content and no row yet gets one. */
  function SeedOne(items: Counts, section: Label, d: Division): Division {
    if d.remaining <= 0 || items.Of(section) == 0 then d
    else Division(d.counts.With(section, 1), d.remaining - 1)
  }

  /** A section that has rows takes what it can of the rest. */
  function GrowOne(items: Counts, section: Label, d: Division): Division {
    if d.remaining <= 0 then d
    else
      var allowed := Min(Min(d.counts.Of(section) + d.remaining, items.Of(section)), Cap(section, items));
      Division(d.counts.With(section, allowed), d.remaining - (allowed - d.counts.Of(section)))
  }

  function Seed(items: Counts, labels: seq<Label>, lowerOnly: bool, d: Division): Division {
    if labels == [] then d
    else
      var next := if lowerOnly && (labels[0] == Request || labels[0] == Now) then d else SeedOne(items, labels[0], d);
      Seed(items, labels[1..], lowerOnly, next)
  }

  function Grow(items: Counts, labels: seq<Label>, seededOnly: bool, d: Division): Division {
    if labels == [] then d
    else
      var next := if seededOnly && d.counts.Of(labels[0]) == 0 then d else GrowOne(items, labels[0], d);
      Grow(items, labels[1..], seededOnly, next)
  }

  predicate PrimaryFirst(items: Counts, rows: int) {
    rows >= 4 && (items.request > 0 || items.now > 0)
  }

  function Allocated(items: Counts, rows: int): Counts {
    if PrimaryFirst(items, rows) then
      var counts := NO_ROWS.(request := Min(2, items.request), now := Min(2, items.now));
      var d := Division(counts, rows - counts.request - counts.now);
      var wrapping := rows > 4 && items.request >= 2 && items.now >= 2;
      var primary := if wrapping then Grow(items, [Request, Now], false, d) else d;
      var seeded := Seed(items, ROW_ORDER, true, primary);
      var spare := if wrapping then seeded else Grow(items, [Request, Now], false, seeded);
      Grow(items, [Ask], true, spare).counts
    else
      var d := Division(NO_ROWS, if rows > 0 then rows else 0);
      Grow(items, GROWTH_ORDER, true, Seed(items, ROW_ORDER, false, d)).counts
  }

  // ----- The loops -----

  lemma {:induction false} NothingLeft(items: Counts, labels: seq<Label>, flag: bool, d: Division)
    requires d.remaining <= 0
    ensures Seed(items, labels, flag, d) == d && Grow(items, labels, flag, d) == d
  {
    if labels != [] { NothingLeft(items, labels[1..], flag, d); }
  }

  method SeedRows(items: Counts, labels: seq<Label>, lowerOnly: bool, d: Division) returns (out: Division)
    ensures out == Seed(items, labels, lowerOnly, d)
  {
    out := d;
    for i := 0 to |labels|
      invariant Seed(items, labels, lowerOnly, d) == Seed(items, labels[i..], lowerOnly, out)
    {
      assert labels[i..][1..] == labels[i + 1..];
      if out.remaining <= 0 {
        NothingLeft(items, labels[i..], lowerOnly, out);
        break;
      }
      if lowerOnly && (labels[i] == Request || labels[i] == Now) { continue; }
      if items.Of(labels[i]) == 0 { continue; }
      out := Division(out.counts.With(labels[i], 1), out.remaining - 1);
    }
  }

  method GrowRows(items: Counts, labels: seq<Label>, seededOnly: bool, d: Division) returns (out: Division)
    ensures out == Grow(items, labels, seededOnly, d)
  {
    out := d;
    for i := 0 to |labels|
      invariant Grow(items, labels, seededOnly, d) == Grow(items, labels[i..], seededOnly, out)
    {
      assert labels[i..][1..] == labels[i + 1..];
      if out.remaining <= 0 {
        NothingLeft(items, labels[i..], seededOnly, out);
        break;
      }
      if seededOnly && out.counts.Of(labels[i]) == 0 { continue; }
      var section := labels[i];
      var allowed := Min(Min(out.counts.Of(section) + out.remaining, items.Of(section)), Cap(section, items));
      out := Division(out.counts.With(section, allowed), out.remaining - (allowed - out.counts.Of(section)));
    }
  }

  /** `_allocate_rows`. */
  method AllocateRows(items: Counts, rows: int) returns (counts: Counts)
    ensures counts == Allocated(items, rows)
  {
    hide Seed, Grow;
    var d: Division;
    if rows >= 4 && (items.request > 0 || items.now > 0) {
      counts := NO_ROWS.(request := Min(2, items.request), now := Min(2, items.now));
      d := Division(counts, rows - counts.request - counts.now);
      var wrapping := rows > 4 && items.request >= 2 && items.now >= 2;
      if wrapping { d := GrowRows(items, [Request, Now], false, d); }
      d := SeedRows(items, ROW_ORDER, true, d);
      if !wrapping { d := GrowRows(items, [Request, Now], false, d); }
      d := GrowRows(items, [Ask], true, d);
    } else {
      d := SeedRows(items, ROW_ORDER, false, Division(NO_ROWS, if rows > 0 then rows else 0));
      d := GrowRows(items, GROWTH_ORDER, true, d);
    }
    counts := d.counts;
  }

  // ----- The loops over their constant lists -----

  lemma SeedFirst(items: Counts, first: Label, rest: seq<Label>, lowerOnly: bool, d: Division)
    ensures Seed(items, [first] + rest, lowerOnly, d) ==
            Seed(items, rest, lowerOnly,
                 if lowerOnly && (first == Request || first == Now) then d else SeedOne(items, first, d))
  {
    hide SeedOne;
    assert ([first] + rest)[1..] == rest;
  }

  lemma GrowFirst(items: Counts, first: Label, rest: seq<Label>, seededOnly: bool, d: Division)
    ensures Grow(items, [first] + rest, seededOnly, d) ==
            Grow(items, rest, seededOnly, if seededOnly then GrowSeeded(items, first, d) else GrowOne(items, first, d))
  {
    hide GrowOne;
    assert ([first] + rest)[1..] == rest;
  }

  lemma LoopEnds(items: Counts, flag: bool, d: Division)
    ensures Seed(items, [], flag, d) == d && Grow(items, [], flag, d) == d
  {
  }

  function SeedLower(items: Counts, d: Division): Division {
    SeedOne(items, Detail, SeedOne(items, Command, SeedOne(items, Ask, d)))
  }

  function SeedPrimary(items: Counts, d: Division): Division {
    SeedOne(items, Now, SeedOne(items, Request, d))
  }

  function GrowPrimary(items: Counts, d: Division): Division {
    GrowOne(items, Now, GrowOne(items, Request, d))
  }

  lemma LowerUnfolds(items: Counts, lowerOnly: bool, d: Division)
    ensures Seed(items, [Ask, Command, Detail], lowerOnly, d) == SeedLower(items, d)
  {
    hide Seed, SeedOne;
    SeedFirst(items, Ask, [Command, Detail], lowerOnly, d);
    SeedFirst(items, Command, [Detail], lowerOnly, SeedOne(items, Ask, d));
    SeedFirst(items, Detail, [], lowerOnly, SeedOne(items, Command, SeedOne(items, Ask, d)));
    LoopEnds(items, lowerOnly, SeedLower(items, d));
    assert [Ask] + [Command, Detail] == [Ask, Command, Detail] && [Command] + [Detail] == [Command, Detail]
           && [Detail] + [] == [Detail];
  }

  lemma SeedUnfolds(items: Counts, d: Division)
    ensures Seed(items, ROW_ORDER, false, d) == SeedLower(items, SeedPrimary(items, d))
    ensures Seed(items, ROW_ORDER, true, d) == SeedLower(items, d)
  {
    hide Seed, SeedOne, SeedLower;
    var rest := [Now, Ask, Command, Detail];
    assert [Request] + rest == ROW_ORDER && [Now] + [Ask, Command, Detail] == rest;
    SeedFirst(items, Request, rest, false, d);
    SeedFirst(items, Now, [Ask, Command, Detail], false, SeedOne(items, Request, d));
    LowerUnfolds(items, false, SeedPrimary(items, d));
    SeedFirst(items, Request, rest, true, d);
    SeedFirst(items, Now, [Ask, Command, Detail], true, d);
    LowerUnfolds(items, true, d);
  }

  function GrowSeeded(items: Counts, section: Label, d: Division): Division {
    if d.counts.Of(section) == 0 then d else GrowOne(items, section, d)
  }

  lemma GrowUnfolds(items: Counts, d: Division)
    ensures Grow(items, [Request, Now], false, d) == GrowPrimary(items, d)
    ensures Grow(items, [Ask], true, d) == GrowSeeded(items, Ask, d)
    ensures Grow(items, GROWTH_ORDER, true, d)
            == GrowSeeded(items, Ask, GrowSeeded(items, Now, GrowSeeded(items, Request, d)))
  {
    hide Grow, GrowOne, GrowSeeded;
    assert [Request] + [Now] == [Request, Now] && [Now] + [] == [Now] && [Ask] + [] == [Ask];
    assert [Request] + [Now, Ask] == GROWTH_ORDER && [Now] + [Ask] == [Now, Ask];
    GrowFirst(items, Request, [Now], false, d);
    GrowFirst(items, Now, [], false, GrowOne(items, Request, d));
    LoopEnds(items, false, GrowPrimary(items, d));
    GrowFirst(items, Ask, [], true, d);
    LoopEnds(items, true, GrowSeeded(items, Ask, d));
    var r := GrowSeeded(items, Request, d);
    GrowFirst(items, Request, [Now, Ask], true, d);
    GrowFirst(items, Now, [Ask], true, r);
    GrowFirst(items, Ask, [], true, GrowSeeded(items, Now, r));
    LoopEnds(items, true, GrowSeeded(items, Ask, GrowSeeded(items, Now, r)));
  }

  predicate Wrapping(items: Counts, rows: int) {
    rows > 4 && items.request >= 2 && items.now >= 2
  }

  /** Two rows each for the primary sections, before anything else. */
  function PrimaryStart(items: Counts, rows: int): Division {
    var counts := NO_ROWS.(request := Min(2, items.request), now := Min(2, items.now));
    Division(counts, rows - counts.request - counts.now)
  }

  function BeforeAsk(items: Counts, rows: int): Division {
    if PrimaryFirst(items, rows) then
      var start := PrimaryStart(items, rows);
      if Wrapping(items, rows) then SeedLower(items, GrowPrimary(items, start))
      else GrowPrimary(items, SeedLower(items, start))
    else
      var seeded := SeedLower(items, SeedPrimary(items, Division(NO_ROWS, if rows > 0 then rows else 0)));
      GrowSeeded(items, Now, GrowSeeded(items, Request, seeded))
  }

  /** The allocation without its loops. */
  lemma Unfolded(items: Counts, rows: int)
    ensures Allocated(items, rows) == GrowSeeded(items, Ask, BeforeAsk(items, rows)).counts
  {
    hide Seed, Grow, SeedLower, SeedPrimary, GrowPrimary, GrowSeeded;
    if PrimaryFirst(items, rows) {
      var start := PrimaryStart(items, rows);
      GrowUnfolds(items, start);
      SeedUnfolds(items, if Wrapping(items, rows) then GrowPrimary(items, start) else start);
      GrowUnfolds(items, SeedLower(items, start));
      GrowUnfolds(items, BeforeAsk(items, rows));
    } else {
      var d := Division(NO_ROWS, if rows > 0 then rows else 0);
      SeedUnfolds(items, d);
      GrowUnfolds(items, SeedLower(items, SeedPrimary(items, d)));
    }
  }

  // ----- What each step keeps -----

  /** What the sections could fill together. */
  function Capacity(items: Counts): Counts {
    Counts(items.request, Min(2, items.now), Min(2, items.ask), Min(1, items.command), Min(1, items.detail))
  }

  predicate Within(counts: Counts, bound: Counts) {
    counts.request <= bound.request && counts.now <= bound.now && counts.ask <= bound.ask &&
    counts.command <= bound.command && counts.detail <= bound.detail
  }

  /** Rows given and rows left always add up to the rows there were. */
  predicate Balanced(items: Counts, total: int, d: Division) {
    d.remaining >= 0 && d.counts.Sum() + d.remaining == total && Within(d.counts, Capacity(items))
  }

  /** A section holds at least `n` of its rows, or no row is left. */
  predicate Holds(d: Division, section: Label, n: nat) {
    d.remaining == 0 || d.counts.Of(section) >= n
  }

  predicate Later(d: Division, e: Division) {
    e.remaining <= d.remaining && Within(d.counts, e.counts)
  }

  lemma SeedKeeps(items: Counts, section: Label, total: int, d: Division)
    requires Balanced(items, total, d) && d.counts.Of(section) == 0
    ensures var e := SeedOne(items, section, d);
            && Balanced(items, total, e) && Later(d, e) && Holds(e, section, Min(1, items.Of(section)))
            && e.counts == d.counts.With(section, e.counts.Of(section))
  {
  }

  lemma GrowKeeps(items: Counts, section: Label, total: int, d: Division)
    requires Balanced(items, total, d) && (section == Request || section == Now || section == Ask)
    ensures var e := GrowOne(items, section, d);
            && Balanced(items, total, e) && Later(d, e) && Holds(e, section, Capacity(items).Of(section))
            && e.counts == d.counts.With(section, e.counts.Of(section))
  {
  }

  lemma GrowSeededKeeps(items: Counts, section: Label, total: int, d: Division)
    requires Balanced(items, total, d) && (section == Request || section == Now || section == Ask)
    requires Holds(d, section, Min(1, items.Of(section)))
    ensures var e := GrowSeeded(items, section, d);
            && Balanced(items, total, e) && Later(d, e) && Holds(e, section, Capacity(items).Of(section))
            && e.counts == d.counts.With(section, e.counts.Of(section))
  {
    hide GrowOne;
    GrowKeeps(items, section, total, d);
  }

  predicate NoLower(d: Division) {
    d.counts.ask == 0 && d.counts.command == 0 && d.counts.detail == 0
  }

  lemma LowerKeeps(items: Counts, total: int, d: Division)
    requires Balanced(items, total, d) && NoLower(d)
    ensures var e := SeedLower(items, d);
            && Balanced(items, total, e) && Later(d, e)
            && Holds(e, Ask, Min(1, items.ask)) && Holds(e, Command, Min(1, items.command))
              && Holds(e, Detail, Min(1, items.detail))
            && e.counts.request == d.counts.request && e.counts.now == d.counts.now
              && (d.remaining == 0 ==> e.remaining == 0)
  {
    hide SeedOne;
    SeedKeeps(items, Ask, total, d);
    var a := SeedOne(items, Ask, d);
    SeedKeeps(items, Command, total, a);
    SeedKeeps(items, Detail, total, SeedOne(items, Command, a));
  }

  lemma PrimaryKeeps(items: Counts, total: int, d: Division)
    requires Balanced(items, total, d)
    ensures var e := GrowPrimary(items, d);
            && Balanced(items, total, e) && Later(d, e)
            && Holds(e, Request, items.request) && Holds(e, Now, Min(2, items.now))
            && e.counts.ask == d.counts.ask && e.counts.command == d.counts.command
              && e.counts.detail == d.counts.detail
  {
    hide GrowOne;
    GrowKeeps(items, Request, total, d);
    GrowKeeps(items, Now, total, GrowOne(items, Request, d));
  }

  function Total(rows: int): int {
    if rows > 0 then rows else 0
  }

  predicate Served(items: Counts, total: int, d: Division) {
    && Balanced(items, total, d)
    && Holds(d, Request, items.request) && Holds(d, Now, Min(2, items.now)) && Holds(d, Ask, Min(1, items.ask))
    && Holds(d, Command, Min(1, items.command)) && Holds(d, Detail, Min(1, items.detail))
  }

  lemma GrowThenSeed(items: Counts, total: int, d: Division)
    requires Balanced(items, total, d) && NoLower(d)
    ensures Served(items, total, SeedLower(items, GrowPrimary(items, d)))
  {
    hide SeedOne, GrowOne, SeedLower, GrowPrimary;
    PrimaryKeeps(items, total, d);
    LowerKeeps(items, total, GrowPrimary(items, d));
  }

  lemma SeedThenGrow(items: Counts, total: int, d: Division)
    requires Balanced(items, total, d) && NoLower(d)
    ensures Served(items, total, GrowPrimary(items, SeedLower(items, d)))
  {
    hide SeedOne, GrowOne, SeedLower, GrowPrimary;
    LowerKeeps(items, total, d);
    PrimaryKeeps(items, total, SeedLower(items, d));
  }

  predicate PrimarySeeded(items: Counts, total: int, d: Division) {
    && Balanced(items, total, d) && NoLower(d)
    && Holds(d, Request, Min(1, items.request)) && Holds(d, Now, Min(1, items.now))
  }

  lemma SeedPrimaryKeeps(items: Counts, total: int)
    requires Balanced(items, total, Division(NO_ROWS, total))
    ensures PrimarySeeded(items, total, SeedPrimary(items, Division(NO_ROWS, total)))
  {
    hide SeedOne, Balanced;
    var d := Division(NO_ROWS, total);
    var r := SeedOne(items, Request, d);
    SeedKeeps(items, Request, total, d);
    SeedKeeps(items, Now, total, r);
    NothingLeftStays(items, Now, total, r);
  }

  lemma NothingLeftStays(items: Counts, section: Label, total: int, d: Division)
    requires Balanced(items, total, d)
    ensures d.remaining == 0 ==> SeedOne(items, section, d).remaining == 0
  {
  }

  lemma GrowSeededPrimary(items: Counts, total: int, d: Division)
    requires Balanced(items, total, d) && Holds(d, Request, Min(1, items.request)) && Holds(d, Now, Min(1, items.now))
    requires Holds(d, Ask, Min(1, items.ask)) && Holds(d, Command, Min(1, items.command))
             && Holds(d, Detail, Min(1, items.detail))
    ensures Served(items, total, GrowSeeded(items, Now, GrowSeeded(items, Request, d)))
  {
    hide GrowSeeded;
    GrowSeededKeeps(items, Request, total, d);
    GrowSeededKeeps(items, Now, total, GrowSeeded(items, Request, d));
  }

  lemma StartsBalanced(items: Counts, rows: int)
    ensures PrimaryFirst(items, rows) ==> Balanced(items, Total(rows), PrimaryStart(items, rows))
    ensures Balanced(items, Total(rows), Division(NO_ROWS, Total(rows)))
  {
  }

  lemma ShortServes(items: Counts, total: int)
    requires Balanced(items, total, Division(NO_ROWS, total))
    ensures var s := SeedLower(items, SeedPrimary(items, Division(NO_ROWS, total)));
            Served(items, total, GrowSeeded(items, Now, GrowSeeded(items, Request, s)))
  {
    hide SeedLower, SeedPrimary, GrowSeeded, Served, Balanced;
    var d := Division(NO_ROWS, total);
    SeedPrimaryKeeps(items, total);
    LowerKeeps(items, total, SeedPrimary(items, d));
    GrowSeededPrimary(items, total, SeedLower(items, SeedPrimary(items, d)));
  }

  lemma BeforeAskServes(items: Counts, rows: int)
    ensures Served(items, Total(rows), BeforeAsk(items, rows))
  {
    hide SeedLower, GrowPrimary, SeedPrimary, GrowSeeded, Served, Balanced;
    StartsBalanced(items, rows);
    if PrimaryFirst(items, rows) {
      GrowThenSeed(items, Total(rows), PrimaryStart(items, rows));
      SeedThenGrow(items, Total(rows), PrimaryStart(items, rows));
    } else {
      ShortServes(items, Total(rows));
    }
  }

  // ----- Main results -----

  /** Each section stays within its items and its cap, and no row is wasted: together they take every
      row there is, or everything there is to show. */
  lemma NoRowWasted(items: Counts, rows: int)
    ensures Within(Allocated(items, rows), Capacity(items))
    ensures Allocated(items, rows).Sum() == Min(Total(rows), Capacity(items).Sum())
  {
    hide Allocated, BeforeAsk, GrowSeeded;
    Unfolded(items, rows);
    BeforeAskServes(items, rows);
    GrowSeededKeeps(items, Ask, Total(rows), BeforeAsk(items, rows));
  }

  /** Lower sections with content. */
  function LowerCount(items: Counts): nat {
    Min(1, items.ask) + Min(1, items.command) + Min(1, items.detail)
  }

  lemma LowerTakes(items: Counts, d: Division)
    requires d.remaining >= 0
    ensures var e := SeedLower(items, d);
            && e.remaining == d.remaining - Min(d.remaining, LowerCount(items))
            && e.counts.request == d.counts.request && e.counts.now == d.counts.now
  {
  }

  /** How many rows the two primary sections get. */
  function PrimaryRows(items: Counts, rows: int): (int, int) {
    if Wrapping(items, rows) then (Min(rows - 2, items.request), 2)
    else if PrimaryFirst(items, rows) then
      var r, n := Min(2, items.request), Min(2, items.now);
      var spare := rows - r - n - Min(rows - r - n, LowerCount(items));
      (Min(r + spare, items.request), n)
    else
      var total := Total(rows);
      var r := Min(total, Min(1, items.request));
      var n := Min(total - r, Min(1, items.now));
      var spare := total - r - n - Min(total - r - n, LowerCount(items));
      var request := if r == 0 then 0 else Min(r + spare, items.request);
      (request, if n == 0 then 0 else Min(n + (spare - (request - r)), Min(2, items.now)))
  }

  predicate HasPrimary(d: Division, r: int, n: int) {
    d.counts.request == r && d.counts.now == n
  }

  lemma WrappingRows(items: Counts, rows: int)
    requires Wrapping(items, rows)
    ensures HasPrimary(BeforeAsk(items, rows), Min(rows - 2, items.request), 2)
  {
    hide SeedLower;
    LowerTakes(items, GrowPrimary(items, PrimaryStart(items, rows)));
  }

  lemma PrimaryFirstRows(items: Counts, rows: int)
    requires PrimaryFirst(items, rows) && !Wrapping(items, rows)
    ensures HasPrimary(BeforeAsk(items, rows), PrimaryRows(items, rows).0, PrimaryRows(items, rows).1)
  {
    hide SeedLower;
    LowerTakes(items, PrimaryStart(items, rows));
  }

  lemma ShortRows(items: Counts, rows: int)
    requires !PrimaryFirst(items, rows)
    ensures HasPrimary(BeforeAsk(items, rows), PrimaryRows(items, rows).0, PrimaryRows(items, rows).1)
  {
    hide SeedLower;
    var d := SeedPrimary(items, Division(NO_ROWS, Total(rows)));
    assert d.counts.request == Min(Total(rows), Min(1, items.request));
    assert d.counts.now == Min(Total(rows) - d.counts.request, Min(1, items.now));
    LowerTakes(items, d);
  }

  lemma PrimaryRowsExact(items: Counts, rows: int)
    ensures HasPrimary(Division(Allocated(items, rows), 0), PrimaryRows(items, rows).0, PrimaryRows(items, rows).1)
  {
    hide Allocated, BeforeAsk, PrimaryRows;
    Unfolded(items, rows);
    AskLeavesPrimary(items, BeforeAsk(items, rows));
    if Wrapping(items, rows) {
      WrappingRows(items, rows);
      WrappingPrimaryRows(items, rows);
    } else if PrimaryFirst(items, rows) {
      PrimaryFirstRows(items, rows);
    } else {
      ShortRows(items, rows);
    }
  }

  lemma WrappingPrimaryRows(items: Counts, rows: int)
    requires Wrapping(items, rows)
    ensures PrimaryRows(items, rows) == (Min(rows - 2, items.request), 2)
  {
  }

  lemma AskLeavesPrimary(items: Counts, d: Division)
    ensures HasPrimary(GrowSeeded(items, Ask, d), d.counts.request, d.counts.now)
  {
  }

  /** A taller pane never shows less of the request or of the current activity, also across the
      regime changes at four and five rows. */
  lemma OneRowMore(items: Counts, rows: int)
    ensures Allocated(items, rows).request <= Allocated(items, rows + 1).request
    ensures Allocated(items, rows).now <= Allocated(items, rows + 1).now
  {
    hide Allocated;
    PrimaryRowsExact(items, rows);
    PrimaryRowsExact(items, rows + 1);
  }

  lemma {:induction false} TallerShowsNoLess(items: Counts, rows: int, taller: int)
    requires rows <= taller
    ensures Allocated(items, rows).request <= Allocated(items, taller).request
    ensures Allocated(items, rows).now <= Allocated(items, taller).now
    decreases taller - rows
  {
    hide Allocated;
    if rows < taller {
      OneRowMore(items, rows);
      TallerShowsNoLess(items, rows + 1, taller);
    }
  }
}
