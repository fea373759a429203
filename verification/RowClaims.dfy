/** The order in which the sections of the pane are served (`ui/companion_render.py`): rows are dealt to
    one list of claims, and each claim takes what it needs of the rows that are left. */
module RowClaims {
  import opened Rows

  datatype Claim = Claim(section: Label, need: nat)

  function Beyond(n: nat, served: nat): nat {
    if n > served then n - served else 0
  }

  /** A tall pane serves two rows each to REQUEST and NOW first; any other gives every section one row
      before any section a second. REQUEST takes all it can use, before the lower sections only when
      both primary sections wrap; NOW and ASK take at most two rows, COMMAND and DETAIL one. */
  function ClaimsOf(items: Counts, rows: int): seq<Claim> {
    if rows < 4 || (items.request == 0 && items.now == 0) then
      [Claim(Request, Min(1, items.request)), Claim(Now, Min(1, items.now)), Claim(Ask, Min(1, items.ask)),
       Claim(Command, Min(1, items.command)), Claim(Detail, Min(1, items.detail)),
       Claim(Request, Beyond(items.request, 1)), Claim(Now, Beyond(Min(2, items.now), 1)),
       Claim(Ask, Beyond(Min(2, items.ask), 1))]
    else if rows > 4 && items.request >= 2 && items.now >= 2 then
      [Claim(Request, 2), Claim(Now, 2), Claim(Request, items.request - 2), Claim(Ask, Min(1, items.ask)),
       Claim(Command, Min(1, items.command)), Claim(Detail, Min(1, items.detail)),
       Claim(Ask, Beyond(Min(2, items.ask), 1))]
    else
      [Claim(Request, Min(2, items.request)), Claim(Now, Min(2, items.now)), Claim(Ask, Min(1, items.ask)),
       Claim(Command, Min(1, items.command)), Claim(Detail, Min(1, items.detail)),
       Claim(Request, Beyond(items.request, 2)), Claim(Ask, Beyond(Min(2, items.ask), 1))]
  }

  function Served(c: Claim, d: Division): Division
    requires d.remaining >= 0
  {
    var n := Min(c.need, d.remaining);
    Division(d.counts.With(c.section, d.counts.Of(c.section) + n), d.remaining - n)
  }

  function Dealt(claims: seq<Claim>, d: Division): (r: Division)
    requires d.remaining >= 0
    ensures r.remaining >= 0
  {
    if claims == [] then d else Dealt(claims[1..], Served(claims[0], d))
  }

  lemma DealtFirst(c: Claim, claims: seq<Claim>, d: Division)
    requires d.remaining >= 0
    ensures Dealt([c] + claims, d) == Dealt(claims, Served(c, d))
  {
    assert ([c] + claims)[1..] == claims;
  }

  /** Three claims of the lower sections. */
  function LowerClaims(items: Counts): seq<Claim> {
    [Claim(Ask, Min(1, items.ask)), Claim(Command, Min(1, items.command)), Claim(Detail, Min(1, items.detail))]
  }

  lemma SeedServes(items: Counts, section: Label, d: Division)
    requires d.remaining >= 0 && d.counts.Of(section) == 0
    ensures SeedOne(items, section, d) == Served(Claim(section, Min(1, items.Of(section))), d)
  {
  }

  lemma LowerServed(items: Counts, claims: seq<Claim>, d: Division)
    requires d.remaining >= 0 && NoLower(d)
    ensures SeedLower(items, d).remaining >= 0
    ensures Dealt(LowerClaims(items) + claims, d) == Dealt(claims, SeedLower(items, d))
    ensures SeedLower(items, d).counts.request == d.counts.request && SeedLower(items, d).counts.now == d.counts.now
    ensures SeedLower(items, d).remaining == 0 || SeedLower(items, d).counts.ask == Min(1, items.ask)
  {
    var a, c, e := Claim(Ask, Min(1, items.ask)), Claim(Command, Min(1, items.command)),
      Claim(Detail, Min(1, items.detail));
    assert LowerClaims(items) + claims == [a] + ([c] + ([e] + claims));
    DealtFirst(a, [c] + ([e] + claims), d);
    SeedServes(items, Ask, d);
    DealtFirst(c, [e] + claims, Served(a, d));
    SeedServes(items, Command, Served(a, d));
    DealtFirst(e, claims, Served(c, Served(a, d)));
    SeedServes(items, Detail, Served(c, Served(a, d)));
  }

  /** A section that grows takes what is left of its share. */
  lemma GrowServes(items: Counts, section: Label, need: nat, d: Division)
    requires d.remaining >= 0 && (section == Request || section == Now || section == Ask)
    requires d.counts.Of(section) <= Capacity(items).Of(section)
    requires d.remaining == 0 || need == Capacity(items).Of(section) - d.counts.Of(section)
    ensures GrowOne(items, section, d) == Served(Claim(section, need), d)
    ensures d.counts.Of(section) > 0 || d.remaining == 0 || need == 0 ==>
              GrowSeeded(items, section, d) == Served(Claim(section, need), d)
  {
    assert d.counts.With(section, d.counts.Of(section)) == d.counts;
  }

  lemma AskLast(items: Counts, d: Division)
    requires d.remaining >= 0 && d.counts.ask <= Min(1, items.ask)
    requires d.remaining == 0 || d.counts.ask == Min(1, items.ask)
    ensures GrowSeeded(items, Ask, d) == Dealt([Claim(Ask, Beyond(Min(2, items.ask), 1))], d)
  {
    GrowServes(items, Ask, Beyond(Min(2, items.ask), 1), d);
    DealtFirst(Claim(Ask, Beyond(Min(2, items.ask), 1)), [], d);
    assert [Claim(Ask, Beyond(Min(2, items.ask), 1))] + [] == [Claim(Ask, Beyond(Min(2, items.ask), 1))];
  }

  function Pane(rows: int): Division {
    Division(NO_ROWS, if rows > 0 then rows else 0)
  }

  lemma RegularDealt(items: Counts, rows: int)
    requires !PrimaryFirst(items, rows)
    ensures Allocated(items, rows) == Dealt(ClaimsOf(items, rows), Pane(rows)).counts
  {
    hide Dealt, SeedOne, SeedLower, GrowSeeded, GrowOne, Served;
    Unfolded(items, rows);
    var d := Pane(rows);
    var r, n := Claim(Request, Min(1, items.request)), Claim(Now, Min(1, items.now));
    var r', n' := Claim(Request, Beyond(items.request, 1)), Claim(Now, Beyond(Min(2, items.now), 1));
    var a' := Claim(Ask, Beyond(Min(2, items.ask), 1));
    assert ClaimsOf(items, rows) == [r] + ([n] + (LowerClaims(items) + ([r'] + ([n'] + [a']))));
    ServedKeeps(r, d);
    DealtFirst(r, [n] + (LowerClaims(items) + ([r'] + ([n'] + [a']))), d);
    SeedServes(items, Request, d);
    var d1 := Served(r, d);
    ServedKeeps(n, d1);
    DealtFirst(n, LowerClaims(items) + ([r'] + ([n'] + [a'])), d1);
    SeedServes(items, Now, d1);
    var d2 := Served(n, d1);
    LowerServed(items, [r'] + ([n'] + [a']), d2);
    var d3 := SeedLower(items, d2);
    LowerAsk(items, d2);
    GrowServes(items, Request, r'.need, d3);
    ServedKeeps(r', d3);
    DealtFirst(r', [n'] + [a'], d3);
    var d4 := Served(r', d3);
    GrowServes(items, Now, n'.need, d4);
    ServedKeeps(n', d4);
    DealtFirst(n', [a'], d4);
    AskLast(items, Served(n', d4));
  }

  lemma ServedKeeps(c: Claim, d: Division)
    requires d.remaining >= 0
    ensures var e := Served(c, d);
            && 0 <= e.remaining <= d.remaining && e.counts == d.counts.With(c.section, e.counts.Of(c.section))
            && (e.remaining == 0 || e.counts.Of(c.section) == d.counts.Of(c.section) + c.need)
            && d.counts.Of(c.section) <= e.counts.Of(c.section) <= d.counts.Of(c.section) + c.need
  {
  }

  lemma LowerAsk(items: Counts, d: Division)
    requires d.remaining >= 0 && NoLower(d)
    ensures SeedLower(items, d).remaining <= d.remaining && SeedLower(items, d).counts.ask <= Min(1, items.ask)
  {
  }

  lemma PrimaryDealt(items: Counts, rows: int)
    requires PrimaryFirst(items, rows) && !Wrapping(items, rows)
    ensures Allocated(items, rows) == Dealt(ClaimsOf(items, rows), Pane(rows)).counts
  {
    hide Dealt, SeedOne, SeedLower, GrowSeeded, GrowOne;
    Unfolded(items, rows);
    var d := Pane(rows);
    var r, n := Claim(Request, Min(2, items.request)), Claim(Now, Min(2, items.now));
    var r', a' := Claim(Request, Beyond(items.request, 2)), Claim(Ask, Beyond(Min(2, items.ask), 1));
    assert ClaimsOf(items, rows) == [r] + ([n] + (LowerClaims(items) + ([r'] + [a'])));
    DealtFirst(r, [n] + (LowerClaims(items) + ([r'] + [a'])), d);
    DealtFirst(n, LowerClaims(items) + ([r'] + [a']), Served(r, d));
    var start := Served(n, Served(r, d));
    assert start == PrimaryStart(items, rows);
    LowerServed(items, [r'] + [a'], start);
    LowerAsk(items, start);
    var d3 := SeedLower(items, start);
    GrowServes(items, Request, r'.need, d3);
    ServedKeeps(r', d3);
    DealtFirst(r', [a'], d3);
    var d4 := Served(r', d3);
    GrowServes(items, Now, 0, d4);
    assert Served(Claim(Now, 0), d4) == d4;
    AskLast(items, d4);
  }

  lemma WrappingDealt(items: Counts, rows: int)
    requires PrimaryFirst(items, rows) && Wrapping(items, rows)
    ensures Allocated(items, rows) == Dealt(ClaimsOf(items, rows), Pane(rows)).counts
  {
    hide Dealt, SeedOne, SeedLower, GrowSeeded, GrowOne;
    Unfolded(items, rows);
    var d := Pane(rows);
    var r, n, r' := Claim(Request, 2), Claim(Now, 2), Claim(Request, items.request - 2);
    var a' := Claim(Ask, Beyond(Min(2, items.ask), 1));
    assert ClaimsOf(items, rows) == [r] + ([n] + ([r'] + (LowerClaims(items) + [a'])));
    DealtFirst(r, [n] + ([r'] + (LowerClaims(items) + [a'])), d);
    DealtFirst(n, [r'] + (LowerClaims(items) + [a']), Served(r, d));
    var start := Served(n, Served(r, d));
    assert start == PrimaryStart(items, rows);
    GrowServes(items, Request, r'.need, start);
    DealtFirst(r', LowerClaims(items) + [a'], start);
    var d3 := Served(r', start);
    GrowServes(items, Now, 0, d3);
    assert Served(Claim(Now, 0), d3) == d3;
    LowerServed(items, [a'], d3);
    LowerAsk(items, d3);
    AskLast(items, SeedLower(items, d3));
  }

  /** The rows are the claims' shares, whatever the sections hold and however tall the pane is. */
  lemma AllocatedExactly(items: Counts, rows: int)
    ensures Allocated(items, rows) == Dealt(ClaimsOf(items, rows), Pane(rows)).counts
  {
    hide Allocated, Dealt, ClaimsOf;
    if !PrimaryFirst(items, rows) {
      RegularDealt(items, rows);
    } else if Wrapping(items, rows) {
      WrappingDealt(items, rows);
    } else {
      PrimaryDealt(items, rows);
    }
  }
}
