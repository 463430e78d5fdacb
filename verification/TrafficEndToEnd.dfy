/** From minutes to the chart of the last day: what the grand total shows when the hours of
    the window have been rolled up. */
module TrafficEndToEnd {
  import opened Text
  import opened TrafficRollup
  import opened TrafficAnalysis

  predicate Wanted(g: Group, deviceID: string) { g.resource == "iface" && TagMatches(g.tag, deviceID) }

  /** The bytes of the rows that a filter accepts. */
  function SumIf(t: Table, f: Row -> bool): int {
    if t == [] then 0 else (if f(t[0]) then t[0].bytes else 0) + SumIf(t[1..], f)
  }

  function SumGroups(t: Table, f: Row -> bool, gs: seq<Group>): int {
    if gs == [] then 0 else SumIf(t, (r: Row) => f(r) && r.group == gs[0]) + SumGroups(t, f, gs[1..])
  }

  ghost predicate Distinct(gs: seq<Group>) {
    forall i, j :: 0 <= i < j < |gs| ==> gs[i] != gs[j]
  }

  // ---- groups --------------------------------------------------------------------

  lemma {:induction false} NoRows(f: Row -> bool, gs: seq<Group>)
    ensures SumGroups([], f, gs) == 0
  {
    if gs != [] { NoRows(f, gs[1..]); }
  }

  lemma {:induction false} FirstRow(t: Table, f: Row -> bool, gs: seq<Group>)
    requires t != [] && Distinct(gs)
    ensures SumGroups(t, f, gs) ==
              (if f(t[0]) && t[0].group in gs then t[0].bytes else 0) + SumGroups(t[1..], f, gs)
    decreases gs
  {
    if gs != [] {
      FirstRow(t, f, gs[1..]);
      assert gs == [gs[0]] + gs[1..];
    }
  }

  /** A sum over rows is the sum of its parts by group. */
  lemma {:induction false} ByGroup(t: Table, f: Row -> bool, gs: seq<Group>)
    requires Distinct(gs) && forall i :: 0 <= i < |t| && f(t[i]) ==> t[i].group in gs
    ensures SumIf(t, f) == SumGroups(t, f, gs)
  {
    if t == [] {
      NoRows(f, gs);
    } else {
      ByGroup(t[1..], f, gs);
      FirstRow(t, f, gs);
    }
  }

  lemma {:induction false} SameFilter(t: Table, f: Row -> bool, g: Row -> bool)
    requires forall i :: 0 <= i < |t| ==> f(t[i]) == g(t[i])
    ensures SumIf(t, f) == SumIf(t, g)
  {
    if t != [] { SameFilter(t[1..], f, g); }
  }

  /** The distinct wanted groups of some rows. */
  function WantedGroups(t: Table, deviceID: string): (gs: seq<Group>)
    ensures Distinct(gs) && forall g :: g in gs ==> Wanted(g, deviceID)
    ensures forall i :: 0 <= i < |t| && Wanted(t[i].group, deviceID) ==> t[i].group in gs
  {
    hide Wanted;
    if t == [] then []
    else
      var rest := WantedGroups(t[1..], deviceID);
      assert forall i :: 1 <= i < |t| ==> t[i] == t[1..][i - 1];
      if Wanted(t[0].group, deviceID) && t[0].group !in rest then [t[0].group] + rest else rest
  }

  // ---- the sums of the tables, as sums over rows ------------------------------------

  lemma {:induction false} LastRow(t: Table, r: Row, f: Row -> bool)
    ensures SumIf(t + [r], f) == SumIf(t, f) + if f(r) then r.bytes else 0
  {
    if t == [] {
      assert [] + [r] == [r] && [r][1..] == [];
    } else {
      LastRow(t[1..], r, f);
      assert (t + [r])[1..] == t[1..] + [r];
    }
  }

  predicate Fetchable(r: Row, s: int, e: int, deviceID: string) { s <= r.period <= e && Wanted(r.group, deviceID) }

  lemma FetchLast(t: Table, r: Row, s: int, e: int, deviceID: string)
    ensures BytesOf(Fetch(t + [r], s, e, deviceID)) ==
              BytesOf(Fetch(t, s, e, deviceID)) + if Fetchable(r, s, e, deviceID) then r.bytes else 0
  {
    assert (t + [r])[..|t|] == t;
    hide TagMatches;
    var f := Fetch(t, s, e, deviceID);
    assert (f + [r])[..|f|] == f && f + [] == f;
  }

  lemma {:induction false} FetchIsSumIf(t: Table, s: int, e: int, deviceID: string)
    ensures BytesOf(Fetch(t, s, e, deviceID)) == SumIf(t, (r: Row) => Fetchable(r, s, e, deviceID))
  {
    if t == [] {
      NothingFetched(s, e, deviceID);
    } else {
      hide Fetch, BytesOf, SumIf, Fetchable, Wanted, TagMatches;
      var init, last := t[..|t| - 1], t[|t| - 1];
      assert t == init + [last];
      FetchIsSumIf(init, s, e, deviceID);
      FetchLast(init, last, s, e, deviceID);
      LastRow(init, last, (r: Row) => Fetchable(r, s, e, deviceID));
    }
  }

  lemma NothingFetched(s: int, e: int, deviceID: string)
    ensures BytesOf(Fetch([], s, e, deviceID)) == 0
  {}

  lemma {:induction false} SumIsSumIf(t: Table, s: int, e: int, g: Group, deviceID: string)
    requires Wanted(g, deviceID)
    ensures SumIf(t, (r: Row) => Fetchable(r, s, e, deviceID) && r.group == g) == Sum(t, s, e + 1, g)
  {
    hide Wanted;
    if t != [] { SumIsSumIf(t[1..], s, e, g, deviceID); }
  }

  // ---- one group -----------------------------------------------------------------------

  /** An hour row of the window that no roll-up of the 24 past hours replaces: one without
      minutes behind it, or one of the current hour. */
  predicate Leftover(r: Row, minute: Table, since: int, now: int) {
    since <= r.period <= now && !IsReplaced(minute, since, 24, r.period, r.group)
  }

  predicate LeftoverOf(r: Row, minute: Table, since: int, now: int, deviceID: string) {
    Leftover(r, minute, since, now) && Wanted(r.group, deviceID)
  }

  lemma {:induction false} LaterSum(minute: Table, hour: Table, day: int, n: nat, e: int, g: Group)
    requires n <= 24
    ensures Sum(RollHours(minute, hour, day, n), day + DAY, e, g) == Sum(hour, day + DAY, e, g)
  {
    if n > 0 {
      LaterSum(minute, hour, day, n - 1, e, g);
      RollupSum(minute, RollHours(minute, hour, day, n - 1), day + (n - 1) * HOUR, day + n * HOUR, day + DAY, e, g);
    }
  }

  lemma {:induction false} LeftoverSum(hour: Table, minute: Table, since: int, now: int, g: Group, deviceID: string)
    requires since + DAY <= now + 1 && Wanted(g, deviceID)
    ensures SumIf(hour, (r: Row) => LeftoverOf(r, minute, since, now, deviceID) && r.group == g) ==
              StaleSum(hour, minute, since, 24, g) + Sum(hour, since + DAY, now + 1, g)
  {
    hide Wanted, IsReplaced;
    if hour != [] {
      LeftoverSum(hour[1..], minute, since, now, g, deviceID);
      ReplacedBefore(minute, since, 24, hour[0].period, g);
    }
  }

  /** What the chart shows of one group. */
  lemma OneGroup(minute: Table, hour: Table, since: int, now: int, g: Group, deviceID: string)
    requires Unique(hour) && since + DAY <= now + 1 && Wanted(g, deviceID)
    ensures Sum(RollHours(minute, hour, since, 24), since, now + 1, g) + Sum(minute, since + DAY, now + 1, g) ==
              Sum(minute, since, now + 1, g)
              + SumIf(hour, (r: Row) => LeftoverOf(r, minute, since, now, deviceID) && r.group == g)
  {
    hide Wanted, LeftoverOf;
    var rolled := RollHours(minute, hour, since, 24);
    SumSplit(rolled, since, since + DAY, now + 1, g);
    SumSplit(minute, since, since + DAY, now + 1, g);
    SumOfHours(minute, hour, since, 24, g);
    StaleOrReplaced(hour, minute, since, 24, g);
    LaterSum(minute, hour, since, 24, now + 1, g);
    LeftoverSum(hour, minute, since, now, g, deviceID);
  }

  lemma {:induction false} GroupsAddUp(
      minute: Table, hour: Table, since: int, now: int, deviceID: string, gs: seq<Group>)
    requires Unique(hour) && since + DAY <= now + 1 && forall g :: g in gs ==> Wanted(g, deviceID)
    ensures SumGroups(RollHours(minute, hour, since, 24), (r: Row) => Fetchable(r, since, now, deviceID), gs)
            + SumGroups(minute, (r: Row) => Fetchable(r, since + DAY, now, deviceID), gs) ==
              SumGroups(minute, (r: Row) => Fetchable(r, since, now, deviceID), gs)
              + SumGroups(hour, (r: Row) => LeftoverOf(r, minute, since, now, deviceID), gs)
    decreases gs
  {
    hide Wanted, RollHours, LeftoverOf;
    if gs != [] {
      var g := gs[0];
      GroupsAddUp(minute, hour, since, now, deviceID, gs[1..]);
      OneGroup(minute, hour, since, now, g, deviceID);
      var rolled := RollHours(minute, hour, since, 24);
      OnlyGroup(rolled, since, now, g, deviceID, gs);
      OnlyGroup(minute, since + DAY, now, g, deviceID, gs);
      OnlyGroup(minute, since, now, g, deviceID, gs);
      var left := (r: Row) => LeftoverOf(r, minute, since, now, deviceID);
      SameFilter(hour, (r: Row) => left(r) && r.group == g,
                 (r: Row) => LeftoverOf(r, minute, since, now, deviceID) && r.group == g);
    }
  }

  lemma OnlyGroup(t: Table, s: int, e: int, g: Group, deviceID: string, gs: seq<Group>)
    requires Wanted(g, deviceID) && gs != [] && gs[0] == g
    ensures var f := (r: Row) => Fetchable(r, s, e, deviceID);
      SumGroups(t, f, gs) == Sum(t, s, e + 1, g) + SumGroups(t, f, gs[1..])
  {
    hide Wanted, Fetchable;
    var f := (r: Row) => Fetchable(r, s, e, deviceID);
    SumIsSumIf(t, s, e, g, deviceID);
    SameFilter(t, (r: Row) => f(r) && r.group == g, (r: Row) => Fetchable(r, s, e, deviceID) && r.group == g);
  }

  // ---- the chart of the last day -----------------------------------------------------------

  /** The past 24 hours and the current one make up the window. */
  lemma WindowOfTheDay(now: int, zone: int)
    ensures var spec := NewRangeSpec("day", now, zone);
      spec.Some? && Grid(spec.value) && spec.value.currentStart == spec.value.since + DAY <= now
  {}

  /** All wanted rows: the rolled-up hours and the minutes of the current hour hold the
      minutes of the window and the left-over hour rows. */
  lemma RowsAddUp(minute: Table, hour: Table, since: int, now: int, deviceID: string)
    requires Unique(hour) && since + DAY <= now + 1
    ensures BytesOf(Fetch(RollHours(minute, hour, since, 24), since, now, deviceID))
            + BytesOf(Fetch(minute, since + DAY, now, deviceID)) ==
              BytesOf(Fetch(minute, since, now, deviceID))
              + SumIf(hour, (r: Row) => LeftoverOf(r, minute, since, now, deviceID))
  {
    hide Wanted, RollHours, BytesOf, Fetch, Unique;
    var rolled := RollHours(minute, hour, since, 24);
    var all := rolled + minute + hour;
    var gs := WantedGroups(all, deviceID);
    FetchIsSumIf(rolled, since, now, deviceID);
    FetchIsSumIf(minute, since + DAY, now, deviceID);
    FetchIsSumIf(minute, since, now, deviceID);
    Covered(rolled, all, 0, deviceID, gs);
    Covered(minute, all, |rolled|, deviceID, gs);
    Covered(hour, all, |rolled| + |minute|, deviceID, gs);
    hide WantedGroups, SumGroups, SumIf, IsReplaced;
    ByGroup(rolled, (r: Row) => Fetchable(r, since, now, deviceID), gs);
    ByGroup(minute, (r: Row) => Fetchable(r, since + DAY, now, deviceID), gs);
    ByGroup(minute, (r: Row) => Fetchable(r, since, now, deviceID), gs);
    ByGroup(hour, (r: Row) => LeftoverOf(r, minute, since, now, deviceID), gs);
    GroupsAddUp(minute, hour, since, now, deviceID, gs);
  }

  lemma Covered(t: Table, all: Table, at: nat, deviceID: string, gs: seq<Group>)
    requires at + |t| <= |all| && all[at..at + |t|] == t
    requires forall i :: 0 <= i < |all| && Wanted(all[i].group, deviceID) ==> all[i].group in gs
    ensures forall i :: 0 <= i < |t| && Wanted(t[i].group, deviceID) ==> t[i].group in gs
  {
    hide Wanted;
    forall i | 0 <= i < |t| && Wanted(t[i].group, deviceID) ensures t[i].group in gs {
      assert all[at..at + |t|][i] == all[at + i];
    }
  }

  /** The chart was drawn when the 24 past hours of its window had been rolled up into the
      given hour table. */
  ghost predicate IsDayChart(c: Chart, minute: Table, hour: Table, days: Table, deviceID: string, now: int, zone: int) {
    var spec := NewRangeSpec("day", now, zone);
    && spec.Some? && Grid(spec.value)
    && var rolled := RollHours(minute, hour, spec.value.since, 24);
       IsChart(c, Fetched("day", spec.value, deviceID, now, minute, rolled, days), spec.value, now)
  }

  /** The grand total is the minutes of the window and the left-over hour rows. */
  lemma DayChartTotal(c: Chart, minute: Table, hour: Table, days: Table, deviceID: string, now: int, zone: int)
    requires Unique(hour) && IsDayChart(c, minute, hour, days, deviceID, now, zone)
    ensures var since := NewRangeSpec("day", now, zone).value.since;
      Totalled(c.buckets) == BytesOf(Fetch(minute, since, now, deviceID))
                             + SumIf(hour, (r: Row) => LeftoverOf(r, minute, since, now, deviceID))
  {
    hide IsChart, RollHours, Totalled, BytesOf, Fetch, Fetched, Unique, LeftoverOf, SumIf;
    WindowOfTheDay(now, zone);
    var spec := NewRangeSpec("day", now, zone).value;
    ChartTotal("day", deviceID, now, zone, minute, RollHours(minute, hour, spec.since, 24), days, c);
    RowsAddUp(minute, hour, spec.since, now, deviceID);
  }

  lemma {:induction false} NothingCounts(t: Table, f: Row -> bool)
    requires forall i :: 0 <= i < |t| ==> t[i].bytes >= 0
    ensures SumIf(t, f) >= 0
    ensures SumIf(t, f) == 0 <==> forall i :: 0 <= i < |t| && f(t[i]) ==> t[i].bytes == 0
  {
    if t != [] {
      NothingCounts(t[1..], f);
      assert forall i :: 1 <= i < |t| ==> t[i] == t[1..][i - 1];
      assert forall i :: 0 <= i < |t| - 1 ==> t[1..][i] == t[i + 1];
    }
  }

  /** Exactly when the chart of the last day shows the minutes of its window: the hour table
      had no bytes in the window without minutes behind them, and none for the current hour. */
  lemma DayChartExactly(c: Chart, minute: Table, hour: Table, days: Table, deviceID: string, now: int, zone: int)
    requires Unique(hour) && IsDayChart(c, minute, hour, days, deviceID, now, zone)
    requires forall i :: 0 <= i < |hour| ==> hour[i].bytes >= 0
    ensures var since := NewRangeSpec("day", now, zone).value.since;
      Totalled(c.buckets) == BytesOf(Fetch(minute, since, now, deviceID)) <==>
      forall i :: 0 <= i < |hour| && LeftoverOf(hour[i], minute, since, now, deviceID) ==> hour[i].bytes == 0
  {
    hide IsDayChart, Totalled, BytesOf, Fetch, LeftoverOf, Unique, SumIf;
    var since := NewRangeSpec("day", now, zone).value.since;
    DayChartTotal(c, minute, hour, days, deviceID, now, zone);
    NothingCounts(hour, (r: Row) => LeftoverOf(r, minute, since, now, deviceID));
  }

  /** A row of the current hour is always left over. */
  lemma CurrentHourIsLeftover(r: Row, minute: Table, since: int, now: int)
    requires since + DAY <= r.period <= now
    ensures Leftover(r, minute, since, now)
  {
    ReplacedBefore(minute, since, 24, r.period, r.group);
  }

  lemma FirstDay(g: Group)
    requires g.resource == "iface"
    ensures NewRangeSpec("day", DAY, 0).value.since == 0 && Wanted(g, "")
  {
    hide TrimLeft, TrimRight;
    BlankMeansSpaces("");
    hide Blank, Lower;
  }

  /** Concretely: some bytes in the first minute of the current hour, and the hour already
      rolled up. */
  lemma CurrentHourCountsTwice(c: Chart, g: Group, bytes: nat)
    requires g.resource == "iface" && bytes > 0
    requires IsDayChart(c, [Row(DAY, g, bytes)], [Row(DAY, g, bytes)], [], "", DAY, 0)
    ensures Totalled(c.buckets) != BytesOf(Fetch([Row(DAY, g, bytes)], 0, DAY, ""))
  {
    hide IsDayChart, Totalled, BytesOf, Fetch, Wanted, IsReplaced, Leftover, NewRangeSpec;
    var t := [Row(DAY, g, bytes)];
    FirstDay(g);
    CurrentHourIsLeftover(t[0], t, 0, DAY);
    assert LeftoverOf(t[0], t, 0, DAY, "");
    DayChartExactly(c, t, t, [], "", DAY, 0);
  }
}
