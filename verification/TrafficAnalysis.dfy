/** The traffic chart: fetched rows are spread over equal periods, per direction and per
    device.  Times are nanoseconds; the clock has a fixed offset. */
module TrafficAnalysis {
  import opened Common
  import opened Text
  import opened TrafficRollup

  datatype Spec = Spec(since: int, step: int, currentStart: int, offset: int)
  datatype Bucket = Bucket(periodStart: int, rx: int, tx: int, total: int)
  datatype Chart = Chart(buckets: seq<Bucket>, periodStarts: seq<int>, devices: seq<string>, series: map<string,
      seq<int>>)

  /** The start of the period of length step that contains t. */
  function Floor(t: int, step: int, offset: int): int
    requires step > 0
  {
    t - (t + offset) % step
  }

  function PeriodStart(spec: Spec, t: int): int
    requires spec.step > 0
  {
    Floor(t, spec.step, spec.offset)
  }

  /** Hours are cut in universal time, days in local time. */
  function NewRangeSpec(rangeName: string, now: int, zone: int): Option<Spec> {
    match rangeName
    case "day" => Some(Spec(Floor(now - DAY, HOUR, 0), HOUR, Floor(now, HOUR, 0), 0))
    case "week" => Some(Spec(Floor(now - 7 * DAY, DAY, zone), DAY, Floor(now, DAY, zone), zone))
    case "month" => Some(Spec(Floor(now - 30 * DAY, DAY, zone), DAY, Floor(now, DAY, zone), zone))
    case _ => None
  }

  /** Periods start at since, since + step, and so on. */
  predicate Grid(spec: Spec) {
    (spec.step == HOUR || spec.step == DAY) && (spec.since + spec.offset) % spec.step == 0
  }

  function Start(spec: Spec, i: int): int { spec.since + i * spec.step }

  function DeviceFromTag(tag: string): string {
    if tag == "" || tag[0] == '@' then "" else [tag[0]] + DeviceFromTag(tag[1..])
  }

  // ---- the reference sums -----------------------------------------------------------

  function BytesOf(rows: seq<Row>): int {
    if rows == [] then 0 else BytesOf(rows[..|rows| - 1]) + rows[|rows| - 1].bytes
  }

  function Flow(rows: seq<Row>, spec: Spec, start: int, direction: bool): int
    requires spec.step > 0
  {
    if rows == [] then 0
    else
      var r := rows[|rows| - 1];
      Flow(rows[..|rows| - 1], spec, start, direction) +
      if PeriodStart(spec, r.period) == start && r.group.direction == direction then r.bytes else 0
  }

  function DeviceFlow(rows: seq<Row>, spec: Spec, start: int, device: string): int
    requires spec.step > 0
  {
    if rows == [] then 0
    else
      var r := rows[|rows| - 1];
      DeviceFlow(rows[..|rows| - 1], spec, start, device) +
      if PeriodStart(spec, r.period) == start && DeviceFromTag(r.group.tag) == device then r.bytes else 0
  }

  // ---- arithmetic of periods ----------------------------------------------------------

  lemma FloorFacts(t: int, step: int, offset: int)
    requires step == HOUR || step == DAY
    ensures Floor(t, step, offset) <= t < Floor(t, step, offset) + step
    ensures (Floor(t, step, offset) + offset) % step == 0
    ensures (t + offset) % step == 0 ==> Floor(t, step, offset) == t
  {}

  /** Floors of times on one grid are whole steps apart. */
  lemma WholeSteps(a: int, b: int, step: int, offset: int)
    requires step == HOUR || step == DAY
    requires (a + offset) % step == 0 && (b + offset) % step == 0
    ensures (b - a) % step == 0 && b == a + (b - a) / step * step
  {}

  lemma StartsOnGrid(spec: Spec, i: int)
    requires Grid(spec)
    ensures PeriodStart(spec, Start(spec, i)) == Start(spec, i)
  {}

  lemma RangeIsGrid(rangeName: string, now: int, zone: int)
    ensures var s := NewRangeSpec(rangeName, now, zone);
      s.Some? ==> Grid(s.value) && s.value.since <= s.value.currentStart <= now
  {
    FloorFacts(now - DAY, HOUR, 0);
    FloorFacts(now, HOUR, 0);
    FloorFacts(now - 7 * DAY, DAY, zone);
    FloorFacts(now - 30 * DAY, DAY, zone);
    FloorFacts(now, DAY, zone);
    hide Floor;
  }

  /** The windows: a day of hours of universal time, a week or 30 days of local days, each up
      to the period that contains now. */
  lemma WindowsExactly(now: int, zone: int)
    ensures var s := NewRangeSpec("day", now, zone).value;
      && s.step == 3_600_000_000_000 && s.offset == 0
      && s.since % s.step == 0 && s.since <= now - 24 * s.step < s.since + s.step
      && s.currentStart % s.step == 0 && s.currentStart <= now < s.currentStart + s.step
    ensures forall range :: range in ["week", "month"] ==>
      var s, days := NewRangeSpec(range, now, zone).value, if range == "week" then 7 else 30;
      && s.step == 86_400_000_000_000 && s.offset == zone
      && (s.since + zone) % s.step == 0 && s.since <= now - days * s.step < s.since + s.step
      && (s.currentStart + zone) % s.step == 0 && s.currentStart <= now < s.currentStart + s.step
  {
    FloorFacts(now - DAY, HOUR, 0);
    FloorFacts(now, HOUR, 0);
    FloorFacts(now - 7 * DAY, DAY, zone);
    FloorFacts(now - 30 * DAY, DAY, zone);
    FloorFacts(now, DAY, zone);
    hide Floor;
  }

  /** The period of a time in the window: the only one that contains it. */
  function Index(spec: Spec, t: int): int
    requires Grid(spec)
  {
    (PeriodStart(spec, t) - spec.since) / spec.step
  }

  lemma InOnePeriod(spec: Spec, t: int, n: nat)
    requires Grid(spec) && spec.since <= t < Start(spec, n)
    ensures 0 <= Index(spec, t) < n && PeriodStart(spec, t) == Start(spec, Index(spec, t))
    ensures forall i :: Start(spec, i) == PeriodStart(spec, t) ==> i == Index(spec, t)
  {
    FloorFacts(t, spec.step, spec.offset);
    WholeSteps(spec.since, PeriodStart(spec, t), spec.step, spec.offset);
    hide Floor;
  }

  // ---- filling the chart -----------------------------------------------------------------

  datatype Totals = Totals(rx: int, tx: int, total: int)
  type Points = map<nat, int>

  function Value(series: map<string, Points>, device: string, i: nat): int {
    if device in series && i in series[device] then series[device][i] else 0
  }

  ghost predicate ShowsTotals(bucketAgg: map<int, Totals>, rows: seq<Row>, spec: Spec)
    requires spec.step > 0
  {
    forall key :: key in bucketAgg ==>
      && bucketAgg[key].rx == Flow(rows, spec, key, false)
      && bucketAgg[key].tx == Flow(rows, spec, key, true)
      && bucketAgg[key].total == bucketAgg[key].rx + bucketAgg[key].tx
  }

  ghost predicate ShowsSeries(tsMap: map<int, nat>, series: map<string, Points>, rows: seq<Row>, spec: Spec)
    requires spec.step > 0
  {
    && (forall key, device :: key in tsMap ==> Value(series, device, tsMap[key]) == DeviceFlow(rows, spec, key, device))
    && (forall device :: device in series ==>
          forall i :: i in series[device] ==> exists key :: key in tsMap && tsMap[key] == i)
  }

  /** A row whose period is laid out. */
  predicate Shown(tsMap: map<int, nat>, r: Row, spec: Spec)
    requires spec.step > 0
  {
    PeriodStart(spec, r.period) in tsMap
  }

  ghost predicate ShowsDevices(tsMap: map<int, nat>, devices: set<string>, rows: seq<Row>, spec: Spec)
    requires spec.step > 0
  {
    && (forall device :: device in devices ==>
          exists k :: 0 <= k < |rows| && Shown(tsMap, rows[k], spec) && DeviceFromTag(rows[k].group.tag) == device)
    && (forall k :: 0 <= k < |rows| && Shown(tsMap, rows[k], spec) ==> DeviceFromTag(rows[k].group.tag) in devices)
  }

  lemma TotalsAdded(agg: map<int, Totals>, rows: seq<Row>, spec: Spec, r: Row, agg': map<int, Totals>)
    requires spec.step > 0 && ShowsTotals(agg, rows, spec)
    requires var key := PeriodStart(spec, r.period);
      if key in agg then
        var rx := if r.group.direction then agg[key].rx else agg[key].rx + r.bytes;
        var tx := if r.group.direction then agg[key].tx + r.bytes else agg[key].tx;
        agg' == agg[key := Totals(rx, tx, rx + tx)]
      else agg' == agg
    ensures ShowsTotals(agg', rows + [r], spec)
  {
    hide PeriodStart;
    assert (rows + [r])[..|rows|] == rows;
  }

  lemma SeriesAdded(tsMap: map<int, nat>, series: map<string, Points>, rows: seq<Row>, spec: Spec, r: Row,
      series': map<string, Points>)
    requires spec.step > 0 && ShowsSeries(tsMap, series, rows, spec)
    requires forall k, l :: k in tsMap && l in tsMap && tsMap[k] == tsMap[l] ==> k == l
    requires var key, dev := PeriodStart(spec, r.period), DeviceFromTag(r.group.tag);
      if key in tsMap then
        var points: Points := if dev in series then series[dev] else map[];
        series' == series[dev := points[tsMap[key] := Value(series, dev, tsMap[key]) + r.bytes]]
      else series' == series
    ensures ShowsSeries(tsMap, series', rows + [r], spec)
  {
    hide PeriodStart, DeviceFromTag;
    assert (rows + [r])[..|rows|] == rows;
    forall key, device | key in tsMap
      ensures Value(series', device, tsMap[key]) == DeviceFlow(rows + [r], spec, key, device)
    {
      assert Value(series, device, tsMap[key]) == DeviceFlow(rows, spec, key, device);
    }
  }

  lemma DevicesAdded(tsMap: map<int, nat>, devices: set<string>, rows: seq<Row>, spec: Spec, r: Row)
    requires spec.step > 0 && ShowsDevices(tsMap, devices, rows, spec)
    ensures ShowsDevices(tsMap, if Shown(tsMap, r, spec) then devices +
        {DeviceFromTag(r.group.tag)} else devices, rows + [r], spec)
  {
    hide PeriodStart, DeviceFromTag, Shown;
    var all := rows + [r];
    forall device | device in devices
      ensures exists k :: 0 <= k < |all| && Shown(tsMap, all[k], spec) && DeviceFromTag(all[k].group.tag) == device
    {
      var k :| 0 <= k < |rows| && Shown(tsMap, rows[k], spec) && DeviceFromTag(rows[k].group.tag) == device;
      assert all[k] == rows[k];
    }
    assert all[|rows|] == r;
  }

  /** The working maps: totals and position by period start, bytes by device and position. */
  class Filling {
    const spec: Spec
    var bucketAgg: map<int, Totals>
    var bucketOrder: seq<int>
    var tsMap: map<int, nat>
    var deviceSet: set<string>
    var tempSeries: map<string, Points>

    /** The periods are laid out in order. */
    ghost predicate Laid()
      reads this
    {
      && Grid(spec)
      && (forall i :: 0 <= i < |bucketOrder| ==>
            bucketOrder[i] == Start(spec, i) && bucketOrder[i] in tsMap && tsMap[bucketOrder[i]] == i)
      && (forall key :: key in tsMap ==> tsMap[key] < |bucketOrder| && bucketOrder[tsMap[key]] == key)
      && (forall key :: key in tsMap <==> key in bucketAgg)
    }

    ghost predicate Shows(rows: seq<Row>)
      reads this
      requires spec.step > 0
    {
      ShowsTotals(bucketAgg, rows, spec) && ShowsSeries(tsMap, tempSeries, rows, spec)
          && ShowsDevices(tsMap, deviceSet, rows, spec)
    }

    constructor (spec: Spec)
      requires Grid(spec)
      ensures this.spec == spec && Laid() && Shows([]) && bucketOrder == []
      ensures tempSeries == map[] && deviceSet == {}
    {
      this.spec := spec;
      bucketAgg, bucketOrder, tsMap, deviceSet, tempSeries := map[], [], map[], {}, map[];
    }

    method LayOut(now: int)
      requires Laid() && Shows([]) && bucketOrder == [] && tempSeries == map[] && deviceSet == {}
      modifies this
      ensures Laid() && Shows([])
      ensures forall i :: 0 <= i < |bucketOrder| ==> Start(spec, i) <= now
      ensures now < Start(spec, |bucketOrder|)
    {
      var cursor := spec.since;
      while cursor <= now
        invariant Laid() && Shows([]) && cursor == Start(spec, |bucketOrder|)
        invariant tempSeries == map[] && deviceSet == {}
        invariant forall i :: 0 <= i < |bucketOrder| ==> Start(spec, i) <= now
        decreases now - cursor
      {
        StartsOnGrid(spec, |bucketOrder|);
        hide Floor;
        var periodStart := PeriodStart(spec, cursor);
        bucketAgg := bucketAgg[periodStart := Totals(0, 0, 0)];
        tsMap := tsMap[periodStart := |bucketOrder|];
        bucketOrder := bucketOrder + [periodStart];
        cursor := cursor + spec.step;
      }
    }

    method ApplyRow(r: Row, ghost rows: seq<Row>)
      requires Laid() && Shows(rows)
      modifies this`bucketAgg, this`deviceSet, this`tempSeries
      ensures Laid() && Shows(rows + [r])
    {
      hide Floor, PeriodStart, Start, DeviceFromTag, ShowsTotals, ShowsSeries, ShowsDevices;
      ghost var agg, series := bucketAgg, tempSeries;
      DevicesAdded(tsMap, deviceSet, rows, spec, r);
      var key := PeriodStart(spec, r.period);
      if key in bucketAgg {
        var b := bucketAgg[key];
        var rx := if r.group.direction then b.rx else b.rx + r.bytes;
        var tx := if r.group.direction then b.tx + r.bytes else b.tx;
        bucketAgg := bucketAgg[key := Totals(rx, tx, rx + tx)];
      }
      TotalsAdded(agg, rows, spec, r, bucketAgg);
      if key in tsMap {
        var tIdx := tsMap[key];
        var dev := DeviceFromTag(r.group.tag);
        deviceSet := deviceSet + {dev};
        if dev !in tempSeries {
          tempSeries := tempSeries[dev := map[]];
        }
        var points := tempSeries[dev];
        tempSeries := tempSeries[dev := points[tIdx := (if tIdx in points then points[tIdx] else 0) + r.bytes]];
      }
      SeriesAdded(tsMap, series, rows, spec, r, tempSeries);
    }
  }

  // ---- the queries -------------------------------------------------------------------------

  /** LIKE 'device@%' ignores the case of ASCII letters; no device selects everything. */
  predicate TagMatches(tag: string, deviceID: string) {
    var prefix := Trim(deviceID) + "@";
    Blank(deviceID) || (|prefix| <= |tag| && Lower(tag[..|prefix|]) == Lower(prefix))
  }

  function Fetch(t: Table, s: int, e: int, deviceID: string): seq<Row> {
    if t == [] then []
    else
      var r := t[|t| - 1];
      Fetch(t[..|t| - 1], s, e, deviceID) +
      if r.group.resource == "iface" && s <= r.period <= e && TagMatches(r.group.tag, deviceID) then [r] else []
  }

  function Relabel(rows: seq<Row>, at: int): seq<Row> {
    seq(|rows|, i requires 0 <= i < |rows| => rows[i].(period := at))
  }

  /** One row per group, stamped with the start of the current period. */
  function Regroup(rows: seq<Row>, at: int): seq<Row> { AddAll([], Relabel(rows, at)) }

  function FetchCurrent(t: Table, s: int, e: int, deviceID: string): seq<Row> {
    Regroup(Fetch(t, s, e, deviceID), s)
  }

  /** Everything the chart is drawn from. */
  function Fetched(rangeName: string, spec: Spec, deviceID: string, now: int, minute: Table, hour: Table,
      day: Table): seq<Row> {
    if rangeName == "day" then
      Fetch(hour, spec.since, now, deviceID) + FetchCurrent(minute, spec.currentStart, now, deviceID)
    else
      Fetch(day, spec.since, now, deviceID) + FetchCurrent(hour, spec.currentStart, now, deviceID)
  }

  // ---- the chart -----------------------------------------------------------------------------

  ghost predicate Windowed(rows: seq<Row>, spec: Spec, now: int) {
    forall k :: 0 <= k < |rows| ==> spec.since <= rows[k].period <= now
  }

  predicate InPeriod(r: Row, spec: Spec, start: int)
    requires spec.step > 0
  {
    PeriodStart(spec, r.period) == start
  }

  /** The chart shows the rows: per period and direction, and per period and device. */
  ghost predicate IsChart(c: Chart, rows: seq<Row>, spec: Spec, now: int)
    requires Grid(spec)
  {
    var n := |c.buckets|;
    && |c.periodStarts| == n && now < Start(spec, n)
    && (forall i :: 0 <= i < n ==>
          c.periodStarts[i] == Start(spec, i) <= now && IsBucket(c.buckets[i], rows, spec, Start(spec, i)))
    && (forall k, l :: 0 <= k < l < |c.devices| ==> c.devices[k] != c.devices[l])
    && (forall d :: d in c.devices <==> d in c.series)
    && (forall d :: d in c.devices ==>
          exists k :: 0 <= k < |rows| && DeviceFromTag(rows[k].group.tag) == d
              && PeriodStart(spec, rows[k].period) in c.periodStarts)
    && (forall k :: 0 <= k < |rows| && PeriodStart(spec, rows[k].period) in c.periodStarts ==>
        DeviceFromTag(rows[k].group.tag) in c.devices)
    && (forall d :: d in c.series ==> IsLine(c.series[d], n, rows, spec, d))
  }

  ghost predicate IsBucket(b: Bucket, rows: seq<Row>, spec: Spec, start: int)
    requires Grid(spec)
  {
    && b.periodStart == start && b.rx == Flow(rows, spec, start, false) && b.tx == Flow(rows, spec, start, true)
    && b.total == b.rx + b.tx
  }

  ghost predicate IsLine(line: seq<int>, n: nat, rows: seq<Row>, spec: Spec, device: string)
    requires Grid(spec)
  {
    |line| == n && forall i :: 0 <= i < n ==> line[i] == DeviceFlow(rows, spec, Start(spec, i), device)
  }

  method Spread(points: Points, n: nat) returns (data: seq<int>)
    requires forall i :: i in points ==> i < n
    ensures |data| == n && forall i :: 0 <= i < n ==> data[i] == if i in points then points[i] else 0
  {
    data := seq(n, i requires 0 <= i < n => 0);
    var todo := points.Keys;
    while todo != {}
      invariant todo <= points.Keys && |data| == n
      invariant forall i :: 0 <= i < n ==> data[i] == if i in points && i !in todo then points[i] else 0
      decreases todo
    {
      var i :| i in todo;
      data := data[i := points[i]];
      todo := todo - {i};
    }
  }

  method Listed(devices: set<string>) returns (list: seq<string>)
    ensures forall k, l :: 0 <= k < l < |list| ==> list[k] != list[l]
    ensures forall d :: d in list <==> d in devices
  {
    list := [];
    var todo := devices;
    while todo != {}
      invariant todo <= devices
      invariant forall k, l :: 0 <= k < l < |list| ==> list[k] != list[l]
      invariant forall d :: d in list <==> d in devices && d !in todo
      decreases todo
    {
      var d :| d in todo;
      list := list + [d];
      todo := todo - {d};
    }
  }

  method Draw(f: Filling, ghost rows: seq<Row>, ghost now: int) returns (c: Chart)
    requires f.Laid() && f.Shows(rows)
    requires now < Start(f.spec, |f.bucketOrder|) && forall i :: 0 <= i < |f.bucketOrder| ==> Start(f.spec, i) <= now
    ensures IsChart(c, rows, f.spec, now)
  {
    hide Floor, PeriodStart, Flow, DeviceFlow, DeviceFromTag, IsLine;
    var n := |f.bucketOrder|;
    var buckets: seq<Bucket> := [];
    while |buckets| < n
      invariant |buckets| <= n
      invariant forall i :: 0 <= i < |buckets| ==> IsBucket(buckets[i], rows, f.spec, Start(f.spec, i))
    {
      var k := f.bucketOrder[|buckets|];
      var t := f.bucketAgg[k];
      buckets := buckets + [Bucket(k, t.rx, t.tx, t.total)];
    }
    var devices := Listed(f.deviceSet);
    var series: map<string, seq<int>> := map[];
    var j := 0;
    while j < |devices|
      invariant j <= |devices|
      invariant forall d :: d in series <==> d in devices[..j]
      invariant forall d :: d in series ==> IsLine(series[d], n, rows, f.spec, d)
    {
      var dev := devices[j];
      var data := Spread(if dev in f.tempSeries then f.tempSeries[dev] else map[], n);
      LineOf(f, rows, dev, data);
      series := series[dev := data];
      assert devices[..j + 1] == devices[..j] + [dev];
      j := j + 1;
    }
    assert devices[..j] == devices;
    PeriodsListed(f);
    c := Chart(buckets, f.bucketOrder, devices, series);
    DevicesDrawn(f, rows, devices);
  }

  lemma LineOf(f: Filling, rows: seq<Row>, dev: string, data: seq<int>)
    requires f.Laid() && f.Shows(rows)
    requires |data| == |f.bucketOrder| && forall i :: 0 <= i < |data| ==> data[i] == Value(f.tempSeries, dev, i)
    ensures IsLine(data, |f.bucketOrder|, rows, f.spec, dev)
  {
    hide Floor, PeriodStart, DeviceFlow, DeviceFromTag, ShowsDevices, ShowsTotals;
    forall i | 0 <= i < |data| ensures data[i] == DeviceFlow(rows, f.spec, Start(f.spec, i), dev) {
      assert f.bucketOrder[i] in f.tsMap;
    }
  }

  lemma PeriodsListed(f: Filling)
    requires f.Laid()
    ensures forall key :: key in f.tsMap <==> key in f.bucketOrder
  {}

  lemma DevicesDrawn(f: Filling, rows: seq<Row>, devices: seq<string>)
    requires f.Laid() && f.Shows(rows) && forall d :: d in devices <==> d in f.deviceSet
    ensures forall d :: d in devices ==>
      exists k :: 0 <= k < |rows| && DeviceFromTag(rows[k].group.tag) == d
          && PeriodStart(f.spec, rows[k].period) in f.bucketOrder
    ensures forall k :: 0 <= k < |rows| && PeriodStart(f.spec, rows[k].period) in f.bucketOrder ==>
        DeviceFromTag(rows[k].group.tag) in devices
  {
    hide Floor, PeriodStart, DeviceFlow, DeviceFromTag, ShowsSeries, ShowsTotals;
    PeriodsListed(f);
    forall d | d in devices
      ensures exists k ::
        0 <= k < |rows| && DeviceFromTag(rows[k].group.tag) == d && PeriodStart(f.spec, rows[k].period) in f.bucketOrder
    {
      var k :| 0 <= k < |rows| && Shown(f.tsMap, rows[k], f.spec) && DeviceFromTag(rows[k].group.tag) == d;
      assert PeriodStart(f.spec, rows[k].period) in f.bucketOrder;
    }
    forall k | 0 <= k < |rows| && PeriodStart(f.spec, rows[k].period) in f.bucketOrder
      ensures DeviceFromTag(rows[k].group.tag) in devices
    {
      assert Shown(f.tsMap, rows[k], f.spec);
    }
  }

  method GetTrafficAnalysisWithChart(rangeName: string, deviceID: string, now: int, zone: int, db: TrafficDb)
    returns (chart: Option<Chart>)
    ensures chart.None? <==> rangeName !in ["day", "week", "month"]
    ensures chart.Some? ==>
      var spec := NewRangeSpec(rangeName, now, zone);
      && spec.Some? && Grid(spec.value)
      && IsChart(chart.value, Fetched(rangeName, spec.value, deviceID, now, db.minute, db.hour, db.day), spec.value,
          now)
      && Totalled(chart.value.buckets) == (
           if rangeName == "day" then
             BytesOf(Fetch(db.hour, spec.value.since, now, deviceID)) +
                 BytesOf(Fetch(db.minute, spec.value.currentStart, now, deviceID))
           else
             BytesOf(Fetch(db.day, spec.value.since, now, deviceID)) +
                 BytesOf(Fetch(db.hour, spec.value.currentStart, now, deviceID)))
  {
    hide Floor, Fetch, FetchCurrent, IsChart, Totalled, BytesOf;
    var s := NewRangeSpec(rangeName, now, zone);
    if s.None? {
      return None;
    }
    RangeIsGrid(rangeName, now, zone);
    var spec := s.value;
    hide Grid;
    var f := new Filling(spec);
    f.LayOut(now);
    var rows := Fetched(rangeName, spec, deviceID, now, db.minute, db.hour, db.day);
    FillAll(f, rows);
    var c := Draw(f, rows, now);
    ChartTotal(rangeName, deviceID, now, zone, db.minute, db.hour, db.day, c);
    return Some(c);
  }

  method FillAll(f: Filling, rows: seq<Row>)
    requires f.Laid() && f.Shows([])
    modifies f`bucketAgg, f`deviceSet, f`tempSeries
    ensures f.Laid() && f.Shows(rows)
  {
    hide Floor, ShowsTotals, ShowsSeries, ShowsDevices;
    var i := 0;
    assert rows[..0] == [];
    while i < |rows|
      invariant i <= |rows| && f.Laid() && f.Shows(rows[..i])
    {
      f.ApplyRow(rows[i], rows[..i]);
      assert rows[..i + 1] == rows[..i] + [rows[i]];
      i := i + 1;
    }
    assert rows[..i] == rows;
  }

  // ---- nothing lost, nothing twice --------------------------------------------------------------

  /** Both directions of a period together. */
  function PeriodFlow(rows: seq<Row>, spec: Spec, start: int): int
    requires spec.step > 0
  {
    Flow(rows, spec, start, false) + Flow(rows, spec, start, true)
  }

  function FirstPeriods(n: nat, rows: seq<Row>, spec: Spec): int
    requires spec.step > 0
  {
    if n == 0 then 0 else FirstPeriods(n - 1, rows, spec) + PeriodFlow(rows, spec, Start(spec, n - 1))
  }

  lemma PeriodFlowAdds(rows: seq<Row>, r: Row, spec: Spec, start: int)
    requires spec.step > 0
    ensures PeriodFlow(rows + [r], spec, start) ==
              PeriodFlow(rows, spec, start) + if InPeriod(r, spec, start) then r.bytes else 0
  {
    hide PeriodStart;
    assert (rows + [r])[..|rows|] == rows;
  }

  /** A period contains the times from its start to the next start. */
  lemma PeriodContains(spec: Spec, t: int, i: nat)
    requires Grid(spec)
    ensures PeriodStart(spec, t) == Start(spec, i) <==> Start(spec, i) <= t < Start(spec, i + 1)
  {
    FloorFacts(t, spec.step, spec.offset);
    WholeSteps(spec.since, PeriodStart(spec, t), spec.step, spec.offset);
    hide Floor;
  }

  lemma {:induction false} OneRowMore(n: nat, rows: seq<Row>, r: Row, spec: Spec)
    requires Grid(spec) && spec.since <= r.period
    ensures FirstPeriods(n, rows + [r], spec) ==
              FirstPeriods(n, rows, spec) + if r.period < Start(spec, n) then r.bytes else 0
  {
    if n > 0 {
      OneRowMore(n - 1, rows, r, spec);
      PeriodFlowAdds(rows, r, spec, Start(spec, n - 1));
      PeriodContains(spec, r.period, n - 1);
      hide PeriodStart, PeriodFlow;
    }
  }

  lemma {:induction false} EmptyPeriods(n: nat, spec: Spec)
    requires spec.step > 0
    ensures FirstPeriods(n, [], spec) == 0
  {
    if n > 0 { EmptyPeriods(n - 1, spec); }
  }

  lemma {:induction false} PeriodsHoldEverything(n: nat, rows: seq<Row>, spec: Spec, now: int)
    requires Grid(spec) && Windowed(rows, spec, now) && now < Start(spec, n)
    ensures FirstPeriods(n, rows, spec) == BytesOf(rows)
  {
    if rows == [] {
      EmptyPeriods(n, spec);
    } else {
      var init, r := rows[..|rows| - 1], rows[|rows| - 1];
      assert rows == init + [r];
      PeriodsHoldEverything(n, init, spec, now);
      OneRowMore(n, init, r, spec);
    }
  }

  function Totalled(buckets: seq<Bucket>): int {
    if buckets == [] then 0 else Totalled(buckets[..|buckets| - 1]) + buckets[|buckets| - 1].total
  }

  lemma {:induction false} TotalledIsPeriods(buckets: seq<Bucket>, rows: seq<Row>, spec: Spec)
    requires Grid(spec) && forall i :: 0 <= i < |buckets| ==> IsBucket(buckets[i], rows, spec, Start(spec, i))
    ensures Totalled(buckets) == FirstPeriods(|buckets|, rows, spec)
  {
    hide Flow;
    if buckets != [] { TotalledIsPeriods(buckets[..|buckets| - 1], rows, spec); }
  }

  /** The grand total of the chart is the sum of all rows it is drawn from. */
  lemma GrandTotal(c: Chart, rows: seq<Row>, spec: Spec, now: int)
    requires Grid(spec) && Windowed(rows, spec, now) && IsChart(c, rows, spec, now)
    ensures Totalled(c.buckets) == BytesOf(rows)
  {
    TotalledIsPeriods(c.buckets, rows, spec);
    PeriodsHoldEverything(|c.buckets|, rows, spec, now);
  }

  /** Every row is in exactly one period of the chart. */
  lemma EveryRowOnce(c: Chart, rows: seq<Row>, spec: Spec, now: int, k: nat)
    requires Grid(spec) && Windowed(rows, spec, now) && IsChart(c, rows, spec, now) && k < |rows|
    ensures exists i :: 0 <= i < |c.periodStarts| && InPeriod(rows[k], spec, c.periodStarts[i])
    ensures forall i, j :: 0 <= i < j < |c.periodStarts| ==>
      !(InPeriod(rows[k], spec, c.periodStarts[i]) && InPeriod(rows[k], spec, c.periodStarts[j]))
  {
    hide Floor, Flow, DeviceFlow, IsLine, IsBucket;
    InOnePeriod(spec, rows[k].period, |c.periodStarts|);
    var i := Index(spec, rows[k].period);
    assert c.periodStarts[i] == Start(spec, i);
  }

  function LinesAt(series: map<string, seq<int>>, devices: seq<string>, i: nat): int
    requires forall d :: d in devices ==> d in series && i < |series[d]|
  {
    if devices == [] then 0 else series[devices[0]][i] + LinesAt(series, devices[1..], i)
  }

  function DeviceFlows(rows: seq<Row>, spec: Spec, start: int, devices: seq<string>): int
    requires spec.step > 0
  {
    if devices == [] then 0
    else DeviceFlow(rows, spec, start, devices[0]) + DeviceFlows(rows, spec, start, devices[1..])
  }

  lemma {:induction false} DeviceFlowsAdd(rows: seq<Row>, r: Row, spec: Spec, start: int, devices: seq<string>)
    requires spec.step > 0 && forall k, l :: 0 <= k < l < |devices| ==> devices[k] != devices[l]
    ensures DeviceFlows(rows + [r], spec, start, devices) ==
              DeviceFlows(rows, spec, start, devices)
              + if InPeriod(r, spec, start) && DeviceFromTag(r.group.tag) in devices then r.bytes else 0
  {
    hide PeriodStart, DeviceFromTag;
    if devices != [] {
      assert (rows + [r])[..|rows|] == rows;
      DeviceFlowsAdd(rows, r, spec, start, devices[1..]);
      assert devices == [devices[0]] + devices[1..];
    }
  }

  lemma {:induction false} NoRowsNoFlow(spec: Spec, start: int, devices: seq<string>)
    requires spec.step > 0
    ensures DeviceFlows([], spec, start, devices) == 0
  {
    if devices != [] { NoRowsNoFlow(spec, start, devices[1..]); }
  }

  lemma {:induction false} DevicesShareThePeriod(rows: seq<Row>, spec: Spec, start: int, devices: seq<string>)
    requires spec.step > 0 && forall k, l :: 0 <= k < l < |devices| ==> devices[k] != devices[l]
    requires forall k :: 0 <= k < |rows| && InPeriod(rows[k], spec, start) ==>
        DeviceFromTag(rows[k].group.tag) in devices
    ensures DeviceFlows(rows, spec, start, devices) == PeriodFlow(rows, spec, start)
  {
    if rows == [] {
      NoRowsNoFlow(spec, start, devices);
    } else {
      var init, r := rows[..|rows| - 1], rows[|rows| - 1];
      hide PeriodStart, DeviceFromTag, PeriodFlow;
      assert rows == init + [r];
      assert forall k :: 0 <= k < |init| ==> init[k] == rows[k];
      DevicesShareThePeriod(init, spec, start, devices);
      DeviceFlowsAdd(init, r, spec, start, devices);
      PeriodFlowAdds(init, r, spec, start);
    }
  }

  lemma {:induction false} LinesAreFlows(c: Chart, rows: seq<Row>, spec: Spec, devices: seq<string>, i: nat)
    requires Grid(spec) && i < |c.buckets|
    requires forall d :: d in devices ==>
      d in c.series && |c.series[d]| == |c.buckets| && IsLine(c.series[d], |c.buckets|, rows, spec, d)
    ensures LinesAt(c.series, devices, i) == DeviceFlows(rows, spec, Start(spec, i), devices)
  {
    hide DeviceFlow;
    if devices != [] {
      assert devices[0] in devices && forall d :: d in devices[1..] ==> d in devices;
      LinesAreFlows(c, rows, spec, devices[1..], i);
    }
  }

  /** In every period the lines of the devices add up to the total of the bucket. */
  lemma LinesAddUp(c: Chart, rows: seq<Row>, spec: Spec, now: int, i: nat)
    requires Grid(spec) && IsChart(c, rows, spec, now) && i < |c.buckets|
    ensures (forall d :: d in c.devices ==> d in c.series && i < |c.series[d]|)
            && LinesAt(c.series, c.devices, i) == c.buckets[i].total
  {
    hide Floor, PeriodStart, Flow, DeviceFlow, DeviceFromTag;
    var start := Start(spec, i);
    LinesAreFlows(c, rows, spec, c.devices, i);
    hide IsLine;
    forall k | 0 <= k < |rows| && InPeriod(rows[k], spec, start) ensures DeviceFromTag(rows[k].group.tag) in c.devices {
      assert c.periodStarts[i] == start;
    }
    DevicesShareThePeriod(rows, spec, start, c.devices);
    assert IsBucket(c.buckets[i], rows, spec, start);
  }

  // ---- what is fetched ------------------------------------------------------------------------------

  lemma {:induction false} FetchWithin(t: Table, s: int, e: int, deviceID: string)
    ensures forall k :: 0 <= k < |Fetch(t, s, e, deviceID)| ==> s <= Fetch(t, s, e, deviceID)[k].period <= e
  {
    hide TagMatches;
    if t != [] { FetchWithin(t[..|t| - 1], s, e, deviceID); }
  }

  lemma {:induction false} AddAllPeriods(t: Table, points: seq<Row>, at: int)
    requires forall k :: 0 <= k < |t| ==> t[k].period == at
    requires forall k :: 0 <= k < |points| ==> points[k].period == at
    ensures forall k :: 0 <= k < |AddAll(t, points)| ==> AddAll(t, points)[k].period == at
    decreases points
  {
    if points != [] {
      PutPeriods(t, at, points[0].group, points[0].bytes);
      AddAllPeriods(Put(t, at, points[0].group, points[0].bytes, true), points[1..], at);
    }
  }

  lemma {:induction false} PutPeriods(t: Table, at: int, g: Group, bytes: int)
    requires forall k :: 0 <= k < |t| ==> t[k].period == at
    ensures forall k :: 0 <= k < |Put(t, at, g, bytes, true)| ==> Put(t, at, g, bytes, true)[k].period == at
  {
    if t != [] { PutPeriods(t[1..], at, g, bytes); }
  }

  /** All fetched rows lie in the window of the chart. */
  lemma FetchedIsWindowed(rangeName: string, deviceID: string, now: int, zone: int, minute: Table, hour: Table,
      day: Table)
    requires NewRangeSpec(rangeName, now, zone).Some?
    ensures var spec := NewRangeSpec(rangeName, now, zone).value;
      Windowed(Fetched(rangeName, spec, deviceID, now, minute, hour, day), spec, now)
  {
    RangeIsGrid(rangeName, now, zone);
    hide Floor, Fetch;
    var spec := NewRangeSpec(rangeName, now, zone).value;
    FetchWithin(hour, spec.since, now, deviceID);
    FetchWithin(day, spec.since, now, deviceID);
    var live := if rangeName == "day" then minute else hour;
    AddAllPeriods([], Relabel(Fetch(live, spec.currentStart, now, deviceID), spec.currentStart), spec.currentStart);
  }

  lemma {:induction false} PutBytes(t: Table, p: int, g: Group, bytes: int)
    ensures BytesOf(Put(t, p, g, bytes, true)) == BytesOf(t) + bytes
  {
    if t == [] {
      assert [Row(p, g, bytes)][..0] == [];
    } else if t[0].period == p && t[0].group == g {
      BytesFirst(t);
      BytesFirst(Put(t, p, g, bytes, true));
      assert Put(t, p, g, bytes, true)[1..] == t[1..];
    } else {
      PutBytes(t[1..], p, g, bytes);
      BytesFirst(t);
      BytesFirst(Put(t, p, g, bytes, true));
      assert Put(t, p, g, bytes, true)[1..] == Put(t[1..], p, g, bytes, true);
    }
  }

  lemma {:induction false} BytesConcat(a: seq<Row>, b: seq<Row>)
    ensures BytesOf(a + b) == BytesOf(a) + BytesOf(b)
  {
    if b == [] {
      assert a + b == a;
    } else {
      assert (a + b)[..|a + b| - 1] == a + b[..|b| - 1];
      BytesConcat(a, b[..|b| - 1]);
    }
  }

  lemma BytesFirst(t: seq<Row>)
    requires t != []
    ensures BytesOf(t) == t[0].bytes + BytesOf(t[1..])
  {
    assert t == [t[0]] + t[1..];
    BytesConcat([t[0]], t[1..]);
    assert [t[0]][..0] == [];
  }

  lemma {:induction false} AddAllBytes(t: Table, points: seq<Row>)
    ensures BytesOf(AddAll(t, points)) == BytesOf(t) + BytesOf(points)
    decreases points
  {
    if points != [] {
      PutBytes(t, points[0].period, points[0].group, points[0].bytes);
      AddAllBytes(Put(t, points[0].period, points[0].group, points[0].bytes, true), points[1..]);
      BytesFirst(points);
    }
  }

  lemma {:induction false} RelabelBytes(rows: seq<Row>, at: int)
    ensures BytesOf(Relabel(rows, at)) == BytesOf(rows)
  {
    if rows != [] {
      RelabelBytes(rows[..|rows| - 1], at);
      assert Relabel(rows, at)[..|rows| - 1] == Relabel(rows[..|rows| - 1], at);
    }
  }

  /** Grouping the current period keeps its bytes. */
  lemma RegroupKeepsBytes(rows: seq<Row>, at: int)
    ensures BytesOf(Regroup(rows, at)) == BytesOf(rows)
  {
    RelabelBytes(rows, at);
    AddAllBytes([], Relabel(rows, at));
  }

  /** End to end: the chart's grand total is what the rolled-up table holds for the window
      plus what the finer table holds for the current period. */
  lemma ChartTotal(rangeName: string, deviceID: string, now: int, zone: int, minute: Table, hour: Table, day: Table,
      c: Chart)
    requires NewRangeSpec(rangeName, now, zone).Some? && Grid(NewRangeSpec(rangeName, now, zone).value)
    requires var spec := NewRangeSpec(rangeName, now, zone).value;
      IsChart(c, Fetched(rangeName, spec, deviceID, now, minute, hour, day), spec, now)
    ensures var spec := NewRangeSpec(rangeName, now, zone).value;
      var rolled, live := if rangeName == "day" then hour else day, if rangeName == "day" then minute else hour;
      Totalled(c.buckets) == BytesOf(Fetch(rolled, spec.since, now, deviceID)) +
          BytesOf(Fetch(live, spec.currentStart, now, deviceID))
  {
    hide Floor, Fetch, IsChart, Windowed, Regroup, BytesOf, Totalled, Grid;
    var spec := NewRangeSpec(rangeName, now, zone).value;
    var rolled, live := if rangeName == "day" then hour else day, if rangeName == "day" then minute else hour;
    FetchedIsWindowed(rangeName, deviceID, now, zone, minute, hour, day);
    GrandTotal(c, Fetched(rangeName, spec, deviceID, now, minute, hour, day), spec, now);
    BytesConcat(Fetch(rolled, spec.since, now, deviceID), FetchCurrent(live, spec.currentStart, now, deviceID));
    RegroupKeepsBytes(Fetch(live, spec.currentStart, now, deviceID), spec.currentStart);
  }

  /** A single row shows in its period only, as sent or received as its direction says, and in
      the line of its own device. */
  lemma OneRowChart(c: Chart, r: Row, spec: Spec, now: int, i: nat)
    requires Grid(spec) && IsChart(c, [r], spec, now) && i < |c.buckets| && spec.since <= r.period <= now
    ensures var shown := if Start(spec, i) <= r.period < Start(spec, i + 1) then r.bytes else 0;
      var d := DeviceFromTag(r.group.tag);
      && c.buckets[i] == Bucket(Start(spec, i), if r.group.direction then 0 else shown,
                                if r.group.direction then shown else 0, shown)
      && (forall x :: x in c.devices <==> x == d)
      && d in c.series && |c.series[d]| == |c.buckets| && c.series[d][i] == shown
  {
    hide Floor, DeviceFromTag;
    var d, at := DeviceFromTag(r.group.tag), Index(spec, r.period);
    PeriodContains(spec, r.period, i);
    InOnePeriod(spec, r.period, |c.buckets|);
    hide PeriodStart, Index;
    OneRowFlows(r, spec, Start(spec, i));
    hide Flow, DeviceFlow, Start;
    assert c.periodStarts[at] == PeriodStart(spec, r.period);
    assert IsBucket(c.buckets[i], [r], spec, Start(spec, i));
    assert PeriodStart(spec, [r][0].period) in c.periodStarts;
    assert d in c.devices;
    assert IsLine(c.series[d], |c.buckets|, [r], spec, d);
  }

  lemma OneRowFlows(r: Row, spec: Spec, start: int)
    requires spec.step > 0
    ensures var shown := if PeriodStart(spec, r.period) == start then r.bytes else 0;
      && Flow([r], spec, start, r.group.direction) == shown && Flow([r], spec, start, !r.group.direction) == 0
      && DeviceFlow([r], spec, start, DeviceFromTag(r.group.tag)) == shown
  {
    hide PeriodStart, DeviceFromTag;
    assert [r][..0] == [];
  }

  // ---- the chart of one device --------------------------------------------------------------------

  /** The device of a tag is what stands before the first '@'. */
  lemma {:induction false} DeviceCut(tag: string)
    ensures DeviceFromTag(tag) <= tag && '@' !in DeviceFromTag(tag)
    ensures |DeviceFromTag(tag)| < |tag| ==> tag[|DeviceFromTag(tag)|] == '@'
  {
    if tag != "" && tag[0] != '@' {
      DeviceCut(tag[1..]);
      assert tag == [tag[0]] + tag[1..];
    }
  }

  lemma LowerAt(s: string)
    ensures forall i :: 0 <= i < |s| ==> (Lower(s)[i] == '@' <==> s[i] == '@')
  {}

  lemma LowerConcat(a: string, b: string)
    ensures Lower(a + b) == Lower(a) + Lower(b)
  {}

  /** Asking for no device in particular selects every tag. */
  lemma BlankMatchesAll(tag: string, deviceID: string)
    requires forall i :: 0 <= i < |deviceID| ==> IsSpace(deviceID[i])
    ensures TagMatches(tag, deviceID)
  {
    BlankMeansSpaces(deviceID);
    hide Blank;
  }

  /** Asking for a device selects the tags of that device and no other, in whatever case it is
      written. */
  lemma TagMatchesExactly(tag: string, deviceID: string)
    requires !Blank(deviceID) && '@' !in Trim(deviceID)
    ensures TagMatches(tag, deviceID) <==> '@' in tag && Lower(DeviceFromTag(tag)) == Lower(Trim(deviceID))
  {
    var p, d := Trim(deviceID), DeviceFromTag(tag);
    var n := |p|;
    DeviceCut(tag);
    LowerAt(tag);
    LowerAt(p + "@");
    LowerConcat(p, "@");
    hide Trim, Blank, DeviceFromTag;
    if TagMatches(tag, deviceID) {
      assert Lower(tag[..n + 1])[n] == Lower(p + "@")[n] == '@';
      assert tag[n] == '@';
      assert Lower(tag[..n]) == Lower(p) by {
        LowerConcat(tag[..n], "@");
        assert tag[..n + 1] == tag[..n] + "@";
        assert (Lower(tag[..n]) + Lower("@"))[..n] == (Lower(p) + Lower("@"))[..n];
      }
      forall i | 0 <= i < n ensures tag[i] != '@' {
        assert Lower(tag)[i] == Lower(tag[..n])[i] == Lower(p)[i] == Lower(p + "@")[i];
        assert (p + "@")[i] == p[i] && p[i] in p;
      }
      assert d == tag[..n];
    }
    if '@' in tag && Lower(d) == Lower(p) {
      assert |d| == n && n < |tag|;
      assert tag[..n + 1] == d + "@";
      LowerConcat(d, "@");
    }
  }

  lemma {:induction false} FetchMembers(t: Table, s: int, e: int, deviceID: string)
    ensures forall r :: r in Fetch(t, s, e, deviceID) <==>
      r in t && r.group.resource == "iface" && s <= r.period <= e && TagMatches(r.group.tag, deviceID)
  {
    hide TagMatches;
    if t != [] {
      FetchMembers(t[..|t| - 1], s, e, deviceID);
      assert t == t[..|t| - 1] + [t[|t| - 1]];
    }
  }

  predicate TagsFrom(t: Table, tags: set<string>) { forall r :: r in t ==> r.group.tag in tags }

  lemma {:induction false} PutTags(t: Table, p: int, g: Group, bytes: int, tags: set<string>)
    requires TagsFrom(t, tags) && g.tag in tags
    ensures TagsFrom(Put(t, p, g, bytes, true), tags)
  {
    if t != [] {
      assert forall r :: r in t[1..] ==> r in t;
      PutTags(t[1..], p, g, bytes, tags);
    }
  }

  lemma {:induction false} AddAllTags(t: Table, points: seq<Row>, tags: set<string>)
    requires TagsFrom(t, tags) && TagsFrom(points, tags)
    ensures TagsFrom(AddAll(t, points), tags)
    decreases points
  {
    if points != [] {
      assert points[0] in points && forall r :: r in points[1..] ==> r in points;
      PutTags(t, points[0].period, points[0].group, points[0].bytes, tags);
      AddAllTags(Put(t, points[0].period, points[0].group, points[0].bytes, true), points[1..], tags);
    }
  }

  lemma FetchedTags(t: Table, s: int, e: int, deviceID: string, r: Row)
    requires r in Fetch(t, s, e, deviceID) || r in FetchCurrent(t, s, e, deviceID)
    ensures TagMatches(r.group.tag, deviceID)
  {
    hide TagMatches, Fetch;
    FetchMembers(t, s, e, deviceID);
    var f := Fetch(t, s, e, deviceID);
    var tags := set x | x in f :: x.group.tag;
    forall x | x in Relabel(f, s) ensures x.group.tag in tags {
      var i :| 0 <= i < |f| && Relabel(f, s)[i] == x;
      assert f[i] in f;
    }
    AddAllTags([], Relabel(f, s), tags);
  }

  /** The chart of one device shows that device only. */
  lemma OneDeviceOnly(rangeName: string, deviceID: string, now: int, zone: int, minute: Table, hour: Table,
      day: Table, c: Chart, d: string)
    requires NewRangeSpec(rangeName, now, zone).Some? && Grid(NewRangeSpec(rangeName, now, zone).value)
    requires var spec := NewRangeSpec(rangeName, now, zone).value;
      IsChart(c, Fetched(rangeName, spec, deviceID, now, minute, hour, day), spec, now)
    requires !Blank(deviceID) && '@' !in Trim(deviceID) && d in c.devices
    ensures Lower(d) == Lower(Trim(deviceID))
  {
    hide Floor, Fetch, FetchCurrent, TagMatches, Trim, Blank, Lower, DeviceFromTag, PeriodStart, IsLine, IsBucket;
    var spec := NewRangeSpec(rangeName, now, zone).value;
    var rows := Fetched(rangeName, spec, deviceID, now, minute, hour, day);
    var k :| 0 <= k < |rows| && DeviceFromTag(rows[k].group.tag) == d;
    hide NewRangeSpec, IsChart;
    var rolled, live := if rangeName == "day" then hour else day, if rangeName == "day" then minute else hour;
    if k < |Fetch(rolled, spec.since, now, deviceID)| {
      FetchedTags(rolled, spec.since, now, deviceID, rows[k]);
    } else {
      FetchedTags(live, spec.currentStart, now, deviceID, rows[k]);
    }
    TagMatchesExactly(rows[k].group.tag, deviceID);
  }
}
