/** Traffic counters: minutes are accumulated, hours and days are rolled up from the level
    below.  A table is the list of its rows; (period, group) is its unique index. */
module TrafficRollup {
  import opened Common

  const HOUR: int := 3600000000000
  const DAY: int := 24 * HOUR

  datatype Group = Group(resource: string, tag: string, direction: bool)
  datatype Row = Row(period: int, group: Group, bytes: int)
  type Table = seq<Row>

  ghost predicate Unique(t: Table) {
    forall i, j :: 0 <= i < j < |t| ==> t[i].period != t[j].period || t[i].group != t[j].group
  }

  function At(t: Table, p: int, g: Group): Option<int> {
    if t == [] then None
    else if t[0].period == p && t[0].group == g then Some(t[0].bytes)
    else At(t[1..], p, g)
  }

  function Bytes(t: Table, p: int, g: Group): int {
    if At(t, p, g).Some? then At(t, p, g).value else 0
  }

  predicate Within(r: Row, s: int, e: int, g: Group) { s <= r.period < e && r.group == g }

  function Sum(t: Table, s: int, e: int, g: Group): int {
    if t == [] then 0 else (if Within(t[0], s, e, g) then t[0].bytes else 0) + Sum(t[1..], s, e, g)
  }

  predicate Occurs(t: Table, s: int, e: int, g: Group) { exists i :: 0 <= i < |t| && Within(t[i], s, e, g) }

  // ---- the statements -------------------------------------------------------------

  /** INSERT ... ON CONFLICT DO UPDATE of one row: add to the row that is there, or replace
      its bytes. */
  function Put(t: Table, p: int, g: Group, bytes: int, add: bool): Table {
    if t == [] then [Row(p, g, bytes)]
    else if t[0].period == p && t[0].group == g then [Row(p, g, if add then t[0].bytes + bytes else bytes)] + t[1..]
    else [t[0]] + Put(t[1..], p, g, bytes, add)
  }

  function AddAll(t: Table, points: seq<Row>): Table
    decreases points
  {
    if points == [] then t else AddAll(Put(t, points[0].period, points[0].group, points[0].bytes, true), points[1..])
  }

  function Groups(t: Table, s: int, e: int): seq<Group> {
    if t == [] then []
    else
      var rest := Groups(t[1..], s, e);
      if s <= t[0].period < e && t[0].group !in rest then [t[0].group] + rest else rest
  }

  function PutSums(from: Table, to: Table, s: int, e: int, groups: seq<Group>): Table
    decreases groups
  {
    if groups == [] then to
    else PutSums(from, Put(to, s, groups[0], Sum(from, s, e, groups[0]), false), s, e, groups[1..])
  }

  /** INSERT ... SELECT SUM ... GROUP BY ... ON CONFLICT DO UPDATE. */
  function Rollup(from: Table, to: Table, s: int, e: int): Table {
    PutSums(from, to, s, e, Groups(from, s, e))
  }

  // ---- one row ----------------------------------------------------------------------

  lemma {:induction false} PutAt(t: Table, p: int, g: Group, bytes: int, add: bool, q: int, h: Group)
    ensures At(Put(t, p, g, bytes, add), q, h) ==
              if q == p && h == g then Some(if add then Bytes(t, p, g) + bytes else bytes) else At(t, q, h)
  {
    if t != [] && !(t[0].period == p && t[0].group == g) {
      PutAt(t[1..], p, g, bytes, add, q, h);
      assert Put(t, p, g, bytes, add)[1..] == Put(t[1..], p, g, bytes, add);
    }
  }

  lemma {:induction false} PutSum(t: Table, p: int, g: Group, bytes: int, s: int, e: int, h: Group)
    ensures Sum(Put(t, p, g, bytes, false), s, e, h) ==
              Sum(t, s, e, h) + if s <= p < e && h == g then bytes - Bytes(t, p, g) else 0
  {
    if t == [] {
      assert [Row(p, g, bytes)][1..] == [];
    } else if !(t[0].period == p && t[0].group == g) {
      PutSum(t[1..], p, g, bytes, s, e, h);
      assert Put(t, p, g, bytes, false)[1..] == Put(t[1..], p, g, bytes, false);
    } else {
      assert Put(t, p, g, bytes, false)[1..] == t[1..];
    }
  }

  lemma {:induction false} PutUnique(t: Table, p: int, g: Group, bytes: int, add: bool)
    requires Unique(t)
    ensures Unique(Put(t, p, g, bytes, add))
    ensures forall i :: 0 <= i < |Put(t, p, g, bytes, add)| ==>
      var r := Put(t, p, g, bytes, add)[i];
      (r.period == p && r.group == g) || exists j :: 0 <= j < |t| && t[j].period == r.period && t[j].group == r.group
  {
    if t != [] && !(t[0].period == p && t[0].group == g) {
      PutUnique(t[1..], p, g, bytes, add);
    }
  }

  lemma {:induction false} PutSame(t: Table, p: int, g: Group, bytes: int)
    requires At(t, p, g) == Some(bytes)
    ensures Put(t, p, g, bytes, false) == t
  {
    if !(t[0].period == p && t[0].group == g) {
      PutSame(t[1..], p, g, bytes);
    }
  }

  // ---- minutes: only the totals matter ------------------------------------------------

  function Total(points: seq<Row>, p: int, g: Group): int {
    if points == [] then 0
    else (if points[0].period == p && points[0].group == g then points[0].bytes else 0) + Total(points[1..], p, g)
  }

  predicate Mentions(points: seq<Row>, p: int, g: Group) {
    exists i :: 0 <= i < |points| && points[i].period == p && points[i].group == g
  }

  /** After an upsert every minute holds what it held plus what was added. */
  lemma {:induction false} AddAllAt(t: Table, points: seq<Row>, p: int, g: Group)
    ensures At(AddAll(t, points), p, g) ==
              if At(t, p, g).Some? || Mentions(points, p, g) then Some(Bytes(t, p, g) + Total(points, p, g)) else None
    decreases points
  {
    if points != [] {
      var x := points[0];
      var t' := Put(t, x.period, x.group, x.bytes, true);
      PutAt(t, x.period, x.group, x.bytes, true, p, g);
      AddAllAt(t', points[1..], p, g);
      assert Mentions(points, p, g) <==> (x.period == p && x.group == g) || Mentions(points[1..], p, g);
    }
  }

  lemma {:induction false} TotalConcat(a: seq<Row>, b: seq<Row>, p: int, g: Group)
    ensures Total(a + b, p, g) == Total(a, p, g) + Total(b, p, g)
  {
    if a == [] {
      assert a + b == b;
    } else {
      assert (a + b)[1..] == a[1..] + b;
      TotalConcat(a[1..], b, p, g);
    }
  }

  function Without(s: seq<Row>, i: nat): seq<Row>
    requires i < |s|
  {
    s[..i] + s[i + 1..]
  }

  lemma TotalWithout(s: seq<Row>, i: nat, p: int, g: Group)
    requires i < |s|
    ensures Total(s, p, g) == (if s[i].period == p && s[i].group == g then s[i].bytes else 0) +
        Total(Without(s, i), p, g)
    ensures multiset(Without(s, i)) == multiset(s) - multiset{s[i]}
  {
    var a, c := s[..i], s[i + 1..];
    assert s == a + [s[i]] + c && a + [s[i]] + c == a + ([s[i]] + c);
    TotalConcat(a, [s[i]] + c, p, g);
    TotalConcat([s[i]], c, p, g);
    TotalConcat(a, c, p, g);
    assert [s[i]][1..] == [];
  }

  lemma {:induction false} TotalOfMultiset(a: seq<Row>, b: seq<Row>, p: int, g: Group)
    requires multiset(a) == multiset(b)
    ensures Total(a, p, g) == Total(b, p, g)
    decreases a
  {
    if a == [] {
      assert |b| == |multiset(b)| == 0;
    } else {
      assert a[0] in multiset(b);
      var i :| 0 <= i < |b| && b[i] == a[0];
      TotalWithout(a, 0, p, g);
      TotalWithout(b, i, p, g);
      TotalOfMultiset(Without(a, 0), Without(b, i), p, g);
    }
  }

  /** Neither the order of the points nor their grouping into upserts matters. */
  lemma OrderIrrelevant(t: Table, a: seq<Row>, b: seq<Row>, p: int, g: Group)
    requires multiset(a) == multiset(b)
    ensures At(AddAll(t, a), p, g) == At(AddAll(t, b), p, g)
  {
    AddAllAt(t, a, p, g);
    AddAllAt(t, b, p, g);
    TotalOfMultiset(a, b, p, g);
    forall i | 0 <= i < |a| ensures a[i] in b { assert a[i] in multiset(b); }
    forall i | 0 <= i < |b| ensures b[i] in a { assert b[i] in multiset(a); }
  }

  lemma {:induction false} BatchingIrrelevant(t: Table, a: seq<Row>, b: seq<Row>)
    ensures AddAll(AddAll(t, a), b) == AddAll(t, a + b)
    decreases a
  {
    if a == [] {
      assert a + b == b;
    } else {
      assert (a + b)[1..] == a[1..] + b;
      BatchingIrrelevant(Put(t, a[0].period, a[0].group, a[0].bytes, true), a[1..], b);
    }
  }

  // ---- rolling up ------------------------------------------------------------------------

  lemma {:induction false} GroupsOccur(t: Table, s: int, e: int)
    ensures forall g :: g in Groups(t, s, e) <==> Occurs(t, s, e, g)
    ensures forall i, j :: 0 <= i < j < |Groups(t, s, e)| ==> Groups(t, s, e)[i] != Groups(t, s, e)[j]
  {
    if t != [] {
      GroupsOccur(t[1..], s, e);
      forall g ensures Occurs(t, s, e, g) <==> Within(t[0], s, e, g) || Occurs(t[1..], s, e, g) {
        OccursFirst(t, s, e, g);
      }
    }
  }

  lemma OccursFirst(t: Table, s: int, e: int, g: Group)
    requires t != []
    ensures Occurs(t, s, e, g) <==> Within(t[0], s, e, g) || Occurs(t[1..], s, e, g)
  {
    if Occurs(t[1..], s, e, g) {
      var i :| 0 <= i < |t[1..]| && Within(t[1..][i], s, e, g);
      assert Within(t[i + 1], s, e, g);
    }
  }

  lemma {:induction false} SumWithoutOccurrence(t: Table, s: int, e: int, g: Group)
    requires !Occurs(t, s, e, g)
    ensures Sum(t, s, e, g) == 0
  {
    if t != [] {
      OccursFirst(t, s, e, g);
      SumWithoutOccurrence(t[1..], s, e, g);
    }
  }

  lemma {:induction false} PutSumsAt(from: Table, to: Table, s: int, e: int, groups: seq<Group>, q: int, h: Group)
    ensures At(PutSums(from, to, s, e, groups), q, h) ==
              if q == s && h in groups then Some(Sum(from, s, e, h)) else At(to, q, h)
    decreases groups
  {
    if groups != [] {
      var g := groups[0];
      PutAt(to, s, g, Sum(from, s, e, g), false, q, h);
      PutSumsAt(from, Put(to, s, g, Sum(from, s, e, g), false), s, e, groups[1..], q, h);
      assert groups == [g] + groups[1..];
    }
  }

  /** A roll-up sets, for every group of the span, the row of the span's start to the sum,
      and leaves every other row alone. */
  lemma RollupAt(from: Table, to: Table, s: int, e: int, q: int, h: Group)
    ensures At(Rollup(from, to, s, e), q, h) ==
              if q == s && Occurs(from, s, e, h) then Some(Sum(from, s, e, h)) else At(to, q, h)
  {
    hide Occurs;
    GroupsOccur(from, s, e);
    PutSumsAt(from, to, s, e, Groups(from, s, e), q, h);
  }

  lemma {:induction false} PutSumsSum(from: Table, to: Table, s: int, e: int, groups: seq<Group>, a: int, b: int,
      h: Group)
    requires forall i, j :: 0 <= i < j < |groups| ==> groups[i] != groups[j]
    ensures Sum(PutSums(from, to, s, e, groups), a, b, h) ==
              Sum(to, a, b, h) + if a <= s < b && h in groups then Sum(from, s, e, h) - Bytes(to, s, h) else 0
    decreases groups
  {
    if groups != [] {
      var g := groups[0];
      var to' := Put(to, s, g, Sum(from, s, e, g), false);
      PutSum(to, s, g, Sum(from, s, e, g), a, b, h);
      PutAt(to, s, g, Sum(from, s, e, g), false, s, h);
      PutSumsSum(from, to', s, e, groups[1..], a, b, h);
      assert groups == [g] + groups[1..];
    }
  }

  /** What a roll-up does to the sum over any span of the target. */
  lemma RollupSum(from: Table, to: Table, s: int, e: int, a: int, b: int, h: Group)
    ensures Sum(Rollup(from, to, s, e), a, b, h) ==
              Sum(to, a, b, h) + if a <= s < b && Occurs(from, s, e, h) then Sum(from, s, e, h) - Bytes(to, s, h) else 0
  {
    hide Occurs;
    GroupsOccur(from, s, e);
    PutSumsSum(from, to, s, e, Groups(from, s, e), a, b, h);
  }

  /** Rolling up again with unchanged data changes nothing, not even the order of rows. */
  lemma RollupTwice(from: Table, to: Table, s: int, e: int)
    ensures Rollup(from, Rollup(from, to, s, e), s, e) == Rollup(from, to, s, e)
  {
    hide Occurs, Rollup;
    GroupsOccur(from, s, e);
    var done := Rollup(from, to, s, e);
    forall g | g in Groups(from, s, e) ensures At(done, s, g) == Some(Sum(from, s, e, g)) {
      RollupAt(from, to, s, e, s, g);
    }
    PutSumsSame(from, done, s, e, Groups(from, s, e));
    RollupIs(from, done, s, e);
  }

  lemma RollupIs(from: Table, to: Table, s: int, e: int)
    ensures Rollup(from, to, s, e) == PutSums(from, to, s, e, Groups(from, s, e))
  {}

  lemma {:induction false} PutSumsSame(from: Table, to: Table, s: int, e: int, groups: seq<Group>)
    requires forall g :: g in groups ==> At(to, s, g) == Some(Sum(from, s, e, g))
    ensures PutSums(from, to, s, e, groups) == to
    decreases groups
  {
    if groups != [] {
      PutSame(to, s, groups[0], Sum(from, s, e, groups[0]));
      PutSumsSame(from, to, s, e, groups[1..]);
    }
  }

  // ---- a day of hours ----------------------------------------------------------------------

  /** The hour table after the first n hours of the day have been rolled up. */
  function RollHours(minute: Table, hour: Table, day: int, n: nat): Table {
    if n == 0 then hour
    else Rollup(minute, RollHours(minute, hour, day, n - 1), day + (n - 1) * HOUR, day + n * HOUR)
  }

  /** Bytes of rows that the roll-ups of the first n hours replace. */
  function Replaced(minute: Table, hour: Table, day: int, n: nat, g: Group): int {
    if n == 0 then 0
    else Replaced(minute, hour, day, n - 1, g) +
         if Occurs(minute, day + (n - 1) * HOUR, day + n * HOUR, g) then Bytes(hour, day + (n - 1) * HOUR, g) else 0
  }

  lemma {:induction false} SumSplit(t: Table, a: int, b: int, c: int, g: Group)
    requires a <= b <= c
    ensures Sum(t, a, c, g) == Sum(t, a, b, g) + Sum(t, b, c, g)
    ensures Occurs(t, a, c, g) <==> Occurs(t, a, b, g) || Occurs(t, b, c, g)
  {
    if t != [] {
      SumSplit(t[1..], a, b, c, g);
      OccursFirst(t, a, c, g);
      OccursFirst(t, a, b, g);
      OccursFirst(t, b, c, g);
    }
  }

  /** Later hours are not touched by earlier roll-ups. */
  lemma {:induction false} LaterHours(minute: Table, hour: Table, day: int, n: nat, q: int, g: Group)
    requires q >= day + n * HOUR
    ensures At(RollHours(minute, hour, day, n), q, g) == At(hour, q, g)
  {
    if n > 0 {
      LaterHours(minute, hour, day, n - 1, q, g);
      RollupAt(minute, RollHours(minute, hour, day, n - 1), day + (n - 1) * HOUR, day + n * HOUR, q, g);
    }
  }

  lemma {:induction false} SumOfHours(minute: Table, hour: Table, day: int, n: nat, g: Group)
    requires n <= 24
    ensures Sum(RollHours(minute, hour, day, n), day, day + DAY, g) ==
              Sum(hour, day, day + DAY, g) + Sum(minute, day, day + n * HOUR, g) - Replaced(minute, hour, day, n, g)
  {
    if n == 0 {
      EmptySpan(minute, day, g);
    } else {
      var h := day + (n - 1) * HOUR;
      SumOfHours(minute, hour, day, n - 1, g);
      RollupSum(minute, RollHours(minute, hour, day, n - 1), h, day + n * HOUR, day, day + DAY, g);
      LaterHours(minute, hour, day, n - 1, h, g);
      SumSplit(minute, day, h, day + n * HOUR, g);
      if !Occurs(minute, h, day + n * HOUR, g) {
        SumWithoutOccurrence(minute, h, day + n * HOUR, g);
      }
    }
  }

  lemma {:induction false} EmptySpan(t: Table, s: int, g: Group)
    ensures Sum(t, s, s, g) == 0
  {
    if t != [] { EmptySpan(t[1..], s, g); }
  }

  lemma {:induction false} HasRow(t: Table, p: int, g: Group)
    ensures At(t, p, g).Some? <==> exists i :: 0 <= i < |t| && t[i].period == p && t[i].group == g
  {
    if t != [] && !(t[0].period == p && t[0].group == g) {
      HasRow(t[1..], p, g);
      if i :| 0 <= i < |t[1..]| && t[1..][i].period == p && t[1..][i].group == g {
        assert t[i + 1].period == p && t[i + 1].group == g;
      }
    }
  }

  lemma RollupOccurs(from: Table, to: Table, s: int, e: int, a: int, b: int, g: Group)
    ensures Occurs(Rollup(from, to, s, e), a, b, g) <==> Occurs(to, a, b, g) || (a <= s < b && Occurs(from, s, e, g))
  {
    hide Rollup, Occurs, At;
    var to' := Rollup(from, to, s, e);
    if Occurs(to', a, b, g) {
      var p := SomeRow(to', a, b, g);
      RollupAt(from, to, s, e, p, g);
      if At(to, p, g).Some? { RowOccurs(to, a, b, p, g); }
    } else {
      if Occurs(to, a, b, g) {
        var p := SomeRow(to, a, b, g);
        RollupAt(from, to, s, e, p, g);
        if At(to', p, g).Some? { RowOccurs(to', a, b, p, g); }
      }
      if a <= s < b {
        RollupAt(from, to, s, e, s, g);
        if At(to', s, g).Some? { RowOccurs(to', a, b, s, g); }
      }
    }
  }

  lemma SomeRow(t: Table, a: int, b: int, g: Group) returns (p: int)
    requires Occurs(t, a, b, g)
    ensures a <= p < b && At(t, p, g).Some?
  {
    var i :| 0 <= i < |t| && Within(t[i], a, b, g);
    p := t[i].period;
    HasRow(t, p, g);
  }

  lemma RowOccurs(t: Table, a: int, b: int, p: int, g: Group)
    requires a <= p < b && At(t, p, g).Some?
    ensures Occurs(t, a, b, g)
  {
    HasRow(t, p, g);
    var i :| 0 <= i < |t| && t[i].period == p && t[i].group == g;
    assert Within(t[i], a, b, g);
  }

  lemma {:induction false} HoursOccur(minute: Table, hour: Table, day: int, n: nat, g: Group)
    requires n <= 24
    ensures Occurs(RollHours(minute, hour, day, n), day, day + DAY, g) <==>
            Occurs(hour, day, day + DAY, g) || Occurs(minute, day, day + n * HOUR, g)
  {
    if n > 0 {
      var h := day + (n - 1) * HOUR;
      HoursOccur(minute, hour, day, n - 1, g);
      RollupOccurs(minute, RollHours(minute, hour, day, n - 1), h, day + n * HOUR, day, day + DAY, g);
      SumSplit(minute, day, h, day + n * HOUR, g);
    }
  }

  /** A row that some hour's roll-up replaces: it sits at the hour's start and there are
      minutes behind it. */
  predicate IsReplaced(minute: Table, day: int, n: nat, p: int, g: Group) {
    n > 0 && (IsReplaced(minute, day, n - 1, p, g) ||
              (p == day + (n - 1) * HOUR && Occurs(minute, day + (n - 1) * HOUR, day + n * HOUR, g)))
  }

  predicate IsStale(r: Row, minute: Table, day: int, n: nat, g: Group) {
    Within(r, day, day + DAY, g) && !IsReplaced(minute, day, n, r.period, g)
  }

  /** The bytes of the hour rows of the day that no roll-up replaces. */
  function StaleSum(hour: Table, minute: Table, day: int, n: nat, g: Group): int {
    if hour == [] then 0
    else (if IsStale(hour[0], minute, day, n, g) then hour[0].bytes else 0) + StaleSum(hour[1..], minute, day, n, g)
  }

  lemma {:induction false} ReplacedBefore(minute: Table, day: int, n: nat, p: int, g: Group)
    ensures IsReplaced(minute, day, n, p, g) ==> p < day + n * HOUR
  {
    if n > 0 { ReplacedBefore(minute, day, n - 1, p, g); }
  }

  lemma UniqueTail(t: Table)
    requires Unique(t) && t != []
    ensures Unique(t[1..]) && At(t[1..], t[0].period, t[0].group).None?
  {
    HasRow(t[1..], t[0].period, t[0].group);
  }

  lemma {:induction false} StaleStep(hour: Table, minute: Table, day: int, n: nat, g: Group)
    requires Unique(hour) && 0 < n <= 24
    ensures var h := day + (n - 1) * HOUR;
      StaleSum(hour, minute, day, n - 1, g) - StaleSum(hour, minute, day, n, g) ==
        if Occurs(minute, h, day + n * HOUR, g) then Bytes(hour, h, g) else 0
  {
    if hour != [] {
      var h := day + (n - 1) * HOUR;
      UniqueTail(hour);
      StaleStep(hour[1..], minute, day, n, g);
      ReplacedBefore(minute, day, n - 1, hour[0].period, g);
      hide Occurs;
    }
  }

  lemma {:induction false} NothingReplaced(hour: Table, minute: Table, day: int, g: Group)
    ensures StaleSum(hour, minute, day, 0, g) == Sum(hour, day, day + DAY, g)
  {
    if hour != [] { NothingReplaced(hour[1..], minute, day, g); }
  }

  lemma {:induction false} StaleOrReplaced(hour: Table, minute: Table, day: int, n: nat, g: Group)
    requires Unique(hour) && n <= 24
    ensures StaleSum(hour, minute, day, n, g) + Replaced(minute, hour, day, n, g) == Sum(hour, day, day + DAY, g)
  {
    if n == 0 {
      NothingReplaced(hour, minute, day, g);
    } else {
      StaleOrReplaced(hour, minute, day, n - 1, g);
      StaleStep(hour, minute, day, n, g);
    }
  }

  /** The day table after its 24 hours and then the day have been rolled up. */
  function RollDay(minute: Table, hour: Table, days: Table, day: int): Table {
    Rollup(RollHours(minute, hour, day, 24), days, day, day + DAY)
  }

  /** A day holds the bytes of its minutes and of the stale hours, if there is any row of
      the group at all; otherwise it stays as it was. */
  lemma DayHolds(minute: Table, hour: Table, days: Table, day: int, g: Group)
    requires Unique(hour)
    ensures At(RollDay(minute, hour, days, day), day, g) ==
              if Occurs(minute, day, day + DAY, g) || Occurs(hour, day, day + DAY, g)
              then Some(Sum(minute, day, day + DAY, g) + StaleSum(hour, minute, day, 24, g))
              else At(days, day, g)
  {
    SumOfHours(minute, hour, day, 24, g);
    StaleOrReplaced(hour, minute, day, 24, g);
    HoursOccur(minute, hour, day, 24, g);
    RollupAt(RollHours(minute, hour, day, 24), days, day, day + DAY, day, g);
  }

  /** Bytes are conserved from minutes to the day when the hour table has no row of the
      group for that day yet. */
  lemma DayConserves(minute: Table, hour: Table, days: Table, day: int, g: Group)
    requires Unique(hour) && !Occurs(hour, day, day + DAY, g) && Occurs(minute, day, day + DAY, g)
    ensures At(RollDay(minute, hour, days, day), day, g) == Some(Sum(minute, day, day + DAY, g))
  {
    DayHolds(minute, hour, days, day, g);
    NoneStale(hour, minute, day, g);
  }

  lemma {:induction false} NoneStale(hour: Table, minute: Table, day: int, g: Group)
    requires forall i :: 0 <= i < |hour| && IsStale(hour[i], minute, day, 24, g) ==> hour[i].bytes == 0
    ensures StaleSum(hour, minute, day, 24, g) == 0
  {
    if hour != [] { NoneStale(hour[1..], minute, day, g); }
  }

  lemma {:induction false} SomeStale(hour: Table, minute: Table, day: int, g: Group)
    requires forall i :: 0 <= i < |hour| ==> hour[i].bytes >= 0
    ensures StaleSum(hour, minute, day, 24, g) >= 0
    ensures forall i :: 0 <= i < |hour| && IsStale(hour[i], minute, day, 24, g) ==>
      hour[i].bytes <= StaleSum(hour, minute, day, 24, g)
  {
    if hour != [] {
      SomeStale(hour[1..], minute, day, g);
      hide IsStale;
      assert forall i :: 1 <= i < |hour| ==> hour[i] == hour[1..][i - 1];
    }
  }

  /** Exactly when a day with data holds the sum of its minutes: every hour row of that day
      without minutes behind it is empty. */
  lemma DayConservesExactly(minute: Table, hour: Table, days: Table, day: int, g: Group)
    requires Unique(hour) && forall i :: 0 <= i < |hour| ==> hour[i].bytes >= 0
    requires Occurs(minute, day, day + DAY, g) || Occurs(hour, day, day + DAY, g)
    ensures At(RollDay(minute, hour, days, day), day, g) == Some(Sum(minute, day, day + DAY, g)) <==>
            forall i :: 0 <= i < |hour| && IsStale(hour[i], minute, day, 24, g) ==> hour[i].bytes == 0
  {
    hide RollDay, IsStale;
    DayHolds(minute, hour, days, day, g);
    SomeStale(hour, minute, day, g);
    if forall i :: 0 <= i < |hour| && IsStale(hour[i], minute, day, 24, g) ==> hour[i].bytes == 0 {
      NoneStale(hour, minute, day, g);
    }
  }

  /** An hour whose minutes are gone still counts. */
  lemma StaleHourCounts(g: Group)
    ensures At(RollDay([], [Row(0, g, 5)], [], 0), 0, g) == Some(5)
    ensures Sum([], 0, DAY, g) == 0
  {
    var hour := [Row(0, g, 5)];
    assert Within(hour[0], 0, DAY, g);
    DayHolds([], hour, [], 0, g);
    NothingToReplace(24, 0, g);
    assert hour[1..] == [];
    assert StaleSum(hour, [], 0, 24, g) == 5;
  }

  lemma {:induction false} NothingToReplace(n: nat, p: int, g: Group)
    ensures !IsReplaced([], 0, n, p, g)
  {
    if n > 0 { NothingToReplace(n - 1, p, g); }
  }

  // ---- the tables -----------------------------------------------------------------------------

  class TrafficDb {
    var minute: Table
    var hour: Table
    var day: Table

    ghost predicate Valid()
      reads this
    {
      Unique(minute) && Unique(hour) && Unique(day)
    }

    constructor ()
      ensures Valid() && minute == [] && hour == [] && day == []
    {
      minute, hour, day := [], [], [];
    }

    method UpsertTrafficMinute(points: seq<Row>)
      requires Valid()
      modifies this`minute
      ensures Valid() && minute == AddAll(old(minute), points)
    {
      var i := 0;
      while i < |points|
        invariant i <= |points| && Unique(minute)
        invariant minute == AddAll(old(minute), points[..i])
      {
        var p := points[i];
        PutUnique(minute, p.period, p.group, p.bytes, true);
        BatchingIrrelevant(old(minute), points[..i], [p]);
        assert points[..i + 1] == points[..i] + [p] && [p][1..] == [];
        minute := Put(minute, p.period, p.group, p.bytes, true);
        i := i + 1;
      }
      assert points[..i] == points;
    }

    method RollupToHour(hourStart: int)
      requires Valid()
      modifies this`hour
      ensures Valid() && hour == Rollup(minute, old(hour), hourStart, hourStart + HOUR)
    {
      PutSumsUnique(minute, hour, hourStart, hourStart + HOUR, Groups(minute, hourStart, hourStart + HOUR));
      hour := Rollup(minute, hour, hourStart, hourStart + HOUR);
    }

    method RollupToDay(dayStart: int)
      requires Valid()
      modifies this`day
      ensures Valid() && day == Rollup(hour, old(day), dayStart, dayStart + DAY)
    {
      PutSumsUnique(hour, day, dayStart, dayStart + DAY, Groups(hour, dayStart, dayStart + DAY));
      day := Rollup(hour, day, dayStart, dayStart + DAY);
    }
  }

  lemma {:induction false} PutSumsUnique(from: Table, to: Table, s: int, e: int, groups: seq<Group>)
    requires Unique(to)
    ensures Unique(PutSums(from, to, s, e, groups))
    decreases groups
  {
    if groups != [] {
      PutUnique(to, s, groups[0], Sum(from, s, e, groups[0]), false);
      PutSumsUnique(from, Put(to, s, groups[0], Sum(from, s, e, groups[0]), false), s, e, groups[1..]);
    }
  }
}
