/** Keyset paging through one thread, newest message first. */
module SmsPaging {
  import opened Common
  import opened SmsModel
  import opened SmsOrder

  datatype Thread = ByIMSI(imsi: string, peer: string) | ByICCID(iccid: string, peer: string)

  predicate Belongs(m: SMS, t: Thread) {
    match t
    case ByIMSI(imsi, peer) => m.imsi == imsi && m.peer == peer
    case ByICCID(iccid, peer) => m.iccid == iccid && m.peer == peer
  }

  function PageSize(limit: int): (n: nat)
    ensures 1 <= n <= 200
  {
    if limit <= 0 then 50 else if limit > 200 then 200 else limit
  }

  /** The cursor condition; a missing or zero timestamp falls back to the id alone. */
  predicate Past(m: SMS, beforeTs: Option<nat>, beforeId: nat) {
    if beforeTs.Some? && beforeTs.value != 0 && beforeId > 0 then
      m.timestamp < beforeTs.value || (m.timestamp == beforeTs.value && m.id < beforeId)
    else if beforeTs.Some? && beforeTs.value != 0 then m.timestamp < beforeTs.value
    else if beforeId > 0 then m.id < beforeId
    else true
  }

  /** One query: the newest messages of the thread past the cursor. */
  function Page(rows: seq<SMS>, t: Thread, limit: int, beforeTs: Option<nat>, beforeId: nat): seq<SMS> {
    Take(Reverse(Sort(Keep(rows, (m: SMS) => Belongs(m, t) && Past(m, beforeTs, beforeId)))), PageSize(limit))
  }

  /** The whole thread, newest message first. */
  function Newest(rows: seq<SMS>, t: Thread): seq<SMS> {
    Reverse(Sort(Keep(rows, (m: SMS) => Belongs(m, t))))
  }

  datatype Progress = Progress(read: seq<SMS>, beforeTs: Option<nat>, beforeId: nat)

  /** What a client has read after n pages, always following the last row it got. */
  function Walk(rows: seq<SMS>, t: Thread, limit: int, n: nat): Progress {
    if n == 0 then Progress([], None, 0)
    else
      var w := Walk(rows, t, limit, n - 1);
      var page := Page(rows, t, limit, w.beforeTs, w.beforeId);
      if page == [] then w
      else Progress(w.read + page, Some(page[|page| - 1].timestamp), page[|page| - 1].id)
  }

  ghost predicate Table(rows: seq<SMS>) {
    DistinctIds(rows) && forall i :: 0 <= i < |rows| ==> rows[i].id > 0
  }

  /** Messages with the zero timestamp are older than the others by id as well. */
  ghost predicate ZeroTimesFirst(d: seq<SMS>) {
    forall a, b :: a in d && b in d && a.timestamp == 0 && b.timestamp > 0 ==> a.id < b.id
  }

  /** The capacity of n pages. */
  function Total(limit: int, n: nat): nat { n * PageSize(limit) }

  /** Following the last row of each page reads the thread in order, page by page, without
      gaps and without repetition, for every page size. */
  ghost predicate PagingIsComplete(rows: seq<SMS>, t: Thread) {
    forall limit: int, n: nat :: Walk(rows, t, limit, n).read == Take(Newest(rows, t), Total(limit, n))
  }

  // ---- the order of a thread ---------------------------------------------------------

  ghost predicate Descending(d: seq<SMS>) {
    forall i, j :: 0 <= i < j < |d| ==> Before(d[j], d[i])
  }

  /** The reference list holds exactly the messages of the thread, newest first. */
  lemma NewestIsThread(rows: seq<SMS>, t: Thread)
    requires DistinctIds(rows)
    ensures Descending(Newest(rows, t))
    ensures multiset(Newest(rows, t)) == multiset(Keep(rows, (m: SMS) => Belongs(m, t)))
    ensures forall m :: m in Newest(rows, t) <==> m in rows && Belongs(m, t)
  {
    var p := (m: SMS) => Belongs(m, t);
    var k := Keep(rows, p);
    KeepDistinct(rows, p);
    KeepMembers(rows, p);
    SortSorted(k);
    SortMembers(k);
    SortElements(k);
    ReverseElements(Sort(k));
    var d := Newest(rows, t);
    forall m ensures m in d <==> m in Sort(k) {
      assert m in d <==> m in multiset(d);
      assert m in Sort(k) <==> m in multiset(Sort(k));
    }
  }

  /** By card or by subscriber: the messages of the thread are those with its peer and that
      ICCID or IMSI. */
  lemma ThreadMeans(rows: seq<SMS>, t: Thread, m: SMS)
    requires DistinctIds(rows)
    ensures m in Newest(rows, t) <==>
      m in rows && m.peer == t.peer && if t.ByIMSI? then m.imsi == t.imsi else m.iccid == t.iccid
  {
    NewestIsThread(rows, t);
    hide Newest;
  }

  lemma {:induction false} ReverseElements(s: seq<SMS>)
    ensures multiset(Reverse(s)) == multiset(s)
  {
    if s != [] {
      ReverseElements(s[1..]);
      assert s == [s[0]] + s[1..];
      assert Reverse(s) == Reverse(s[1..]) + [s[0]];
    } else {
      assert Reverse(s) == [];
    }
  }

  /** A cursor condition that accepts exactly what follows position k continues there. */
  lemma PageFrom(rows: seq<SMS>, t: Thread, limit: int, ts: Option<nat>, id: nat, k: nat)
    requires DistinctIds(rows) && k <= |Newest(rows, t)|
    requires forall i :: 0 <= i < |Newest(rows, t)| ==> (Past(Newest(rows, t)[i], ts, id) <==> i >= k)
    ensures Page(rows, t, limit, ts, id) == Take(Newest(rows, t)[k..], PageSize(limit))
  {
    var q := (m: SMS) => Past(m, ts, id);
    var s := Sort(Keep(rows, (m: SMS) => Belongs(m, t)));
    PageFiltersThread(rows, t, limit, ts, id);
    hide Sort, Keep, Page;
    PrefixOfReversed(s, k, q);
    KeepPrefix(s, |s| - k, q);
  }

  /** The query may as well filter the ordered thread. */
  lemma PageFiltersThread(rows: seq<SMS>, t: Thread, limit: int, ts: Option<nat>, id: nat)
    requires DistinctIds(rows)
    ensures Page(rows, t, limit, ts, id) ==
              Take(Reverse(Keep(Sort(Keep(rows, (m: SMS) => Belongs(m, t))), (m: SMS) => Past(m, ts, id))),
                   PageSize(limit))
  {
    var p := (m: SMS) => Belongs(m, t);
    var q := (m: SMS) => Past(m, ts, id);
    var both := (m: SMS) => Belongs(m, t) && Past(m, ts, id);
    KeepDistinct(rows, p);
    KeepTwice(rows, p, q, both);
    SortKeep(Keep(rows, p), q);
    hide Sort, Keep, Reverse;
  }

  lemma PrefixOfReversed(s: seq<SMS>, k: nat, q: SMS -> bool)
    requires k <= |s|
    requires forall i :: 0 <= i < |s| ==> (q(Reverse(s)[i]) <==> i >= k)
    ensures forall i :: 0 <= i < |s| ==> (q(s[i]) <==> i < |s| - k)
    ensures Reverse(s[..|s| - k]) == Reverse(s)[k..]
  {
    forall i | 0 <= i < |s| ensures q(s[i]) <==> i < |s| - k {
      assert Reverse(s)[|s| - 1 - i] == s[i];
    }
  }

  lemma {:induction false} KeepTwice(rows: seq<SMS>, p: SMS -> bool, q: SMS -> bool, both: SMS -> bool)
    requires forall m :: both(m) <==> p(m) && q(m)
    ensures Keep(Keep(rows, p), q) == Keep(rows, both)
  {
    if rows != [] {
      KeepTwice(rows[1..], p, q, both);
      KeepConcat(if p(rows[0]) then [rows[0]] else [], Keep(rows[1..], p), q);
      assert [rows[0]][1..] == [];
    }
  }

  /** From a row with a proper timestamp the next page continues right behind it. */
  lemma PageAfterRow(rows: seq<SMS>, t: Thread, limit: int, k: nat)
    requires Table(rows) && 0 < k <= |Newest(rows, t)|
    requires Newest(rows, t)[k - 1].timestamp > 0 || ZeroTimesFirst(Newest(rows, t))
    ensures var c := Newest(rows, t)[k - 1];
      Page(rows, t, limit, Some(c.timestamp), c.id) == Take(Newest(rows, t)[k..], PageSize(limit))
  {
    NewestIsThread(rows, t);
    var d := Newest(rows, t);
    var c := d[k - 1];
    assert c in d;
    assert c.id > 0;
    forall i | 0 <= i < |d| ensures Past(d[i], Some(c.timestamp), c.id) <==> i >= k {
      if i < k - 1 { assert Before(c, d[i]); }
      if i >= k { assert Before(d[i], c); }
      assert d[i] in d;
    }
    PageFrom(rows, t, limit, Some(c.timestamp), c.id, k);
  }

  /** Behind a zero timestamp the next page is right exactly when no message with a proper
      timestamp has a smaller id. */
  lemma ZeroCursorExactly(rows: seq<SMS>, t: Thread, limit: int, k: nat)
    requires Table(rows) && 0 < k <= |Newest(rows, t)| && Newest(rows, t)[k - 1].timestamp == 0
    ensures var d, c := Newest(rows, t), Newest(rows, t)[k - 1];
      Page(rows, t, limit, Some(0), c.id) == Take(d[k..], PageSize(limit)) <==>
      forall b :: b in d && b.timestamp > 0 ==> c.id < b.id
  {
    NewestIsThread(rows, t);
    var d := Newest(rows, t);
    var c := d[k - 1];
    assert c in d;
    assert c.id > 0;
    if forall b :: b in d && b.timestamp > 0 ==> c.id < b.id {
      forall i | 0 <= i < |d| ensures Past(d[i], Some(0), c.id) <==> i >= k {
        if i < k - 1 { assert Before(c, d[i]); }
        if i >= k { assert Before(d[i], c); }
        assert d[i] in d;
      }
      PageFrom(rows, t, limit, Some(0), c.id, k);
    } else {
      var b :| b in d && b.timestamp > 0 && b.id <= c.id;
      DifferentRows(rows, t, b, c);
      WrongPage(rows, t, limit, c.id, b);
      if k < |d| { assert Before(d[k], c); }
    }
  }

  lemma DifferentRows(rows: seq<SMS>, t: Thread, a: SMS, b: SMS)
    requires Table(rows) && a in Newest(rows, t) && b in Newest(rows, t) && a != b
    ensures a.id != b.id
  {
    NewestIsThread(rows, t);
    var i :| 0 <= i < |rows| && rows[i] == a;
    var j :| 0 <= j < |rows| && rows[j] == b;
    if i < j { assert rows[i].id != rows[j].id; } else { assert rows[j].id != rows[i].id; }
  }

  /** If a message with a proper timestamp has a smaller id, the page starts with such a
      message again. */
  lemma WrongPage(rows: seq<SMS>, t: Thread, limit: int, id: nat, b: SMS)
    requires Table(rows) && b in Newest(rows, t) && b.timestamp > 0 && b.id < id
    ensures var p := Page(rows, t, limit, Some(0), id); p != [] && p[0].timestamp > 0
  {
    NewestIsThread(rows, t);
    var both := (m: SMS) => Belongs(m, t) && Past(m, Some(0), id);
    var kept := Keep(rows, both);
    KeepMembers(rows, both);
    KeepDistinct(rows, both);
    SortMembers(kept);
    SortSorted(kept);
    hide Sort, Keep, Newest;
    var s := Sort(kept);
    assert b in s;
    var i :| 0 <= i < |s| && s[i] == b;
    assert Reverse(s)[0] == s[|s| - 1];
    if i < |s| - 1 { assert Before(s[i], s[|s| - 1]); }
  }

  // ---- whole walks ---------------------------------------------------------------------

  /** The client stands behind the first k messages of the thread. */
  ghost predicate StandsAt(d: seq<SMS>, w: Progress, k: nat) {
    && k <= |d| && w.read == d[..k]
    && (k == 0 ==> w.beforeTs == None && w.beforeId == 0)
    && (k > 0 ==> w.beforeTs == Some(d[k - 1].timestamp) && w.beforeId == d[k - 1].id)
  }

  lemma {:induction false} WalkIsPrefix(rows: seq<SMS>, t: Thread, limit: int, n: nat) returns (k: nat)
    requires Table(rows) && ZeroTimesFirst(Newest(rows, t))
    ensures StandsAt(Newest(rows, t), Walk(rows, t, limit, n), k)
    ensures Walk(rows, t, limit, n).read == Take(Newest(rows, t), Total(limit, n))
  {
    TotalSteps(limit, n);
    hide Newest, Page, PageSize, Total;
    k := 0;
    if n > 0 {
      k := WalkIsPrefix(rows, t, limit, n - 1);
      NextPrefix(Newest(rows, t), Total(limit, n - 1), PageSize(limit));
      k := WalkStep(rows, t, limit, n, k);
    }
  }

  lemma TotalSteps(limit: int, n: nat)
    ensures Total(limit, 0) == 0 && Total(limit, n) >= n
    ensures n > 0 ==> Total(limit, n) == Total(limit, n - 1) + PageSize(limit)
  {
    hide PageSize;
    assert n * PageSize(limit) >= n * 1;
    if n > 0 { assert n * PageSize(limit) == (n - 1) * PageSize(limit) + PageSize(limit); }
  }

  lemma NextPage(rows: seq<SMS>, t: Thread, limit: int, w: Progress, k: nat)
    requires Table(rows) && ZeroTimesFirst(Newest(rows, t)) && StandsAt(Newest(rows, t), w, k)
    ensures Page(rows, t, limit, w.beforeTs, w.beforeId) == Take(Newest(rows, t)[k..], PageSize(limit))
  {
    if k == 0 {
      PageFrom(rows, t, limit, None, 0, 0);
    } else {
      PageAfterRow(rows, t, limit, k);
    }
  }

  lemma WalkStep(rows: seq<SMS>, t: Thread, limit: int, n: nat, k: nat) returns (k': nat)
    requires Table(rows) && ZeroTimesFirst(Newest(rows, t)) && n > 0
    requires StandsAt(Newest(rows, t), Walk(rows, t, limit, n - 1), k)
    ensures StandsAt(Newest(rows, t), Walk(rows, t, limit, n), k')
    ensures Walk(rows, t, limit, n).read == Newest(rows, t)[..k] + Take(Newest(rows, t)[k..], PageSize(limit))
  {
    hide Newest, Page, PageSize;
    var d, w := Newest(rows, t), Walk(rows, t, limit, n - 1);
    NextPage(rows, t, limit, w, k);
    var page := Page(rows, t, limit, w.beforeTs, w.beforeId);
    assert page == Take(d[k..], PageSize(limit));
    k' := k + |page|;
    assert d[..k] + page == d[..k'];
  }

  lemma NextPrefix(d: seq<SMS>, a: nat, b: nat)
    ensures Take(d, a) + Take(d[|Take(d, a)|..], b) == Take(d, a + b)
  {}

  /** Keyset paging is complete for every page size exactly when the messages with the zero
      timestamp come before all others by id; in particular when there are none. */
  lemma PagingExactly(rows: seq<SMS>, t: Thread)
    requires Table(rows)
    ensures PagingIsComplete(rows, t) <==> ZeroTimesFirst(Newest(rows, t))
  {
    var d := Newest(rows, t);
    hide Newest, Walk;
    if ZeroTimesFirst(d) {
      forall limit: int, n: nat ensures Walk(rows, t, limit, n).read == Take(d, Total(limit, n)) {
        var _ := WalkIsPrefix(rows, t, limit, n);
      }
    }
    if PagingIsComplete(rows, t) {
      forall a, b | a in d && b in d && a.timestamp == 0 && b.timestamp > 0 ensures a.id < b.id {
        var k :| 0 <= k < |d| && d[k] == a;
        CompleteNeedsOrder(rows, t, k, b);
      }
    }
  }

  lemma {:induction false} SingleSteps(rows: seq<SMS>, t: Thread, k: nat)
    requires Table(rows) && PagingIsComplete(rows, t) && k < |Newest(rows, t)|
    ensures var w := Walk(rows, t, 1, k + 1);
      w.read == Newest(rows, t)[..k + 1]
      && w.beforeTs == Some(Newest(rows, t)[k].timestamp) && w.beforeId == Newest(rows, t)[k].id
  {
    var d := Newest(rows, t);
    assert Walk(rows, t, 1, k + 1).read == Take(d, Total(1, k + 1));
    assert Walk(rows, t, 1, k).read == Take(d, Total(1, k));
    var w := Walk(rows, t, 1, k);
    var page := Page(rows, t, 1, w.beforeTs, w.beforeId);
    assert w.read + page == d[..k + 1];
    assert page == [d[k]] by {
      assert (w.read + page)[k..] == page;
      assert d[..k + 1][k..] == [d[k]];
    }
  }

  lemma CompleteNeedsOrder(rows: seq<SMS>, t: Thread, k: nat, b: SMS)
    requires Table(rows) && k < |Newest(rows, t)| && PagingIsComplete(rows, t)
    requires Newest(rows, t)[k].timestamp == 0
    requires b in Newest(rows, t) && b.timestamp > 0
    ensures Newest(rows, t)[k].id < b.id
  {
    var d := Newest(rows, t);
    NewestIsThread(rows, t);
    SingleSteps(rows, t, k);
    assert d[k] in d;
    DifferentRows(rows, t, b, d[k]);
    var w := Walk(rows, t, 1, k + 1);
    var page := Page(rows, t, 1, w.beforeTs, w.beforeId);
    assert Walk(rows, t, 1, k + 2).read == Take(d, Total(1, k + 2));
    assert w.read + page == Take(d, k + 2);
    assert page == (w.read + page)[k + 1..];
    assert page != [] ==> k + 1 < |d| && page[0] == d[k + 1] && Before(d[k + 1], d[k]);
    if b.id < d[k].id {
      WrongPage(rows, t, 1, d[k].id, b);
    }
  }

  /** With proper timestamps a client reads every message of the thread exactly once, in
      descending order, and is done after at most as many pages as there are messages. */
  lemma PagingReadsEverythingOnce(rows: seq<SMS>, t: Thread, limit: int, n: nat)
    requires Table(rows)
    requires forall i :: 0 <= i < |rows| ==> rows[i].timestamp > 0
    requires n >= |Newest(rows, t)|
    ensures Walk(rows, t, limit, n).read == Newest(rows, t)
    ensures Page(rows, t, limit, Walk(rows, t, limit, n).beforeTs, Walk(rows, t, limit, n).beforeId) == []
  {
    NewestIsThread(rows, t);
    assert ZeroTimesFirst(Newest(rows, t));
    var k := WalkIsPrefix(rows, t, limit, n);
    TotalSteps(limit, n);
    hide Newest, Page, Walk;
    var d := Newest(rows, t);
    assert k == |d| by {
      assert d[..k] == d;
    }
    NextPage(rows, t, limit, Walk(rows, t, limit, n), k);
  }

  /** How much n pages read: up to the limit each, which is 50 if none is given and 200 at
      most, until the thread is read. */
  lemma PagesRead(rows: seq<SMS>, t: Thread, limit: int, n: nat)
    requires Table(rows) && ZeroTimesFirst(Newest(rows, t))
    ensures var size := if limit <= 0 then 50 else if limit <= 200 then limit else 200;
      |Walk(rows, t, limit, n).read| == if n * size <= |Newest(rows, t)| then n * size else |Newest(rows, t)|
  {
    var k := WalkIsPrefix(rows, t, limit, n);
    hide Walk, Newest;
  }

  lemma {:induction false} FirstOlder(d: seq<SMS>, ts: nat) returns (k: nat)
    requires Descending(d)
    ensures k <= |d| && forall i :: 0 <= i < |d| ==> (d[i].timestamp < ts <==> i >= k)
  {
    if d == [] || d[|d| - 1].timestamp >= ts {
      k := |d|;
      forall i | 0 <= i < |d| ensures d[i].timestamp >= ts {
        if i < |d| - 1 { assert Before(d[|d| - 1], d[i]); }
      }
    } else {
      k := FirstOlder(d[..|d| - 1], ts);
      assert forall i :: 0 <= i < |d| - 1 ==> d[i] == d[..|d| - 1][i];
      if k < |d| - 1 { assert d[k].timestamp < ts; }
    }
  }

  /** A cursor with a timestamp only continues at the first message that is older. */
  lemma TimeCursor(rows: seq<SMS>, t: Thread, limit: int, ts: nat) returns (k: nat)
    requires Table(rows) && ts > 0
    ensures k <= |Newest(rows, t)|
    ensures forall i :: 0 <= i < |Newest(rows, t)| ==> (Newest(rows, t)[i].timestamp < ts <==> i >= k)
    ensures Page(rows, t, limit, Some(ts), 0) == Take(Newest(rows, t)[k..], PageSize(limit))
  {
    NewestIsThread(rows, t);
    k := FirstOlder(Newest(rows, t), ts);
    PageFrom(rows, t, limit, Some(ts), 0, k);
  }

  lemma KeepPair(x: SMS, y: SMS, p: SMS -> bool)
    ensures Keep([x, y], p) == (if p(x) then [x] else []) + (if p(y) then [y] else [])
  {
    KeepConcat([x], [y], p);
    assert [x] + [y] == [x, y] && [x][1..] == [] && [y][1..] == [];
  }

  lemma SortPair(x: SMS, y: SMS)
    ensures Sort([x]) == [x] && Reverse([x]) == [x]
    ensures Before(y, x) ==> Reverse(Sort([x, y])) == [x, y]
  {
    assert [x][1..] == [] && [x, y][1..] == [y] && [y][1..] == [];
    assert Sort([y]) == [y];
    assert Before(y, x) ==> Insert(x, [y]) == [y] + Insert(x, []);
  }

  lemma PageOfPair(x: SMS, y: SMS, t: Thread, limit: int, ts: Option<nat>, id: nat)
    ensures Page([x, y], t, limit, ts, id) ==
              Take(Reverse(Sort((if Belongs(x, t) && Past(x, ts, id) then [x] else [])
                                + (if Belongs(y, t) && Past(y, ts, id) then [y] else []))), PageSize(limit))
  {
    KeepPair(x, y, (m: SMS) => Belongs(m, t) && Past(m, ts, id));
  }

  /** A concrete thread with a zero timestamp: pages of one message alternate forever. */
  lemma ZeroTimestampRepeats()
    ensures var a, z := SMS(1, "i", "", "p", "", "", "", 1, 0, 5), SMS(2, "i", "", "p", "", "", "", 1, 0, 0);
      && Page([a, z], ByIMSI("i", "p"), 1, None, 0) == [a]
      && Page([a, z], ByIMSI("i", "p"), 1, Some(5), 1) == [z]
      && Page([a, z], ByIMSI("i", "p"), 1, Some(0), 2) == [a]
  {
    var a, z := SMS(1, "i", "", "p", "", "", "", 1, 0, 5), SMS(2, "i", "", "p", "", "", "", 1, 0, 0);
    var t := ByIMSI("i", "p");
    PageOfPair(a, z, t, 1, None, 0);
    PageOfPair(a, z, t, 1, Some(5), 1);
    PageOfPair(a, z, t, 1, Some(0), 2);
    SortPair(a, z);
    SortPair(z, a);
    hide Page, Sort, Reverse;
    assert [a, z][..1] == [a];
  }
}
