/** The message table and its denormalised contact index under saves, deletions and
    rebuilds.  Each transaction is atomic. */
module SmsStore {
  import opened Common
  import opened Text
  import opened SmsModel

  const SECOND: nat := 1_000_000_000

  datatype Db = Db(rows: seq<SMS>, contacts: Contacts)

  datatype Op =
    | Save(id: nat, imsi: string, iccid: string, sender: string, recipient: string,
           content: string, kind: int, status: int, timestamp: nat)
    | DeleteId(id: nat)
    | DeleteThread(imsi: string, peer: string)
    | Rebuild(imsi: string, peer: string)

  function RowIndex(rows: seq<SMS>, id: nat): (i: nat)
    ensures i <= |rows|
    ensures i < |rows| ==> rows[i].id == id
    ensures forall j :: 0 <= j < i ==> rows[j].id != id
  {
    if rows == [] then 0 else if rows[0].id == id then 0 else
      var k := RowIndex(rows[1..], id);
      assert forall j :: 1 <= j < 1 + k ==> rows[j] == rows[1..][j - 1];
      1 + k
  }

  function Without(rows: seq<SMS>, k: Key): seq<SMS> {
    if rows == [] then []
    else Without(rows[..|rows| - 1], k) + if KeyOf(rows[|rows| - 1]) == k then [] else [rows[|rows| - 1]]
  }

  function MessageOf(op: Op): SMS
    requires op.Save?
  {
    SMS(op.id, Trim(op.imsi), op.iccid, NormalizePeer(op.kind, op.sender, op.recipient),
        Trim(op.sender), Trim(op.recipient), op.content, op.kind, op.status,
        ToSecond(op.timestamp))
  }

  function ToSecond(t: nat): nat { t - t % SECOND }

  /** The database hands out ids larger than those in the table. */
  predicate Applicable(db: Db, op: Op) {
    op.Save? ==> op.id > 0 && forall i :: 0 <= i < |db.rows| ==> db.rows[i].id < op.id
  }

  function Apply(db: Db, op: Op): Db {
    match op
    case Save(_, _, _, _, _, _, _, _, _) =>
      var m := MessageOf(op);
      Db(db.rows + [m], if m.peer == "" then db.contacts else Upsert(db.contacts, m))
    case DeleteId(id) =>
      var i := RowIndex(db.rows, id);
      if i == |db.rows| then db
      else
        var rows := db.rows[..i] + db.rows[i + 1..];
        Db(rows, RebuildContact(rows, db.contacts, db.rows[i].imsi, db.rows[i].peer))
    case DeleteThread(imsi, peer) =>
      var k := (Trim(imsi), Trim(peer));
      if k.0 == "" || k.1 == "" || Latest(db.rows, k).None? then db
      else Db(Without(db.rows, k), db.contacts - {k})
    case Rebuild(imsi, peer) =>
      Db(db.rows, RebuildContact(db.rows, db.contacts, imsi, peer))
  }

  /** What a save leaves behind: one more row, filed under the recipient if the message was
      sent and has one and under the sender otherwise; a contact for it that shows the
      message, and counts it if it came in unread; and no other contact changed. */
  ghost predicate Filed(db: Db, op: Op, db': Db)
    requires op.Save?
  {
    var n := |db.rows|;
    && |db'.rows| == n + 1 && db'.rows[..n] == db.rows
    && var m := db'.rows[n];
       var k, was := (m.imsi, m.peer), Lookup(db.contacts, (m.imsi, m.peer));
       var unread := (if was.Some? then was.value.unread else 0) + if op.kind == 1 && op.status == 0 then 1 else 0;
       && m.peer == (if op.kind == 2 && !Blank(op.recipient) then Trim(op.recipient) else Trim(op.sender))
       && m == SMS(op.id, Trim(op.imsi), op.iccid, m.peer, Trim(op.sender), Trim(op.recipient), op.content, op.kind,
                   op.status, op.timestamp - op.timestamp % 1_000_000_000)
       && (m.peer == "" ==> db'.contacts == db.contacts)
       && (m.peer != "" ==>
             Lookup(db'.contacts, k) == Some(Contact(op.iccid, op.id, m.timestamp, op.content, op.kind, unread)))
       && forall k' :: k' != k ==> Lookup(db'.contacts, k') == Lookup(db.contacts, k')
  }

  lemma SavedIsFiled(db: Db, op: Op)
    requires op.Save?
    ensures Filed(db, op, Apply(db, op))
  {
    hide Trim;
  }

  // ---- the store object ------------------------------------------------------------

  datatype DeleteResult = NotFound | Deleted(threadEmpty: bool, imsi: string, peer: string)

  class Store {
    var rows: seq<SMS>
    var contacts: Contacts

    ghost function View(): Db
      reads this
    {
      Db(rows, contacts)
    }

    constructor ()
      ensures View() == Db([], map[])
    {
      rows, contacts := [], map[];
    }

    method UpsertContactFromSMS(m: SMS)
      modifies this`contacts
      ensures contacts == Upsert(old(contacts), m)
    {
      var unread := if IncomingUnread(m) then 1 else 0;
      if KeyOf(m) in contacts {
        unread := unread + contacts[KeyOf(m)].unread;
      }
      contacts := contacts[KeyOf(m) := Contact(m.iccid, m.id, m.timestamp, m.content, m.kind, unread)];
    }

    method SaveSMS(id: nat, imsi: string, iccid: string, sender: string, recipient: string,
                   content: string, kind: int, status: int, timestamp: nat)
      modifies this
      ensures View() == Apply(old(View()), Save(id, imsi, iccid, sender, recipient, content, kind, status, timestamp))
      ensures Filed(old(View()), Save(id, imsi, iccid, sender, recipient, content, kind, status, timestamp), View())
    {
      SavedIsFiled(View(), Save(id, imsi, iccid, sender, recipient, content, kind, status, timestamp));
      hide Trim, NormalizePeer, ToSecond, Upsert, Filed;
      var peer := NormalizePeer(kind, sender, recipient);
      var m := SMS(id, Trim(imsi), iccid, peer, Trim(sender), Trim(recipient), content, kind, status,
          ToSecond(timestamp));
      rows := rows + [m];
      if peer != "" {
        UpsertContactFromSMS(m);
      }
    }

    /** Returns whether the thread is empty (a blank key counts as empty). */
    method RebuildSMSContact(imsi: string, peer: string) returns (threadEmpty: bool)
      modifies this`contacts
      ensures contacts == RebuildContact(rows, old(contacts), imsi, peer)
      ensures threadEmpty <==> Blank(imsi) || Blank(peer) || Latest(rows, (Trim(imsi), Trim(peer))).None?
    {
      var k := (Trim(imsi), Trim(peer));
      if k.0 == "" || k.1 == "" { return true; }
      var latest := Latest(rows, k);
      if latest.None? {
        contacts := contacts - {k};
        return true;
      }
      contacts := contacts[k := ContactOf(latest.value, Unread(rows, k))];
      return false;
    }

    method DeleteSMSByID(id: nat) returns (r: DeleteResult)
      modifies this
      ensures View() == Apply(old(View()), DeleteId(id))
      ensures r == NotFound <==> RowIndex(old(rows), id) == |old(rows)|
      ensures r.Deleted? ==> (r.threadEmpty <==> Blank(r.imsi) || Blank(r.peer) || Latest(rows, (r.imsi, r.peer)).None?)
    {
      hide Trim, RowIndex, Latest, Unread, Summary, RebuildContact;
      var i := RowIndex(rows, id);
      if i == |rows| { return NotFound; }
      var m := rows[i];
      rows := rows[..i] + rows[i + 1..];
      var empty := RebuildSMSContact(m.imsi, m.peer);
      TrimTwice(m.imsi);
      TrimTwice(m.peer);
      return Deleted(empty, Trim(m.imsi), Trim(m.peer));
    }

    /** Number of deleted messages; 0 stands for the not-found error. */
    method DeleteSMSByIMSIAndPeer(imsi: string, peer: string) returns (deleted: nat)
      modifies this
      ensures View() == Apply(old(View()), DeleteThread(imsi, peer))
      ensures deleted == if Blank(imsi) || Blank(peer) then 0 else |old(rows)| - |rows|
      ensures deleted == 0 ==> View() == old(View())
    {
      var k := (Trim(imsi), Trim(peer));
      if k.0 == "" || k.1 == "" { return 0; }
      var kept := Without(rows, k);
      WithoutCounts(rows, k);
      deleted := |rows| - |kept|;
      if deleted == 0 { return; }
      rows := kept;
      contacts := contacts - {k};
    }
  }

  lemma {:induction false} WithoutCounts(rows: seq<SMS>, k: Key)
    ensures |Without(rows, k)| <= |rows|
    ensures |Without(rows, k)| == |rows| <==> Latest(rows, k).None?
  {
    if rows != [] {
      WithoutCounts(rows[..|rows| - 1], k);
    }
  }

  // ---- agreement of index and table --------------------------------------------------

  /** The contact row of this key is exactly the summary of its thread. */
  predicate Agrees(db: Db, k: Key) { Lookup(db.contacts, k) == Summary(db.rows, k) }

  /** The weaker agreement that does not look at the last message. */
  predicate Counts(db: Db, k: Key) {
    && (k in db.contacts <==> Latest(db.rows, k).Some?)
    && (k in db.contacts ==> db.contacts[k].unread == Unread(db.rows, k))
  }

  ghost predicate WellFormed(db: Db) {
    && DistinctIds(db.rows)
    && (forall i :: 0 <= i < |db.rows| ==>
          Trim(db.rows[i].imsi) == db.rows[i].imsi && Trim(db.rows[i].peer) == db.rows[i].peer)
  }

  lemma NormalizedPeerIsTrimmed(kind: int, sender: string, recipient: string)
    ensures Trim(NormalizePeer(kind, sender, recipient)) == NormalizePeer(kind, sender, recipient)
  {
    TrimTwice(sender);
    TrimTwice(recipient);
  }

  lemma {:induction false} WithoutIsSubsequence(rows: seq<SMS>, k: Key)
    requires DistinctIds(rows)
    ensures DistinctIds(Without(rows, k))
    ensures forall m :: m in Without(rows, k) ==> m in rows
  {
    if rows != [] {
      var init, last := rows[..|rows| - 1], rows[|rows| - 1];
      assert forall i :: 0 <= i < |init| ==> init[i] == rows[i];
      WithoutIsSubsequence(init, k);
      var w := Without(init, k);
      forall i | 0 <= i < |w| ensures w[i].id != last.id {
        assert w[i] in init;
      }
    }
  }

  lemma StaysWellFormed(db: Db, op: Op)
    requires WellFormed(db) && Applicable(db, op)
    ensures WellFormed(Apply(db, op))
  {
    hide Trim, NormalizePeer, Upsert, RebuildContact, Latest, Unread;
    match op
    case Save(_, imsi, _, sender, recipient, _, kind, _, _) =>
      NormalizedPeerIsTrimmed(kind, sender, recipient);
      TrimTwice(imsi);
    case DeleteId(id) =>
      var i := RowIndex(db.rows, id);
      if i < |db.rows| {
        var r := db.rows[..i] + db.rows[i + 1..];
        assert forall j :: 0 <= j < |r| ==> r[j] == db.rows[if j < i then j else j + 1];
      }
    case DeleteThread(imsi, peer) =>
      var k := (Trim(imsi), Trim(peer));
      WithoutIsSubsequence(db.rows, k);
      var w := Without(db.rows, k);
      forall j | 0 <= j < |w| ensures Trim(w[j].imsi) == w[j].imsi && Trim(w[j].peer) == w[j].peer {
        assert w[j] in db.rows;
      }
    case Rebuild(_, _) =>
  }

  lemma {:induction false} SummaryWithout(rows: seq<SMS>, k: Key, k': Key)
    ensures k' == k ==> Latest(Without(rows, k), k').None?
    ensures k' != k ==>
              Latest(Without(rows, k), k') == Latest(rows, k') && Unread(Without(rows, k), k') == Unread(rows, k')
  {
    if rows != [] {
      var init, last := rows[..|rows| - 1], rows[|rows| - 1];
      SummaryWithout(init, k, k');
      if KeyOf(last) != k {
        assert (Without(init, k) + [last])[..|Without(init, k)|] == Without(init, k);
      } else {
        assert Without(rows, k) == Without(init, k);
      }
    }
  }

  predicate OlderThanLatest(rows: seq<SMS>, m: SMS) {
    Latest(rows, KeyOf(m)).Some? && m.timestamp < Latest(rows, KeyOf(m)).value.timestamp
  }

  /** A saved message. */
  lemma SaveSummary(rows: seq<SMS>, m: SMS, k: Key)
    requires forall i :: 0 <= i < |rows| ==> rows[i].id < m.id
    ensures Unread(rows + [m], k) == Unread(rows, k) + if KeyOf(m) == k && IncomingUnread(m) then 1 else 0
    ensures KeyOf(m) != k ==> Latest(rows + [m], k) == Latest(rows, k)
    ensures KeyOf(m) == k ==>
              (Latest(rows + [m], k) == if OlderThanLatest(rows, m) then Latest(rows, k) else Some(m))
  {
    hide Trim;
    SingleSummary(m, k);
    ConcatUnread(rows, [m], k);
    ConcatLatest(rows, [m], k);
    LatestIsGreatest(rows, k);
  }

  lemma UpsertAgreesExactly(rows: seq<SMS>, cs: Contacts, m: SMS)
    requires forall i :: 0 <= i < |rows| ==> rows[i].id < m.id
    requires Counts(Db(rows, cs), KeyOf(m))
    ensures Agrees(Db(rows + [m], Upsert(cs, m)), KeyOf(m)) <==> !OlderThanLatest(rows, m)
  {
    hide Latest, Unread, Before;
    var k := KeyOf(m);
    SaveSummary(rows, m, k);
    LatestIsGreatest(rows, k);
    EmptyThreadHasNoUnread(rows, k);
    if OlderThanLatest(rows, m) {
      assert Summary(rows + [m], k).value.lastId == Latest(rows, k).value.id < m.id;
    }
  }

  /** Whatever last message the contact showed before, after a save it agrees exactly when
      the message is not older than the thread's latest one. */
  lemma SaveAgreesExactly(db: Db, op: Op)
    requires op.Save? && Applicable(db, op) && MessageOf(op).peer != ""
    requires Counts(db, KeyOf(MessageOf(op)))
    ensures Agrees(Apply(db, op), KeyOf(MessageOf(op))) <==> !OlderThanLatest(db.rows, MessageOf(op))
  {
    UpsertAgreesExactly(db.rows, db.contacts, MessageOf(op));
    assert MessageOf(op).id == op.id;
    hide MessageOf, Upsert, OlderThanLatest;
  }

  lemma UpsertElsewhere(rows: seq<SMS>, cs: Contacts, m: SMS, k: Key)
    requires forall i :: 0 <= i < |rows| ==> rows[i].id < m.id
    requires k != KeyOf(m)
    ensures Lookup(Upsert(cs, m), k) == Lookup(cs, k)
    ensures Latest(rows + [m], k) == Latest(rows, k) && Unread(rows + [m], k) == Unread(rows, k)
  {
    SaveSummary(rows, m, k);
  }

  /** Deleting one message repairs the contact of its thread, whatever state it was in,
      if the IMSI is not blank. */
  lemma DeleteRepairs(db: Db, id: nat)
    requires WellFormed(db) && RowIndex(db.rows, id) < |db.rows|
    ensures var m := db.rows[RowIndex(db.rows, id)];
      m.imsi != "" && m.peer != "" ==> Agrees(Apply(db, DeleteId(id)), KeyOf(m))
  {
    hide Trim, Latest, Unread;
  }

  /** Without a rebuild, the summary is the same after a deletion exactly when the message
      was neither the latest of its thread nor counted as unread. */
  lemma SummaryAfterDelete(rows: seq<SMS>, i: nat)
    requires i < |rows| && DistinctIds(rows)
    ensures var k := KeyOf(rows[i]);
      Summary(rows[..i] + rows[i + 1..], k) == Summary(rows, k) <==>
      Latest(rows, k) != Some(rows[i]) && !IncomingUnread(rows[i])
  {
    var m, k := rows[i], KeyOf(rows[i]);
    var a, b := rows[..i], rows[i + 1..];
    assert rows == a + [m] + b;
    SingleSummary(m, k);
    ConcatUnread(a, b, k); ConcatUnread(a, [m], k); ConcatUnread(a + [m], b, k);
    assert Unread(rows, k) == Unread(a + b, k) + if IncomingUnread(m) then 1 else 0;
    LatestAfterDelete(rows, i, k);
    DeletedIsNotLatest(rows, i, k);
    LatestIsGreatest(rows, k);
  }

  lemma DeletedIsNotLatest(rows: seq<SMS>, i: nat, k: Key)
    requires i < |rows| && DistinctIds(rows)
    ensures var r := Latest(rows[..i] + rows[i + 1..], k); r.Some? ==> r.value.id != rows[i].id
  {
    var r := rows[..i] + rows[i + 1..];
    LatestIsGreatest(r, k);
    assert forall j :: 0 <= j < |r| ==> r[j] == rows[if j < i then j else j + 1];
  }

  /** With a blank IMSI the contact is not rebuilt, so the contact still agrees exactly when
      the deletion did not change the summary. */
  lemma DeleteAgreesExactly(db: Db, id: nat)
    requires WellFormed(db) && RowIndex(db.rows, id) < |db.rows|
    requires var m := db.rows[RowIndex(db.rows, id)]; m.peer != "" && Agrees(db, KeyOf(m))
    ensures var m := db.rows[RowIndex(db.rows, id)];
      Agrees(Apply(db, DeleteId(id)), KeyOf(m)) <==>
      m.imsi != "" || (Latest(db.rows, KeyOf(m)) != Some(m) && !IncomingUnread(m))
  {
    var i := RowIndex(db.rows, id);
    hide RowIndex, Latest, Unread, Trim;
    SummaryAfterDelete(db.rows, i);
    if db.rows[i].imsi != "" {
      DeleteRepairs(db, id);
    } else {
      BlankIsNotRebuilt(db, id);
    }
    hide DistinctIds, Apply, Summary;
  }

  lemma BlankIsNotRebuilt(db: Db, id: nat)
    requires WellFormed(db) && RowIndex(db.rows, id) < |db.rows| && db.rows[RowIndex(db.rows, id)].imsi == ""
    ensures var i := RowIndex(db.rows, id);
      Apply(db, DeleteId(id)) == Db(db.rows[..i] + db.rows[i + 1..], db.contacts)
  {
    hide Trim, Summary;
  }

  lemma LatestAfterDelete(rows: seq<SMS>, i: nat, k: Key)
    requires i < |rows| && DistinctIds(rows)
    ensures Latest(rows, k) != Some(rows[i]) ==> Latest(rows[..i] + rows[i + 1..], k) == Latest(rows, k)
  {
    var a, m, b := rows[..i], rows[i], rows[i + 1..];
    assert rows == a + [m] + b;
    SingleSummary(m, k);
    ConcatLatest(a, b, k); ConcatLatest(a, [m], k); ConcatLatest(a + [m], b, k);
    LatestIsGreatest(a, k);
    LatestIsGreatest(b, k);
  }

  /** A deletion by id takes out that row and no other; a deletion of a thread takes out its
      rows and no other, and does nothing without an IMSI and a peer.  No other contact is
      touched by either. */
  lemma DeletionMeans(db: Db, op: Op, m: SMS)
    requires DistinctIds(db.rows)
    ensures op.DeleteId? ==> (m in Apply(db, op).rows <==> m in db.rows && m.id != op.id)
    ensures op.DeleteThread? ==>
      (m in Apply(db, op).rows <==>
        m in db.rows && (Blank(op.imsi) || Blank(op.peer) || m.imsi != Trim(op.imsi) || m.peer != Trim(op.peer)))
    ensures op.DeleteThread? ==> forall k :: k != (Trim(op.imsi), Trim(op.peer)) ==>
      Lookup(Apply(db, op).contacts, k) == Lookup(db.contacts, k)
  {
    hide Trim, RebuildContact;
    match op
    case DeleteId(id) =>
      RowsBut(db.rows, RowIndex(db.rows, id), m);
    case DeleteThread(imsi, peer) =>
      WithoutMeans(db.rows, (Trim(imsi), Trim(peer)), m);
      LatestIsGreatest(db.rows, (Trim(imsi), Trim(peer)));
    case _ =>
  }

  lemma RowsBut(rows: seq<SMS>, i: nat, m: SMS)
    requires DistinctIds(rows) && i <= |rows|
    ensures i < |rows| ==> (m in rows[..i] + rows[i + 1..] <==> m in rows && m.id != rows[i].id)
  {
    if i < |rows| {
      assert rows == rows[..i] + [rows[i]] + rows[i + 1..];
      forall j | 0 <= j < |rows| && j != i ensures rows[j].id != rows[i].id {}
    }
  }

  lemma {:induction false} WithoutMeans(rows: seq<SMS>, k: Key, m: SMS)
    ensures m in Without(rows, k) <==> m in rows && KeyOf(m) != k
  {
    if rows != [] {
      WithoutMeans(rows[..|rows| - 1], k, m);
      assert rows == rows[..|rows| - 1] + [rows[|rows| - 1]];
    }
  }

  // ---- whole histories ---------------------------------------------------------------

  ghost predicate IsHistory(dbs: seq<Db>, ops: seq<Op>) {
    && |dbs| == |ops| + 1 && dbs[0] == Db([], map[])
    && forall i :: 0 <= i < |ops| ==> Applicable(dbs[i], ops[i]) && dbs[i + 1] == Apply(dbs[i], ops[i])
  }

  lemma UpsertKeepsCounts(rows: seq<SMS>, cs: Contacts, m: SMS, k: Key)
    requires forall i :: 0 <= i < |rows| ==> rows[i].id < m.id
    requires Counts(Db(rows, cs), k)
    ensures Counts(Db(rows + [m], Upsert(cs, m)), k)
  {
    SaveSummary(rows, m, k);
    EmptyThreadHasNoUnread(rows, k);
  }

  lemma SaveKeepsCounts(db: Db, op: Op, k: Key)
    requires op.Save? && Applicable(db, op) && Counts(db, k) && k.1 != ""
    ensures Counts(Apply(db, op), k)
  {
    var m := MessageOf(op);
    UpsertKeepsCounts(db.rows, db.contacts, m, k);
    UnaddressedIsInvisible(db.rows, m, k);
    hide MessageOf, Upsert, Latest, Unread;
  }

  /** A message without a peer belongs to no thread that is indexed. */
  lemma UnaddressedIsInvisible(rows: seq<SMS>, m: SMS, k: Key)
    requires forall i :: 0 <= i < |rows| ==> rows[i].id < m.id
    requires k.1 != ""
    ensures m.peer == "" ==> Latest(rows + [m], k) == Latest(rows, k) && Unread(rows + [m], k) == Unread(rows, k)
  {
    SaveSummary(rows, m, k);
  }

  lemma RebuildKeepsCounts(rows: seq<SMS>, cs: Contacts, imsi: string, peer: string, k: Key)
    requires k == (Trim(imsi), Trim(peer)) || Counts(Db(rows, cs), k)
    requires k.0 != "" && k.1 != ""
    ensures Counts(Db(rows, RebuildContact(rows, cs, imsi, peer)), k)
  {}

  lemma RowDeletedElsewhere(rows: seq<SMS>, i: nat, k: Key)
    requires i < |rows| && KeyOf(rows[i]) != k
    ensures Latest(rows[..i] + rows[i + 1..], k) == Latest(rows, k)
    ensures Unread(rows[..i] + rows[i + 1..], k) == Unread(rows, k)
  {
    hide Trim;
    var a, m, b := rows[..i], rows[i], rows[i + 1..];
    assert rows == a + [m] + b;
    SingleSummary(m, k);
    ConcatUnread(a, b, k); ConcatUnread(a, [m], k); ConcatUnread(a + [m], b, k);
    ConcatLatest(a, b, k); ConcatLatest(a, [m], k); ConcatLatest(a + [m], b, k);
  }

  lemma DeleteKeepsCounts(db: Db, id: nat, k: Key)
    requires WellFormed(db) && Counts(db, k) && k.0 != "" && k.1 != ""
    ensures Counts(Apply(db, DeleteId(id)), k)
  {
    hide Trim, RowIndex, Latest, Unread, Summary;
    var i := RowIndex(db.rows, id);
    if i < |db.rows| {
      var m := db.rows[i];
      if KeyOf(m) != k { RowDeletedElsewhere(db.rows, i, k); }
      RebuildKeepsCounts(db.rows[..i] + db.rows[i + 1..], db.contacts, m.imsi, m.peer, k);
    }
  }

  lemma DeleteThreadKeepsCounts(db: Db, imsi: string, peer: string, k: Key)
    requires Counts(db, k)
    ensures Counts(Apply(db, DeleteThread(imsi, peer)), k)
  {
    hide Trim, Latest, Unread;
    SummaryWithout(db.rows, (Trim(imsi), Trim(peer)), k);
  }

  lemma StepKeepsCounts(db: Db, op: Op, k: Key)
    requires WellFormed(db) && Applicable(db, op) && Counts(db, k)
    requires k.0 != "" && k.1 != ""
    ensures Counts(Apply(db, op), k)
  {
    hide WellFormed, Counts, Trim, Latest, Unread;
    match op
    case Save(_, _, _, _, _, _, _, _, _) => SaveKeepsCounts(db, op, k);
    case DeleteId(id) => DeleteKeepsCounts(db, id, k);
    case DeleteThread(imsi, peer) => DeleteThreadKeepsCounts(db, imsi, peer, k);
    case Rebuild(imsi, peer) =>
      RebuildKeepsCounts(db.rows, db.contacts, imsi, peer, k);
      assert db == Db(db.rows, db.contacts);
  }

  lemma {:induction false} HistoryWellFormed(dbs: seq<Db>, ops: seq<Op>, n: nat)
    requires IsHistory(dbs, ops) && n < |dbs|
    ensures WellFormed(dbs[n])
  {
    if n > 0 {
      HistoryWellFormed(dbs, ops, n - 1);
      StaysWellFormed(dbs[n - 1], ops[n - 1]);
    }
  }

  /** Under any history a contact exists exactly when its thread is non-empty, and its
      unread count is the number of incoming unread messages. */
  lemma {:induction false} HistoryCounts(dbs: seq<Db>, ops: seq<Op>, n: nat, k: Key)
    requires IsHistory(dbs, ops) && n < |dbs| && k.0 != "" && k.1 != ""
    ensures Counts(dbs[n], k)
  {
    if n > 0 {
      HistoryCounts(dbs, ops, n - 1, k);
      HistoryWellFormed(dbs, ops, n - 1);
      StepKeepsCounts(dbs[n - 1], ops[n - 1], k);
    }
  }

  // ---- when a contact agrees ---------------------------------------------------------

  /** The operation is about thread k. */
  predicate Touches(db: Db, op: Op, k: Key) {
    match op
    case Save(_, _, _, _, _, _, _, _, _) => KeyOf(MessageOf(op)) == k
    case DeleteId(id) => RowIndex(db.rows, id) < |db.rows| && KeyOf(db.rows[RowIndex(db.rows, id)]) == k
    case DeleteThread(imsi, peer) => (Trim(imsi), Trim(peer)) == k
    case Rebuild(imsi, peer) => (Trim(imsi), Trim(peer)) == k
  }

  /** A save that is older than the latest message of its thread. */
  predicate LateSave(db: Db, op: Op) { op.Save? && OlderThanLatest(db.rows, MessageOf(op)) }

  lemma SaveElsewhere(db: Db, op: Op, k: Key)
    requires op.Save? && Applicable(db, op) && !Touches(db, op, k)
    ensures Agrees(Apply(db, op), k) <==> Agrees(db, k)
  {
    var m := MessageOf(op);
    UpsertElsewhere(db.rows, db.contacts, m, k);
    hide MessageOf, Upsert, Latest, Unread;
  }

  lemma DeleteElsewhere(db: Db, id: nat, k: Key)
    requires WellFormed(db) && !Touches(db, DeleteId(id), k)
    ensures Agrees(Apply(db, DeleteId(id)), k) <==> Agrees(db, k)
  {
    hide Trim, RowIndex, Latest, Unread, Summary;
    var i := RowIndex(db.rows, id);
    if i < |db.rows| { SummaryElsewhere(db.rows, i, k); }
  }

  lemma SummaryElsewhere(rows: seq<SMS>, i: nat, k: Key)
    requires i < |rows| && KeyOf(rows[i]) != k
    ensures Summary(rows[..i] + rows[i + 1..], k) == Summary(rows, k)
  {
    RowDeletedElsewhere(rows, i, k);
  }

  /** Operations on other threads do not change whether the contact agrees. */
  lemma UntouchedAgreement(db: Db, op: Op, k: Key)
    requires WellFormed(db) && Applicable(db, op) && !Touches(db, op, k)
    ensures Agrees(Apply(db, op), k) <==> Agrees(db, k)
  {
    match op
    case Save(_, _, _, _, _, _, _, _, _) => SaveElsewhere(db, op, k);
    case DeleteId(id) => DeleteElsewhere(db, id, k);
    case DeleteThread(imsi, peer) =>
      SummaryWithout(db.rows, (Trim(imsi), Trim(peer)), k);
      hide Trim, Latest, Unread;
    case Rebuild(imsi, peer) =>
      hide Trim, Latest, Unread, Summary;
  }

  /** An operation on the thread itself leaves an agreeing contact, unless it is a late
      save. */
  lemma TouchedAgreement(db: Db, op: Op, k: Key)
    requires WellFormed(db) && Applicable(db, op) && Counts(db, k) && Touches(db, op, k)
    requires k.0 != "" && k.1 != ""
    ensures Agrees(Apply(db, op), k) <==> !LateSave(db, op)
  {
    match op
    case Save(_, _, _, _, _, _, _, _, _) =>
      SaveAgreesExactly(db, op);
    case DeleteId(id) =>
      DeleteRepairs(db, id);
    case DeleteThread(imsi, peer) =>
      SummaryWithout(db.rows, k, k);
      hide Trim, Latest, Unread;
    case Rebuild(imsi, peer) =>
      hide Trim, Latest, Unread;
  }

  /** The last operation on the thread among the first n. */
  function LastTouch(dbs: seq<Db>, ops: seq<Op>, n: nat, k: Key): (last: Option<nat>)
    requires |dbs| == |ops| + 1 && n <= |ops|
    ensures last.None? ==> forall j :: 0 <= j < n ==> !Touches(dbs[j], ops[j], k)
    ensures last.Some? ==>
              && last.value < n && Touches(dbs[last.value], ops[last.value], k)
              && forall j :: last.value < j < n ==> !Touches(dbs[j], ops[j], k)
  {
    if n == 0 then None
    else if Touches(dbs[n - 1], ops[n - 1], k) then Some(n - 1)
    else LastTouch(dbs, ops, n - 1, k)
  }

  /** Exactly when a contact is the summary of its thread, under any history: the last
      operation on the thread was not a late save. */
  lemma {:induction false} HistoryAgreesExactly(dbs: seq<Db>, ops: seq<Op>, n: nat, k: Key)
    requires IsHistory(dbs, ops) && n < |dbs| && k.0 != "" && k.1 != ""
    ensures var last := LastTouch(dbs, ops, n, k);
      Agrees(dbs[n], k) <==> last.None? || !LateSave(dbs[last.value], ops[last.value])
  {
    hide Agrees, Counts, Touches, LateSave, Apply, WellFormed;
    if n == 0 {
      NothingAgrees(k);
    } else {
      HistoryAgreesExactly(dbs, ops, n - 1, k);
      HistoryWellFormed(dbs, ops, n - 1);
      HistoryCounts(dbs, ops, n - 1, k);
      if Touches(dbs[n - 1], ops[n - 1], k) {
        TouchedAgreement(dbs[n - 1], ops[n - 1], k);
      } else {
        UntouchedAgreement(dbs[n - 1], ops[n - 1], k);
      }
    }
  }

  lemma NothingAgrees(k: Key)
    ensures Agrees(Db([], map[]), k)
  {}

  /** If messages arrive in order, every contact is exactly the summary of its thread. */
  lemma HistoryAgrees(dbs: seq<Db>, ops: seq<Op>, n: nat, k: Key)
    requires IsHistory(dbs, ops) && n < |dbs| && k.0 != "" && k.1 != ""
    requires forall i :: 0 <= i < |ops| && Touches(dbs[i], ops[i], k) ==> !LateSave(dbs[i], ops[i])
    ensures Agrees(dbs[n], k)
  {
    HistoryAgreesExactly(dbs, ops, n, k);
  }

  /** The peer of a stored message, as its own fields tell it. */
  predicate OwnPeer(m: SMS) { m.peer == if m.kind == 2 && m.recipient != "" then m.recipient else m.sender }

  lemma StepKeepsPeers(db: Db, op: Op)
    requires forall m :: m in db.rows ==> OwnPeer(m)
    ensures forall m :: m in Apply(db, op).rows ==> OwnPeer(m)
  {
    hide Trim, OwnPeer, Upsert, RebuildContact, Latest;
    match op
    case Save(_, _, _, _, _, _, _, _, _) => SavedHasOwnPeer(op);
    case DeleteThread(imsi, peer) =>
      forall m | m in Apply(db, op).rows ensures OwnPeer(m) { WithoutMeans(db.rows, (Trim(imsi), Trim(peer)), m); }
    case _ =>
  }

  lemma SavedHasOwnPeer(op: Op)
    requires op.Save?
    ensures OwnPeer(MessageOf(op))
  {
    hide Trim;
  }

  /** Under any history every message is filed under the other side of the conversation: its
      recipient if it was sent to one, its sender otherwise. */
  lemma {:induction false} HistoryPeers(dbs: seq<Db>, ops: seq<Op>, n: nat)
    requires IsHistory(dbs, ops) && n < |dbs|
    ensures forall m :: m in dbs[n].rows ==>
      m.peer == if m.kind == 2 && m.recipient != "" then m.recipient else m.sender
  {
    if n > 0 {
      HistoryPeers(dbs, ops, n - 1);
      hide Apply;
      StepKeepsPeers(dbs[n - 1], ops[n - 1]);
    }
  }

  /** Row i shows in the contact, and no message of the thread is newer; equally old ones have
      smaller ids. */
  ghost predicate ShowsNewest(rows: seq<SMS>, k: Key, c: Contact, i: nat)
    requires i < |rows|
  {
    var m := rows[i];
    && m.imsi == k.0 && m.peer == k.1
    && c == Contact(m.iccid, m.id, m.timestamp, m.content, m.kind, c.unread)
    && forall j :: 0 <= j < |rows| && rows[j].imsi == k.0 && rows[j].peer == k.1 ==>
         rows[j].timestamp < m.timestamp || (rows[j].timestamp == m.timestamp && rows[j].id <= m.id)
  }

  /** What that means for the contact list: if the last operation on a thread was not a late
      save, its contact shows the newest message, and counts those that came in and have not
      been read; and there is a contact exactly if the thread has a message. */
  lemma HistoryShowsNewest(dbs: seq<Db>, ops: seq<Op>, n: nat, k: Key)
    requires IsHistory(dbs, ops) && n < |dbs| && k.0 != "" && k.1 != ""
    requires var last := LastTouch(dbs, ops, n, k); last.None? || !LateSave(dbs[last.value], ops[last.value])
    ensures k in dbs[n].contacts <==> exists i :: 0 <= i < |dbs[n].rows| && KeyOf(dbs[n].rows[i]) == k
    ensures k in dbs[n].contacts ==>
      var rows, c := dbs[n].rows, dbs[n].contacts[k];
      && c.unread == |UnreadAt(rows, k)|
      && exists i :: 0 <= i < |rows| && ShowsNewest(rows, k, c, i)
  {
    HistoryAgreesExactly(dbs, ops, n, k);
    hide IsHistory, LastTouch, LateSave;
    SummaryShowsNewest(dbs[n].rows, dbs[n].contacts, k);
  }

  lemma SummaryShowsNewest(rows: seq<SMS>, cs: Contacts, k: Key)
    requires Lookup(cs, k) == Summary(rows, k)
    ensures k in cs <==> exists i :: 0 <= i < |rows| && KeyOf(rows[i]) == k
    ensures k in cs ==>
      cs[k].unread == |UnreadAt(rows, k)| && exists i :: 0 <= i < |rows| && ShowsNewest(rows, k, cs[k], i)
  {
    LatestIsGreatest(rows, k);
    UnreadCounts(rows, k);
    hide Latest, Unread, UnreadAt;
    if k in cs {
      var i :| 0 <= i < |rows| && rows[i] == Latest(rows, k).value;
      assert ShowsNewest(rows, k, cs[k], i);
    }
  }

  // ---- two histories that end badly ------------------------------------------------------

  function Incoming(id: nat, imsi: string, seconds: nat): Op {
    Save(id, imsi, "", "p", "", "", 1, 0, seconds * SECOND)
  }

  function MessageIn(id: nat, imsi: string, seconds: nat): SMS {
    SMS(id, imsi, "", "p", "p", "", "", 1, 0, seconds * SECOND)
  }

  lemma IncomingMessage(id: nat, imsi: string, seconds: nat)
    requires imsi in ["", "i"]
    ensures MessageOf(Incoming(id, imsi, seconds)) == MessageIn(id, imsi, seconds)
  {
    assert Trim("p") == "p" && Trim("i") == "i" && Trim("") == "" by { ShortTrims(); }
    hide Trim;
    assert ToSecond(seconds * SECOND) == seconds * SECOND;
  }

  lemma ShortTrims()
    ensures Trim("p") == "p" && Trim("i") == "i" && Trim("") == ""
  {}

  /** The first message of an empty store. */
  lemma FirstMessage(imsi: string, seconds: nat)
    requires imsi in ["", "i"]
    ensures var d, m := Apply(Db([], map[]), Incoming(1, imsi, seconds)), MessageIn(1, imsi, seconds);
      && d.rows == [m] && Latest(d.rows, (imsi, "p")) == Some(m)
      && WellFormed(d) && Counts(d, (imsi, "p")) && Agrees(d, (imsi, "p"))
  {
    var d0, op, m, k := Db([], map[]), Incoming(1, imsi, seconds), MessageIn(1, imsi, seconds), (imsi, "p");
    IncomingMessage(1, imsi, seconds);
    NothingAgrees(k);
    SingleSummary(m, k);
    StaysWellFormed(d0, op);
    hide Incoming, MessageOf, WellFormed, ToSecond, Trim;
    assert Apply(d0, op) == Db([m], Upsert(map[], m));
    UpsertKeepsCounts([], map[], m, k);
    UpsertAgreesExactly([], map[], m);
    assert [] + [m] == [m];
  }

  lemma TwoSteps(op0: Op, op1: Op)
    requires Applicable(Db([], map[]), op0) && Applicable(Apply(Db([], map[]), op0), op1)
    ensures var d1 := Apply(Db([], map[]), op0);
      IsHistory([Db([], map[]), d1, Apply(d1, op1)], [op0, op1])
  {
    hide Apply, Applicable;
  }

  /** A newer and then an older message of one thread: the contact shows the older one. */
  lemma LateSaveSpoils()
    ensures var ops := [Incoming(1, "i", 2), Incoming(2, "i", 1)];
      exists dbs :: IsHistory(dbs, ops) && !Agrees(dbs[2], ("i", "p"))
  {
    var d1 := Apply(Db([], map[]), Incoming(1, "i", 2));
    FirstMessage("i", 2);
    IncomingMessage(2, "i", 1);
    hide Apply, MessageOf, Trim, Latest, WellFormed, Counts, Agrees;
    TwoSteps(Incoming(1, "i", 2), Incoming(2, "i", 1));
    SaveAgreesExactly(d1, Incoming(2, "i", 1));
    assert !Agrees([Db([], map[]), d1, Apply(d1, Incoming(2, "i", 1))][2], ("i", "p"));
  }

  lemma DeletingTheOnlyOne(d: Db, m: SMS)
    requires d.rows == [m] && m.imsi == "" && m.peer != "" && WellFormed(d) && Agrees(d, KeyOf(m))
    requires Latest(d.rows, KeyOf(m)) == Some(m)
    ensures !Agrees(Apply(d, DeleteId(m.id)), KeyOf(m))
  {
    assert RowIndex(d.rows, m.id) == 0;
    hide Apply, Trim, Latest, WellFormed, Agrees, RowIndex;
    DeleteAgreesExactly(d, m.id);
  }

  /** The only message of a thread without IMSI is deleted: its contact stays. */
  lemma BlankDeleteSpoils()
    ensures var ops := [Incoming(1, "", 1), DeleteId(1)];
      exists dbs :: IsHistory(dbs, ops) && !Agrees(dbs[2], ("", "p"))
  {
    var d1 := Apply(Db([], map[]), Incoming(1, "", 1));
    FirstMessage("", 1);
    hide Apply, Latest, WellFormed, Counts, Agrees;
    TwoSteps(Incoming(1, "", 1), DeleteId(1));
    DeletingTheOnlyOne(d1, MessageIn(1, "", 1));
    assert !Agrees([Db([], map[]), d1, Apply(d1, DeleteId(1))][2], ("", "p"));
  }
}
