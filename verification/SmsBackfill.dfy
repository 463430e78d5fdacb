/** Rebuilding the whole contact index in keyset batches. */
module SmsBackfill {
  import opened Text
  import opened SmsModel
  import opened SmsOrder
  import opened SmsStore

  /** The row as the backfill leaves it: a blank peer is derived again if possible. */
  function Repair(m: SMS): SMS {
    if Blank(m.peer) && NormalizePeer(m.kind, m.sender, m.recipient) != ""
    then m.(peer := NormalizePeer(m.kind, m.sender, m.recipient)) else m
  }

  function RepairAll(rows: seq<SMS>): seq<SMS> {
    seq(|rows|, i requires 0 <= i < |rows| => Repair(rows[i]))
  }

  /** What the repair leaves: a row that has a peer stays as it is; one without is filed under
      the recipient if it was sent to one, else under the sender if there is one; and only
      its peer changes. */
  ghost predicate Refiled(m: SMS, m': SMS) {
    && m' == m.(peer := m'.peer)
    && m'.peer == if !Blank(m.peer) then m.peer
                  else if m.kind == 2 && !Blank(m.recipient) then Trim(m.recipient)
                  else if !Blank(m.sender) then Trim(m.sender) else m.peer
  }

  lemma RepairIsRefiling(rows: seq<SMS>)
    ensures |RepairAll(rows)| == |rows|
    ensures forall i :: 0 <= i < |rows| ==> Refiled(rows[i], RepairAll(rows)[i])
  {
    hide Trim;
  }

  predicate NeedsBackfill(db: Db) {
    db.rows != [] && (db.contacts == map[] || exists i :: 0 <= i < |db.rows| && db.rows[i].peer == "")
  }

  /** Contacts after upserting the given messages in turn, skipping those without a peer. */
  function UpsertAll(msgs: seq<SMS>): Contacts {
    if msgs == [] then map[]
    else
      var cs, m := UpsertAll(msgs[..|msgs| - 1]), Repair(msgs[|msgs| - 1]);
      if Blank(m.peer) then cs else Upsert(cs, m)
  }

  // ---- what the fold computes --------------------------------------------------------

  /** In ascending order the last message of a thread is its latest one, so the fold leaves
      exactly the summary of every thread. */
  lemma {:induction false} UpsertAllIsSummary(msgs: seq<SMS>, k: Key)
    requires Sorted(msgs) && !Blank(k.1)
    ensures Lookup(UpsertAll(msgs), k) == Summary(RepairAll(msgs), k)
  {
    if msgs != [] {
      var init, last := msgs[..|msgs| - 1], msgs[|msgs| - 1];
      assert forall i :: 0 <= i < |init| ==> init[i] == msgs[i];
      UpsertAllIsSummary(init, k);
      LatestComesBefore(init, last, k);
      hide UpsertAll, Summary, Latest, RepairAll;
      UpsertStep(init, last, k);
      assert msgs == init + [last];
    } else {
      assert RepairAll(msgs) == [];
    }
  }

  lemma LatestComesBefore(init: seq<SMS>, last: SMS, k: Key)
    requires forall i :: 0 <= i < |init| ==> Before(init[i], last)
    ensures Latest(RepairAll(init), k).Some? ==> Before(Latest(RepairAll(init), k).value, Repair(last))
  {
    hide Blank, NormalizePeer, Latest;
    LatestIsGreatest(RepairAll(init), k);
    forall i | 0 <= i < |init| ensures Before(RepairAll(init)[i], Repair(last)) {}
  }

  lemma UpsertStep(init: seq<SMS>, last: SMS, k: Key)
    requires !Blank(k.1)
    requires Lookup(UpsertAll(init), k) == Summary(RepairAll(init), k)
    requires Latest(RepairAll(init), k).Some? ==> Before(Latest(RepairAll(init), k).value, Repair(last))
    ensures Lookup(UpsertAll(init + [last]), k) == Summary(RepairAll(init + [last]), k)
  {
    var r := Repair(last);
    OneMoreMessage(init, last);
    hide Repair, RepairAll, UpsertAll, Blank, Summary, Latest;
    if Blank(r.peer) || KeyOf(r) != k {
      ElsewhereSummary(RepairAll(init), r, k);
    } else {
      UpsertOwn(RepairAll(init), UpsertAll(init), r);
    }
  }

  lemma OneMoreMessage(init: seq<SMS>, last: SMS)
    ensures RepairAll(init + [last]) == RepairAll(init) + [Repair(last)]
    ensures UpsertAll(init + [last]) ==
              if Blank(Repair(last).peer) then UpsertAll(init) else Upsert(UpsertAll(init), Repair(last))
  {
    hide Repair, Blank;
    assert (init + [last])[..|init|] == init;
  }

  lemma ElsewhereSummary(rows: seq<SMS>, m: SMS, k: Key)
    requires KeyOf(m) != k
    ensures Summary(rows + [m], k) == Summary(rows, k)
  {
    SingleSummary(m, k);
    ConcatLatest(rows, [m], k);
    ConcatUnread(rows, [m], k);
  }

  lemma UpsertOwn(rows: seq<SMS>, cs: Contacts, m: SMS)
    requires Lookup(cs, KeyOf(m)) == Summary(rows, KeyOf(m))
    requires Latest(rows, KeyOf(m)).Some? ==> Before(Latest(rows, KeyOf(m)).value, m)
    ensures Lookup(Upsert(cs, m), KeyOf(m)) == Summary(rows + [m], KeyOf(m))
  {
    SingleSummary(m, KeyOf(m));
    ConcatLatest(rows, [m], KeyOf(m));
    ConcatUnread(rows, [m], KeyOf(m));
    EmptyThreadHasNoUnread(rows, KeyOf(m));
    hide Latest, Unread, Before;
  }

  lemma {:induction false} RepairInsert(m: SMS, s: seq<SMS>)
    ensures RepairAll(Insert(m, s)) == Insert(Repair(m), RepairAll(s))
  {
    hide Blank, NormalizePeer;
    if s == [] || Before(m, s[0]) {
      assert RepairAll([m] + s) == [Repair(m)] + RepairAll(s);
      assert [m] + [] == [m];
    } else {
      RepairInsert(m, s[1..]);
      assert RepairAll(s)[1..] == RepairAll(s[1..]);
      assert RepairAll([s[0]] + Insert(m, s[1..])) == [Repair(s[0])] + RepairAll(Insert(m, s[1..]));
    }
  }

  lemma {:induction false} RepairSort(rows: seq<SMS>)
    ensures RepairAll(Sort(rows)) == Sort(RepairAll(rows))
  {
    if rows != [] {
      RepairSort(rows[1..]);
      RepairInsert(rows[0], Sort(rows[1..]));
      assert RepairAll(rows)[1..] == RepairAll(rows[1..]);
    } else {
      assert RepairAll(rows) == [];
    }
  }

  /** The index the backfill builds is, for every thread with a peer, the summary of the
      thread in the repaired table. */
  lemma BackfillIsSummary(rows: seq<SMS>, k: Key)
    requires DistinctIds(rows) && !Blank(k.1)
    ensures Lookup(UpsertAll(Sort(rows)), k) == Summary(RepairAll(rows), k)
  {
    SortSorted(rows);
    UpsertAllIsSummary(Sort(rows), k);
    RepairSort(rows);
    SortSummary(RepairAll(rows), k);
  }

  /** So the contact of every thread with a peer shows the newest message of the thread, and
      counts those that came in and have not been read. */
  lemma BackfillShowsNewest(rows: seq<SMS>, k: Key)
    requires DistinctIds(rows) && !Blank(k.1)
    ensures var after, cs := RepairAll(rows), UpsertAll(Sort(rows));
      && (k in cs <==> exists i :: 0 <= i < |after| && KeyOf(after[i]) == k)
      && (k in cs ==> cs[k].unread == |UnreadAt(after, k)|)
      && (k in cs ==> exists i :: 0 <= i < |after| && ShowsNewest(after, k, cs[k], i))
  {
    BackfillIsSummary(rows, k);
    SummaryShowsNewest(RepairAll(rows), UpsertAll(Sort(rows)), k);
    hide Blank, RepairAll, UpsertAll, Sort, Summary, ShowsNewest, UnreadAt;
  }

  /** Backfill equals rebuild: after a backfill, rebuilding any thread changes nothing. */
  lemma BackfillEqualsRebuild(rows: seq<SMS>, imsi: string, peer: string)
    requires DistinctIds(rows)
    ensures RebuildContact(RepairAll(rows), UpsertAll(Sort(rows)), imsi, peer) == UpsertAll(Sort(rows))
  {
    var k := (Trim(imsi), Trim(peer));
    TrimTwice(peer);
    if k.1 != "" {
      BackfillIsSummary(rows, k);
    }
  }

  /** One backfill is enough if every message can be filed: none is needed afterwards. */
  lemma OnceIsEnough(rows: seq<SMS>)
    requires DistinctIds(rows) && forall i :: 0 <= i < |rows| ==> !Blank(RepairAll(rows)[i].peer)
    ensures !NeedsBackfill(Db(RepairAll(rows), UpsertAll(Sort(rows))))
  {
    BlankMeansSpaces("");
    hide Blank, UpsertAll, Sort, Repair;
    if rows != [] {
      var m := RepairAll(rows)[0];
      BackfillShowsNewest(rows, KeyOf(m));
      hide ShowsNewest, UnreadAt;
      assert KeyOf(m) in UpsertAll(Sort(rows));
    }
  }

  /** And as long as there are messages, it is needed whenever there is no contact at all or
      some message has not been filed. */
  lemma NeededForUnfiled(rows: seq<SMS>, cs: Contacts, m: SMS)
    requires m in rows && (m.peer == "" || cs == map[])
    ensures NeedsBackfill(Db(rows, cs))
  {}

  // ---- the batches -------------------------------------------------------------------

  /** The next batch: the rows after the cursor, oldest first.  No cursor before the first. */
  function Batch(rows: seq<SMS>, n: nat, lastTs: nat, lastId: nat): seq<SMS> {
    if lastTs == 0 && lastId == 0 then Take(Sort(rows), n)
    else Take(Sort(Keep(rows, (m: SMS) => m.timestamp > lastTs || (m.timestamp == lastTs && m.id > lastId))), n)
  }

  /** The cursor after k messages of the ordered table. */
  ghost predicate CursorAt(s0: seq<SMS>, k: nat, lastTs: nat, lastId: nat) {
    && k <= |s0|
    && (k == 0 ==> lastTs == 0 && lastId == 0)
    && (k > 0 ==> lastTs == s0[k - 1].timestamp && lastId == s0[k - 1].id)
  }

  /** The table when exactly the given messages have been repaired. */
  ghost predicate RepairedUpTo(rows: seq<SMS>, rows0: seq<SMS>, done: seq<SMS>) {
    && |rows| == |rows0|
    && forall i :: 0 <= i < |rows| ==> rows[i] == if rows0[i] in done then Repair(rows0[i]) else rows0[i]
  }

  /** Each batch continues where the previous one ended, although the rows before the
      cursor have been rewritten meanwhile. */
  lemma BatchContinues(rows: seq<SMS>, rows0: seq<SMS>, k: nat, n: nat, lastTs: nat, lastId: nat)
    requires DistinctIds(rows0) && (forall i :: 0 <= i < |rows0| ==> rows0[i].id > 0)
    requires k <= |rows0| && |Sort(rows0)| == |rows0|
    requires RepairedUpTo(rows, rows0, Sort(rows0)[..k])
    requires CursorAt(Sort(rows0), k, lastTs, lastId)
    ensures Batch(rows, n, lastTs, lastId) == Take(Sort(rows0)[k..], n)
  {
    var s := Sort(rows0);
    SortSorted(rows0);
    SortMembers(rows0);
    hide Sort, Keep;
    if k == 0 {
      assert s[..0] == [] && s[0..] == s;
      assert rows == rows0;
    } else {
      var c := s[k - 1];
      assert c in rows0;
      var p := (m: SMS) => m.timestamp > lastTs || (m.timestamp == lastTs && m.id > lastId);
      KeepUntouched(rows, rows0, s[..k], p, c);
      SortKeep(rows0, p);
      BehindCursor(s, k);
      KeepSuffix(s, k, p);
    }
  }

  lemma BehindCursor(s: seq<SMS>, k: nat)
    requires Sorted(s) && 0 < k <= |s|
    ensures forall i :: 0 <= i < |s| ==> (Before(s[k - 1], s[i]) <==> i >= k)
  {
    forall i | 0 <= i < |s| ensures Before(s[k - 1], s[i]) <==> i >= k {
      if i < k - 1 { assert Before(s[i], s[k - 1]); }
    }
  }

  lemma KeepUntouched(rows: seq<SMS>, rows0: seq<SMS>, done: seq<SMS>, p: SMS -> bool, c: SMS)
    requires RepairedUpTo(rows, rows0, done)
    requires forall m :: p(m) <==> Before(c, m)
    requires forall i :: 0 <= i < |done| ==> !Before(c, done[i])
    ensures Keep(rows, p) == Keep(rows0, p)
  {
    KeepPointwise(rows, rows0, p);
  }

  lemma {:induction false} KeepPointwise(a: seq<SMS>, b: seq<SMS>, p: SMS -> bool)
    requires |a| == |b|
    requires forall i :: 0 <= i < |a| ==> p(a[i]) == p(b[i]) && (p(a[i]) ==> a[i] == b[i])
    ensures Keep(a, p) == Keep(b, p)
  {
    if a != [] { KeepPointwise(a[1..], b[1..], p); }
  }

  // ---- the loop ----------------------------------------------------------------------

  function SetPeer(rows: seq<SMS>, id: nat, peer: string): seq<SMS> {
    seq(|rows|, i requires 0 <= i < |rows| => if rows[i].id == id then rows[i].(peer := peer) else rows[i])
  }

  lemma SameRow(rows0: seq<SMS>, i: nat, m: SMS)
    requires DistinctIds(rows0) && i < |rows0| && m in rows0
    ensures rows0[i].id == m.id <==> rows0[i] == m
  {
    var j :| 0 <= j < |rows0| && rows0[j] == m;
    if i < j { assert rows0[i].id != rows0[j].id; }
    if j < i { assert rows0[j].id != rows0[i].id; }
  }

  /** Rewriting the peer of the next message repairs exactly that message. */
  lemma RepairedOneMore(rows: seq<SMS>, rows0: seq<SMS>, s0: seq<SMS>, j: nat, rows': seq<SMS>)
    requires DistinctIds(rows0) && j < |s0| && (forall m :: m in s0 ==> m in rows0)
    requires RepairedUpTo(rows, rows0, s0[..j])
    requires rows' == if Repair(s0[j]) == s0[j] then rows else SetPeer(rows, s0[j].id, Repair(s0[j]).peer)
    ensures RepairedUpTo(rows', rows0, s0[..j + 1])
  {
    hide Blank, NormalizePeer;
    assert s0[..j + 1] == s0[..j] + [s0[j]];
    forall i | 0 <= i < |rows'| ensures rows'[i] == if rows0[i] in s0[..j + 1] then Repair(rows0[i]) else rows0[i] {
      SameRow(rows0, i, s0[j]);
    }
  }

  lemma AllRepaired(rows: seq<SMS>, rows0: seq<SMS>)
    requires RepairedUpTo(rows, rows0, Sort(rows0))
    ensures rows == RepairAll(rows0)
  {
    SortMembers(rows0);
  }

  lemma RepairedPeer(m: SMS)
    ensures Blank(m.peer) && NormalizePeer(m.kind, m.sender, m.recipient) == "" ==> Repair(m) == m
    ensures NormalizePeer(m.kind, m.sender, m.recipient) != "" ==> !Blank(NormalizePeer(m.kind, m.sender, m.recipient))
    ensures !Blank(m.peer) ==> m.peer != "" && Repair(m) == m
  {
    NormalizedPeerIsTrimmed(m.kind, m.sender, m.recipient);
  }

  /** One message of a batch. */
  method BackfillOne(db: Store, sms: SMS)
    modifies db
    ensures db.rows == if Repair(sms) == sms then old(db.rows) else SetPeer(old(db.rows), sms.id, Repair(sms).peer)
    ensures db.contacts == if Blank(Repair(sms).peer) then old(db.contacts) else Upsert(old(db.contacts), Repair(sms))
  {
    var m := sms;
    RepairedPeer(m);
    hide NormalizePeer, Upsert, SetPeer;
    if Blank(m.peer) {
      m := m.(peer := NormalizePeer(m.kind, m.sender, m.recipient));
      if m.peer != "" {
        db.rows := SetPeer(db.rows, m.id, m.peer);
      }
    }
    if m.peer != "" {
      db.UpsertContactFromSMS(m);
    }
  }

  /** Table and index when the first k messages of the ordered table s0 are done. */
  ghost predicate DoneUpTo(db: Db, rows0: seq<SMS>, s0: seq<SMS>, k: nat)
    requires k <= |s0|
  {
    RepairedUpTo(db.rows, rows0, s0[..k]) && db.contacts == UpsertAll(s0[..k])
  }

  /** The transaction for one batch, which starts at position k of the ordered table. */
  method BackfillBatch(db: Store, batch: seq<SMS>, ghost rows0: seq<SMS>, ghost s0: seq<SMS>, ghost k: nat)
    requires DistinctIds(rows0) && forall m :: m in s0 ==> m in rows0
    requires k + |batch| <= |s0| && batch == s0[k..k + |batch|]
    requires DoneUpTo(db.View(), rows0, s0, k)
    modifies db
    ensures DoneUpTo(db.View(), rows0, s0, k + |batch|)
  {
    hide UpsertAll, RepairedUpTo, Repair;
    var i := 0;
    while i < |batch|
      invariant 0 <= i <= |batch| && DoneUpTo(db.View(), rows0, s0, k + i)
    {
      ghost var before := db.rows;
      assert batch[i] == s0[k + i];
      BackfillOne(db, batch[i]);
      RepairedOneMore(before, rows0, s0, k + i, db.rows);
      OneMoreUpserted(s0, k + i);
      i := i + 1;
    }
  }

  /** The whole backfill.  `visited` lists the messages in the order they were fetched. */
  method BackfillSMSPeerAndContacts(db: Store, batchSize: int) returns (visited: seq<SMS>)
    requires DistinctIds(db.rows) && forall i :: 0 <= i < |db.rows| ==> db.rows[i].id > 0
    modifies db
    ensures !NeedsBackfill(old(db.View())) ==> db.View() == old(db.View()) && visited == []
    ensures NeedsBackfill(old(db.View())) ==>
              && visited == Sort(old(db.rows))
              && db.rows == RepairAll(old(db.rows))
              && db.contacts == UpsertAll(Sort(old(db.rows)))
    ensures NeedsBackfill(old(db.View())) ==>
              |db.rows| == |old(db.rows)| && forall i :: 0 <= i < |db.rows| ==> Refiled(old(db.rows)[i], db.rows[i])
  {
    visited := [];
    RepairIsRefiling(db.rows);
    hide RepairAll, UpsertAll, Sort, Refiled;
    if NeedsBackfill(Db(db.rows, db.contacts)) {
      db.contacts := map[];
      visited := BackfillInBatches(db, if batchSize <= 0 then 500 else batchSize);
    }
  }

  method BackfillInBatches(db: Store, n: nat) returns (visited: seq<SMS>)
    requires DistinctIds(db.rows) && forall i :: 0 <= i < |db.rows| ==> db.rows[i].id > 0
    requires n > 0 && db.contacts == map[]
    modifies db
    ensures visited == Sort(old(db.rows))
    ensures db.rows == RepairAll(old(db.rows)) && db.contacts == UpsertAll(Sort(old(db.rows)))
  {
    hide Sort, Batch, UpsertAll, RepairedUpTo, RepairAll;
    visited := [];
    ghost var rows0 := db.rows;
    ghost var s0 := Sort(rows0);
    SortMembers(rows0);
    SortElements(rows0);
    NothingDone(rows0, s0);
    var lastTs, lastId := 0, 0;
    ghost var k := 0;
    while true
      invariant k <= |s0| && visited == s0[..k]
      invariant DoneUpTo(db.View(), rows0, s0, k)
      invariant CursorAt(s0, k, lastTs, lastId)
      decreases |s0| - k
    {
      BatchContinues(db.rows, rows0, k, n, lastTs, lastId);
      var batch := Batch(db.rows, n, lastTs, lastId);
      BatchSlice(s0, k, n, batch);
      if batch == [] {
        AllRepaired(db.rows, rows0);
        return;
      }
      BackfillBatch(db, batch, rows0, s0, k);
      visited := visited + batch;
      k := k + |batch|;
      lastTs, lastId := batch[|batch| - 1].timestamp, batch[|batch| - 1].id;
    }
  }

  lemma BatchSlice(s0: seq<SMS>, k: nat, n: nat, batch: seq<SMS>)
    requires k <= |s0| && n > 0 && batch == Take(s0[k..], n)
    ensures k + |batch| <= |s0| && batch == s0[k..k + |batch|]
    ensures s0[..k] + batch == s0[..k + |batch|]
    ensures batch == [] ==> s0[..k] == s0
    ensures batch != [] ==> batch[|batch| - 1] == s0[k + |batch| - 1]
  {}

  lemma NothingDone(rows0: seq<SMS>, s0: seq<SMS>)
    ensures DoneUpTo(Db(rows0, map[]), rows0, s0, 0)
  {}

  lemma OneMoreUpserted(s0: seq<SMS>, j: nat)
    requires j < |s0|
    ensures UpsertAll(s0[..j + 1]) ==
              if Blank(Repair(s0[j]).peer) then UpsertAll(s0[..j]) else Upsert(UpsertAll(s0[..j]), Repair(s0[j]))
  {
    assert s0[..j + 1][..j] == s0[..j];
  }
}
