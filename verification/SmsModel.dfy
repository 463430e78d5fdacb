/** Messages, contacts and the reference meaning of a contact: a summary of the messages
    of one thread. */
module SmsModel {
  import opened Common
  import opened Text

  // Times are nanoseconds; 0 is the zero time.
  datatype SMS = SMS(
    id: nat, imsi: string, iccid: string, peer: string,
    sender: string, recipient: string, content: string,
    kind: int, status: int, timestamp: nat)

  datatype Contact = Contact(
    iccid: string, lastId: nat, lastTimestamp: nat, lastContent: string, lastKind: int, unread: nat)

  // Thread key: (imsi, peer).
  type Key = (string, string)
  type Contacts = map<Key, Contact>

  function KeyOf(m: SMS): Key { (m.imsi, m.peer) }

  predicate IncomingUnread(m: SMS) { m.kind == 1 && m.status == 0 }

  /** Order of a thread: by timestamp, then by id. */
  predicate Before(a: SMS, b: SMS) {
    a.timestamp < b.timestamp || (a.timestamp == b.timestamp && a.id < b.id)
  }

  ghost predicate DistinctIds(rows: seq<SMS>) {
    forall i, j :: 0 <= i < j < |rows| ==> rows[i].id != rows[j].id
  }

  function Lookup(cs: Contacts, k: Key): Option<Contact> {
    if k in cs then Some(cs[k]) else None
  }

  // ---- the reference summary of a thread ---------------------------------------

  function Unread(rows: seq<SMS>, k: Key): nat {
    if rows == [] then 0
    else Unread(rows[..|rows| - 1], k) +
         if KeyOf(rows[|rows| - 1]) == k && IncomingUnread(rows[|rows| - 1]) then 1 else 0
  }

  function Later(a: Option<SMS>, b: Option<SMS>): Option<SMS> {
    if a.None? then b else if b.None? then a else if Before(a.value, b.value) then b else a
  }

  function InThread(m: SMS, k: Key): Option<SMS> { if KeyOf(m) == k then Some(m) else None }

  /** The (timestamp, id)-greatest message of the thread. */
  function Latest(rows: seq<SMS>, k: Key): Option<SMS> {
    if rows == [] then None else Later(Latest(rows[..|rows| - 1], k), InThread(rows[|rows| - 1], k))
  }

  function ContactOf(m: SMS, unread: nat): Contact {
    Contact(m.iccid, m.id, m.timestamp, m.content, m.kind, unread)
  }

  /** What the contact row of a thread should be: absent for an empty thread. */
  function Summary(rows: seq<SMS>, k: Key): Option<Contact> {
    match Latest(rows, k)
    case None => None
    case Some(m) => Some(ContactOf(m, Unread(rows, k)))
  }

  // ---- the transactions ----------------------------------------------------------

  function Upsert(cs: Contacts, m: SMS): Contacts {
    var n := if IncomingUnread(m) then 1 else 0;
    cs[KeyOf(m) := ContactOf(m, (if KeyOf(m) in cs then cs[KeyOf(m)].unread else 0) + n)]
  }

  function NormalizePeer(kind: int, sender: string, recipient: string): string {
    if kind == 2 && Trim(recipient) != "" then Trim(recipient) else Trim(sender)
  }

  /** The contact row is replaced by the summary of its thread; a blank key is left alone. */
  function RebuildContact(rows: seq<SMS>, cs: Contacts, imsi: string, peer: string): Contacts {
    var k := (Trim(imsi), Trim(peer));
    if k.0 == "" || k.1 == "" then cs
    else match Summary(rows, k)
         case None => cs - {k}
         case Some(c) => cs[k := c]
  }

  // ---- facts about the summary -----------------------------------------------------

  lemma LaterAssociates(a: Option<SMS>, b: Option<SMS>, c: Option<SMS>)
    ensures Later(Later(a, b), c) == Later(a, Later(b, c))
  {}

  lemma {:induction false} ConcatUnread(a: seq<SMS>, b: seq<SMS>, k: Key)
    ensures Unread(a + b, k) == Unread(a, k) + Unread(b, k)
  {
    if b == [] {
      assert a + b == a;
    } else {
      assert (a + b)[..|a + b| - 1] == a + b[..|b| - 1];
      ConcatUnread(a, b[..|b| - 1], k);
    }
  }

  lemma {:induction false} ConcatLatest(a: seq<SMS>, b: seq<SMS>, k: Key)
    ensures Latest(a + b, k) == Later(Latest(a, k), Latest(b, k))
  {
    if b == [] {
      assert a + b == a;
    } else {
      assert (a + b)[..|a + b| - 1] == a + b[..|b| - 1];
      ConcatLatest(a, b[..|b| - 1], k);
      LaterAssociates(Latest(a, k), Latest(b[..|b| - 1], k), InThread(b[|b| - 1], k));
    }
  }

  lemma SingleSummary(m: SMS, k: Key)
    ensures Latest([m], k) == InThread(m, k)
    ensures Unread([m], k) == if KeyOf(m) == k && IncomingUnread(m) then 1 else 0
  {
    assert [m][..0] == [];
  }

  /** The reference definition means what it says: the latest message belongs to the
      thread and no message of the thread comes after it. */
  lemma {:induction false} LatestIsGreatest(rows: seq<SMS>, k: Key)
    ensures Latest(rows, k).None? <==> forall i :: 0 <= i < |rows| ==> KeyOf(rows[i]) != k
    ensures Latest(rows, k).Some? ==>
              && Latest(rows, k).value in rows && KeyOf(Latest(rows, k).value) == k
              && forall i :: 0 <= i < |rows| && KeyOf(rows[i]) == k ==> !Before(Latest(rows, k).value, rows[i])
  {
    if rows != [] {
      LatestIsGreatest(rows[..|rows| - 1], k);
      assert forall i :: 0 <= i < |rows| - 1 ==> rows[..|rows| - 1][i] == rows[i];
    }
  }

  /** The positions of the messages of a thread that came in and have not been read. */
  function UnreadAt(rows: seq<SMS>, k: Key): set<nat> {
    set i: nat | i < |rows| && rows[i].imsi == k.0 && rows[i].peer == k.1 && rows[i].kind == 1 && rows[i].status == 0
  }

  /** The unread count counts exactly those. */
  lemma {:induction false} UnreadCounts(rows: seq<SMS>, k: Key)
    ensures Unread(rows, k) == |UnreadAt(rows, k)|
  {
    if rows == [] {
      assert UnreadAt(rows, k) == {};
    } else {
      var n, init := |rows| - 1, rows[..|rows| - 1];
      UnreadCounts(init, k);
      OneMoreAt(init, rows[n], k);
      assert rows == init + [rows[n]];
      hide UnreadAt;
    }
  }

  lemma OneMoreAt(init: seq<SMS>, m: SMS, k: Key)
    ensures UnreadAt(init + [m], k) ==
              UnreadAt(init, k) + if KeyOf(m) == k && m.kind == 1 && m.status == 0 then {|init|} else {}
    ensures |init| !in UnreadAt(init, k)
  {}

  lemma {:induction false} EmptyThreadHasNoUnread(rows: seq<SMS>, k: Key)
    ensures Latest(rows, k).None? ==> Unread(rows, k) == 0
  {
    if rows != [] {
      EmptyThreadHasNoUnread(rows[..|rows| - 1], k);
    }
  }

  /** The order of the table does not matter, as long as ids are distinct. */
  lemma SwapIrrelevant(a: seq<SMS>, m: SMS, b: seq<SMS>, k: Key)
    requires forall i :: 0 <= i < |a| ==> a[i].id != m.id
    ensures Latest([m] + a + b, k) == Latest(a + [m] + b, k)
    ensures Unread([m] + a + b, k) == Unread(a + [m] + b, k)
  {
    SingleSummary(m, k);
    ConcatUnread([m], a, k); ConcatUnread([m] + a, b, k); ConcatUnread(a, [m], k); ConcatUnread(a + [m], b, k);
    ConcatLatest([m], a, k); ConcatLatest([m] + a, b, k); ConcatLatest(a, [m], k); ConcatLatest(a + [m], b, k);
    LatestIsGreatest(a, k);
  }
}
