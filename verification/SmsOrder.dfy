/** ORDER BY (timestamp, id), as the database answers it, and how filters act on it. */
module SmsOrder {
  import opened SmsModel

  function Insert(m: SMS, s: seq<SMS>): seq<SMS> {
    if s == [] then [m] else if Before(m, s[0]) then [m] + s else [s[0]] + Insert(m, s[1..])
  }

  function Sort(rows: seq<SMS>): seq<SMS> {
    if rows == [] then [] else Insert(rows[0], Sort(rows[1..]))
  }

  function Reverse(s: seq<SMS>): seq<SMS> {
    seq(|s|, i requires 0 <= i < |s| => s[|s| - 1 - i])
  }

  function Keep(s: seq<SMS>, p: SMS -> bool): seq<SMS> {
    if s == [] then [] else (if p(s[0]) then [s[0]] else []) + Keep(s[1..], p)
  }

  function Take(s: seq<SMS>, n: nat): seq<SMS> { if n <= |s| then s[..n] else s }

  ghost predicate Sorted(s: seq<SMS>) {
    forall i, j :: 0 <= i < j < |s| ==> Before(s[i], s[j])
  }

  lemma {:induction false} InsertElements(m: SMS, s: seq<SMS>)
    ensures multiset(Insert(m, s)) == multiset(s) + multiset{m}
    ensures |Insert(m, s)| == |s| + 1
  {
    if s != [] && !Before(m, s[0]) {
      InsertElements(m, s[1..]);
      assert s == [s[0]] + s[1..];
    }
  }

  lemma {:induction false} InsertSorted(m: SMS, s: seq<SMS>)
    requires Sorted(s) && forall i :: 0 <= i < |s| ==> s[i].id != m.id
    ensures Sorted(Insert(m, s))
  {
    if s != [] {
      if Before(m, s[0]) {
        var r := [m] + s;
        forall i, j | 0 <= i < j < |r| ensures Before(r[i], r[j]) {
          if i == 0 && j > 1 { assert Before(s[0], s[j - 1]); }
        }
      } else {
        var t := s[1..];
        assert forall i :: 0 <= i < |t| ==> t[i] == s[i + 1];
        InsertSorted(m, t);
        InsertElements(m, t);
        var r := Insert(m, t);
        forall j | 0 <= j < |r| ensures Before(s[0], r[j]) {
          assert r[j] in multiset(r);
          assert r[j] == m || r[j] in t;
        }
      }
    }
  }

  lemma {:induction false} SortElements(rows: seq<SMS>)
    ensures multiset(Sort(rows)) == multiset(rows)
    ensures |Sort(rows)| == |rows|
  {
    if rows != [] {
      SortElements(rows[1..]);
      InsertElements(rows[0], Sort(rows[1..]));
      assert multiset(rows) == multiset(rows[1..]) + multiset{rows[0]} by { assert rows == [rows[0]] + rows[1..]; }
      hide Insert, Before;
    }
  }

  lemma SortMembers(rows: seq<SMS>)
    ensures forall m :: m in Sort(rows) <==> m in rows
  {
    SortElements(rows);
    assert forall m :: m in Sort(rows) <==> m in multiset(Sort(rows));
    assert forall m :: m in rows <==> m in multiset(rows);
  }

  lemma {:induction false} SortSorted(rows: seq<SMS>)
    requires DistinctIds(rows)
    ensures Sorted(Sort(rows))
  {
    if rows != [] {
      var t := rows[1..];
      assert forall i :: 0 <= i < |t| ==> t[i] == rows[i + 1];
      SortSorted(t);
      SortMembers(t);
      var s := Sort(t);
      forall i | 0 <= i < |s| ensures s[i].id != rows[0].id {
        assert s[i] in t;
      }
      InsertSorted(rows[0], s);
    }
  }

  // ---- filters ---------------------------------------------------------------------

  lemma {:induction false} KeepMembers(s: seq<SMS>, p: SMS -> bool)
    ensures forall m :: m in Keep(s, p) <==> m in s && p(m)
  {
    if s != [] {
      KeepMembers(s[1..], p);
      assert s == [s[0]] + s[1..];
    }
  }

  lemma {:induction false} InsertFirst(m: SMS, s: seq<SMS>)
    requires forall i :: 0 <= i < |s| ==> Before(m, s[i])
    ensures Insert(m, s) == [m] + s
  {}

  lemma {:induction false} KeepInsert(m: SMS, s: seq<SMS>, p: SMS -> bool)
    requires Sorted(s)
    ensures Keep(Insert(m, s), p) == if p(m) then Insert(m, Keep(s, p)) else Keep(s, p)
  {
    if s != [] {
      var t := s[1..];
      assert forall i :: 0 <= i < |t| ==> t[i] == s[i + 1];
      if Before(m, s[0]) {
        assert ([m] + s)[1..] == s;
        KeepMembers(s, p);
        var k := Keep(s, p);
        forall i | 0 <= i < |k| ensures Before(m, k[i]) {
          assert k[i] in s;
          var j :| 0 <= j < |s| && s[j] == k[i];
          if j > 0 { assert Before(s[0], s[j]); }
        }
        InsertFirst(m, k);
      } else {
        var r := Insert(m, t);
        assert ([s[0]] + r)[1..] == r;
        KeepInsert(m, t, p);
        if p(s[0]) {
          assert Keep(s, p) == [s[0]] + Keep(t, p);
          assert Keep(s, p)[1..] == Keep(t, p);
        } else {
          assert Keep(s, p) == Keep(t, p);
          assert Keep([s[0]] + r, p) == Keep(r, p);
        }
      }
    } else {
      assert [m][1..] == [];
    }
  }

  /** Filtering and ordering may be exchanged. */
  lemma {:induction false} SortKeep(rows: seq<SMS>, p: SMS -> bool)
    requires DistinctIds(rows)
    ensures Sort(Keep(rows, p)) == Keep(Sort(rows), p)
  {
    if rows != [] {
      var t := rows[1..];
      assert forall i :: 0 <= i < |t| ==> t[i] == rows[i + 1];
      SortKeep(t, p);
      SortSorted(t);
      KeepInsert(rows[0], Sort(t), p);
      if p(rows[0]) {
        assert Keep(rows, p) == [rows[0]] + Keep(t, p);
        assert Keep(rows, p)[1..] == Keep(t, p);
      } else {
        assert Keep(rows, p) == Keep(t, p);
      }
    }
  }

  lemma {:induction false} KeepAll(s: seq<SMS>, p: SMS -> bool)
    requires forall i :: 0 <= i < |s| ==> p(s[i])
    ensures Keep(s, p) == s
  {
    if s != [] {
      KeepAll(s[1..], p);
      assert s == [s[0]] + s[1..];
    }
  }

  lemma {:induction false} KeepNone(s: seq<SMS>, p: SMS -> bool)
    requires forall i :: 0 <= i < |s| ==> !p(s[i])
    ensures Keep(s, p) == []
  {
    if s != [] { KeepNone(s[1..], p); }
  }

  lemma {:induction false} KeepConcat(a: seq<SMS>, b: seq<SMS>, p: SMS -> bool)
    ensures Keep(a + b, p) == Keep(a, p) + Keep(b, p)
  {
    hide Keep;
    if a == [] {
      KeepNone(a, p);
      assert a + b == b && [] + Keep(b, p) == Keep(b, p);
    } else {
      KeepConcat(a[1..], b, p);
      KeepFirst(a + b, a[0], a[1..] + b, p);
      KeepFirst(a, a[0], a[1..], p);
      var h := if p(a[0]) then [a[0]] else [];
      assert h + (Keep(a[1..], p) + Keep(b, p)) == (h + Keep(a[1..], p)) + Keep(b, p);
    }
  }

  lemma KeepFirst(s: seq<SMS>, m: SMS, rest: seq<SMS>, p: SMS -> bool)
    requires s == [m] + rest
    ensures Keep(s, p) == (if p(m) then [m] else []) + Keep(rest, p)
  {
    assert s[1..] == rest;
  }

  /** A filter that rejects a prefix and accepts the rest. */
  lemma {:induction false} KeepSuffix(s: seq<SMS>, k: nat, p: SMS -> bool)
    requires k <= |s|
    requires forall i :: 0 <= i < |s| ==> (p(s[i]) <==> i >= k)
    ensures Keep(s, p) == s[k..]
  {
    if k == 0 {
      KeepAll(s, p);
    } else {
      KeepSuffix(s[1..], k - 1, p);
      KeepFirst(s, s[0], s[1..], p);
      hide Keep;
      assert s[1..][k - 1..] == s[k..];
    }
  }

  lemma {:induction false} KeepPrefix(s: seq<SMS>, k: nat, p: SMS -> bool)
    requires k <= |s|
    requires forall i :: 0 <= i < |s| ==> (p(s[i]) <==> i < k)
    ensures Keep(s, p) == s[..k]
  {
    if k == 0 {
      KeepNone(s, p);
    } else {
      KeepPrefix(s[1..], k - 1, p);
      KeepFirst(s, s[0], s[1..], p);
      hide Keep;
      assert [s[0]] + s[1..][..k - 1] == s[..k];
    }
  }

  lemma {:induction false} SameKeep(s: seq<SMS>, p: SMS -> bool, q: SMS -> bool)
    requires forall i :: 0 <= i < |s| ==> p(s[i]) == q(s[i])
    ensures Keep(s, p) == Keep(s, q)
  {
    if s != [] { SameKeep(s[1..], p, q); }
  }

  lemma {:induction false} KeepDistinct(s: seq<SMS>, p: SMS -> bool)
    requires DistinctIds(s)
    ensures DistinctIds(Keep(s, p))
  {
    if s != [] {
      var t := s[1..];
      assert forall i :: 0 <= i < |t| ==> t[i] == s[i + 1];
      KeepDistinct(t, p);
      KeepMembers(t, p);
      var k := Keep(t, p);
      forall i | 0 <= i < |k| ensures k[i].id != s[0].id {
        assert k[i] in t;
      }
    }
  }

  // ---- ordering does not change the summary of a thread --------------------------------

  lemma {:induction false} InsertSummary(m: SMS, s: seq<SMS>, pre: seq<SMS>, k: Key)
    requires forall i :: 0 <= i < |s| ==> s[i].id != m.id
    requires forall i :: 0 <= i < |pre| ==> pre[i].id != m.id
    ensures Latest(pre + Insert(m, s), k) == Latest([m] + pre + s, k)
    ensures Unread(pre + Insert(m, s), k) == Unread([m] + pre + s, k)
    decreases s
  {
    hide Latest, Unread;
    if s == [] || Before(m, s[0]) {
      SwapIrrelevant(pre, m, s, k);
      assert pre + ([m] + s) == pre + [m] + s;
      assert [m] + [] == [m];
    } else {
      var pre' := pre + [s[0]];
      assert pre + ([s[0]] + Insert(m, s[1..])) == pre' + Insert(m, s[1..]);
      assert [m] + pre + s == [m] + pre' + s[1..];
      InsertSummary(m, s[1..], pre', k);
    }
  }

  lemma {:induction false} SortSummary(rows: seq<SMS>, k: Key)
    requires DistinctIds(rows)
    ensures Latest(Sort(rows), k) == Latest(rows, k)
    ensures Unread(Sort(rows), k) == Unread(rows, k)
  {
    hide Latest, Unread;
    if rows != [] {
      var m, t := rows[0], rows[1..];
      assert forall i :: 0 <= i < |t| ==> t[i] == rows[i + 1];
      SortSummary(t, k);
      SortMembers(t);
      var s := Sort(t);
      forall i | 0 <= i < |s| ensures s[i].id != m.id { assert s[i] in t; }
      InsertSummary(m, s, [], k);
      assert [] + Insert(m, s) == Insert(m, s) && [m] + [] + s == [m] + s && rows == [m] + t;
      ConcatUnread([m], s, k); ConcatUnread([m], t, k);
      ConcatLatest([m], s, k); ConcatLatest([m], t, k);
    }
  }
}
