// The cluster table: a candidate replaces the first row of its company that
// shares a transaction with it, or becomes a new row.
module ClusterBuyRepo {
  import opened Domain
  import opened DetectionLaws

  predicate Overlaps(row: ClusterCandidate, c: ClusterCandidate) {
    row.cik == c.cik && exists x :: x in row.transactionIds && x in c.transactionIds
  }

  /** The first row that overlaps c, or the position of a new row. */
  function FirstOverlap(rows: seq<ClusterBuyEvent>, c: ClusterCandidate): (i: nat)
    ensures i <= |rows|
    ensures i < |rows| ==> Overlaps(rows[i].content, c)
    ensures forall j | 0 <= j < i :: !Overlaps(rows[j].content, c)
  {
    if rows == [] || Overlaps(rows[0].content, c) then 0 else 1 + FirstOverlap(rows[1..], c)
  }

  function Upsert(rows: seq<ClusterBuyEvent>, e: ClusterBuyEvent): seq<ClusterBuyEvent> {
    var i := FirstOverlap(rows, e.content);
    if i < |rows| then rows[i := rows[i].(content := e.content)] else rows + [e]
  }

  class ClusterBuyEventRepository {
    var rows: seq<ClusterBuyEvent>

    constructor ()
      ensures rows == []
    {
      rows := [];
    }

    method Get(id: Id) returns (r: Option<ClusterBuyEvent>)
      ensures r.Some? ==> r.value in rows && r.value.id == id
      ensures r.None? ==> forall row | row in rows :: row.id != id
    {
      for i := 0 to |rows|
        invariant forall j | 0 <= j < i :: rows[j].id != id
      {
        if rows[i].id == id { return Some(rows[i]); }
      }
      return None;
    }

    method UpsertByOverlappingTransactions(candidate: ClusterBuyEvent) returns (saved: ClusterBuyEvent)
      modifies this
      ensures rows == Upsert(old(rows), candidate)
      ensures FirstOverlap(old(rows), candidate.content) < |rows|
      ensures saved == rows[FirstOverlap(old(rows), candidate.content)]
      ensures var p := FirstOverlap(old(rows), candidate.content);
        if p < |old(rows)| then
          && rows == old(rows)[p := ClusterBuyEvent(old(rows)[p].id, candidate.content)]
          && old(rows)[p].content.cik == candidate.content.cik
          && exists x :: x in old(rows)[p].content.transactionIds && x in candidate.content.transactionIds
        else rows == old(rows) + [candidate]
      ensures forall j, x | 0 <= j < FirstOverlap(old(rows), candidate.content)
        && x in old(rows)[j].content.transactionIds && x in candidate.content.transactionIds ::
        old(rows)[j].content.cik != candidate.content.cik
    {
      var i := 0;
      while i < |rows| && !Overlaps(rows[i].content, candidate.content)
        invariant i <= |rows|
        invariant forall j | 0 <= j < i :: !Overlaps(rows[j].content, candidate.content)
      {
        i := i + 1;
      }
      assert i == FirstOverlap(rows, candidate.content);
      if i == |rows| {
        rows := rows + [candidate];
      } else {
        rows := rows[i := rows[i].(content := candidate.content)];
      }
      saved := rows[i];
    }
  }

  // ---------- One classify run: a series of upserts ----------

  function UpsertAll(rows: seq<ClusterBuyEvent>, es: seq<ClusterBuyEvent>): seq<ClusterBuyEvent>
    decreases |es|
  {
    if es == [] then rows else UpsertAll(Upsert(rows, es[0]), es[1..])
  }

  /** The position that each upsert of the run writes to. */
  function Places(rows: seq<ClusterBuyEvent>, es: seq<ClusterBuyEvent>): (ps: seq<nat>)
    ensures |ps| == |es|
    decreases |es|
  {
    if es == [] then []
    else [FirstOverlap(rows, es[0].content)] + Places(Upsert(rows, es[0]), es[1..])
  }

  /** What detection guarantees of the candidates of one run. */
  ghost predicate Disjoint(es: seq<ClusterBuyEvent>) {
    && (forall e | e in es :: e.content.transactionIds != [])
    && (forall i, j | 0 <= i < j < |es| :: NoSharedId(es[i].content.transactionIds, es[j].content.transactionIds))
  }

  /** Row i holds exactly c and is the first row that overlaps it. */
  ghost predicate SettledAt(rows: seq<ClusterBuyEvent>, c: ClusterCandidate, i: nat) {
    i < |rows| && FirstOverlap(rows, c) == i && rows[i].content == c
  }

  lemma FirstOverlapIs(rows: seq<ClusterBuyEvent>, c: ClusterCandidate, i: nat)
    requires i < |rows| && Overlaps(rows[i].content, c)
    requires forall j | 0 <= j < i :: !Overlaps(rows[j].content, c)
    ensures FirstOverlap(rows, c) == i
  {}

  lemma UpsertSettles(rows: seq<ClusterBuyEvent>, e: ClusterBuyEvent)
    requires e.content.transactionIds != []
    ensures SettledAt(Upsert(rows, e), e.content, FirstOverlap(rows, e.content))
  {
    var i := FirstOverlap(rows, e.content);
    assert e.content.transactionIds[0] in e.content.transactionIds;
    FirstOverlapIs(Upsert(rows, e), e.content, i);
  }

  lemma UpsertKeepsSettled(rows: seq<ClusterBuyEvent>, e: ClusterBuyEvent, c: ClusterCandidate, i: nat)
    requires SettledAt(rows, c, i) && NoSharedId(c.transactionIds, e.content.transactionIds)
    ensures SettledAt(Upsert(rows, e), c, i) && FirstOverlap(rows, e.content) != i
    ensures Upsert(rows, e)[i] == rows[i]
  {
    FirstOverlapIs(Upsert(rows, e), c, i);
  }

  lemma {:induction false} RunKeepsSettled(rows: seq<ClusterBuyEvent>, es: seq<ClusterBuyEvent>, c: ClusterCandidate,
      i: nat)
    requires SettledAt(rows, c, i) && forall e | e in es :: NoSharedId(c.transactionIds, e.content.transactionIds)
    ensures SettledAt(UpsertAll(rows, es), c, i) && i !in Places(rows, es)
    ensures UpsertAll(rows, es)[i] == rows[i]
    decreases |es|
  {
    if es != [] {
      UpsertKeepsSettled(rows, es[0], c, i);
      RunKeepsSettled(Upsert(rows, es[0]), es[1..], c, i);
    }
  }

  lemma DisjointTail(es: seq<ClusterBuyEvent>)
    requires Disjoint(es) && es != []
    ensures Disjoint(es[1..])
    ensures forall e | e in es[1..] :: NoSharedId(es[0].content.transactionIds, e.content.transactionIds)
  {
    assert forall i | 0 <= i < |es| - 1 :: es[1..][i] == es[i + 1];
  }

  /** After a run from any table, each candidate has its own row, holding exactly it, which is
      also the first row that overlaps it; a row that was added has the candidate's id. */
  lemma {:induction false} RunSettles(rows: seq<ClusterBuyEvent>, es: seq<ClusterBuyEvent>, k: nat)
    requires Disjoint(es) && k < |es|
    ensures SettledAt(UpsertAll(rows, es), es[k].content, Places(rows, es)[k])
    ensures forall m | 0 <= m < k :: Places(rows, es)[m] != Places(rows, es)[k]
    ensures UpsertAll(rows, es)[Places(rows, es)[k]].id ==
      if Places(rows, es)[k] < |rows| then rows[Places(rows, es)[k]].id else es[k].id
    decreases |es|
  {
    DisjointTail(es);
    var next, i := Upsert(rows, es[0]), FirstOverlap(rows, es[0].content);
    UpsertSettles(rows, es[0]);
    RunKeepsSettled(next, es[1..], es[0].content, i);
    if k > 0 {
      RunSettles(next, es[1..], k - 1);
      var p := Places(next, es[1..])[k - 1];
      assert p in Places(next, es[1..]) && p != i;
      assert forall m | 0 < m < k :: Places(rows, es)[m] == Places(next, es[1..])[m - 1];
    }
  }

  /** Rows are never removed or reordered, keep their ids, and change only where a candidate is placed. */
  lemma {:induction false} RunKeepsRows(rows: seq<ClusterBuyEvent>, es: seq<ClusterBuyEvent>)
    ensures |rows| <= |UpsertAll(rows, es)| <= |rows| + |es|
    ensures forall i | 0 <= i < |rows| :: UpsertAll(rows, es)[i].id == rows[i].id
    ensures forall i | 0 <= i < |rows| && i !in Places(rows, es) :: UpsertAll(rows, es)[i] == rows[i]
    decreases |es|
  {
    if es != [] {
      RunKeepsRows(Upsert(rows, es[0]), es[1..]);
    }
  }

  /** Every added row was added for a candidate. */
  lemma {:induction false} NewRowsArePlaced(rows: seq<ClusterBuyEvent>, es: seq<ClusterBuyEvent>, i: nat)
    requires |rows| <= i < |UpsertAll(rows, es)|
    ensures i in Places(rows, es)
    decreases |es|
  {
    var next := Upsert(rows, es[0]);
    if i >= |next| {
      NewRowsArePlaced(next, es[1..], i);
    }
  }

  /** A run whose candidates are already settled changes nothing, whatever ids it brings. */
  lemma {:induction false} SettledRunIsIdle(rows: seq<ClusterBuyEvent>, es: seq<ClusterBuyEvent>)
    requires forall e | e in es :: exists i :: SettledAt(rows, e.content, i)
    ensures UpsertAll(rows, es) == rows
    ensures forall k | 0 <= k < |es| :: SettledAt(rows, es[k].content, Places(rows, es)[k])
    decreases |es|
  {
    if es != [] {
      var i :| SettledAt(rows, es[0].content, i);
      assert Upsert(rows, es[0]) == rows;
      forall e | e in es[1..]
        ensures exists j :: SettledAt(rows, e.content, j)
      { assert e in es; }
      SettledRunIsIdle(rows, es[1..]);
    }
  }

  /** Classify settles: a second run over the same candidates leaves the table as it is and puts
      each candidate in the same row. */
  lemma SecondRunIsIdle(rows: seq<ClusterBuyEvent>, es: seq<ClusterBuyEvent>, again: seq<ClusterBuyEvent>)
    requires Disjoint(es) && |again| == |es| && forall k | 0 <= k < |es| :: again[k].content == es[k].content
    ensures UpsertAll(UpsertAll(rows, es), again) == UpsertAll(rows, es)
    ensures Places(UpsertAll(rows, es), again) == Places(rows, es)
  {
    var after := UpsertAll(rows, es);
    forall k | 0 <= k < |es|
      ensures SettledAt(after, again[k].content, Places(rows, es)[k])
    {
      RunSettles(rows, es, k);
    }
    SettledRunIsIdle(after, again);
  }

  // ---------- Which row a candidate gets ----------

  /** p is the first row overlapping c that is not claimed; if all are claimed, p is a new row. */
  ghost predicate IsFirstUnclaimed(rows: seq<ClusterBuyEvent>, c: ClusterCandidate, claimed: seq<nat>, p: nat) {
    && p !in claimed
    && (p < |rows| ==> Overlaps(rows[p].content, c))
    && (forall j | 0 <= j < |rows| && j < p && Overlaps(rows[j].content, c) :: j in claimed)
  }

  /** In terms of the table before the run: a candidate gets the first row that overlaps it and
      that no earlier candidate of the run took. */
  lemma {:induction false} FirstUnclaimedRow(rows: seq<ClusterBuyEvent>, es: seq<ClusterBuyEvent>, k: nat)
    requires Disjoint(es) && k < |es|
    ensures IsFirstUnclaimed(rows, es[k].content, Places(rows, es)[..k], Places(rows, es)[k])
    decreases |es|
  {
    if k > 0 {
      DisjointTail(es);
      var next, i, ps := Upsert(rows, es[0]), FirstOverlap(rows, es[0].content), Places(rows, es);
      FirstUnclaimedRow(next, es[1..], k - 1);
      assert es[1..][k - 1] == es[k] && es[k] in es[1..];
      assert ps[k] == Places(next, es[1..])[k - 1];
      assert ps[..k] == [i] + Places(next, es[1..])[..k - 1];
      UnclaimedBefore(rows, es[0], es[k].content, ps[..k][1..], ps[k]);
    }
  }

  lemma UnclaimedBefore(rows: seq<ClusterBuyEvent>, e: ClusterBuyEvent, c: ClusterCandidate, claimed: seq<nat>, p: nat)
    requires e.content.transactionIds != [] && NoSharedId(e.content.transactionIds, c.transactionIds)
    requires IsFirstUnclaimed(Upsert(rows, e), c, claimed, p)
    ensures IsFirstUnclaimed(rows, c, [FirstOverlap(rows, e.content)] + claimed, p)
  {
    hide FirstOverlap;
    var i, next := FirstOverlap(rows, e.content), Upsert(rows, e);
    assert next[i].content == e.content && !Overlaps(next[i].content, c);
    assert forall j | 0 <= j < |rows| && j != i :: next[j] == rows[j];
  }

  // ---------- Splits and growth ----------

  /** When every candidate that overlaps row r overlaps no other row, the first of them takes the
      row and each later one becomes a new row. */
  lemma SplitKeepsFirst(rows: seq<ClusterBuyEvent>, es: seq<ClusterBuyEvent>, r: nat, k: nat)
    requires Disjoint(es) && r < |rows| && k < |es| && Overlaps(rows[r].content, es[k].content)
    requires forall m, j | 0 <= m < |es| && 0 <= j < |rows|
      && Overlaps(rows[r].content, es[m].content) && Overlaps(rows[j].content, es[m].content) :: j == r
    ensures Places(rows, es)[k] == r <==> forall m | 0 <= m < k :: !Overlaps(rows[r].content, es[m].content)
    ensures Places(rows, es)[k] == r || Places(rows, es)[k] >= |rows|
    ensures SettledAt(UpsertAll(rows, es), es[k].content, Places(rows, es)[k])
  {
    var ps := Places(rows, es);
    RunSettles(rows, es, k);
    FirstUnclaimedRow(rows, es, k);
    if m :| 0 <= m < k && Overlaps(rows[r].content, es[m].content) && ps[m] != r {
      SplitKeepsFirst(rows, es, r, m);
      FirstUnclaimedRow(rows, es, m);
      var j :| 0 <= j < m && ps[..m][j] == r;
      FirstUnclaimedRow(rows, es, j);
      assert ps[j] in ps[..k];
    } else if m :| 0 <= m < k && Overlaps(rows[r].content, es[m].content) {
      assert ps[m] in ps[..k];
    } else if ps[k] != r {
      assert r in ps[..k];
      var j :| 0 <= j < k && ps[..k][j] == r;
      FirstUnclaimedRow(rows, es, j);
      assert false;
    }
  }

  /** A candidate that extends what row i holds by transactions no row has seen keeps row i. */
  lemma GrowthKeepsRow(rows: seq<ClusterBuyEvent>, es: seq<ClusterBuyEvent>, c: ClusterCandidate, i: nat, k: nat)
    requires Disjoint(es) && k < |es| && SettledAt(rows, c, i) && c.transactionIds != []
    requires es[k].content.cik == c.cik
    requires forall x | x in c.transactionIds :: x in es[k].content.transactionIds
    requires forall x, row | row in rows && x in es[k].content.transactionIds && x in row.content.transactionIds
      :: x in c.transactionIds
    ensures Places(rows, es)[k] == i
    ensures SettledAt(UpsertAll(rows, es), es[k].content, i)
    ensures UpsertAll(rows, es)[i].id == rows[i].id
  {
    var d, ps := es[k].content, Places(rows, es);
    assert c.transactionIds[0] in c.transactionIds;
    assert Overlaps(rows[i].content, d);
    forall j | 0 <= j < i
      ensures !Overlaps(rows[j].content, d)
    {
      assert rows[j] in rows && !Overlaps(rows[j].content, c);
    }
    FirstUnclaimedRow(rows, es, k);
    if i in ps[..k] {
      var m :| 0 <= m < k && ps[..k][m] == i;
      FirstUnclaimedRow(rows, es, m);
      assert false;
    }
    RunSettles(rows, es, k);
  }
}
