// Which stored row a cluster takes, in terms of the ciks and transaction ids of
// the table before the run.
module UpsertInFields {
  import opened Domain
  import opened ClusterBuyRepo
  import opened Pipeline
  import opened Invariants
  import opened Splits

  // ---------- One upsert ----------

  /** Sharing any one id with a row of its cik is enough: the candidate replaces the content of the
      first such row, under that row's id. */
  lemma SharedIdTakesRow(rows: seq<ClusterBuyEvent>, e: ClusterBuyEvent, i: nat, x: Id)
    requires i < |rows| && rows[i].content.cik == e.content.cik
    requires x in rows[i].content.transactionIds && x in e.content.transactionIds
    requires forall j, y | 0 <= j < i && y in rows[j].content.transactionIds && y in e.content.transactionIds ::
      rows[j].content.cik != e.content.cik
    ensures Upsert(rows, e) == rows[i := ClusterBuyEvent(rows[i].id, e.content)]
  {
    FirstOverlapIs(rows, e.content, i);
  }

  /** A candidate that shares no id with a row of its cik becomes a new row under its own id. */
  lemma NoSharedIdAddsRow(rows: seq<ClusterBuyEvent>, e: ClusterBuyEvent)
    requires forall j, y | 0 <= j < |rows| && y in rows[j].content.transactionIds && y in e.content.transactionIds ::
      rows[j].content.cik != e.content.cik
    ensures Upsert(rows, e) == rows + [e]
  {}

  // ---------- A run of upserts ----------

  /** The k-th candidate of a run ends in row p of the table, under that row's old id if it is an old
      one and under its own id if not. An old row p has the candidate's cik and holds one of its ids,
      and every earlier row that does was taken by an earlier candidate, so p is the first left. */
  lemma RunTakesFirstSharing(rows: seq<ClusterBuyEvent>, es: seq<ClusterBuyEvent>, k: nat) returns (p: nat)
    requires Disjoint(es) && k < |es|
    ensures p == Places(rows, es)[k] && p !in Places(rows, es)[..k]
    ensures p < |UpsertAll(rows, es)|
    ensures UpsertAll(rows, es)[p] == ClusterBuyEvent(if p < |rows| then rows[p].id else es[k].id, es[k].content)
    ensures p < |rows| ==> rows[p].content.cik == es[k].content.cik
    ensures p < |rows| ==> exists x :: x in rows[p].content.transactionIds && x in es[k].content.transactionIds
    ensures forall j, x | 0 <= j < |rows| && j < p && rows[j].content.cik == es[k].content.cik
      && x in rows[j].content.transactionIds && x in es[k].content.transactionIds :: j in Places(rows, es)[..k]
  {
    FirstUnclaimedRow(rows, es, k);
    RunSettles(rows, es, k);
    p := Places(rows, es)[k];
    hide UpsertAll, Places, Disjoint;
    assert UpsertAll(rows, es)[p].content == es[k].content;
  }

  // ---------- A classify run ----------

  /** No other row of its cik holds an id of c, and no other detected cluster of that cik an id of row r. */
  ghost predicate ShareOnlyEachOther(s: State, c: ClusterCandidate, r: nat)
    requires r < |s.clusters|
  {
    && (forall j, x | 0 <= j < |s.clusters| && x in s.clusters[j].content.transactionIds && x in c.transactionIds ::
      s.clusters[j].content.cik == c.cik ==> j == r)
    && (forall d, x | d in Detected(s) && x in d.transactionIds && x in s.clusters[r].content.transactionIds ::
      d.cik == c.cik ==> d == c)
  }

  /** A detected cluster that shares a single id with a stored row of its cik, and with no other, is in
      that row after the run, under its id and with its signal and that signal's history. */
  lemma SharedIdKeepsSignal(s: State, reclassify: bool, c: ClusterCandidate, r: nat, x: Id)
    requires Inv(s) && c in Detected(s) && r < |s.clusters| && s.clusters[r].content.cik == c.cik
    requires x in s.clusters[r].content.transactionIds && x in c.transactionIds
    requires ShareOnlyEachOther(s, c, r)
    ensures r < |Classified(s, reclassify).clusters|
    ensures Classified(s, reclassify).clusters[r] == ClusterBuyEvent(s.clusters[r].id, c)
    ensures KeepsRowAndSignal(s, Classified(s, reclassify), r)
  {
    assert IsPiece(s, r, c);
    assert IsEarliestPiece(s, r, c);
    assert SplitsAlone(s, r);
    hide Inv, Classified, Detected, ShareOnlyEachOther;
    var p := SplitKeepsHistory(s, reclassify, r, c);
  }
}
