// What one classify run does to the cluster table and which rows its verdicts name.
module ClusterLaws {
  import opened Domain
  import opened Rules
  import opened Ordering
  import opened Signals
  import opened ClusterBuying
  import opened DetectionLaws
  import opened ClusterBuyRepo
  import opened Classify
  import opened VerdictLaws
  import TransactionRepo

  ghost predicate DistinctRowIds(rows: seq<ClusterBuyEvent>) {
    forall i, j | 0 <= i < j < |rows| :: rows[i].id != rows[j].id
  }

  /** Row ids are distinct and below nextId; only ids below nextTxnId are stored. */
  ghost predicate ClustersOk(rows: seq<ClusterBuyEvent>, nextId: Id, nextTxnId: Id) {
    && DistinctRowIds(rows)
    && (forall row | row in rows :: row.id < nextId)
    && (forall row, x | row in rows && x in row.content.transactionIds :: x < nextTxnId)
  }

  ghost predicate Numbered(es: seq<ClusterBuyEvent>, firstId: Id) {
    forall k | 0 <= k < |es| :: es[k].id == firstId + k
  }

  lemma {:induction false} RunKeepsClusters(rows: seq<ClusterBuyEvent>, es: seq<ClusterBuyEvent>, nextId: Id,
      nextTxnId: Id)
    requires ClustersOk(rows, nextId, nextTxnId) && Numbered(es, nextId)
    requires forall e, x | e in es && x in e.content.transactionIds :: x < nextTxnId
    ensures ClustersOk(UpsertAll(rows, es), nextId + |es|, nextTxnId)
    decreases |es|
  {
    if es != [] {
      UpsertKeepsClusters(rows, es[0], nextId, nextTxnId);
      assert forall k | 0 <= k < |es| - 1 :: es[1..][k] == es[k + 1];
      assert forall e | e in es[1..] :: e in es;
      RunKeepsClusters(Upsert(rows, es[0]), es[1..], nextId + 1, nextTxnId);
    }
  }

  lemma UpsertKeepsClusters(rows: seq<ClusterBuyEvent>, e: ClusterBuyEvent, nextId: Id, nextTxnId: Id)
    requires ClustersOk(rows, nextId, nextTxnId) && e.id == nextId
    requires forall x | x in e.content.transactionIds :: x < nextTxnId
    ensures ClustersOk(Upsert(rows, e), nextId + 1, nextTxnId)
  {
    var after, i := Upsert(rows, e), FirstOverlap(rows, e.content);
    forall row | row in after
      ensures row.id < nextId + 1 && forall x | x in row.content.transactionIds :: x < nextTxnId
    {
      var j :| 0 <= j < |after| && after[j] == row;
      if j < |rows| { assert rows[j] in rows; }
    }
    forall a, b | 0 <= a < b < |after|
      ensures after[a].id != after[b].id
    {
      if b == |rows| { assert rows[a] in rows; }
    }
  }

  /** The k-th verdict is about the row in which the k-th candidate ends up. */
  lemma {:induction false} VerdictNamesItsRow(rows: seq<ClusterBuyEvent>, es: seq<ClusterBuyEvent>,
      thresholds: Thresholds, k: nat)
    requires k < |es|
    ensures Places(rows, es)[k] < |UpsertAll(rows, es)|
    ensures ClusterVerdicts(rows, es, thresholds)[k] == Verdict(
      ClusterLink(UpsertAll(rows, es)[Places(rows, es)[k]].id),
      IsNotableCluster(es[k].content, thresholds.minClusterFilerCount), None, thresholds)
    decreases |es|
  {
    var next := Upsert(rows, es[0]);
    if k == 0 {
      RunKeepsRows(next, es[1..]);
    } else {
      VerdictNamesItsRow(next, es[1..], thresholds, k - 1);
    }
  }

  /** Distinct candidates are judged through distinct rows. */
  lemma ClusterLinksDistinct(rows: seq<ClusterBuyEvent>, es: seq<ClusterBuyEvent>, thresholds: Thresholds)
    requires Disjoint(es) && DistinctRowIds(UpsertAll(rows, es))
    ensures DistinctLinks(ClusterVerdicts(rows, es, thresholds))
  {
    hide ClusterVerdicts, UpsertAll, Places, Disjoint;
    var vs := ClusterVerdicts(rows, es, thresholds);
    forall i, j | 0 <= i < j < |vs|
      ensures vs[i].link != vs[j].link
    {
      VerdictNamesItsRow(rows, es, thresholds, i);
      VerdictNamesItsRow(rows, es, thresholds, j);
      RunSettles(rows, es, j);
    }
  }

  // ---------- The candidates of a stored table ----------

  lemma {:induction false} LiveAre(txns: seq<Transaction>)
    ensures forall t :: t in Live(txns) <==> t in txns && t.supersededBy == None
    ensures DistinctIds(txns) ==> DistinctIds(Live(txns))
  {
    if txns != [] {
      LiveAre(txns[1..]);
      assert txns == [txns[0]] + txns[1..];
      if DistinctIds(txns) {
        DistinctIdsSplit([txns[0]], txns[1..]);
      }
    }
  }

  lemma ListedIsPermutation(rows: seq<Transaction>)
    ensures forall t :: t in TransactionRepo.Listed(rows) <==> t in rows
    ensures DistinctIds(rows) ==> DistinctIds(TransactionRepo.Listed(rows))
  {
    SameElements(rows, TransactionRepo.Listed(rows));
    if DistinctIds(rows) {
      DistinctIdsPermute(rows, TransactionRepo.Listed(rows));
    }
  }

  /** The candidates of a table with distinct ids are disjoint and made of its transactions. */
  lemma CandidatesOfTable(rows: seq<Transaction>, window: nat, firstId: Id)
    requires DistinctIds(rows)
    ensures Disjoint(EventsFor(Candidates(rows, window), firstId))
    ensures Numbered(EventsFor(Candidates(rows, window), firstId), firstId)
    ensures forall e, x | e in EventsFor(Candidates(rows, window), firstId) && x in e.content.transactionIds ::
      exists t :: t in rows && t.id == x
  {
    hide Detect, TransactionRepo.Listed, Live;
    var live := Live(TransactionRepo.Listed(rows));
    ListedIsPermutation(rows);
    LiveAre(TransactionRepo.Listed(rows));
    CandidatesAreDisjoint(live, window);
    var es := EventsFor(Candidates(rows, window), firstId);
    forall e | e in es
      ensures e.content.transactionIds != []
      ensures forall x | x in e.content.transactionIds :: exists t :: t in rows && t.id == x
    {
      var k :| 0 <= k < |es| && es[k] == e;
      CandidateIds(live, window, e.content);
    }
  }

  lemma CandidateIds(txns: seq<Transaction>, window: nat, c: ClusterCandidate)
    requires c in Detect(txns, window)
    ensures c.transactionIds != []
    ensures forall x | x in c.transactionIds :: exists t :: t in txns && t.id == x
  {
    CandidatesAreGroups(txns, window, c);
    var g :| IsGroupAt(txns, window, c.cik, g) && FinalizeGroup(g) == Some(c);
    GroupMembers(txns, window, c.cik, g);
  }
}
