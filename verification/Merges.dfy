// What becomes of the rows of clusters that merge or dissolve.
module Merges {
  import opened Domain
  import opened Signals
  import opened ClusterBuying
  import opened DetectionLaws
  import opened DetectionCoverage
  import opened ClusterBuyRepo
  import opened Classify
  import opened Pipeline
  import opened RecordLaws
  import opened ClusterLaws
  import opened Invariants
  import opened Transitions
  import opened Settling
  import opened Splits
  import TransactionRepo

  // ---------- Merging rows ----------

  /** No other detected cluster overlaps a row that c overlaps. */
  ghost predicate MergesAlone(s: State, c: ClusterCandidate) {
    forall d, j | d in Detected(s) && 0 <= j < |s.clusters|
      && Overlaps(s.clusters[j].content, c) && Overlaps(s.clusters[j].content, d) :: d == c
  }

  /** The row and its signal are as they were. */
  ghost predicate IsUntouched(s: State, s1: State, j: nat) {
    && j < |s.clusters| && j < |s1.clusters| && s1.clusters[j] == s.clusters[j]
    && var link := ClusterLink(s.clusters[j].id);
      Lookup(s1.signals.rows, link) == Lookup(s.signals.rows, link)
  }

  /** A row that no candidate is placed in. */
  lemma UnplacedRow(s: State, reclassify: bool, j: nat)
    requires Inv(s) && j < |s.clusters| && j !in Places(s.clusters, DetectedEvents(s))
    ensures IsUntouched(s, Classified(s, reclassify), j)
  {
    hide DetectedEvents, UpsertAll, Places, ClusterVerdicts, JudgeAll, TransactionsOk, BuybacksOk, RowsOk, MailOk,
      TableOk, Disjoint, Lookup, RecordVerdicts, EventVerdicts;
    var es, link := DetectedEvents(s), ClusterLink(s.clusters[j].id);
    RunKeepsRows(s.clusters, es);
    ClassifiedClusters(s, reclassify);
    DetectedEventsOk(s);
    forall v | v in RunVerdicts(s)
      ensures v.link != link
    {
      var m :| 0 <= m < |RunVerdicts(s)| && RunVerdicts(s)[m] == v;
      VerdictNamesItsRow(s.clusters, es, s.thresholds, m);
      assert Places(s.clusters, es)[m] in Places(s.clusters, es);
    }
    RecordVerdictKinds(s);
    ClassifyLeaves(s, reclassify, link);
  }

  lemma MergePlaces(rows: seq<ClusterBuyEvent>, es: seq<ClusterBuyEvent>, k: nat)
    requires Disjoint(es) && k < |es| && FirstOverlap(rows, es[k].content) < |rows|
    requires forall m, j | 0 <= m < |es| && 0 <= j < |rows|
      && Overlaps(rows[j].content, es[k].content) && Overlaps(rows[j].content, es[m].content) :: m == k
    ensures Places(rows, es)[k] == FirstOverlap(rows, es[k].content)
    ensures forall j | 0 <= j < |rows| && Overlaps(rows[j].content, es[k].content) && j != Places(rows, es)[k] ::
      j !in Places(rows, es)
  {
    var ps, f := Places(rows, es), FirstOverlap(rows, es[k].content);
    FirstUnclaimedRow(rows, es, k);
    forall j, m | 0 <= j < |rows| && Overlaps(rows[j].content, es[k].content) && 0 <= m < |es| && ps[m] == j
      ensures m == k
    {
      FirstUnclaimedRow(rows, es, m);
    }
    assert f !in ps[..k];
  }

  lemma SameContentSameIndex(es: seq<ClusterBuyEvent>)
    requires Disjoint(es)
    ensures forall k, m | 0 <= k < |es| && 0 <= m < |es| && es[k].content == es[m].content :: k == m
  {
    forall k, m | 0 <= k < m < |es|
      ensures es[k].content != es[m].content
    {
      assert es[k] in es && es[k].content.transactionIds[0] in es[k].content.transactionIds;
    }
  }

  /** In the order of detection: c goes to the first row it overlaps and nothing to the others. */
  lemma MergedPlace(s: State, c: ClusterCandidate) returns (k: nat)
    requires Inv(s) && c in Detected(s) && MergesAlone(s, c) && FirstOverlap(s.clusters, c) < |s.clusters|
    ensures k < |DetectedEvents(s)|
    ensures var es, f := DetectedEvents(s), FirstOverlap(s.clusters, c);
      && Places(s.clusters, es)[k] == f && f < |UpsertAll(s.clusters, es)|
      && SettledAt(UpsertAll(s.clusters, es), c, f) && UpsertAll(s.clusters, es)[f].id == s.clusters[f].id
      && forall j | 0 <= j < |s.clusters| && Overlaps(s.clusters[j].content, c) && j != f ::
        j !in Places(s.clusters, es)
  {
    k :| 0 <= k < |Detected(s)| && Detected(s)[k] == c;
    var es := DetectedEvents(s);
    assert |es| == |Detected(s)| && forall m | 0 <= m < |es| :: es[m].content == Detected(s)[m];
    hide Candidates, Detected, DetectedEvents, UpsertAll, Places, Disjoint, Overlaps, TransactionsOk, BuybacksOk,
      ClustersOk, RowsOk, MailOk, TableOk;
    DetectedEventsOk(s);
    SameContentSameIndex(es);
    forall m, j | 0 <= m < |es| && 0 <= j < |s.clusters|
      && Overlaps(s.clusters[j].content, c) && Overlaps(s.clusters[j].content, es[m].content)
      ensures m == k
    {
      assert es[m].content in Detected(s);
    }
    MergePlaces(s.clusters, es, k);
    RunSettles(s.clusters, es, k);
  }

  /** When a detected cluster overlaps rows that no other one overlaps, it takes the first of them,
      which keeps its id and its signal with its history; each of the others keeps its content and
      its signal, untouched, as a stale row. */
  lemma MergeTakesFirst(s: State, reclassify: bool, c: ClusterCandidate) returns (p: nat)
    requires Inv(s) && c in Detected(s) && MergesAlone(s, c) && FirstOverlap(s.clusters, c) < |s.clusters|
    ensures p == FirstOverlap(s.clusters, c) && SettledAt(Classified(s, reclassify).clusters, c, p)
    ensures KeepsRowAndSignal(s, Classified(s, reclassify), p)
    ensures forall j | 0 <= j < |s.clusters| && j != p && Overlaps(s.clusters[j].content, c) ::
      IsUntouched(s, Classified(s, reclassify), j)
  {
    hide Candidates, Detected, DetectedEvents, UpsertAll, Places, ClusterVerdicts, JudgeAll, Inv, Disjoint, Lookup,
      FirstOverlap, Overlaps, KeepsRowAndSignal, IsUntouched, IsOutcome, SettledAt, MergesAlone;
    var k := MergedPlace(s, c);
    var es := DetectedEvents(s);
    p := Places(s.clusters, es)[k];
    ClassifiedClusters(s, reclassify);
    VerdictNamesItsRow(s.clusters, es, s.thresholds, k);
    ClassifyOutcome(s, reclassify, RunVerdicts(s)[k]);
    HistoryIsKept(s, Classified(s, reclassify), p, RunVerdicts(s)[k]);
    forall j | 0 <= j < |s.clusters| && j != p && Overlaps(s.clusters[j].content, c)
      ensures IsUntouched(s, Classified(s, reclassify), j)
    {
      UnplacedRow(s, reclassify, j);
    }
  }

  // ---------- When two rows come to hold one transaction ----------

  ghost predicate RowsDisjoint(rows: seq<ClusterBuyEvent>) {
    forall i, j | 0 <= i < j < |rows| :: NoSharedId(rows[i].content.transactionIds, rows[j].content.transactionIds)
  }

  /** A row that the run does not write holds a transaction of a candidate. */
  ghost predicate LeavesDuplicate(rows: seq<ClusterBuyEvent>, es: seq<ClusterBuyEvent>) {
    exists j, e :: 0 <= j < |rows| && j !in Places(rows, es) && e in es
      && !NoSharedId(rows[j].content.transactionIds, e.content.transactionIds)
  }

  /** After a run each row holds what it held, or a candidate. */
  lemma RowAfterRun(rows: seq<ClusterBuyEvent>, es: seq<ClusterBuyEvent>, j: nat) returns (k: nat)
    requires Disjoint(es) && j < |UpsertAll(rows, es)|
    ensures j !in Places(rows, es) ==> j < |rows| && UpsertAll(rows, es)[j] == rows[j]
    ensures j in Places(rows, es) ==>
      k < |es| && Places(rows, es)[k] == j && UpsertAll(rows, es)[j].content == es[k].content
  {
    RunKeepsRows(rows, es);
    k := 0;
    if j in Places(rows, es) {
      k :| 0 <= k < |es| && Places(rows, es)[k] == j;
      RunSettles(rows, es, k);
    } else if j >= |rows| {
      NewRowsArePlaced(rows, es, j);
    }
  }

  lemma DisjointPair(rows: seq<ClusterBuyEvent>, es: seq<ClusterBuyEvent>, i: nat, j: nat)
    requires Disjoint(es) && RowsDisjoint(rows) && !LeavesDuplicate(rows, es) && i < j < |UpsertAll(rows, es)|
    ensures NoSharedId(UpsertAll(rows, es)[i].content.transactionIds, UpsertAll(rows, es)[j].content.transactionIds)
  {
    hide UpsertAll, Places, NoSharedId;
    var k := RowAfterRun(rows, es, i);
    var m := RowAfterRun(rows, es, j);
    var a, b := UpsertAll(rows, es)[i].content.transactionIds, UpsertAll(rows, es)[j].content.transactionIds;
    SharingIsSymmetric(a, b);
    if i in Places(rows, es) && j in Places(rows, es) {
      assert k < m || m < k;
    } else if i in Places(rows, es) {
      assert es[k] in es;
    } else if j in Places(rows, es) {
      assert es[m] in es;
    }
  }

  lemma SharingIsSymmetric(a: seq<Id>, b: seq<Id>)
    ensures NoSharedId(a, b) == NoSharedId(b, a)
  {}

  /** From a table whose rows share no transaction, the rows after a run share none if and only if no
      row that the run does not write holds a transaction of a candidate: then no cluster has two
      rows, and so no two signals. */
  lemma RowsStayDisjointExactly(rows: seq<ClusterBuyEvent>, es: seq<ClusterBuyEvent>)
    requires Disjoint(es) && RowsDisjoint(rows)
    ensures RowsDisjoint(UpsertAll(rows, es)) <==> !LeavesDuplicate(rows, es)
  {
    hide UpsertAll, Places, NoSharedId;
    if LeavesDuplicate(rows, es) {
      var j, e :| 0 <= j < |rows| && j !in Places(rows, es) && e in es
        && !NoSharedId(rows[j].content.transactionIds, e.content.transactionIds);
      var k :| 0 <= k < |es| && es[k] == e;
      RunKeepsRows(rows, es);
      RunSettles(rows, es, k);
      var p := Places(rows, es)[k];
      assert p in Places(rows, es) && p != j;
      SettledInside(UpsertAll(rows, es), e.content, p);
      SettledContent(UpsertAll(rows, es), e.content, p);
      SharingIsSymmetric(rows[j].content.transactionIds, e.content.transactionIds);
      assert p < j || j < p;
    } else {
      forall i, j | 0 <= i < j < |UpsertAll(rows, es)|
        ensures NoSharedId(UpsertAll(rows, es)[i].content.transactionIds, UpsertAll(rows, es)[j].content.transactionIds)
      {
        DisjointPair(rows, es, i, j);
      }
    }
  }

  lemma SettledContent(rows: seq<ClusterBuyEvent>, c: ClusterCandidate, p: nat)
    requires SettledAt(rows, c, p)
    ensures p < |rows| && rows[p].content == c
  {}

  // ---------- Rows that hold superseded transactions ----------

  /** The row holds a transaction that has been superseded. */
  ghost predicate HoldsSuperseded(txns: seq<Transaction>, row: ClusterBuyEvent) {
    exists t :: t in txns && t.supersededBy.Some? && t.id in row.content.transactionIds
  }

  lemma DetectedAreLive(s: State, c: ClusterCandidate, t: Transaction)
    requires Inv(s) && c in Detected(s) && t in s.txns && t.id in c.transactionIds
    ensures t.supersededBy == None
  {
    hide Detect, TransactionRepo.Listed, Live, BuybacksOk, ClustersOk, RowsOk, MailOk, TableOk;
    TransactionsHaveDistinctIds(s.txns);
    ListedIsPermutation(s.txns);
    LiveAre(TransactionRepo.Listed(s.txns));
    CandidateIds(Live(TransactionRepo.Listed(s.txns)), s.thresholds.clusterWindowDays, c);
    var u :| u in Live(TransactionRepo.Listed(s.txns)) && u.id == t.id;
    SameId(s.txns, t, u);
  }

  /** After a classify run a row holds a superseded transaction if and only if it held one before and
      no detected cluster was placed in it. */
  lemma HoldsSupersededExactly(s: State, reclassify: bool, j: nat)
    requires Inv(s) && j < |Classified(s, reclassify).clusters|
    ensures HoldsSuperseded(s.txns, Classified(s, reclassify).clusters[j]) <==>
      j !in Places(s.clusters, DetectedEvents(s)) && j < |s.clusters| && HoldsSuperseded(s.txns, s.clusters[j])
  {
    var es := DetectedEvents(s);
    assert forall k | 0 <= k < |es| :: es[k].content in Detected(s);
    hide Candidates, Detected, DetectedEvents, UpsertAll, Places, Classified, TransactionsOk, BuybacksOk, ClustersOk,
      RowsOk, MailOk, TableOk;
    DetectedEventsOk(s);
    ClassifiedClusters(s, reclassify);
    var k := RowAfterRun(s.clusters, es, j);
    if j in Places(s.clusters, es) {
      forall t | t in s.txns && t.id in es[k].content.transactionIds
        ensures t.supersededBy == None
      {
        DetectedAreLive(s, es[k].content, t);
      }
    }
  }
}
