// What every event keeps, and so what holds in every reachable state.
module Invariants {
  import opened Domain
  import opened Rules
  import opened Ordering
  import opened Signals
  import opened ClusterBuyRepo
  import opened Dedup
  import opened Classify
  import opened Notify
  import opened Pipeline
  import opened VerdictLaws
  import opened RecordLaws
  import opened ClusterLaws
  import Filings
  import TransactionRepo
  import BuybackRepo

  // ---------- What holds of one signal row ----------

  /** The filing behind the link is superseded. */
  ghost predicate IsSupersededFiling(link: Link, txns: seq<Transaction>, events: seq<BuybackEvent>) {
    match link
    case InsiderLink(id) => exists t :: t in txns && t.id == id && t.supersededBy.Some?
    case BuybackLink(id) => exists e :: e in events && e.id == id && e.supersededBy.Some?
    case ClusterLink(_) => false
  }

  /** Insider and buyback signals are notable exactly when their status is not not_applicable; a
      notable cluster signal is never not_applicable. */
  ghost predicate Coherent(row: SignalRow) {
    if row.link.ClusterLink? then row.isNotable ==> row.status != NotApplicable
    else row.isNotable <==> row.status != NotApplicable
  }

  ghost predicate RecordOk(row: SignalRow, txns: seq<Transaction>, events: seq<BuybackEvent>,
      clusters: seq<ClusterBuyEvent>) {
    && Resolves(row.link, txns, events, clusters)
    && (IsSupersededFiling(row.link, txns, events) ==> row.isSuperseded)
    && Coherent(row)
  }

  ghost predicate RowsOk(rows: seq<SignalRow>, txns: seq<Transaction>, events: seq<BuybackEvent>,
      clusters: seq<ClusterBuyEvent>) {
    forall row | row in rows :: RecordOk(row, txns, events, clusters)
  }

  /** A signal carries a notification time exactly when an email about it was delivered. */
  ghost predicate MailOk(t: SignalTable, outbox: seq<Attempt>) {
    && (forall row | row in t.rows :: row.notified <==> Attempt(row.id, true) in outbox)
    && (forall a | a in outbox :: a.signalId < t.nextId)
  }

  ghost predicate Inv(s: State) {
    && TransactionsOk(s.txns, s.nextTxnId)
    && BuybacksOk(s.buybacks, s.nextBuybackId)
    && ClustersOk(s.clusters, s.nextClusterId, s.nextTxnId)
    && TableOk(s.signals)
    && RowsOk(s.signals.rows, s.txns, s.buybacks, s.clusters)
    && MailOk(s.signals, s.outbox)
  }

  lemma CoherentAt(s: State, i: nat)
    requires Inv(s) && i < |s.signals.rows|
    ensures Coherent(s.signals.rows[i])
  {
    hide TransactionsOk, BuybacksOk, ClustersOk, TableOk, MailOk, Resolves, IsSupersededFiling, Coherent;
    assert s.signals.rows[i] in s.signals.rows;
  }

  // ---------- Ingestion ----------

  lemma ClustersOutgrown(rows: seq<ClusterBuyEvent>, nextId: Id, nextTxnId: Id)
    requires ClustersOk(rows, nextId, nextTxnId)
    ensures ClustersOk(rows, nextId, nextTxnId + 1)
  {}

  lemma SupersedeKeepsTable(t: SignalTable, links: set<Link>, outbox: seq<Attempt>)
    requires TableOk(t) && MailOk(t, outbox)
    ensures TableOk(t.(rows := SupersedeSome(t.rows, links)))
      && MailOk(t.(rows := SupersedeSome(t.rows, links)), outbox)
  {
    var r := SupersedeSome(t.rows, links);
    forall row | row in r
      ensures row.id < t.nextId && (row.notified <==> Attempt(row.id, true) in outbox)
    {
      var i :| 0 <= i < |r| && r[i] == row;
      assert t.rows[i] in t.rows;
    }
  }

  /** A filing superseded after the ingestion was superseded before, or was a live prior. */
  lemma NewlySuperseded(rows: seq<Transaction>, c: Transaction, id: Id)
    requires DistinctIds(rows) && c.supersededBy == None && forall row | row in rows :: row.id != c.id
    requires exists t :: t in IngestedTransactions(rows, c) && t.id == id && t.supersededBy.Some?
    ensures (exists t :: t in rows && t.id == id && t.supersededBy.Some?)
      || (IsNewFiling(rows, c) && id in LivePriors(rows, c))
  {
    var r := IngestedTransactions(rows, c);
    var t :| t in r && t.id == id && t.supersededBy.Some?;
    var i :| 0 <= i < |r| && r[i] == t;
    if i < |rows| {
      assert rows[i] in rows;
    } else {
      assert c.id !in LivePriors(rows, c);
    }
  }

  lemma IngestedIdsPersist(rows: seq<Transaction>, c: Transaction, id: Id)
    requires exists t :: t in rows && t.id == id
    ensures exists t :: t in IngestedTransactions(rows, c) && t.id == id
  {
    var t :| t in rows && t.id == id;
    var i :| 0 <= i < |rows| && rows[i] == t;
    assert IngestedTransactions(rows, c)[i].id == id;
  }

  lemma IngestKeepsRows(
      signals: seq<SignalRow>, txns: seq<Transaction>, events: seq<BuybackEvent>, clusters: seq<ClusterBuyEvent>,
      c: Transaction)
    requires RowsOk(signals, txns, events, clusters)
    requires DistinctIds(txns) && c.supersededBy == None && forall t | t in txns :: t.id != c.id
    ensures RowsOk(SignalsAfterTransaction(signals, txns, c), IngestedTransactions(txns, c), events, clusters)
  {
    hide IngestedTransactions;
    var r := SignalsAfterTransaction(signals, txns, c);
    forall row | row in r
      ensures RecordOk(row, IngestedTransactions(txns, c), events, clusters)
    {
      var i :| 0 <= i < |r| && r[i] == row;
      assert signals[i] in signals;
      if row.link.InsiderLink? {
        IngestedIdsPersist(txns, c, row.link.id);
        if IsSupersededFiling(row.link, IngestedTransactions(txns, c), events) {
          NewlySuperseded(txns, c, row.link.id);
        }
      }
    }
  }

  lemma NewlySupersededEvent(rows: seq<BuybackEvent>, c: BuybackEvent, id: Id)
    requires DistinctEventIds(rows) && c.supersededBy == None && forall row | row in rows :: row.id != c.id
    requires exists e :: e in IngestedBuybacks(rows, c) && e.id == id && e.supersededBy.Some?
    ensures (exists e :: e in rows && e.id == id && e.supersededBy.Some?)
      || (IsNewDisclosure(rows, c) && id in LiveEventPriors(rows, c))
  {
    var r := IngestedBuybacks(rows, c);
    var e :| e in r && e.id == id && e.supersededBy.Some?;
    var i :| 0 <= i < |r| && r[i] == e;
    if i < |rows| { assert rows[i] in rows; }
  }

  lemma IngestedEventIdsPersist(rows: seq<BuybackEvent>, c: BuybackEvent, id: Id)
    requires exists e :: e in rows && e.id == id
    ensures exists e :: e in IngestedBuybacks(rows, c) && e.id == id
  {
    var e :| e in rows && e.id == id;
    var i :| 0 <= i < |rows| && rows[i] == e;
    assert IngestedBuybacks(rows, c)[i].id == id;
  }

  lemma IngestBuybackKeepsRows(
      signals: seq<SignalRow>, txns: seq<Transaction>, events: seq<BuybackEvent>, clusters: seq<ClusterBuyEvent>,
      c: BuybackEvent)
    requires RowsOk(signals, txns, events, clusters)
    requires DistinctEventIds(events) && c.supersededBy == None && forall e | e in events :: e.id != c.id
    ensures RowsOk(SignalsAfterBuyback(signals, events, c), txns, IngestedBuybacks(events, c), clusters)
  {
    hide IngestedBuybacks;
    var r := SignalsAfterBuyback(signals, events, c);
    forall row | row in r
      ensures RecordOk(row, txns, IngestedBuybacks(events, c), clusters)
    {
      var i :| 0 <= i < |r| && r[i] == row;
      assert signals[i] in signals;
      if row.link.BuybackLink? {
        IngestedEventIdsPersist(events, c, row.link.id);
        if IsSupersededFiling(row.link, txns, IngestedBuybacks(events, c)) {
          NewlySupersededEvent(events, c, row.link.id);
        }
      }
    }
  }

  lemma IngestTransactionKeepsInv(s: State, c: Transaction)
    requires Inv(s)
    ensures Inv(Step(s, IngestTransaction(c)))
  {
    hide IngestedTransactions, SignalsAfterTransaction, TableOk, RowsOk, MailOk, ClustersOk, Filings.WellFormed;
    var txn := ArrivingTransaction(s, c);
    TransactionsHaveDistinctIds(s.txns);
    IngestKeepsTransactions(s.txns, s.nextTxnId, txn);
    ClustersOutgrown(s.clusters, s.nextClusterId, s.nextTxnId);
    IngestKeepsRows(s.signals.rows, s.txns, s.buybacks, s.clusters, txn);
    SignalsAfterIngest(s, txn);
  }

  lemma SignalsAfterIngest(s: State, txn: Transaction)
    requires TableOk(s.signals) && MailOk(s.signals, s.outbox)
    ensures TableOk(s.signals.(rows := SignalsAfterTransaction(s.signals.rows, s.txns, txn)))
    ensures MailOk(s.signals.(rows := SignalsAfterTransaction(s.signals.rows, s.txns, txn)), s.outbox)
  {
    SupersedeKeepsTable(s.signals, TransactionLinks(LivePriors(s.txns, txn)), s.outbox);
  }

  lemma IngestBuybackKeepsInv(s: State, c: BuybackEvent)
    requires Inv(s)
    ensures Inv(Step(s, IngestBuyback(c)))
  {
    hide IngestedBuybacks, SignalsAfterBuyback, TableOk, RowsOk, MailOk, ClustersOk, Filings.WellFormed;
    var event := ArrivingBuyback(s, c);
    BuybacksHaveDistinctIds(s.buybacks);
    IngestKeepsBuybacks(s.buybacks, s.nextBuybackId, event);
    IngestBuybackKeepsRows(s.signals.rows, s.txns, s.buybacks, s.clusters, event);
    SignalsAfterBuybackIngest(s, event);
  }

  lemma SignalsAfterBuybackIngest(s: State, event: BuybackEvent)
    requires TableOk(s.signals) && MailOk(s.signals, s.outbox)
    ensures TableOk(s.signals.(rows := SignalsAfterBuyback(s.signals.rows, s.buybacks, event)))
    ensures MailOk(s.signals.(rows := SignalsAfterBuyback(s.signals.rows, s.buybacks, event)), s.outbox)
  {
    SupersedeKeepsTable(s.signals, BuybackLinks(LiveEventPriors(s.buybacks, event)), s.outbox);
  }

  // ---------- Notification ----------

  lemma NotifyKeepsInv(s: State, failing: set<Id>)
    requires Inv(s)
    ensures Inv(Step(s, RunNotify(failing)))
  {
    hide TableOk, MailOk, RowsOk, TransactionsOk, BuybacksOk, ClustersOk;
    NotifyKeepsTable(s.signals, failing);
    NotifyKeepsMail(s.signals, s.outbox, failing);
    NotifyKeepsRows(s.signals.rows, s.txns, s.buybacks, s.clusters, failing);
  }

  lemma NotifyKeepsRows(
      rows: seq<SignalRow>, txns: seq<Transaction>, events: seq<BuybackEvent>, clusters: seq<ClusterBuyEvent>,
      failing: set<Id>)
    requires RowsOk(rows, txns, events, clusters)
    ensures RowsOk(NotifiedRows(rows, failing), txns, events, clusters)
  {
    hide Resolves, IsSupersededFiling;
    var r := NotifiedRows(rows, failing);
    forall row | row in r
      ensures RecordOk(row, txns, events, clusters)
    {
      var i :| 0 <= i < |r| && r[i] == row;
      assert rows[i] in rows;
    }
  }

  lemma NotifyKeepsTable(t: SignalTable, failing: set<Id>)
    requires TableOk(t)
    ensures TableOk(t.(rows := NotifiedRows(t.rows, failing)))
  {
    var r := NotifiedRows(t.rows, failing);
    forall row | row in r
      ensures row.id < t.nextId
    {
      var i :| 0 <= i < |r| && r[i] == row;
      assert t.rows[i] in t.rows;
    }
  }

  lemma NotifyKeepsMail(t: SignalTable, outbox: seq<Attempt>, failing: set<Id>)
    requires TableOk(t) && MailOk(t, outbox)
    ensures MailOk(t.(rows := NotifiedRows(t.rows, failing)), outbox + Attempts(PendingRows(t.rows), failing))
  {
    hide PendingRows, Attempts;
    var r, sends := NotifiedRows(t.rows, failing), Attempts(PendingRows(t.rows), failing);
    SendsAre(t.rows, failing);
    forall row | row in r
      ensures row.notified <==> Attempt(row.id, true) in outbox + sends
    {
      var i :| 0 <= i < |r| && r[i] == row;
      assert t.rows[i] in t.rows;
      RowIsSent(t, i, failing);
    }
  }

  /** The sends of a run are one attempt for each pending signal. */
  lemma SendsAre(rows: seq<SignalRow>, failing: set<Id>)
    ensures forall a :: a in Attempts(PendingRows(rows), failing) <==>
      exists row :: row in rows && row.status == Pending && a == Attempt(row.id, row.id !in failing)
  {
    hide PendingRows;
    PendingAre(rows);
    var pending := PendingRows(rows);
    var sends := Attempts(pending, failing);
    forall a
      ensures a in sends <==> exists row :: row in pending && a == Attempt(row.id, row.id !in failing)
    {
      if a in sends {
        var k :| 0 <= k < |sends| && sends[k] == a;
        assert pending[k] in pending;
      }
      if row :| row in pending && a == Attempt(row.id, row.id !in failing) {
        var k :| 0 <= k < |pending| && pending[k] == row;
        assert sends[k] == a;
      }
    }
  }

  lemma RowIsSent(t: SignalTable, i: nat, failing: set<Id>)
    requires TableOk(t) && i < |t.rows|
    ensures Attempt(t.rows[i].id, true) in Attempts(PendingRows(t.rows), failing) <==>
      t.rows[i].status == Pending && t.rows[i].id !in failing
  {
    hide PendingRows, Attempts;
    SendsAre(t.rows, failing);
    assert t.rows[i] in t.rows;
    forall p | p in t.rows && p.id == t.rows[i].id
      ensures p == t.rows[i]
    {
      var j :| 0 <= j < |t.rows| && t.rows[j] == p;
    }
  }

  // ---------- Classification ----------

  /** A verdict about an existing record whose filing is live, given by the pass for its kind. */
  ghost predicate VerdictOk(
      v: Verdict, downgrade: bool, txns: seq<Transaction>, events: seq<BuybackEvent>, clusters: seq<ClusterBuyEvent>) {
    && Resolves(v.link, txns, events, clusters)
    && !IsSupersededFiling(v.link, txns, events)
    && downgrade == !v.link.ClusterLink?
  }

  lemma PassOldRow(t: SignalTable, vs: seq<Verdict>, revisit: bool, downgrade: bool, i: nat)
    requires TableOk(t) && DistinctLinks(vs) && i < |t.rows|
    ensures i < |JudgeAll(t, vs, revisit, downgrade).rows|
    ensures JudgeAll(t, vs, revisit, downgrade).rows[i] == t.rows[i]
      || exists v ::
        v in vs && v.link == t.rows[i].link
          && JudgeAll(t, vs, revisit, downgrade).rows[i] == Judged(t.rows[i], v, downgrade)
  {
    hide TableOk, JudgeAll;
    if v :| v in vs && v.link == t.rows[i].link && revisit {
      JudgedRow(t, vs, downgrade, i, v);
    } else {
      UnjudgedRow(t, vs, revisit, downgrade, i);
    }
  }

  lemma PassKeepsRows(
      t: SignalTable, vs: seq<Verdict>, revisit: bool, downgrade: bool,
      txns: seq<Transaction>, events: seq<BuybackEvent>, clusters: seq<ClusterBuyEvent>)
    requires TableOk(t) && DistinctLinks(vs) && RowsOk(t.rows, txns, events, clusters)
    requires forall v | v in vs :: VerdictOk(v, downgrade, txns, events, clusters)
    ensures RowsOk(JudgeAll(t, vs, revisit, downgrade).rows, txns, events, clusters)
  {
    hide TableOk, JudgeAll, Resolves, IsSupersededFiling, DistinctLinks;
    var r := JudgeAll(t, vs, revisit, downgrade).rows;
    forall row | row in r
      ensures RecordOk(row, txns, events, clusters)
    {
      var i :| 0 <= i < |r| && r[i] == row;
      if i < |t.rows| {
        assert t.rows[i] in t.rows;
        PassOldRow(t, vs, revisit, downgrade, i);
      } else {
        NewRow(t, vs, revisit, downgrade, i);
      }
    }
  }

  lemma PassKeepsMail(t: SignalTable, vs: seq<Verdict>, revisit: bool, downgrade: bool, outbox: seq<Attempt>)
    requires TableOk(t) && DistinctLinks(vs) && MailOk(t, outbox)
    ensures TableOk(JudgeAll(t, vs, revisit, downgrade)) && MailOk(JudgeAll(t, vs, revisit, downgrade), outbox)
  {
    hide TableOk, JudgeAll, DistinctLinks;
    JudgeAllKeepsTable(t, vs, revisit, downgrade);
    JudgeAllGrows(t, vs, revisit, downgrade);
    var r := JudgeAll(t, vs, revisit, downgrade).rows;
    forall row | row in r
      ensures row.notified <==> Attempt(row.id, true) in outbox
    {
      var i :| 0 <= i < |r| && r[i] == row;
      if i < |t.rows| {
        assert t.rows[i] in t.rows;
        PassOldRow(t, vs, revisit, downgrade, i);
      } else {
        NewRow(t, vs, revisit, downgrade, i);
      }
    }
  }

  lemma RecordVerdictsOk(s: State, clusters: seq<ClusterBuyEvent>)
    requires TransactionsOk(s.txns, s.nextTxnId)
    ensures DistinctLinks(RecordVerdicts(s))
    ensures forall v | v in RecordVerdicts(s) :: VerdictOk(v, true, s.txns, s.buybacks, clusters)
  {
    hide TransactionRepo.Listed, TransactionVerdicts, DistinctLinks, Filings.WellFormed;
    TransactionsHaveDistinctIds(s.txns);
    ListedIsPermutation(s.txns);
    var listed := TransactionRepo.Listed(s.txns);
    TransactionLinksDistinct(listed, s.thresholds);
    TransactionVerdictsAre(listed, s.thresholds);
    forall v | v in RecordVerdicts(s)
      ensures VerdictOk(v, true, s.txns, s.buybacks, clusters)
    {
      var t :| t in listed && t.supersededBy == None && v == TransactionVerdict(t, s.thresholds);
      assert t in s.txns;
    }
  }

  lemma ListedEventsArePermutation(rows: seq<BuybackEvent>)
    requires DistinctEventIds(rows)
    ensures forall e :: e in BuybackRepo.Listed(rows) <==> e in rows
    ensures DistinctEventIds(BuybackRepo.Listed(rows))
  {
    var r := BuybackRepo.Listed(rows);
    SameElements(rows, r);
    forall i, j | 0 <= i < j < |r|
      ensures r[i].id != r[j].id
    {
      assert r[i] in rows && r[j] in rows;
      if r[i].id == r[j].id {
        EventTwice(r, i, j);
        EventOnce(rows, r[i]);
      }
    }
  }

  lemma EventTwice(r: seq<BuybackEvent>, i: nat, j: nat)
    requires i < j < |r| && r[i] == r[j]
    ensures multiset(r)[r[i]] >= 2
  {
    assert r == r[..j] + r[j..];
    assert r[i] in r[..j] && r[j] in r[j..];
  }

  lemma EventOnce(rows: seq<BuybackEvent>, e: BuybackEvent)
    requires DistinctEventIds(rows) && e in rows
    ensures multiset(rows)[e] == 1
  {
    var i :| 0 <= i < |rows| && rows[i] == e;
    assert rows == rows[..i] + [rows[i]] + rows[i + 1..];
    assert e !in rows[..i] && e !in rows[i + 1..];
  }

  lemma EventVerdictsOk(s: State, clusters: seq<ClusterBuyEvent>)
    requires BuybacksOk(s.buybacks, s.nextBuybackId)
    ensures DistinctLinks(EventVerdicts(s))
    ensures forall v | v in EventVerdicts(s) :: VerdictOk(v, true, s.txns, s.buybacks, clusters)
  {
    hide BuybackRepo.Listed, BuybackVerdicts, DistinctLinks, Filings.WellFormed;
    BuybacksHaveDistinctIds(s.buybacks);
    ListedEventsArePermutation(s.buybacks);
    var listed := BuybackRepo.Listed(s.buybacks);
    BuybackLinksDistinct(listed, s.thresholds);
    BuybackVerdictsAre(listed, s.thresholds);
    forall v | v in EventVerdicts(s)
      ensures VerdictOk(v, true, s.txns, s.buybacks, clusters)
    {
      var e :| e in listed && e.supersededBy == None && v == BuybackVerdict(e, s.thresholds);
      assert e in s.buybacks;
    }
  }

  /** What a classify run knows of the clusters it detected. */
  lemma DetectedEventsOk(s: State)
    requires TransactionsOk(s.txns, s.nextTxnId) && ClustersOk(s.clusters, s.nextClusterId, s.nextTxnId)
    ensures Disjoint(DetectedEvents(s))
    ensures ClustersOk(UpsertAll(s.clusters, DetectedEvents(s)), s.nextClusterId + |DetectedEvents(s)|, s.nextTxnId)
  {
    hide Candidates, Filings.WellFormed, ClustersOk, Disjoint;
    TransactionsHaveDistinctIds(s.txns);
    CandidatesOfTable(s.txns, s.thresholds.clusterWindowDays, s.nextClusterId);
    var es := DetectedEvents(s);
    forall e, x | e in es && x in e.content.transactionIds
      ensures x < s.nextTxnId
    {
      var t :| t in s.txns && t.id == x;
    }
    RunKeepsClusters(s.clusters, es, s.nextClusterId, s.nextTxnId);
  }

  lemma ClusterVerdictsOk(s: State)
    requires TransactionsOk(s.txns, s.nextTxnId) && ClustersOk(s.clusters, s.nextClusterId, s.nextTxnId)
    ensures var vs := ClusterVerdicts(s.clusters, DetectedEvents(s), s.thresholds);
      && DistinctLinks(vs)
      && forall v | v in vs :: VerdictOk(v, false, s.txns, s.buybacks, UpsertAll(s.clusters, DetectedEvents(s)))
  {
    hide DetectedEvents, ClusterVerdicts, UpsertAll, Places, Disjoint, TransactionsOk, DistinctLinks;
    var es := DetectedEvents(s);
    var vs, after := ClusterVerdicts(s.clusters, es, s.thresholds), UpsertAll(s.clusters, es);
    DetectedEventsOk(s);
    ClusterLinksDistinct(s.clusters, es, s.thresholds);
    forall v | v in vs
      ensures VerdictOk(v, false, s.txns, s.buybacks, after)
    {
      var k :| 0 <= k < |vs| && vs[k] == v;
      VerdictNamesItsRow(s.clusters, es, s.thresholds, k);
      assert after[Places(s.clusters, es)[k]] in after;
    }
  }

  lemma RowsOkInGrownClusters(
      rows: seq<SignalRow>, txns: seq<Transaction>, events: seq<BuybackEvent>,
      clusters: seq<ClusterBuyEvent>, es: seq<ClusterBuyEvent>)
    requires RowsOk(rows, txns, events, clusters)
    ensures RowsOk(rows, txns, events, UpsertAll(clusters, es))
  {
    hide UpsertAll, Places;
    RunKeepsRows(clusters, es);
    var after := UpsertAll(clusters, es);
    forall row | row in rows
      ensures RecordOk(row, txns, events, after)
    {
      if row.link.ClusterLink? {
        var c :| c in clusters && c.id == row.link.id;
        var i :| 0 <= i < |clusters| && clusters[i] == c;
        assert after[i] in after;
      }
    }
  }

  lemma ClassifyKeepsInv(s: State, reclassify: bool)
    requires Inv(s)
    ensures Inv(Step(s, RunClassify(reclassify))) && Inv(Classified(s, reclassify))
  {
    hide TableOk, RowsOk, MailOk, ClustersOk, TransactionsOk, BuybacksOk, JudgeAll, UpsertAll, ClusterVerdicts,
      RecordVerdicts, EventVerdicts, DetectedEvents, VerdictOk, DistinctLinks, Disjoint;
    var es := DetectedEvents(s);
    var after, vs := UpsertAll(s.clusters, es), ClusterVerdicts(s.clusters, es, s.thresholds);
    DetectedEventsOk(s);
    RowsOkInGrownClusters(s.signals.rows, s.txns, s.buybacks, s.clusters, es);
    RecordVerdictsOk(s, after);
    EventVerdictsOk(s, after);
    ClusterVerdictsOk(s);
    var t1 := JudgeAll(s.signals, RecordVerdicts(s), reclassify, true);
    PassKeepsRows(s.signals, RecordVerdicts(s), reclassify, true, s.txns, s.buybacks, after);
    PassKeepsMail(s.signals, RecordVerdicts(s), reclassify, true, s.outbox);
    var t2 := JudgeAll(t1, EventVerdicts(s), reclassify, true);
    PassKeepsRows(t1, EventVerdicts(s), reclassify, true, s.txns, s.buybacks, after);
    PassKeepsMail(t1, EventVerdicts(s), reclassify, true, s.outbox);
    PassKeepsRows(t2, vs, true, false, s.txns, s.buybacks, after);
    PassKeepsMail(t2, vs, true, false, s.outbox);
  }

  // ---------- Every run ----------

  lemma StepKeepsInv(s: State, e: Event)
    requires Inv(s)
    ensures Inv(Step(s, e))
  {
    hide Inv, Step;
    match e
    case IngestTransaction(c) => IngestTransactionKeepsInv(s, c);
    case IngestBuyback(c) => IngestBuybackKeepsInv(s, c);
    case RunClassify(reclassify) => ClassifyKeepsInv(s, reclassify);
    case RunNotify(failing) => NotifyKeepsInv(s, failing);
    case SetThresholds(t) => ThresholdsKeepInv(s, t);
  }

  lemma ThresholdsKeepInv(s: State, t: Thresholds)
    requires Inv(s)
    ensures Inv(Step(s, SetThresholds(t)))
  {}

  /** Every reachable state satisfies the invariant. */
  lemma {:induction false} RunKeepsInv(events: seq<Event>)
    ensures Inv(Run(events))
  {
    if events != [] {
      RunKeepsInv(events[..|events| - 1]);
      StepKeepsInv(Run(events[..|events| - 1]), events[|events| - 1]);
    }
  }
}
