// The commands over the mutable tables, each proved to be one step of the pipeline.
module Application {
  import opened Domain
  import opened Rules
  import opened Signals
  import opened ClusterBuyRepo
  import opened Dedup
  import opened Classify
  import opened Notify
  import opened Pipeline
  import opened RecordLaws
  import opened ClusterLaws
  import opened Invariants
  import opened Transitions
  import opened PrintedCounts
  import TransactionRepo
  import BuybackRepo

  /** The single configuration row, created with the defaults when first read. */
  class ThresholdConfigurationRepository {
    var row: Option<Thresholds>

    constructor ()
      ensures row == None
    {
      row := None;
    }

    ghost function Current(): Thresholds
      reads this
    {
      if row.Some? then row.value else DEFAULTS
    }

    method Get() returns (t: Thresholds)
      modifies this
      ensures t == old(Current()) && Current() == t && row.Some?
    {
      if row == None {
        row := Some(DEFAULTS);
      }
      t := row.value;
    }

    method Set(t: Thresholds)
      modifies this
      ensures Current() == t
    {
      row := Some(t);
    }
  }

  class Application {
    const txnRepo: TransactionRepo.InsiderTransactionRepository
    const buybackRepo: BuybackRepo.BuybackEventRepository
    const clusterRepo: ClusterBuyEventRepository
    const signalRepo: SignalRepository
    const thresholdRepo: ThresholdConfigurationRepository
    const txnIds: IdSource
    const buybackIds: IdSource
    const eventIds: IdSource
    const signalIds: IdSource
    const mailer: Mailer

    ghost const Repr: set<object>

    ghost predicate Wired()
    {
      && Repr == {txnRepo, buybackRepo, clusterRepo, signalRepo, thresholdRepo, txnIds, buybackIds, eventIds,
        signalIds, mailer}
      && txnIds != buybackIds && txnIds != eventIds && txnIds != signalIds
      && buybackIds != eventIds && buybackIds != signalIds && eventIds != signalIds
    }

    /** The abstract state that the tables hold. */
    ghost function Abstract(): State
      reads txnRepo, buybackRepo, clusterRepo, signalRepo, thresholdRepo, txnIds, buybackIds, eventIds, signalIds,
        mailer
    {
      State(
        txnRepo.rows, txnIds.next, buybackRepo.rows, buybackIds.next, clusterRepo.rows, eventIds.next,
        SignalTable(signalRepo.rows, signalIds.next), thresholdRepo.Current(), mailer.outbox)
    }

    constructor ()
      ensures Wired() && fresh(Repr)
      ensures Abstract() == INITIAL
    {
      var t := new TransactionRepo.InsiderTransactionRepository();
      var b := new BuybackRepo.BuybackEventRepository();
      var c := new ClusterBuyEventRepository();
      var s := new SignalRepository();
      var h := new ThresholdConfigurationRepository();
      var i1 := new IdSource();
      var i2 := new IdSource();
      var i3 := new IdSource();
      var i4 := new IdSource();
      var m := new Mailer();
      txnRepo, buybackRepo, clusterRepo, signalRepo, thresholdRepo := t, b, c, s, h;
      txnIds, buybackIds, eventIds, signalIds, mailer := i1, i2, i3, i4, m;
      Repr := {t, b, c, s, h, i1, i2, i3, i4, m};
    }

    method IngestTransaction(parsed: Transaction) returns (stored: Transaction)
      requires Wired() && Inv(Abstract())
      modifies Repr
      ensures Abstract() == Step(old(Abstract()), Event.IngestTransaction(parsed)) && Inv(Abstract())
      ensures stored in Abstract().txns
    {
      hide Inv, TransactionsOk, IngestedTransactions, SignalsAfterTransaction, DistinctIds, UniqueIds, UniqueLinks;
      ghost var before := Abstract();
      IngestReady(before);
      StepKeepsInv(before, Event.IngestTransaction(parsed));
      var id := txnIds.Fresh();
      stored := IngestInsiderTransaction(parsed.(id := id, supersededBy := None), txnRepo, signalRepo);
    }

    method IngestBuyback(parsed: BuybackEvent) returns (stored: BuybackEvent)
      requires Wired() && Inv(Abstract())
      modifies Repr
      ensures Abstract() == Step(old(Abstract()), Event.IngestBuyback(parsed)) && Inv(Abstract())
      ensures stored in Abstract().buybacks
    {
      hide Inv, BuybacksOk, IngestedBuybacks, SignalsAfterBuyback, DistinctEventIds, UniqueIds, UniqueLinks;
      ghost var before := Abstract();
      IngestReady(before);
      StepKeepsInv(before, Event.IngestBuyback(parsed));
      var id := buybackIds.Fresh();
      stored := IngestBuybackEvent(parsed.(id := id, supersededBy := None), buybackRepo, signalRepo);
    }

    /** run_classify, with the counts it prints. */
    method RunClassify(reclassify: bool)
      returns (evaluated: nat, notable: nat, clustersDetected: nat, clustersNotable: nat)
      requires Wired() && Inv(Abstract())
      modifies Repr
      ensures Abstract() == Step(old(Abstract()), Event.RunClassify(reclassify)) && Inv(Abstract())
      ensures var s := old(Abstract());
        var candidates := Candidates(s.txns, s.thresholds.clusterWindowDays);
        && evaluated == |EvaluatedTransactions(s, reclassify)| + |EvaluatedBuybacks(s, reclassify)|
        && notable == |NotableTransactions(s, reclassify)| + |NotableBuybacks(s, reclassify)|
        && clustersDetected == |candidates|
        && clustersNotable == |NotableCandidates(candidates, s.thresholds.minClusterFilerCount)|
    {
      hide Inv, TableOk, JudgeAll, UpsertAll, ClusterVerdicts, TransactionVerdicts, BuybackVerdicts, Candidates,
        TransactionRepo.Listed, BuybackRepo.Listed, Tally, NotableOnes, EvaluatedTransactions, EvaluatedBuybacks,
        NotableTransactions, NotableBuybacks, NotableCandidates;
      ghost var before := Abstract();
      StepKeepsInv(before, Event.RunClassify(reclassify));
      PassesKeepTable(before, reclassify);
      IngestReady(before);
      CountsAre(before, reclassify);
      NotableOnesAre(Candidates(before.txns, before.thresholds.clusterWindowDays),
        before.thresholds.minClusterFilerCount);
      var thresholds := thresholdRepo.Get();
      var txnEvaluated, txnNotable :=
        ClassifyInsiderTransactions(txnRepo, signalRepo, signalIds, thresholds, reclassify);
      var buybackEvaluated, buybackNotable :=
        ClassifyBuybacks(buybackRepo, signalRepo, signalIds, thresholds, reclassify);
      clustersDetected, clustersNotable :=
        ClassifyClusters(txnRepo, clusterRepo, signalRepo, eventIds, signalIds, thresholds);
      evaluated, notable := txnEvaluated + buybackEvaluated, txnNotable + buybackNotable;
    }

    /** run_notify never raises on a state that keeps the invariant. */
    method RunNotify(failing: set<Id>) returns (sent: nat, failed: nat)
      requires Wired() && Inv(Abstract())
      modifies Repr
      ensures Abstract() == Step(old(Abstract()), Event.RunNotify(failing)) && Inv(Abstract())
      ensures var rows := old(Abstract()).signals.rows;
        sent == |Tried(rows, failing, true)| && failed == |Tried(rows, failing, false)|
    {
      hide Inv, NotifiedRows, PendingRows, Attempts, Resolves, CountDelivered, Tried, UniqueIds, TableOk;
      ghost var before := Abstract();
      StepKeepsInv(before, Event.RunNotify(failing));
      NotifyReady(before);
      TriedAre(before.signals.rows, failing);
      var r := Notify.RunNotify(signalRepo, txnRepo, buybackRepo, clusterRepo, mailer, failing);
      assert r.Success?;
      sent, failed := r.value.0, r.value.1;
    }

    method SetThresholds(t: Thresholds)
      requires Wired() && Inv(Abstract())
      modifies Repr
      ensures Abstract() == Step(old(Abstract()), Event.SetThresholds(t)) && Inv(Abstract())
    {
      hide Inv;
      StepKeepsInv(Abstract(), Event.SetThresholds(t));
      thresholdRepo.Set(t);
    }
  }

  lemma IngestReady(s: State)
    requires Inv(s)
    ensures DistinctIds(s.txns) && forall row | row in s.txns :: row.id != s.nextTxnId
    ensures DistinctEventIds(s.buybacks) && forall row | row in s.buybacks :: row.id != s.nextBuybackId
    ensures UniqueIds(s.signals.rows) && UniqueLinks(s.signals.rows) && TableOk(s.signals)
  {
    hide ClustersOk, RowsOk, MailOk;
    TransactionsHaveDistinctIds(s.txns);
    BuybacksHaveDistinctIds(s.buybacks);
  }

  lemma NotifyReady(s: State)
    requires Inv(s)
    ensures UniqueIds(s.signals.rows)
    ensures forall row | row in PendingRows(s.signals.rows) :: Resolves(row.link, s.txns, s.buybacks, s.clusters)
  {
    hide TransactionsOk, BuybacksOk, ClustersOk, MailOk, Resolves, IsSupersededFiling;
    PendingAre(s.signals.rows);
  }
}
