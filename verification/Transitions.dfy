// How one event may change one stored signal.
module Transitions {
  import opened Domain
  import opened Signals
  import opened ClusterBuyRepo
  import opened Classify
  import opened Notify
  import opened Pipeline
  import opened VerdictLaws
  import opened RecordLaws
  import opened ClusterLaws
  import opened Invariants
  import TransactionRepo
  import BuybackRepo

  /** What the event may make of a row. A classify run re-judges a cluster signal always and any
      other one only when reclassifying; only for the latter does a verdict downgrade. */
  ghost predicate MayBecome(a: SignalRow, b: SignalRow, e: Event) {
    match e
    case IngestTransaction(_) => b == a || b == a.(isSuperseded := true)
    case IngestBuyback(_) => b == a || b == a.(isSuperseded := true)
    case RunClassify(reclassify) =>
      || b == a
      || ((reclassify || a.link.ClusterLink?)
        && exists v: Verdict :: v.link == a.link && b == Judged(a, v, !a.link.ClusterLink?))
    case RunNotify(failing) => b == Notified(a, failing)
    case SetThresholds(_) => b == a
  }

  lemma RecordVerdictKinds(s: State)
    ensures forall v | v in RecordVerdicts(s) :: v.link.InsiderLink?
    ensures forall v | v in EventVerdicts(s) :: v.link.BuybackLink?
  {
    hide TransactionRepo.Listed, BuybackRepo.Listed;
    TransactionVerdictsAre(TransactionRepo.Listed(s.txns), s.thresholds);
    BuybackVerdictsAre(BuybackRepo.Listed(s.buybacks), s.thresholds);
  }

  lemma ClusterVerdictKinds(rows: seq<ClusterBuyEvent>, es: seq<ClusterBuyEvent>, s: State)
    ensures forall v | v in ClusterVerdicts(rows, es, s.thresholds) :: v.link.ClusterLink?
    decreases |es|
  {
    if es != [] {
      ClusterVerdictKinds(Upsert(rows, es[0]), es[1..], s);
    }
  }

  /** The signal table between the passes of a classify run. */
  ghost function AfterTransactions(s: State, reclassify: bool): SignalTable {
    JudgeAll(s.signals, RecordVerdicts(s), reclassify, true)
  }

  lemma PassesKeepTable(s: State, reclassify: bool)
    requires Inv(s)
    ensures TableOk(AfterTransactions(s, reclassify)) && TableOk(SignalsAfterRecords(s, reclassify))
    ensures TableOk(Classified(s, reclassify).signals)
    ensures |s.signals.rows| <= |AfterTransactions(s, reclassify).rows| <= |SignalsAfterRecords(s, reclassify).rows|
    ensures |SignalsAfterRecords(s, reclassify).rows| <= |Classified(s, reclassify).signals.rows|
    ensures s.signals.nextId <= AfterTransactions(s, reclassify).nextId <= SignalsAfterRecords(s, reclassify).nextId
  {
    hide JudgeAll, TableOk, RecordVerdicts, EventVerdicts, DetectedEvents, ClusterVerdicts;
    var t1, t2 := AfterTransactions(s, reclassify), SignalsAfterRecords(s, reclassify);
    var vs := ClusterVerdicts(s.clusters, DetectedEvents(s), s.thresholds);
    JudgeAllKeepsTable(s.signals, RecordVerdicts(s), reclassify, true);
    JudgeAllKeepsTable(t1, EventVerdicts(s), reclassify, true);
    JudgeAllKeepsTable(t2, vs, true, false);
    JudgeAllGrows(s.signals, RecordVerdicts(s), reclassify, true);
    JudgeAllGrows(t1, EventVerdicts(s), reclassify, true);
    JudgeAllGrows(t2, vs, true, false);
  }

  lemma ClassifyRow(s: State, reclassify: bool, i: nat)
    requires Inv(s) && i < |s.signals.rows|
    ensures i < |Classified(s, reclassify).signals.rows|
    ensures MayBecome(s.signals.rows[i], Classified(s, reclassify).signals.rows[i], RunClassify(reclassify))
  {
    hide JudgeAll, TableOk, RecordVerdicts, EventVerdicts, DetectedEvents, ClusterVerdicts, DistinctLinks, RowsOk,
      TransactionsOk, BuybacksOk, ClustersOk, MailOk, UpsertAll, VerdictOk;
    var t1, t2 := AfterTransactions(s, reclassify), SignalsAfterRecords(s, reclassify);
    var vs := ClusterVerdicts(s.clusters, DetectedEvents(s), s.thresholds);
    PassesKeepTable(s, reclassify);
    RecordVerdictsOk(s, s.clusters);
    EventVerdictsOk(s, s.clusters);
    ClusterVerdictsOk(s);
    RecordVerdictKinds(s);
    ClusterVerdictKinds(s.clusters, DetectedEvents(s), s);
    PassOldRow(s.signals, RecordVerdicts(s), reclassify, true, i);
    PassOldRow(t1, EventVerdicts(s), reclassify, true, i);
    PassOldRow(t2, vs, true, false, i);
    if !reclassify {
      UnjudgedRow(s.signals, RecordVerdicts(s), reclassify, true, i);
      UnjudgedRow(t1, EventVerdicts(s), reclassify, true, i);
    }
  }

  /** A stored signal stays at its position under its id and link, and changes only as the event allows. */
  lemma RowStep(s: State, e: Event, i: nat)
    requires Inv(s) && i < |s.signals.rows|
    ensures i < |Step(s, e).signals.rows|
    ensures Step(s, e).signals.rows[i].id == s.signals.rows[i].id
    ensures Step(s, e).signals.rows[i].link == s.signals.rows[i].link
    ensures MayBecome(s.signals.rows[i], Step(s, e).signals.rows[i], e)
  {
    hide Inv, Classified;
    if e.RunClassify? {
      ClassifyRow(s, e.reclassify, i);
    }
  }

  /** The new row is what a verdict creates under an unused id. */
  ghost predicate IsNewSignal(row: SignalRow, nextId: Id) {
    row.id >= nextId && exists v: Verdict :: row == Created(row.id, v)
  }

  lemma NewRowOfPass(t: SignalTable, vs: seq<Verdict>, revisit: bool, downgrade: bool, i: nat, nextId: Id)
    requires TableOk(t) && DistinctLinks(vs) && |t.rows| <= i < |JudgeAll(t, vs, revisit, downgrade).rows|
    requires nextId <= t.nextId
    ensures IsNewSignal(JudgeAll(t, vs, revisit, downgrade).rows[i], nextId)
  {
    hide JudgeAll, TableOk, DistinctLinks;
    NewRow(t, vs, revisit, downgrade, i);
  }

  lemma UntouchedByKind(t: SignalTable, vs: seq<Verdict>, revisit: bool, downgrade: bool, i: nat)
    requires TableOk(t) && i < |t.rows| && forall v | v in vs :: v.link != t.rows[i].link
    ensures i < |JudgeAll(t, vs, revisit, downgrade).rows| && JudgeAll(t, vs, revisit, downgrade).rows[i] == t.rows[i]
  {
    UnjudgedRow(t, vs, revisit, downgrade, i);
  }

  /** A row that a classify run adds is as one pass created it: the later passes are about other kinds. */
  lemma ClassifyNewRow(s: State, reclassify: bool, i: nat)
    requires Inv(s) && |s.signals.rows| <= i < |Classified(s, reclassify).signals.rows|
    ensures IsNewSignal(Classified(s, reclassify).signals.rows[i], s.signals.nextId)
  {
    hide JudgeAll, TableOk, RecordVerdicts, EventVerdicts, DetectedEvents, ClusterVerdicts, DistinctLinks, RowsOk,
      TransactionsOk, BuybacksOk, ClustersOk, MailOk, UpsertAll, VerdictOk;
    var t1, t2 := AfterTransactions(s, reclassify), SignalsAfterRecords(s, reclassify);
    var vs := ClusterVerdicts(s.clusters, DetectedEvents(s), s.thresholds);
    PassesKeepTable(s, reclassify);
    RecordVerdictsOk(s, s.clusters);
    EventVerdictsOk(s, s.clusters);
    ClusterVerdictsOk(s);
    RecordVerdictKinds(s);
    ClusterVerdictKinds(s.clusters, DetectedEvents(s), s);
    if i < |t1.rows| {
      NewRow(s.signals, RecordVerdicts(s), reclassify, true, i);
      UntouchedByKind(t1, EventVerdicts(s), reclassify, true, i);
      UntouchedByKind(t2, vs, true, false, i);
    } else if i < |t2.rows| {
      NewRow(t1, EventVerdicts(s), reclassify, true, i);
      UntouchedByKind(t2, vs, true, false, i);
    } else {
      NewRowOfPass(t2, vs, true, false, i, s.signals.nextId);
    }
  }

  lemma NewRowStep(s: State, e: Event, i: nat)
    requires Inv(s) && |s.signals.rows| <= i < |Step(s, e).signals.rows|
    ensures IsNewSignal(Step(s, e).signals.rows[i], s.signals.nextId)
  {
    hide Inv, Classified;
    if e.RunClassify? {
      ClassifyNewRow(s, e.reclassify, i);
    }
  }
}
