// The whole pipeline as a state machine over its tables.
module Pipeline {
  import opened Domain
  import opened Rules
  import opened Signals
  import opened ClusterBuyRepo
  import opened Dedup
  import opened Classify
  import opened Notify
  import TransactionRepo
  import BuybackRepo

  datatype State = State(
    txns: seq<Transaction>, nextTxnId: Id,
    buybacks: seq<BuybackEvent>, nextBuybackId: Id,
    clusters: seq<ClusterBuyEvent>, nextClusterId: Id,
    signals: SignalTable,
    thresholds: Thresholds,
    outbox: seq<Attempt>)

  const INITIAL := State([], 0, [], 0, [], 0, SignalTable([], 0), DEFAULTS, [])

  /** Parsed candidates carry a fresh id and no pointer; a send to a signal in `failing` fails. */
  datatype Event =
    | IngestTransaction(txn: Transaction)
    | IngestBuyback(buyback: BuybackEvent)
    | RunClassify(reclassify: bool)
    | RunNotify(failing: set<Id>)
    | SetThresholds(thresholds: Thresholds)

  function ArrivingTransaction(s: State, c: Transaction): Transaction {
    c.(id := s.nextTxnId, supersededBy := None)
  }

  function ArrivingBuyback(s: State, c: BuybackEvent): BuybackEvent {
    c.(id := s.nextBuybackId, supersededBy := None)
  }

  function RecordVerdicts(s: State): seq<Verdict> {
    TransactionVerdicts(TransactionRepo.Listed(s.txns), s.thresholds)
  }

  function EventVerdicts(s: State): seq<Verdict> {
    BuybackVerdicts(BuybackRepo.Listed(s.buybacks), s.thresholds)
  }

  /** The clusters that a classify run detects, under fresh ids. */
  function DetectedEvents(s: State): seq<ClusterBuyEvent> {
    EventsFor(Candidates(s.txns, s.thresholds.clusterWindowDays), s.nextClusterId)
  }

  /** The signals after the two per-record passes of a classify run. */
  function SignalsAfterRecords(s: State, reclassify: bool): SignalTable {
    JudgeAll(JudgeAll(s.signals, RecordVerdicts(s), reclassify, true), EventVerdicts(s), reclassify, true)
  }

  function Classified(s: State, reclassify: bool): State {
    var es := DetectedEvents(s);
    s.(
      clusters := UpsertAll(s.clusters, es),
      nextClusterId := s.nextClusterId + |es|,
      signals :=
        JudgeAll(SignalsAfterRecords(s, reclassify), ClusterVerdicts(s.clusters, es, s.thresholds), true, false))
  }

  function Step(s: State, e: Event): State {
    match e
    case IngestTransaction(c) =>
      var txn := ArrivingTransaction(s, c);
      s.(
        txns := IngestedTransactions(s.txns, txn),
        nextTxnId := s.nextTxnId + 1,
        signals := s.signals.(rows := SignalsAfterTransaction(s.signals.rows, s.txns, txn)))
    case IngestBuyback(c) =>
      var event := ArrivingBuyback(s, c);
      s.(
        buybacks := IngestedBuybacks(s.buybacks, event),
        nextBuybackId := s.nextBuybackId + 1,
        signals := s.signals.(rows := SignalsAfterBuyback(s.signals.rows, s.buybacks, event)))
    case RunClassify(reclassify) => Classified(s, reclassify)
    case RunNotify(failing) =>
      s.(
        signals := s.signals.(rows := NotifiedRows(s.signals.rows, failing)),
        outbox := s.outbox + Attempts(PendingRows(s.signals.rows), failing))
    case SetThresholds(t) => s.(thresholds := t)
  }

  lemma StepClassifies(s: State, reclassify: bool)
    ensures Step(s, RunClassify(reclassify)) == Classified(s, reclassify)
  {}

  /** A classify run writes the cluster and signal tables only. */
  lemma ClassifyKeepsTables(s: State, reclassify: bool)
    ensures var s1 := Classified(s, reclassify);
      && s1.txns == s.txns && s1.nextTxnId == s.nextTxnId
      && s1.buybacks == s.buybacks && s1.nextBuybackId == s.nextBuybackId
      && s1.thresholds == s.thresholds && s1.outbox == s.outbox
  {}

  lemma ClassifiedClusters(s: State, reclassify: bool)
    ensures Classified(s, reclassify).clusters == UpsertAll(s.clusters, DetectedEvents(s))
  {}

  /** The state after a run of events from the empty database. */
  function Run(events: seq<Event>): State {
    if events == [] then INITIAL else Step(Run(events[..|events| - 1]), events[|events| - 1])
  }

  lemma RunSnoc(events: seq<Event>, e: Event)
    ensures Run(events + [e]) == Step(Run(events), e)
  {
    hide Step;
    assert (events + [e])[..|events|] == events;
  }
}
