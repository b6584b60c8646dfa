// Runs on which a documented promise about amended filings fails.
module FilingScenarios {
  import opened Domain
  import opened Rules
  import opened Signals
  import opened Dedup
  import opened Classify
  import opened Pipeline
  import opened Invariants
  import opened Settling
  import opened Visibility
  import TransactionRepo
  import opened EmailLaws
  import opened ResendLaws
  import opened Scenarios
  import opened IngestInFields
  import opened RulesInFields

  // ---------- An amended filing shown beside its amendment ----------

  /** A notable purchase by one filer on one day. */
  function Filing(id: Id, ref: string): Transaction {
    Purchase(id, ref, "a", None, 0).(shareCount := 1000000.0)
  }

  /** A filing, its amendment, and the filing again. */
  const REFETCHED: seq<Event> :=
    [IngestTransaction(Filing(0, "A")), IngestTransaction(Filing(1, "B")), IngestTransaction(Filing(2, "A"))]

  function Holding(rows: seq<Transaction>, n: nat): State {
    INITIAL.(txns := rows, nextTxnId := n)
  }

  lemma FirstFiling(a: Transaction)
    requires a.id == 0 && a.supersededBy == None && a.filerId == None
    ensures Step(Holding([], 0), IngestTransaction(a)) == Holding([a], 1)
  {
    assert LivePriors([], a) == {};
  }

  lemma Amendment(a: Transaction, b: Transaction)
    requires a.id == 0 && b.id == 1 && a.supersededBy == b.supersededBy == None && a.filerId == b.filerId == None
    requires a.sourceRef != b.sourceRef && b.source == SecEdgar && TransactionRepo.SameKey(a, b)
    ensures Step(Holding([a], 1), IngestTransaction(b)) == Holding([a.(supersededBy := Some(1)), b], 2)
  {
    assert TransactionRepo.FindRef([a], b.sourceRef) == 1;
    assert a in [a] && LivePriors([a], b) == {0};
    assert ArrivingTransaction(Holding([a], 1), b) == b;
  }

  lemma Refetch(a: Transaction, b: Transaction, c: Transaction)
    requires a.sourceRef == c.sourceRef && c.id == 2 && c.source == SecEdgar && a.filerId == None
      && c.supersededBy == None
    ensures Step(Holding([a, b], 2), IngestTransaction(c)) == Holding([c.(id := a.id, filerId := None), b], 3)
  {
    assert TransactionRepo.FindRef([a, b], c.sourceRef) == 0;
    assert ArrivingTransaction(Holding([a, b], 2), c) == c;
  }

  lemma RefetchedState()
    ensures Run(REFETCHED) == Holding([Filing(0, "A"), Filing(1, "B")], 3)
  {
    var a, b, c := Filing(0, "A"), Filing(1, "B"), Filing(2, "A");
    assert "A"[0] != "B"[0];
    assert Holding([], 0) == INITIAL && c.(id := 0, filerId := None) == a;
    FirstFiling(a);
    Amendment(a, b);
    Refetch(a.(supersededBy := Some(1)), b, c);
    var x, y, z := IngestTransaction(a), IngestTransaction(b), IngestTransaction(c);
    assert REFETCHED == [] + [x] + [y] + [z];
    hide Step, Filing, Holding;
    RunSnoc([], x);
    RunSnoc([] + [x], y);
    RunSnoc([] + [x] + [y], z);
  }

  /** A superseded filing fetched again is live beside the one that superseded it. */
  lemma RefetchRevives() returns (t: Transaction, u: Transaction)
    ensures t in Run(REFETCHED).txns && u in Run(REFETCHED).txns && t.id != u.id
    ensures TransactionRepo.SameKey(t, u) && t.supersededBy == None && u.supersededBy == None
  {
    RefetchedState();
    t, u := Filing(0, "A"), Filing(1, "B");
    assert t in [t, u] && u in [t, u];
  }

  lemma FilingIsNotable(id: Id, ref: string)
    ensures IsNotableTransaction(Filing(id, ref), DEFAULTS)
    ensures Filing(id, ref).id == id && Filing(id, ref).supersededBy == None
  {}

  /** A notable verdict about a record without a signal puts its signal in the default listing. */
  lemma NotableIsListed(s: State, v: Verdict) returns (row: SignalRow)
    requires Inv(s) && v in RecordVerdicts(s) && v.isNotable && s.signals.rows == []
    ensures row in Listing(Classified(s, false).signals.rows, true, false) && row.link == v.link
  {
    hide Inv, RecordVerdicts, EventVerdicts, Classified, Listing;
    ClassifyOutcome(s, false, v);
    var rows := Classified(s, false).signals.rows;
    row := rows[FindLink(rows, v.link)];
    ListedAre(rows, true, false);
  }

  /** The documented promise, that only the current signal of an event is shown, fails: after such
      a re-fetch the default listing shows the signals of both filings. */
  lemma RefetchShowsBoth() returns (a: SignalRow, b: SignalRow)
    ensures var s := Run(REFETCHED + [RunClassify(false)]);
      && a in Listing(s.signals.rows, true, false) && b in Listing(s.signals.rows, true, false)
      && a.link != b.link && SameEvent(s, a.link, b.link)
  {
    hide REFETCHED, Run, Step, Inv, Classified, RecordVerdicts, EventVerdicts, Listing, Filing, SameEvent,
      IsNotableTransaction;
    var s := Run(REFETCHED);
    var t, u := RefetchedFacts();
    RunKeepsInv(REFETCHED);
    LiveVerdicts(s);
    RunSnoc(REFETCHED, RunClassify(false));
    StepClassifies(s, false);
    ClassifyKeepsTables(s, false);
    SameEventInTables(s, Classified(s, false), InsiderLink(0), InsiderLink(1));
    a := NotableIsListed(s, TransactionVerdict(t, s.thresholds));
    b := NotableIsListed(s, TransactionVerdict(u, s.thresholds));
  }

  lemma RefetchedFacts() returns (t: Transaction, u: Transaction)
    ensures var s := Run(REFETCHED);
      && t in s.txns && u in s.txns && t.id == 0 && u.id == 1 && t.supersededBy == u.supersededBy == None
      && IsNotableTransaction(t, s.thresholds) && IsNotableTransaction(u, s.thresholds)
      && s.signals.rows == [] && SameEvent(s, InsiderLink(0), InsiderLink(1))
  {
    t, u := Filing(0, "A"), Filing(1, "B");
    RefetchedState();
    assert SameFiling(t, u);
    FilingIsNotable(0, "A");
    FilingIsNotable(1, "B");
    hide REFETCHED, Run, Filing, Holding, SameEvent, IsNotableTransaction, DEFAULTS;
    FilingsShare(t, u);
  }

  lemma FilingsShare(t: Transaction, u: Transaction)
    requires SameFiling(t, u)
    ensures var s := Holding([t, u], 3);
      && t in s.txns && u in s.txns && s.signals.rows == [] && s.thresholds == DEFAULTS
      && SameEvent(s, InsiderLink(t.id), InsiderLink(u.id))
  {
    assert t in [t, u] && u in [t, u];
  }

  // ---------- Two live rows without a re-fetch ----------

  lemma ScrapedRow(rows: seq<Transaction>, n: nat, c: Transaction)
    requires c.source == OpenInsider && c.id == n && c.supersededBy == None && c.filerId == None
    requires forall row | row in rows :: row.source == OpenInsider && row.sourceRef != c.sourceRef
    ensures Step(Holding(rows, n), IngestTransaction(c)) == Holding(rows + [c], n + 1)
  {
    assert ArrivingTransaction(Holding(rows, n), c) == c;
    assert TransactionRepo.FindRef(rows, c.sourceRef) == |rows|;
  }

  lemma ScrapedRows(a: Transaction, b: Transaction)
    requires a == Scraped(0, "A", "X", "a", 0) && b == Scraped(1, "B", "X", "a", 0).(shareCount := 2.0)
    ensures a.source == b.source == OpenInsider && a.supersededBy == b.supersededBy == None
      && a.filerId == b.filerId == None
    ensures a.id == 0 && b.id == 1 && a.sourceRef != b.sourceRef && TransactionRepo.SameKey(a, b)
  {
    assert "A"[0] != "B"[0];
  }

  lemma EmptyTable()
    ensures Run([]) == Holding([], 0)
  {}

  lemma BothLive(a: Transaction, b: Transaction)
    requires IsLiveFrom(a, {OpenInsider}) && IsLiveFrom(b, {OpenInsider}) && TransactionRepo.SameKey(a, b)
      && a.id != b.id
    ensures Holding([a, b], 2).txns == [a, b] && !OneLiveTransaction([a, b], {OpenInsider})
  {
    assert a in [a, b] && b in [a, b];
  }

  /** A corrected share count is just another row: two OpenInsider rows for one filer, company and day
      stay live side by side. */
  lemma ScrapedRowsStayLive()
    ensures var s :=
      Run([IngestTransaction(Scraped(0, "A", "X", "a", 0)),
        IngestTransaction(Scraped(1, "B", "X", "a", 0).(shareCount := 2.0))]);
      |s.txns| == 2 && !OneLiveTransaction(s.txns, {OpenInsider})
  {
    hide Run, Step, Scraped, Holding, OneLiveTransaction;
    var a, b := Scraped(0, "A", "X", "a", 0), Scraped(1, "B", "X", "a", 0).(shareCount := 2.0);
    var x, y := IngestTransaction(a), IngestTransaction(b);
    ScrapedRows(a, b);
    EmptyTable();
    ScrapedRow([], 0, a);
    ScrapedRow([a], 1, b);
    BothLive(a, b);
    RunSnoc([], x);
    RunSnoc([x], y);
    assert [] + [x] == [x] && [x] + [y] == [x, y] && [] + [a] == [a] && [a] + [b] == [a, b];
  }

  // ---------- A superseded signal is mailed ----------

  const AMENDED: seq<Event> :=
    [IngestTransaction(Filing(0, "A"))] + [RunClassify(false)] + [IngestTransaction(Filing(1, "B"))]

  /** The first filing alone, stored. */
  lemma FirstFiled() returns (a: Transaction)
    ensures a == Filing(0, "A")
    ensures Run([IngestTransaction(a)]) == Holding([a], 1)
    ensures a.supersededBy == None && a.id == 0 && IsNotableTransaction(a, DEFAULTS)
    ensures var s := Holding([a], 1); s.txns == [a] && s.signals.rows == [] && s.thresholds == DEFAULTS
  {
    a := Filing(0, "A");
    FirstFiling(a);
    FilingIsNotable(0, "A");
    assert Holding([], 0) == INITIAL && [] + [IngestTransaction(a)] == [IngestTransaction(a)];
    hide Step, Filing, IsNotableTransaction;
    RunSnoc([], IngestTransaction(a));
  }

  lemma IsAmendment(a: Transaction, b: Transaction)
    requires a == Filing(0, "A") && b == Filing(1, "B")
    ensures b.source == SecEdgar && TransactionRepo.SameKey(a, b) && a.sourceRef != b.sourceRef
  {
    assert "A"[0] != "B"[0];
  }

  /** A pending signal whose filing is amended before the notify run is mailed all the same. */
  lemma SupersededIsMailed() returns (i: nat)
    ensures var s := Run(AMENDED);
      && i < |s.signals.rows| && s.signals.rows[i].isSuperseded
      && CountSends(Step(s, RunNotify({})).outbox, s.signals.rows[i].id)
        == CountSends(s.outbox, s.signals.rows[i].id) + 1
  {
    hide AMENDED, Run, Step, Inv, Classified, RecordVerdicts, EventVerdicts, Filing, Holding, IsNotableTransaction,
      CountSends, Lookup;
    var a := FirstFiled();
    var b := Filing(1, "B");
    IsAmendment(a, b);
    var x, y, s0 := IngestTransaction(a), IngestTransaction(b), Holding([a], 1);
    RunSnoc([x], RunClassify(false));
    RunSnoc([x] + [RunClassify(false)], y);
    RunKeepsInv([x]);
    assert a in s0.txns;
    LiveVerdicts(s0);
    StepClassifies(s0, false);
    ClassifyKeepsTables(s0, false);
    i := PendingAfter(s0, TransactionVerdict(a, DEFAULTS));
    AmendedSignal(Classified(s0, false), a, b, i);
    AmendedRun(x, y);
    MailedExactly(AMENDED, {}, i);
  }

  lemma AmendedRun(x: Event, y: Event)
    requires x == IngestTransaction(Filing(0, "A")) && y == IngestTransaction(Filing(1, "B"))
    ensures AMENDED == [x] + [RunClassify(false)] + [y]
  {}

  lemma PendingAfter(s: State, v: Verdict) returns (i: nat)
    requires Inv(s) && v in RecordVerdicts(s) && v.isNotable && s.signals.rows == []
    ensures var rows := Classified(s, false).signals.rows;
      i < |rows| && rows[i].link == v.link && rows[i].status == Pending
  {
    hide Inv, RecordVerdicts, EventVerdicts, Classified;
    ClassifyOutcome(s, false, v);
    i := FindLink(Classified(s, false).signals.rows, v.link);
  }

  lemma AmendedSignal(s: State, a: Transaction, b: Transaction, i: nat)
    requires s.txns == [a] && a.supersededBy == None && a.sourceRef != b.sourceRef
    requires b.source == SecEdgar && TransactionRepo.SameKey(a, b)
    requires i < |s.signals.rows| && s.signals.rows[i].link == InsiderLink(a.id)
    ensures var after := Step(s, IngestTransaction(b)).signals.rows;
      i < |after| && after[i] == s.signals.rows[i].(isSuperseded := true)
  {
    var txn := ArrivingTransaction(s, b);
    assert a in s.txns && TransactionRepo.SameKey(a, txn);
    assert TransactionRepo.FindRef([a], txn.sourceRef) == 1;
    assert a.id in LivePriors(s.txns, txn);
  }

  // ---------- A purchase of another size is another purchase ----------

  /** An SEC row for 1,000 shares and an aggregated row for 2,500 by the same filer on the same day are
      both stored. */
  lemma OtherShareCountIsStored()
    ensures var a, b := Filing(0, "A").(shareCount := 1000.0), Scraped(1, "B", "Acme", "a", 0).(shareCount := 2500.0);
      Run([IngestTransaction(a), IngestTransaction(b)]).txns == [a, b]
  {
    hide Run, Step, Inv;
    var a, b := Filing(0, "A").(shareCount := 1000.0), Scraped(1, "B", "Acme", "a", 0).(shareCount := 2500.0);
    assert "A"[0] != "B"[0];
    FirstFiling(a);
    EmptyTable();
    var x, y, s := IngestTransaction(a), IngestTransaction(b), Holding([a], 1);
    assert [] + [x] == [x] && [x] + [y] == [x, y];
    RunSnoc([], x);
    RunSnoc([x], y);
    RunKeepsInv([x]);
    assert s.txns == [a] && a.sourceRef != b.sourceRef && !IsCovered([a], b);
    hide Holding, Filing, Scraped, IsCovered;
    var k := UncoveredRowIsStored(s, b);
    assert Step(s, y).txns[1] == b;
  }

  // ---------- A re-fetch stores the new amount ----------

  const SMALL: BuybackEvent := EVENT.(amount := 40000000.0)

  const GROWN: BuybackEvent := EVENT.(amount := 60000000.0)

  /** A disclosure of 40 million, fetched again at 60 million before a classify run, is notable. */
  lemma RefetchedAmountCounts() returns (row: SignalRow)
    ensures row in Run([IngestBuyback(SMALL), IngestBuyback(GROWN)] + [RunClassify(false)]).signals.rows
    ensures row.link.BuybackLink? && row.isNotable && row.status == Pending
  {
    hide SMALL, GROWN, DEFAULTS, Run, Step, Inv, Classified;
    var x, y := IngestBuyback(SMALL), IngestBuyback(GROWN);
    var s := Run([x, y]);
    GrownIsEnough();
    NoSignalsYet(x, y);
    assert [] + [x] == [x] && [x] + [y] == [x, y];
    RunSnoc([x], y);
    RunSnoc([x, y], RunClassify(false));
    RunKeepsInv([x]);
    RunKeepsInv([x, y]);
    StepClassifies(s, false);
    var k := BuybackIsStored(Run([x]), GROWN);
    row := NewBuybackSignal(s, false, s.buybacks[k]);
  }

  lemma GrownIsEnough()
    ensures GROWN.amount >= DEFAULTS.minBuybackAmount
  {}

  lemma NoSignalsYet(x: Event, y: Event)
    requires x.IngestBuyback? && y.IngestBuyback?
    ensures Run([x, y]).signals.rows == [] && Run([x, y]).thresholds == DEFAULTS
  {
    assert [] + [x] == [x] && [x] + [y] == [x, y];
    RunSnoc([], x);
    RunSnoc([x], y);
    var s := Run([x]);
    assert s.signals.rows == [] && s.thresholds == DEFAULTS;
    hide Run;
  }
}
