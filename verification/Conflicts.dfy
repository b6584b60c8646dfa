// Exactly which events make the listing show two signals about one event.
module Conflicts {
  import opened Domain
  import opened Signals
  import opened Dedup
  import opened Classify
  import opened Pipeline
  import opened ClusterLaws
  import opened Invariants
  import opened Transitions
  import opened Visibility
  import TransactionRepo
  import BuybackRepo

  /** The re-fetch of a shown filing gives it the key of another shown one. */
  ghost predicate RekeysShown(s: State, c: Transaction) {
    var f := TransactionRepo.FindRef(s.txns, c.sourceRef);
    && f < |s.txns| && IsShown(s, InsiderLink(s.txns[f].id))
    && exists u :: u in s.txns && u.id != s.txns[f].id && SameFiling(u, c) && IsShown(s, InsiderLink(u.id))
  }

  ghost predicate RekeysShownBuyback(s: State, c: BuybackEvent) {
    var f := BuybackRepo.FindRef(s.buybacks, c.sourceRef);
    && f < |s.buybacks| && IsShown(s, BuybackLink(s.buybacks[f].id))
    && exists u ::
      u in s.buybacks && u.id != s.buybacks[f].id && BuybackRepo.SameKey(u, c) && IsShown(s, BuybackLink(u.id))
  }

  /** What a caller can check before the event. */
  ghost predicate CausesConflict(s: State, e: Event) {
    match e
    case IngestTransaction(c) => RekeysShown(s, c)
    case IngestBuyback(c) => RekeysShownBuyback(s, c)
    case RunClassify(_) => HasVisibleRivals(s)
    case _ => false
  }

  /** The key and the source. */
  function KeyOf(t: Transaction): (string, string, Day, Source) {
    (t.cik, t.filerName, t.transactionDate, t.source)
  }

  /** A row's key, source and id after an ingestion. */
  lemma RowAfterIngest(rows: seq<Transaction>, c: Transaction, k: nat)
    requires k < |IngestedTransactions(rows, c)|
    ensures var f, after := TransactionRepo.FindRef(rows, c.sourceRef), IngestedTransactions(rows, c);
      && after[k].id == (if k < |rows| then rows[k].id else c.id)
      && KeyOf(after[k]) == KeyOf(if k < |rows| && !(k == f && !IsDropped(rows, c)) then rows[k] else c)
  {}

  lemma BuybackAfterIngest(rows: seq<BuybackEvent>, c: BuybackEvent, k: nat)
    requires k < |IngestedBuybacks(rows, c)|
    ensures var f, after := BuybackRepo.FindRef(rows, c.sourceRef), IngestedBuybacks(rows, c);
      && after[k].id == (if k < |rows| then rows[k].id else c.id)
      && BuybackRepo.SameKey(after[k], if k < |rows| && k != f then rows[k] else c)
  {}

  lemma IngestStep(s: State, c: Transaction)
    ensures var after := Step(s, IngestTransaction(c));
      after.txns == IngestedTransactions(s.txns, ArrivingTransaction(s, c)) && after.buybacks == s.buybacks
  {}

  lemma BuybackStep(s: State, c: BuybackEvent)
    ensures var after := Step(s, IngestBuyback(c));
      after.buybacks == IngestedBuybacks(s.buybacks, ArrivingBuyback(s, c)) && after.txns == s.txns
  {}

  /** Ingestion shows nothing that was not shown before. */
  lemma ShownAfterIngest(s: State, e: Event, link: Link)
    requires Inv(s) && (e.IngestTransaction? || e.IngestBuyback?) && IsShown(Step(s, e), link)
    ensures IsShown(s, link)
  {
    hide Inv, Step, IsShown;
    var after := Step(s, e).signals.rows;
    ShownAre(s, link);
    ShownAre(Step(s, e), link);
    var i :| 0 <= i < |after| && after[i].link == link && !after[i].isSuperseded;
    IngestAddsNone(s, e);
    RowStep(s, e, i);
    assert s.signals.rows[i] in s.signals.rows;
  }

  lemma IngestAddsNone(s: State, e: Event)
    requires e.IngestTransaction? || e.IngestBuyback?
    ensures |Step(s, e).signals.rows| == |s.signals.rows|
  {}

  lemma ShownIsStored(s: State, link: Link)
    requires Inv(s) && IsShown(s, link)
    ensures link.InsiderLink? ==> link.id < s.nextTxnId
    ensures link.BuybackLink? ==> link.id < s.nextBuybackId
  {
    hide ClustersOk, TableOk, RowsOk, MailOk, IsShown;
    ShownIsCurrent(s, link);
  }

  // ---------- Ingesting a transaction ----------

  /** The row that decides a stored row's key after the ingestion. */
  function KeyRow(rows: seq<Transaction>, c: Transaction, k: nat): Transaction
    requires k < |rows|
  {
    if k == TransactionRepo.FindRef(rows, c.sourceRef) && !IsDropped(rows, c) then c else rows[k]
  }

  /** Two shown filings that come to share a key did so before, or one of them was just given it. */
  lemma SharedKey(s: State, c: Transaction, i: nat, j: nat)
    requires !ShowsConflict(s) && i < |s.txns| && j < |s.txns| && s.txns[i].id != s.txns[j].id
    requires IsShown(s, InsiderLink(s.txns[i].id)) && IsShown(s, InsiderLink(s.txns[j].id))
    requires SameFiling(KeyRow(s.txns, c, i), KeyRow(s.txns, c, j))
    ensures RekeysShown(s, c)
  {
    hide IsShown, IsDropped, TransactionRepo.FindRef;
    assert s.txns[i] in s.txns && s.txns[j] in s.txns;
    assert !SameEvent(s, InsiderLink(s.txns[i].id), InsiderLink(s.txns[j].id));
  }

  lemma ConflictFromTransaction(s: State, c: Transaction, a: Link, b: Link)
    requires Inv(s) && !ShowsConflict(s) && a != b
    requires var after := Step(s, IngestTransaction(c));
      IsShown(after, a) && IsShown(after, b) && SameEvent(after, a, b)
    ensures RekeysShown(s, c)
  {
    var e := IngestTransaction(c);
    var txn, rows := ArrivingTransaction(s, c), Step(s, e).txns;
    hide Inv, Step, IsShown, IngestedTransactions, IsDropped, RekeysShown, SameFiling, KeyOf;
    IngestStep(s, c);
    ShownAfterIngest(s, e, a);
    ShownAfterIngest(s, e, b);
    ShownIsStored(s, a);
    ShownIsStored(s, b);
    ArrivalIsTheSame(s.txns, c, txn, {});
    if a.InsiderLink? {
      var t, u :| t in rows && u in rows && t.id == a.id && u.id == b.id && SameFiling(t, u);
      var i, j :| 0 <= i < |rows| && 0 <= j < |rows| && rows[i] == t && rows[j] == u;
      RowAfterIngest(s.txns, txn, i);
      RowAfterIngest(s.txns, txn, j);
      assert KeyOf(txn) == KeyOf(c) by { SameArrivalKey(s, c); }
      FilingByKey(t, u, KeyRow(s.txns, c, i), KeyRow(s.txns, c, j));
      SharedKey(s, c, i, j);
    }
  }

  lemma SameArrivalKey(s: State, c: Transaction)
    ensures KeyOf(ArrivingTransaction(s, c)) == KeyOf(c)
  {}

  lemma FilingByKey(t: Transaction, u: Transaction, t0: Transaction, u0: Transaction)
    requires KeyOf(t) == KeyOf(t0) && KeyOf(u) == KeyOf(u0)
    ensures SameFiling(t, u) == SameFiling(t0, u0)
  {}

  lemma NeverDropped(rows: seq<Transaction>, c: Transaction)
    requires c.source == SecEdgar
    ensures !IsDropped(rows, c)
  {}

  lemma RekeyedConflict(s: State, c: Transaction)
    requires Inv(s) && RekeysShown(s, c)
    ensures ShowsConflict(Step(s, IngestTransaction(c)))
  {
    hide Inv, Step, IsShown, IngestedTransactions, IsDropped;
    IngestStep(s, c);
    var txn, after := ArrivingTransaction(s, c), Step(s, IngestTransaction(c));
    var f := TransactionRepo.FindRef(s.txns, c.sourceRef);
    var u :| u in s.txns && u.id != s.txns[f].id && SameFiling(u, c) && IsShown(s, InsiderLink(u.id));
    var j :| 0 <= j < |s.txns| && s.txns[j] == u;
    NeverDropped(s.txns, txn);
    TableGrows(s.txns, txn);
    RowAfterIngest(s.txns, txn, f);
    RowAfterIngest(s.txns, txn, j);
    assert after.txns[f] in after.txns && after.txns[j] in after.txns;
    SignalsUntouched(s, c);
    StillShown(s, after, InsiderLink(s.txns[f].id));
    StillShown(s, after, InsiderLink(u.id));
    assert SameEvent(after, InsiderLink(s.txns[f].id), InsiderLink(u.id));
  }

  lemma TableGrows(rows: seq<Transaction>, c: Transaction)
    ensures |IngestedTransactions(rows, c)| >= |rows|
  {}

  lemma SignalsUntouched(s: State, c: Transaction)
    requires TransactionRepo.FindRef(s.txns, c.sourceRef) < |s.txns|
    ensures Step(s, IngestTransaction(c)).signals == s.signals
  {}

  lemma StillShown(s: State, after: State, link: Link)
    requires after.signals == s.signals && IsShown(s, link)
    ensures IsShown(after, link)
  {}

  lemma TransactionConflictExactly(s: State, c: Transaction)
    requires Inv(s) && !ShowsConflict(s)
    ensures ShowsConflict(Step(s, IngestTransaction(c))) <==> RekeysShown(s, c)
  {
    hide Inv, Step, IsShown, SameEvent, RekeysShown;
    var after := Step(s, IngestTransaction(c));
    if a: Link, b: Link :| a != b && IsShown(after, a) && IsShown(after, b) && SameEvent(after, a, b) {
      ConflictFromTransaction(s, c, a, b);
    }
    if RekeysShown(s, c) {
      RekeyedConflict(s, c);
    }
  }

  // ---------- Ingesting a buyback ----------

  lemma ConflictFromBuyback(s: State, c: BuybackEvent, a: Link, b: Link)
    requires Inv(s) && !ShowsConflict(s) && a != b
    requires var after := Step(s, IngestBuyback(c)); IsShown(after, a) && IsShown(after, b) && SameEvent(after, a, b)
    ensures RekeysShownBuyback(s, c)
  {
    hide Inv, Step, IsShown, IngestedBuybacks;
    BuybackStep(s, c);
    var e := IngestBuyback(c);
    var event, rows := ArrivingBuyback(s, c), Step(s, e).buybacks;
    ShownAfterIngest(s, e, a);
    ShownAfterIngest(s, e, b);
    ShownIsStored(s, a);
    ShownIsStored(s, b);
    if a.BuybackLink? {
      var t, u :| t in rows && u in rows && t.id == a.id && u.id == b.id && BuybackRepo.SameKey(t, u);
      var i, j :| 0 <= i < |rows| && 0 <= j < |rows| && rows[i] == t && rows[j] == u;
      BuybackAfterIngest(s.buybacks, event, i);
      BuybackAfterIngest(s.buybacks, event, j);
      assert s.buybacks[i] in s.buybacks && s.buybacks[j] in s.buybacks;
      assert !SameEvent(s, a, b);
      assert !BuybackRepo.SameKey(s.buybacks[i], s.buybacks[j]);
    }
  }

  lemma RekeyedBuybackConflict(s: State, c: BuybackEvent)
    requires Inv(s) && RekeysShownBuyback(s, c)
    ensures ShowsConflict(Step(s, IngestBuyback(c)))
  {
    hide Inv, Step, IsShown, IngestedBuybacks;
    BuybackStep(s, c);
    var event, after := ArrivingBuyback(s, c), Step(s, IngestBuyback(c));
    var f := BuybackRepo.FindRef(s.buybacks, c.sourceRef);
    var u :| u in s.buybacks && u.id != s.buybacks[f].id && BuybackRepo.SameKey(u, c) && IsShown(s, BuybackLink(u.id));
    var j :| 0 <= j < |s.buybacks| && s.buybacks[j] == u;
    BuybackTableGrows(s.buybacks, event);
    BuybackAfterIngest(s.buybacks, event, f);
    BuybackAfterIngest(s.buybacks, event, j);
    assert after.buybacks[f] in after.buybacks && after.buybacks[j] in after.buybacks;
    SignalsUntouchedByBuyback(s, c);
    StillShown(s, after, BuybackLink(s.buybacks[f].id));
    StillShown(s, after, BuybackLink(u.id));
    assert SameEvent(after, BuybackLink(s.buybacks[f].id), BuybackLink(u.id));
  }

  lemma BuybackTableGrows(rows: seq<BuybackEvent>, c: BuybackEvent)
    ensures |IngestedBuybacks(rows, c)| >= |rows|
  {}

  lemma SignalsUntouchedByBuyback(s: State, c: BuybackEvent)
    requires BuybackRepo.FindRef(s.buybacks, c.sourceRef) < |s.buybacks|
    ensures Step(s, IngestBuyback(c)).signals == s.signals
  {}

  lemma BuybackConflictExactly(s: State, c: BuybackEvent)
    requires Inv(s) && !ShowsConflict(s)
    ensures ShowsConflict(Step(s, IngestBuyback(c))) <==> RekeysShownBuyback(s, c)
  {
    hide Inv, Step, IsShown, SameEvent, RekeysShownBuyback;
    var after := Step(s, IngestBuyback(c));
    if a: Link, b: Link :| a != b && IsShown(after, a) && IsShown(after, b) && SameEvent(after, a, b) {
      ConflictFromBuyback(s, c, a, b);
    }
    if RekeysShownBuyback(s, c) {
      RekeyedBuybackConflict(s, c);
    }
  }

  // ---------- Every event, every run ----------

  lemma NotifyShowsTheSame(s: State, failing: set<Id>, link: Link)
    ensures IsShown(Step(s, RunNotify(failing)), link) <==> IsShown(s, link)
  {
    hide IsShown;
    var after := Step(s, RunNotify(failing));
    ShownAre(s, link);
    ShownAre(after, link);
    if i :| 0 <= i < |s.signals.rows| && s.signals.rows[i].link == link && !s.signals.rows[i].isSuperseded {
      assert after.signals.rows[i] in after.signals.rows;
    }
    if i :| 0 <= i < |after.signals.rows| && after.signals.rows[i].link == link && !after.signals.rows[i].isSuperseded {
      assert s.signals.rows[i] in s.signals.rows;
    }
  }

  lemma QuietEventsShowNothing(s: State, e: Event)
    requires e.RunNotify? || e.SetThresholds?
    ensures ShowsConflict(Step(s, e)) <==> ShowsConflict(s)
  {
    hide IsShown, SameEvent;
    var after := Step(s, e);
    forall link: Link
      ensures IsShown(after, link) <==> IsShown(s, link)
    {
      if e.RunNotify? {
        NotifyShowsTheSame(s, e.failing, link);
      } else {
        ShownAre(s, link);
        ShownAre(after, link);
      }
    }
    forall a: Link, b: Link
      ensures SameEvent(after, a, b) <==> SameEvent(s, a, b)
    {
      SameEventInTables(s, after, a, b);
    }
  }

  /** From a state that shows no conflict, an event leads to one exactly when its condition holds. */
  lemma ConflictExactly(s: State, e: Event)
    requires Inv(s) && !ShowsConflict(s)
    ensures ShowsConflict(Step(s, e)) <==> CausesConflict(s, e)
  {
    hide Inv, ShowsConflict, RekeysShown, RekeysShownBuyback, HasVisibleRivals, Classified;
    match e
    case IngestTransaction(c) => TransactionConflictExactly(s, c);
    case IngestBuyback(c) => BuybackConflictExactly(s, c);
    case RunClassify(reclassify) => ConflictAfterClassifyExactly(s, reclassify);
    case RunNotify(_) => QuietEventsShowNothing(s, e);
    case SetThresholds(_) => QuietEventsShowNothing(s, e);
  }

  /** Some state of the run showed two signals about one event. */
  ghost predicate EverConflict(events: seq<Event>) {
    ShowsConflict(Run(events)) || (events != [] && EverConflict(events[..|events| - 1]))
  }

  /** Some event of the run met its condition. */
  ghost predicate EverCaused(events: seq<Event>) {
    events != []
    && (EverCaused(events[..|events| - 1]) || CausesConflict(Run(events[..|events| - 1]), events[|events| - 1]))
  }

  lemma NothingShown()
    ensures !ShowsConflict(INITIAL)
  {
    forall link: Link
      ensures !IsShown(INITIAL, link)
    {
      ShownAre(INITIAL, link);
    }
  }

  /** Only the current signal of an event is ever shown, over every run, if and only if no event of
      the run meets its condition. */
  lemma {:induction false} ConflictsExactly(events: seq<Event>)
    ensures EverConflict(events) <==> EverCaused(events)
  {
    hide Inv, Step, ShowsConflict, CausesConflict;
    if events == [] {
      NothingShown();
    } else {
      var before := events[..|events| - 1];
      ConflictsExactly(before);
      RunKeepsInv(before);
      if !EverConflict(before) {
        ConflictExactly(Run(before), events[|events| - 1]);
      }
    }
  }
}
