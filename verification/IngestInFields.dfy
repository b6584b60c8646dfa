// What one ingestion leaves in the tables, field by field.
module IngestInFields {
  import opened Domain
  import opened Signals
  import opened Dedup
  import opened Classify
  import opened Pipeline
  import opened Filings
  import opened RecordLaws
  import opened ClusterLaws
  import opened Invariants
  import opened Visibility
  import TransactionRepo
  import BuybackRepo

  // ---------- One row per candidate ----------

  /** Row k, and it alone, has the candidate's reference, and it is the candidate: live, under an id of
      its own and without a filer id. */
  ghost predicate HoldsTransaction(rows: seq<Transaction>, c: Transaction, k: nat) {
    && k < |rows| && rows[k] == c.(id := rows[k].id, filerId := None, supersededBy := None)
    && forall j | 0 <= j < |rows| && rows[j].sourceRef == c.sourceRef :: j == k
  }

  /** Row k, and it alone, has the candidate's reference, and it is the candidate: live, under an id of
      its own. */
  ghost predicate HoldsBuyback(rows: seq<BuybackEvent>, c: BuybackEvent, k: nat) {
    && k < |rows| && rows[k] == c.(id := rows[k].id, supersededBy := None)
    && forall j | 0 <= j < |rows| && rows[j].sourceRef == c.sourceRef :: j == k
  }

  lemma StoredPosition(rows: seq<Transaction>, nextId: Id, c: Transaction) returns (k: nat)
    requires DistinctSourceRefs(rows) && (forall t | t in rows :: t.filerId == None)
    requires c.id == nextId && c.supersededBy == None
    ensures HoldsTransaction(TransactionRepo.UpsertByRef(rows, c), c, k)
    ensures |TransactionRepo.UpsertByRef(rows, c)| == (if k < |rows| then |rows| else k + 1) && k <= |rows|
    ensures k < |rows| ==> rows[k].sourceRef == c.sourceRef
    ensures TransactionRepo.UpsertByRef(rows, c)[k].id == if k < |rows| then rows[k].id else nextId
    ensures forall j | 0 <= j < |rows| && j != k :: TransactionRepo.UpsertByRef(rows, c)[j] == rows[j]
  {
    k := TransactionRepo.FindRef(rows, c.sourceRef);
    if k < |rows| { assert rows[k] in rows; }
  }

  // ---------- OpenInsider rows ----------

  /** A stored SEC row agrees with the candidate in ticker, filer name, date and share count. */
  ghost predicate IsCovered(rows: seq<Transaction>, c: Transaction) {
    exists row :: row in rows && row.source == SecEdgar && row.ticker == c.ticker && row.filerName == c.filerName
      && row.transactionDate == c.transactionDate && row.shareCount == c.shareCount
  }

  /** An OpenInsider row that a stored SEC row covers changes nothing but the id counter. */
  lemma CoveredRowIsDropped(s: State, c: Transaction)
    requires c.source == OpenInsider && IsCovered(s.txns, c)
    ensures Step(s, IngestTransaction(c)) == s.(nextTxnId := s.nextTxnId + 1)
  {
    var row :| row in s.txns && row.source == SecEdgar && row.ticker == c.ticker && row.filerName == c.filerName
      && row.transactionDate == c.transactionDate && row.shareCount == c.shareCount;
    assert TransactionRepo.IsFuzzyMatch(row, ArrivingTransaction(s, c));
  }

  /** An OpenInsider row that none covers is stored, over the row with its reference or as a new one;
      nothing else changes. So it is dropped only when covered: the table can be as before otherwise
      only if it held exactly this row. */
  lemma UncoveredRowIsStored(s: State, c: Transaction) returns (k: nat)
    requires Inv(s) && c.source == OpenInsider && !IsCovered(s.txns, c)
    ensures var after := Step(s, IngestTransaction(c));
      && HoldsTransaction(after.txns, c, k) && after.signals == s.signals
      && after.txns[k].id == (if k < |s.txns| then s.txns[k].id else s.nextTxnId)
      && |after.txns| == (if k < |s.txns| then |s.txns| else k + 1) && k <= |s.txns|
      && (k < |s.txns| ==> s.txns[k].sourceRef == c.sourceRef)
      && forall j | 0 <= j < |s.txns| && j != k :: after.txns[j] == s.txns[j]
  {
    var txn := ArrivingTransaction(s, c);
    assert IsDropped(s.txns, txn) ==> IsCovered(s.txns, c);
    UncoveredStep(s, c);
    hide BuybacksOk, ClustersOk, TableOk, RowsOk, MailOk, WellFormed, TransactionRepo.UpsertByRef, Step;
    StoredRefsDistinct(s.txns);
    k := StoredPosition(s.txns, s.nextTxnId, txn);
  }

  /** An OpenInsider row leaves the table as it was only if a stored SEC row agrees with it in ticker,
      filer name, date and share count, or if it is already stored, unchanged and live. */
  lemma UnchangedOnlyIf(s: State, c: Transaction)
    requires Inv(s) && c.source == OpenInsider && Step(s, IngestTransaction(c)).txns == s.txns
    ensures IsCovered(s.txns, c)
      || exists row :: row in s.txns && row == c.(id := row.id, filerId := None, supersededBy := None)
  {
    if !IsCovered(s.txns, c) {
      var k := UncoveredRowIsStored(s, c);
      assert s.txns[k] in s.txns;
    }
  }

  lemma UncoveredStep(s: State, c: Transaction)
    requires c.source == OpenInsider && !IsDropped(s.txns, ArrivingTransaction(s, c))
    ensures Step(s, IngestTransaction(c)).txns == TransactionRepo.UpsertByRef(s.txns, ArrivingTransaction(s, c))
    ensures Step(s, IngestTransaction(c)).signals == s.signals
  {}

  // ---------- SEC filings ----------

  /** The filing is new and the row is a live one with its cik, filer name and date. */
  ghost predicate IsAmended(s: State, c: Transaction, row: Transaction) {
    && (forall known | known in s.txns :: known.sourceRef != c.sourceRef)
    && row.supersededBy == None
    && row.cik == c.cik && row.filerName == c.filerName && row.transactionDate == c.transactionDate
  }

  lemma NewMeansUnknown(rows: seq<Transaction>, c: Transaction)
    requires c.source == SecEdgar
    ensures IsNewFiling(rows, c) <==> forall known | known in rows :: known.sourceRef != c.sourceRef
  {
    var f := TransactionRepo.FindRef(rows, c.sourceRef);
    if f < |rows| { assert rows[f] in rows; }
  }

  lemma PriorsAre(s: State, c: Transaction, j: nat)
    requires Inv(s) && j < |s.txns|
    ensures s.txns[j].id in LivePriors(s.txns, c) <==>
      && s.txns[j].supersededBy == None && s.txns[j].cik == c.cik && s.txns[j].filerName == c.filerName
      && s.txns[j].transactionDate == c.transactionDate
  {
    hide BuybacksOk, ClustersOk, TableOk, RowsOk, MailOk, WellFormed;
    TransactionsHaveDistinctIds(s.txns);
    IsLivePrior(s.txns, c, j);
  }

  /** An SEC filing, fetched for the first time or again, ends up in the one row with its reference, in
      every field but the id and the filer id, live. Of the other rows, the live ones with its cik,
      filer name and date now point at it if it is new; the rest are as they were. */
  lemma SecFilingIsStored(s: State, c: Transaction) returns (k: nat)
    requires Inv(s) && c.source == SecEdgar
    ensures var after := Step(s, IngestTransaction(c)).txns;
      && HoldsTransaction(after, c, k)
      && after[k].id == (if k < |s.txns| then s.txns[k].id else s.nextTxnId)
      && |after| == (if k < |s.txns| then |s.txns| else k + 1) && k <= |s.txns|
      && (k < |s.txns| ==> s.txns[k].sourceRef == c.sourceRef)
      && forall j | 0 <= j < |s.txns| && j != k ::
        after[j] == if IsAmended(s, c, s.txns[j]) then s.txns[j].(supersededBy := Some(s.nextTxnId)) else s.txns[j]
  {
    var txn := ArrivingTransaction(s, c);
    SecStep(s, c);
    NewMeansUnknown(s.txns, txn);
    k := TransactionRepo.FindRef(s.txns, c.sourceRef);
    forall j | 0 <= j < |s.txns| { PriorsAre(s, txn, j); }
    assert s.nextTxnId !in LivePriors(s.txns, txn) by { FreshIsNoPrior(s, txn); }
    assert DistinctSourceRefs(s.txns) by { InvRefsDistinct(s); }
    assert forall j | 0 <= j < |s.txns| :: s.txns[j] in s.txns;
    hide Inv, Step, LivePriors;
  }

  lemma SecStep(s: State, c: Transaction)
    requires c.source == SecEdgar
    ensures var after, txn := Step(s, IngestTransaction(c)).txns, ArrivingTransaction(s, c);
      after == if IsNewFiling(s.txns, txn)
        then TransactionRepo.MarkSome(s.txns + [TransactionRepo.Inserted(txn)], LivePriors(s.txns, txn), txn.id)
        else TransactionRepo.UpsertByRef(s.txns, txn)
  {}

  lemma FreshIsNoPrior(s: State, c: Transaction)
    requires Inv(s)
    ensures s.nextTxnId !in LivePriors(s.txns, c)
  {
    hide BuybacksOk, ClustersOk, TableOk, RowsOk, MailOk, WellFormed;
  }

  lemma InvRefsDistinct(s: State)
    requires Inv(s)
    ensures DistinctSourceRefs(s.txns) && forall t | t in s.txns :: t.filerId == None
  {
    hide BuybacksOk, ClustersOk, TableOk, RowsOk, MailOk, WellFormed;
    StoredRefsDistinct(s.txns);
  }

  /** The signals after it: that of every amended filing is marked superseded, and no other changes. */
  lemma SecFilingMarksSignals(s: State, c: Transaction, i: nat)
    requires Inv(s) && c.source == SecEdgar && i < |s.signals.rows|
    ensures var after, a := Step(s, IngestTransaction(c)).signals, s.signals.rows[i];
      && after.nextId == s.signals.nextId && |after.rows| == |s.signals.rows|
      && after.rows[i] ==
        if exists row :: row in s.txns && IsAmended(s, c, row) && a.link == InsiderLink(row.id)
        then a.(isSuperseded := true) else a
  {
    var txn := ArrivingTransaction(s, c);
    NewMeansUnknown(s.txns, txn);
    hide Inv;
  }

  // ---------- Buybacks ----------

  ghost predicate IsAmendedBuyback(s: State, c: BuybackEvent, row: BuybackEvent) {
    && (forall known | known in s.buybacks :: known.sourceRef != c.sourceRef)
    && row.supersededBy == None
    && row.cik == c.cik && row.disclosureDate == c.disclosureDate && row.disclosureType == c.disclosureType
  }

  lemma NewMeansUndisclosed(rows: seq<BuybackEvent>, c: BuybackEvent)
    ensures IsNewDisclosure(rows, c) <==> forall known | known in rows :: known.sourceRef != c.sourceRef
  {
    var f := BuybackRepo.FindRef(rows, c.sourceRef);
    if f < |rows| { assert rows[f] in rows; }
  }

  lemma BuybackFacts(s: State)
    requires Inv(s)
    ensures DistinctEventIds(s.buybacks) && forall e | e in s.buybacks :: e.id < s.nextBuybackId
    ensures forall i, j | 0 <= i < j < |s.buybacks| :: s.buybacks[i].sourceRef != s.buybacks[j].sourceRef
  {
    hide TransactionsOk, ClustersOk, TableOk, RowsOk, MailOk, PointsForward;
    BuybacksHaveDistinctIds(s.buybacks);
    assert forall i | 0 <= i < |s.buybacks| :: BuybackEntries(s.buybacks)[i].ref == s.buybacks[i].sourceRef;
  }

  lemma BuybackPriorsAre(s: State, c: BuybackEvent, j: nat)
    requires Inv(s) && j < |s.buybacks|
    ensures s.buybacks[j].id in LiveEventPriors(s.buybacks, c) <==>
      && s.buybacks[j].supersededBy == None && s.buybacks[j].cik == c.cik
      && s.buybacks[j].disclosureDate == c.disclosureDate && s.buybacks[j].disclosureType == c.disclosureType
  {
    BuybackFacts(s);
    hide Inv;
    IsLiveEventPrior(s.buybacks, c, j);
  }

  /** A buyback disclosure, fetched for the first time or again, ends up in the one row with its
      reference, in every field but the id, live. Of the other rows, the live ones with its cik, date
      and type now point at it if it is new; the rest are as they were. */
  lemma BuybackIsStored(s: State, c: BuybackEvent) returns (k: nat)
    requires Inv(s)
    ensures var after := Step(s, IngestBuyback(c)).buybacks;
      && HoldsBuyback(after, c, k)
      && after[k].id == (if k < |s.buybacks| then s.buybacks[k].id else s.nextBuybackId)
      && |after| == (if k < |s.buybacks| then |s.buybacks| else k + 1) && k <= |s.buybacks|
      && (k < |s.buybacks| ==> s.buybacks[k].sourceRef == c.sourceRef)
      && forall j | 0 <= j < |s.buybacks| && j != k ::
        after[j] == if IsAmendedBuyback(s, c, s.buybacks[j]) then s.buybacks[j].(supersededBy := Some(s.nextBuybackId))
          else s.buybacks[j]
  {
    var event := ArrivingBuyback(s, c);
    NewMeansUndisclosed(s.buybacks, event);
    k := BuybackRepo.FindRef(s.buybacks, c.sourceRef);
    forall j | 0 <= j < |s.buybacks| { BuybackPriorsAre(s, event, j); }
    BuybackFacts(s);
    assert s.nextBuybackId !in LiveEventPriors(s.buybacks, event);
    assert forall j | 0 <= j < |s.buybacks| :: s.buybacks[j] in s.buybacks;
    hide Inv, LiveEventPriors;
  }

  /** The signals after it: that of every amended disclosure is marked superseded, and no other changes. */
  lemma BuybackMarksSignals(s: State, c: BuybackEvent, i: nat)
    requires Inv(s) && i < |s.signals.rows|
    ensures var after, a := Step(s, IngestBuyback(c)).signals, s.signals.rows[i];
      && after.nextId == s.signals.nextId && |after.rows| == |s.signals.rows|
      && after.rows[i] ==
        if exists row :: row in s.buybacks && IsAmendedBuyback(s, c, row) && a.link == BuybackLink(row.id)
        then a.(isSuperseded := true) else a
  {
    var event := ArrivingBuyback(s, c);
    NewMeansUndisclosed(s.buybacks, event);
    hide Inv;
  }
}
