// Both record tables follow the supersession protocol of Filings.
module RecordLaws {
  import opened Domain
  import opened Filings
  import opened Dedup
  import TransactionRepo
  import BuybackRepo

  datatype TransactionKey = TransactionKey(cik: string, filerName: string, transactionDate: Day)

  datatype BuybackKey = BuybackKey(cik: string, disclosureDate: Day, disclosureType: DisclosureType)

  function TransactionEntry(t: Transaction): Entry<TransactionKey> {
    Entry(t.id, t.sourceRef, TransactionKey(t.cik, t.filerName, t.transactionDate), t.supersededBy)
  }

  function TransactionEntries(rows: seq<Transaction>): (es: seq<Entry<TransactionKey>>)
    ensures |es| == |rows|
    ensures forall i | 0 <= i < |rows| :: es[i] == TransactionEntry(rows[i])
  {
    seq(|rows|, i requires 0 <= i < |rows| => TransactionEntry(rows[i]))
  }

  function BuybackEntry(e: BuybackEvent): Entry<BuybackKey> {
    Entry(e.id, e.sourceRef, BuybackKey(e.cik, e.disclosureDate, e.disclosureType), e.supersededBy)
  }

  function BuybackEntries(rows: seq<BuybackEvent>): (es: seq<Entry<BuybackKey>>)
    ensures |es| == |rows|
    ensures forall i | 0 <= i < |rows| :: es[i] == BuybackEntry(rows[i])
  {
    seq(|rows|, i requires 0 <= i < |rows| => BuybackEntry(rows[i]))
  }

  lemma SameRefPosition(rows: seq<Transaction>, ref: string)
    ensures FindEntry(TransactionEntries(rows), ref) == TransactionRepo.FindRef(rows, ref)
  {}

  lemma SameEventRefPosition(rows: seq<BuybackEvent>, ref: string)
    ensures FindEntry(BuybackEntries(rows), ref) == BuybackRepo.FindRef(rows, ref)
  {}

  lemma UpsertRefinesStored(rows: seq<Transaction>, c: Transaction)
    ensures TransactionEntries(TransactionRepo.UpsertByRef(rows, c))
      == Stored(TransactionEntries(rows), TransactionEntry(c))
  {
    SameRefPosition(rows, c.sourceRef);
  }

  lemma IsLivePrior(rows: seq<Transaction>, c: Transaction, i: nat)
    requires DistinctIds(rows) && i < |rows|
    ensures rows[i].id in LivePriors(rows, c) <==> TransactionRepo.SameKey(rows[i], c) && rows[i].supersededBy == None
  {
    assert rows[i] in rows;
  }

  /** An SEC filing is ingested by the protocol. */
  lemma SecIngestRefines(rows: seq<Transaction>, c: Transaction)
    requires DistinctIds(rows) && c.source == SecEdgar && c.supersededBy == None
    requires forall row | row in rows :: row.id != c.id
    ensures TransactionEntries(IngestedTransactions(rows, c)) == Ingested(TransactionEntries(rows), TransactionEntry(c))
  {
    SameRefPosition(rows, c.sourceRef);
    if IsNewFiling(rows, c) {
      var left, right :=
        TransactionEntries(IngestedTransactions(rows, c)), Ingested(TransactionEntries(rows), TransactionEntry(c));
      forall i | 0 <= i < |rows|
        ensures left[i] == right[i]
      {
        IsLivePrior(rows, c, i);
      }
      assert c.id !in LivePriors(rows, c);
      assert left[|rows|] == right[|rows|];
    } else {
      UpsertRefinesStored(rows, c);
    }
  }

  /** An OpenInsider row changes nothing or is stored without superseding anything. */
  lemma OpenInsiderIngestRefines(rows: seq<Transaction>, c: Transaction)
    requires c.source == OpenInsider
    ensures TransactionEntries(IngestedTransactions(rows, c)) ==
      if exists row :: row in rows && TransactionRepo.IsFuzzyMatch(row, c) then TransactionEntries(rows)
      else Stored(TransactionEntries(rows), TransactionEntry(c))
  {
    UpsertRefinesStored(rows, c);
  }

  lemma IsLiveEventPrior(rows: seq<BuybackEvent>, c: BuybackEvent, i: nat)
    requires DistinctEventIds(rows) && i < |rows|
    ensures rows[i].id in LiveEventPriors(rows, c) <==> BuybackRepo.SameKey(rows[i], c) && rows[i].supersededBy == None
  {
    assert rows[i] in rows;
  }

  /** A buyback disclosure is ingested by the protocol. */
  lemma BuybackIngestRefines(rows: seq<BuybackEvent>, c: BuybackEvent)
    requires DistinctEventIds(rows) && c.supersededBy == None
    requires forall row | row in rows :: row.id != c.id
    ensures BuybackEntries(IngestedBuybacks(rows, c)) == Ingested(BuybackEntries(rows), BuybackEntry(c))
  {
    SameEventRefPosition(rows, c.sourceRef);
    var left, right := BuybackEntries(IngestedBuybacks(rows, c)), Ingested(BuybackEntries(rows), BuybackEntry(c));
    if IsNewDisclosure(rows, c) {
      forall i | 0 <= i < |rows|
        ensures left[i] == right[i]
      {
        IsLiveEventPrior(rows, c, i);
      }
      assert c.id !in LiveEventPriors(rows, c);
      assert left[|rows|] == right[|rows|];
    } else {
      assert left == right;
    }
  }

  // ---------- What ingestion keeps ----------

  ghost predicate TransactionsOk(rows: seq<Transaction>, nextId: Id) {
    && WellFormed(TransactionEntries(rows))
    && forall t | t in rows :: t.id < nextId && t.filerId == None
  }

  ghost predicate BuybacksOk(rows: seq<BuybackEvent>, nextId: Id) {
    && WellFormed(BuybackEntries(rows))
    && forall e | e in rows :: e.id < nextId
  }

  lemma TransactionsHaveDistinctIds(rows: seq<Transaction>)
    requires WellFormed(TransactionEntries(rows))
    ensures DistinctIds(rows)
  {
    var es := TransactionEntries(rows);
    assert forall i | 0 <= i < |rows| :: es[i].id == rows[i].id;
  }

  lemma BuybacksHaveDistinctIds(rows: seq<BuybackEvent>)
    requires WellFormed(BuybackEntries(rows))
    ensures DistinctEventIds(rows)
  {
    var es := BuybackEntries(rows);
    assert forall i | 0 <= i < |rows| :: es[i].id == rows[i].id;
  }

  lemma IngestKeepsTransactions(rows: seq<Transaction>, nextId: Id, c: Transaction)
    requires TransactionsOk(rows, nextId) && c.id == nextId && c.supersededBy == None
    ensures TransactionsOk(IngestedTransactions(rows, c), nextId + 1)
    ensures |IngestedTransactions(rows, c)| >= |rows|
    ensures forall i | 0 <= i < |rows| :: IngestedTransactions(rows, c)[i].id == rows[i].id
  {
    hide WellFormed, Ingested, Stored;
    TransactionsHaveDistinctIds(rows);
    forall e | e in TransactionEntries(rows)
      ensures e.id != c.id
    {
      var i :| 0 <= i < |rows| && TransactionEntries(rows)[i] == e;
      assert rows[i] in rows;
    }
    if c.source == SecEdgar {
      SecIngestRefines(rows, c);
      IngestedIsWellFormed(TransactionEntries(rows), TransactionEntry(c));
    } else {
      OpenInsiderIngestRefines(rows, c);
      StoredIsWellFormed(TransactionEntries(rows), TransactionEntry(c));
    }
    RowsAfterIngest(rows, nextId, c);
  }

  lemma RowsAfterIngest(rows: seq<Transaction>, nextId: Id, c: Transaction)
    requires c.id == nextId && forall t | t in rows :: t.id < nextId && t.filerId == None
    ensures |IngestedTransactions(rows, c)| >= |rows|
    ensures forall i | 0 <= i < |rows| :: IngestedTransactions(rows, c)[i].id == rows[i].id
    ensures forall t | t in IngestedTransactions(rows, c) :: t.id < nextId + 1 && t.filerId == None
  {
    var r := IngestedTransactions(rows, c);
    forall i | 0 <= i < |r|
      ensures r[i].id < nextId + 1 && r[i].filerId == None
    {
      if i < |rows| { assert rows[i] in rows; }
    }
  }

  lemma IngestKeepsBuybacks(rows: seq<BuybackEvent>, nextId: Id, c: BuybackEvent)
    requires BuybacksOk(rows, nextId) && c.id == nextId && c.supersededBy == None
    ensures BuybacksOk(IngestedBuybacks(rows, c), nextId + 1)
    ensures |IngestedBuybacks(rows, c)| >= |rows|
    ensures forall i | 0 <= i < |rows| :: IngestedBuybacks(rows, c)[i].id == rows[i].id
  {
    hide WellFormed, Ingested, Stored;
    BuybacksHaveDistinctIds(rows);
    forall e | e in BuybackEntries(rows)
      ensures e.id != c.id
    {
      var i :| 0 <= i < |rows| && BuybackEntries(rows)[i] == e;
      assert rows[i] in rows;
    }
    BuybackIngestRefines(rows, c);
    IngestedIsWellFormed(BuybackEntries(rows), BuybackEntry(c));
    var r := IngestedBuybacks(rows, c);
    forall i | 0 <= i < |r|
      ensures r[i].id < nextId + 1
    {
      if i < |rows| { assert rows[i] in rows; }
    }
  }
}
