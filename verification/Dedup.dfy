// Ingestion of one record: a re-fetch overwrites its row, an amendment inserts a
// row and supersedes the live ones with the same natural key.
module Dedup {
  import opened Domain
  import opened Signals
  import TransactionRepo
  import BuybackRepo

  /** The rows whose link is among `links` are now superseded. */
  function SupersedeSome(rows: seq<SignalRow>, links: set<Link>): (r: seq<SignalRow>)
    ensures |r| == |rows|
    ensures forall i | 0 <= i < |rows| ::
      r[i] == if rows[i].link in links then rows[i].(isSuperseded := true) else rows[i]
  {
    seq(|rows|, i requires 0 <= i < |rows| => if rows[i].link in links then rows[i].(isSuperseded := true) else rows[i])
  }

  // ---------- Insider transactions ----------

  function LivePriors(rows: seq<Transaction>, c: Transaction): set<Id> {
    set p | p in rows && TransactionRepo.SameKey(p, c) && p.supersededBy == None :: p.id
  }

  /** The candidate arrives as a filing not seen before. */
  predicate IsNewFiling(rows: seq<Transaction>, c: Transaction) {
    c.source == SecEdgar && TransactionRepo.FindRef(rows, c.sourceRef) == |rows|
  }

  function IngestedTransactions(rows: seq<Transaction>, c: Transaction): seq<Transaction> {
    if IsNewFiling(rows, c) then
      TransactionRepo.MarkSome(rows + [TransactionRepo.Inserted(c)], LivePriors(rows, c), c.id)
    else if c.source == OpenInsider && exists row | row in rows :: TransactionRepo.IsFuzzyMatch(row, c) then rows
    else TransactionRepo.UpsertByRef(rows, c)
  }

  function TransactionLinks(ids: set<Id>): set<Link> {
    set id | id in ids :: InsiderLink(id)
  }

  function SignalsAfterTransaction(signals: seq<SignalRow>, rows: seq<Transaction>, c: Transaction): seq<SignalRow> {
    if IsNewFiling(rows, c) then SupersedeSome(signals, TransactionLinks(LivePriors(rows, c))) else signals
  }

  /** The prior's signal, if any, is marked; marking never raises. */
  method SupersedePriorSignal(link: Link, signalRepo: SignalRepository)
    requires UniqueIds(signalRepo.rows) && UniqueLinks(signalRepo.rows)
    modifies signalRepo
    ensures signalRepo.rows == SupersedeSome(old(signalRepo.rows), {link})
  {
    hide FindLink, FindSignal;
    var found := signalRepo.GetFor(link);
    assert found.Success?;
    var priorSignal := found.value;
    SupersedeOne(signalRepo.rows, link);
    if priorSignal != null && !priorSignal.isSuperseded {
      var marked := priorSignal.MarkSuperseded();
      assert marked.Success?;
      FindSignalIs(signalRepo.rows, FindLink(signalRepo.rows, link));
      signalRepo.Save(priorSignal);
    }
  }

  lemma SupersedeOne(rows: seq<SignalRow>, link: Link)
    requires UniqueLinks(rows)
    ensures var i := FindLink(rows, link);
      SupersedeSome(rows, {link}) == if i < |rows| then rows[i := rows[i].(isSuperseded := true)] else rows
  {}

  function LiveIds(rows: seq<Transaction>): set<Id> {
    set p | p in rows && p.supersededBy == None :: p.id
  }

  lemma LiveIdsSnoc(rows: seq<Transaction>, p: Transaction)
    ensures LiveIds(rows + [p]) == LiveIds(rows) + if p.supersededBy == None then {p.id} else {}
  {
    assert forall q :: q in rows + [p] <==> q in rows || q == p;
  }

  /** The loop over the rows with the candidate's natural key. */
  method SupersedePriors(sameKey: seq<Transaction>, newId: Id, repo: TransactionRepo.InsiderTransactionRepository,
      signalRepo: SignalRepository)
    requires DistinctIds(repo.rows)
    requires UniqueIds(signalRepo.rows) && UniqueLinks(signalRepo.rows)
    modifies repo, signalRepo
    ensures repo.rows == TransactionRepo.MarkSome(old(repo.rows), LiveIds(sameKey), newId)
    ensures signalRepo.rows == SupersedeSome(old(signalRepo.rows), TransactionLinks(LiveIds(sameKey)))
  {
    assert TransactionLinks({}) == {};
    for i := 0 to |sameKey|
      invariant repo.rows == TransactionRepo.MarkSome(old(repo.rows), LiveIds(sameKey[..i]), newId)
      invariant signalRepo.rows == SupersedeSome(old(signalRepo.rows), TransactionLinks(LiveIds(sameKey[..i])))
    {
      var prior := sameKey[i];
      ghost var done := LiveIds(sameKey[..i]);
      LiveIdsSnoc(sameKey[..i], prior);
      assert sameKey[..i + 1] == sameKey[..i] + [prior];
      if prior.supersededBy == None {
        repo.MarkSuperseded(prior.id, newId);
        TransactionRepo.MarkTwice(old(repo.rows), done, {prior.id}, newId);
        SupersedePriorSignal(InsiderLink(prior.id), signalRepo);
        assert TransactionLinks(done + {prior.id}) == TransactionLinks(done) + {InsiderLink(prior.id)};
      }
    }
    assert sameKey[..|sameKey|] == sameKey;
  }

  method IngestInsiderTransaction(
      candidate: Transaction, txnRepo: TransactionRepo.InsiderTransactionRepository, signalRepo: SignalRepository)
    returns (stored: Transaction)
    requires DistinctIds(txnRepo.rows) && forall row | row in txnRepo.rows :: row.id != candidate.id
    requires UniqueIds(signalRepo.rows) && UniqueLinks(signalRepo.rows)
    modifies txnRepo, signalRepo
    ensures txnRepo.rows == IngestedTransactions(old(txnRepo.rows), candidate)
    ensures signalRepo.rows == SignalsAfterTransaction(old(signalRepo.rows), old(txnRepo.rows), candidate)
    ensures stored in txnRepo.rows
  {
    match candidate.source {
      case SecEdgar =>
        var existingSameRef := txnRepo.GetBySourceRef(candidate.sourceRef);
        if existingSameRef.Some? {
          stored := txnRepo.UpsertBySourceRef(candidate);
          return;
        }
        var sameKey := txnRepo.FindByNaturalKey(candidate);
        TransactionRepo.SameKeyAre(txnRepo.rows, candidate);
        assert LiveIds(sameKey) == LivePriors(txnRepo.rows, candidate);
        stored := txnRepo.UpsertBySourceRef(candidate);
        SupersedePriors(sameKey, stored.id, txnRepo, signalRepo);
        assert txnRepo.rows[|old(txnRepo.rows)|] == stored;
      case OpenInsider =>
        var found := txnRepo.FindByFuzzyMatch(candidate);
        if found.Some? {
          return found.value;
        }
        stored := txnRepo.UpsertBySourceRef(candidate);
    }
  }

  // ---------- Buybacks ----------

  function LiveEventPriors(rows: seq<BuybackEvent>, c: BuybackEvent): set<Id> {
    set p | p in rows && BuybackRepo.SameKey(p, c) && p.supersededBy == None :: p.id
  }

  predicate IsNewDisclosure(rows: seq<BuybackEvent>, c: BuybackEvent) {
    BuybackRepo.FindRef(rows, c.sourceRef) == |rows|
  }

  function IngestedBuybacks(rows: seq<BuybackEvent>, c: BuybackEvent): seq<BuybackEvent> {
    if IsNewDisclosure(rows, c) then BuybackRepo.MarkSome(rows + [c], LiveEventPriors(rows, c), c.id)
    else BuybackRepo.UpsertByRef(rows, c)
  }

  function BuybackLinks(ids: set<Id>): set<Link> {
    set id | id in ids :: BuybackLink(id)
  }

  function SignalsAfterBuyback(signals: seq<SignalRow>, rows: seq<BuybackEvent>, c: BuybackEvent): seq<SignalRow> {
    if IsNewDisclosure(rows, c) then SupersedeSome(signals, BuybackLinks(LiveEventPriors(rows, c))) else signals
  }

  function LiveEventIds(rows: seq<BuybackEvent>): set<Id> {
    set p | p in rows && p.supersededBy == None :: p.id
  }

  lemma LiveEventIdsSnoc(rows: seq<BuybackEvent>, p: BuybackEvent)
    ensures LiveEventIds(rows + [p]) == LiveEventIds(rows) + if p.supersededBy == None then {p.id} else {}
  {
    assert forall q :: q in rows + [p] <==> q in rows || q == p;
  }

  /** The loop over the rows with the candidate's natural key. */
  method SupersedePriorEvents(sameKey: seq<BuybackEvent>, newId: Id, repo: BuybackRepo.BuybackEventRepository,
      signalRepo: SignalRepository)
    requires DistinctEventIds(repo.rows)
    requires UniqueIds(signalRepo.rows) && UniqueLinks(signalRepo.rows)
    modifies repo, signalRepo
    ensures repo.rows == BuybackRepo.MarkSome(old(repo.rows), LiveEventIds(sameKey), newId)
    ensures signalRepo.rows == SupersedeSome(old(signalRepo.rows), BuybackLinks(LiveEventIds(sameKey)))
  {
    assert BuybackLinks({}) == {};
    for i := 0 to |sameKey|
      invariant repo.rows == BuybackRepo.MarkSome(old(repo.rows), LiveEventIds(sameKey[..i]), newId)
      invariant signalRepo.rows == SupersedeSome(old(signalRepo.rows), BuybackLinks(LiveEventIds(sameKey[..i])))
    {
      var prior := sameKey[i];
      ghost var done := LiveEventIds(sameKey[..i]);
      LiveEventIdsSnoc(sameKey[..i], prior);
      assert sameKey[..i + 1] == sameKey[..i] + [prior];
      if prior.supersededBy == None {
        repo.MarkSuperseded(prior.id, newId);
        BuybackRepo.MarkTwice(old(repo.rows), done, {prior.id}, newId);
        SupersedePriorSignal(BuybackLink(prior.id), signalRepo);
        assert BuybackLinks(done + {prior.id}) == BuybackLinks(done) + {BuybackLink(prior.id)};
      }
    }
    assert sameKey[..|sameKey|] == sameKey;
  }

  method IngestBuybackEvent(candidate: BuybackEvent, eventRepo: BuybackRepo.BuybackEventRepository,
      signalRepo: SignalRepository)
    returns (stored: BuybackEvent)
    requires DistinctEventIds(eventRepo.rows) && forall row | row in eventRepo.rows :: row.id != candidate.id
    requires UniqueIds(signalRepo.rows) && UniqueLinks(signalRepo.rows)
    modifies eventRepo, signalRepo
    ensures eventRepo.rows == IngestedBuybacks(old(eventRepo.rows), candidate)
    ensures signalRepo.rows == SignalsAfterBuyback(old(signalRepo.rows), old(eventRepo.rows), candidate)
    ensures stored in eventRepo.rows
  {
    var existingSameRef := eventRepo.GetBySourceRef(candidate.sourceRef);
    if existingSameRef.Some? {
      stored := eventRepo.UpsertBySourceRef(candidate);
      return;
    }
    var sameKey := eventRepo.FindByNaturalKey(candidate);
    BuybackRepo.SameKeyAre(eventRepo.rows, candidate);
    assert LiveEventIds(sameKey) == LiveEventPriors(eventRepo.rows, candidate);
    stored := eventRepo.UpsertBySourceRef(candidate);
    SupersedePriorEvents(sameKey, stored.id, eventRepo, signalRepo);
    assert eventRepo.rows[|old(eventRepo.rows)|] == stored;
  }
}
