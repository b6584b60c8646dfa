// Safety over whole runs: identity, supersession, visibility, and the history
// of cluster signals.
module Guarantees {
  import opened Domain
  import opened Signals
  import opened Dedup
  import opened Classify
  import opened Notify
  import opened Pipeline
  import opened Filings
  import opened RecordLaws
  import opened ClusterLaws
  import opened Invariants
  import opened Transitions
  import opened EmailLaws

  // ---------- Lookups never raise ----------

  /** In every reachable state no one_or_none lookup finds two signals, and the record behind
      every signal is stored, so composing an email never misses it. */
  lemma LookupsNeverRaise(events: seq<Event>, link: Link)
    ensures !IsAmbiguous(Run(events).signals.rows, link)
    ensures forall row | row in Run(events).signals.rows ::
      Resolves(row.link, Run(events).txns, Run(events).buybacks, Run(events).clusters)
  {
    hide Step, TransactionsOk, BuybacksOk, ClustersOk, MailOk, Resolves, IsSupersededFiling;
    RunKeepsInv(events);
  }

  /** A stored record stays at its position under the id and source reference it came with. */
  lemma RecordsKeepIdentity(s: State, e: Event, i: nat)
    ensures i < |s.txns| ==>
      && i < |Step(s, e).txns|
      && Step(s, e).txns[i].id == s.txns[i].id && Step(s, e).txns[i].sourceRef == s.txns[i].sourceRef
    ensures i < |s.buybacks| ==>
      && i < |Step(s, e).buybacks|
      && Step(s, e).buybacks[i].id == s.buybacks[i].id && Step(s, e).buybacks[i].sourceRef == s.buybacks[i].sourceRef
  {
    hide Classified;
    if e.RunClassify? {
      ClassifyKeepsTables(s, e.reclassify);
    }
  }

  /** Each source reference has at most one row in its table. */
  lemma OneRowPerReference(events: seq<Event>)
    ensures forall i, j | 0 <= i < j < |Run(events).txns| ::
      Run(events).txns[i].sourceRef != Run(events).txns[j].sourceRef
    ensures forall i, j | 0 <= i < j < |Run(events).buybacks| ::
      Run(events).buybacks[i].sourceRef != Run(events).buybacks[j].sourceRef
  {
    hide Step, ClustersOk, TableOk, RowsOk, MailOk, PointsForward;
    RunKeepsInv(events);
    var s := Run(events);
    forall i, j | 0 <= i < j < |s.txns|
      ensures s.txns[i].sourceRef != s.txns[j].sourceRef
    {
      assert TransactionEntries(s.txns)[i].ref != TransactionEntries(s.txns)[j].ref;
    }
    forall i, j | 0 <= i < j < |s.buybacks|
      ensures s.buybacks[i].sourceRef != s.buybacks[j].sourceRef
    {
      assert BuybackEntries(s.buybacks)[i].ref != BuybackEntries(s.buybacks)[j].ref;
    }
  }

  // ---------- Supersession ----------

  /** From every stored transaction the superseded-by pointers lead, through later rows only, to a live one. */
  lemma SupersessionEnds(events: seq<Event>, i: nat)
    requires i < |Run(events).txns|
    ensures WellFormed(TransactionEntries(Run(events).txns))
    ensures var last := Resolve(TransactionEntries(Run(events).txns), i);
      i <= last < |Run(events).txns| && Run(events).txns[last].supersededBy == None
  {
    hide Step, BuybacksOk, ClustersOk, TableOk, RowsOk, MailOk, WellFormed;
    RunKeepsInv(events);
    var last := Resolve(TransactionEntries(Run(events).txns), i);
  }

  lemma BuybackSupersessionEnds(events: seq<Event>, i: nat)
    requires i < |Run(events).buybacks|
    ensures WellFormed(BuybackEntries(Run(events).buybacks))
    ensures var last := Resolve(BuybackEntries(Run(events).buybacks), i);
      i <= last < |Run(events).buybacks| && Run(events).buybacks[last].supersededBy == None
  {
    hide Step, TransactionsOk, ClustersOk, TableOk, RowsOk, MailOk, WellFormed;
    RunKeepsInv(events);
    var last := Resolve(BuybackEntries(Run(events).buybacks), i);
  }

  /** The transactions ingested by the run, in order, as they arrived. */
  ghost function Filed(events: seq<Event>): seq<Entry<TransactionKey>> {
    if events == [] then []
    else
      var before, last := events[..|events| - 1], events[|events| - 1];
      if last.IngestTransaction? then Filed(before) + [TransactionEntry(ArrivingTransaction(Run(before), last.txn))]
      else Filed(before)
  }

  ghost predicate DistinctRefs<K>(es: seq<Entry<K>>) {
    forall i, j | 0 <= i < j < |es| :: es[i].ref != es[j].ref
  }

  lemma {:induction false} FiledIds(events: seq<Event>)
    ensures forall c | c in Filed(events) :: c.next == None && c.id < Run(events).nextTxnId
    ensures forall i, j | 0 <= i < j < |Filed(events)| :: Filed(events)[i].id != Filed(events)[j].id
  {
    if events != [] {
      hide Classified;
      var before, last := events[..|events| - 1], events[|events| - 1];
      FiledIds(before);
      if last.RunClassify? {
        ClassifyKeepsTables(Run(before), last.reclassify);
      } else if last.IngestTransaction? {
        var fs := Filed(before);
        assert forall i | 0 <= i < |fs| :: fs[i] in fs;
      }
    }
  }

  /** All transactions of the run are SEC filings. */
  ghost predicate OnlySecFilings(events: seq<Event>) {
    forall e | e in events :: e.IngestTransaction? ==> e.txn.source == SecEdgar
  }

  lemma {:induction false} TableIsIngestAll(events: seq<Event>)
    requires OnlySecFilings(events)
    ensures TransactionEntries(Run(events).txns) == IngestAll(Filed(events))
  {
    if events != [] {
      hide Classified, Ingested, IngestedTransactions, IngestedBuybacks, SignalsAfterTransaction, SignalsAfterBuyback,
        Inv, WellFormed;
      var before, last := events[..|events| - 1], events[|events| - 1];
      assert last in events && forall e | e in before :: e in events;
      TableIsIngestAll(before);
      if last.RunClassify? {
        ClassifyKeepsTables(Run(before), last.reclassify);
      } else if last.IngestTransaction? {
        var c := ArrivingTransaction(Run(before), last.txn);
        RunKeepsInv(before);
        FreshArrival(Run(before), c);
        SecIngestRefines(Run(before).txns, c);
        assert Filed(events)[..|Filed(events)| - 1] == Filed(before);
      }
    }
  }

  lemma FreshArrival(s: State, c: Transaction)
    requires Inv(s) && c.id == s.nextTxnId
    ensures DistinctIds(s.txns) && forall row | row in s.txns :: row.id != c.id
  {
    hide BuybacksOk, ClustersOk, TableOk, RowsOk, MailOk;
    TransactionsHaveDistinctIds(s.txns);
  }

  /** Over any run whose transactions are SEC filings with distinct references, whatever else
      happens in between: each filing points at the next one with its natural key, exactly the last
      of each key is live, and the chain from every filing ends there. */
  lemma AmendmentChains(events: seq<Event>, i: nat)
    requires OnlySecFilings(events) && DistinctRefs(Filed(events)) && i < |Filed(events)|
    ensures TransactionEntries(Run(events).txns) == Chained(Filed(events))
    ensures Run(events).txns[i].supersededBy == None <==> IsLastWithKey(Filed(events), i)
    ensures WellFormed(Chained(Filed(events)))
    ensures IsLastWithKey(Filed(events), Resolve(Chained(Filed(events)), i))
    ensures Filed(events)[Resolve(Chained(Filed(events)), i)].key == Filed(events)[i].key
  {
    hide Run, Filed, IngestAll, NextWithKey, WellFormed, Resolve;
    var cs := Filed(events);
    FiledIds(events);
    TableIsIngestAll(events);
    assert DistinctFilings(cs);
    IngestAllChains(cs);
    LastOfKeyIsLive(cs, i);
    ChainEndsAtLast(cs, i);
    assert TransactionEntries(Run(events).txns)[i].next == Run(events).txns[i].supersededBy;
  }

  /** The buyback disclosures ingested by the run, in order, as they arrived. */
  ghost function FiledBuybacks(events: seq<Event>): seq<Entry<BuybackKey>> {
    if events == [] then []
    else
      var before, last := events[..|events| - 1], events[|events| - 1];
      if last.IngestBuyback? then FiledBuybacks(before) + [BuybackEntry(ArrivingBuyback(Run(before), last.buyback))]
      else FiledBuybacks(before)
  }

  lemma {:induction false} FiledBuybackIds(events: seq<Event>)
    ensures forall c | c in FiledBuybacks(events) :: c.next == None && c.id < Run(events).nextBuybackId
    ensures forall i, j | 0 <= i < j < |FiledBuybacks(events)| ::
      FiledBuybacks(events)[i].id != FiledBuybacks(events)[j].id
  {
    if events != [] {
      hide Classified;
      var before, last := events[..|events| - 1], events[|events| - 1];
      FiledBuybackIds(before);
      if last.RunClassify? {
        ClassifyKeepsTables(Run(before), last.reclassify);
      } else if last.IngestBuyback? {
        var fs := FiledBuybacks(before);
        assert forall i | 0 <= i < |fs| :: fs[i] in fs;
      }
    }
  }

  lemma {:induction false} BuybackTableIsIngestAll(events: seq<Event>)
    ensures BuybackEntries(Run(events).buybacks) == IngestAll(FiledBuybacks(events))
  {
    if events != [] {
      hide Classified, Ingested, IngestedTransactions, IngestedBuybacks, SignalsAfterTransaction, SignalsAfterBuyback,
        Inv, WellFormed;
      var before, last := events[..|events| - 1], events[|events| - 1];
      BuybackTableIsIngestAll(before);
      if last.RunClassify? {
        ClassifyKeepsTables(Run(before), last.reclassify);
      } else if last.IngestBuyback? {
        var c := ArrivingBuyback(Run(before), last.buyback);
        RunKeepsInv(before);
        FreshBuybackArrival(Run(before), c);
        BuybackIngestRefines(Run(before).buybacks, c);
        assert FiledBuybacks(events)[..|FiledBuybacks(events)| - 1] == FiledBuybacks(before);
      }
    }
  }

  lemma FreshBuybackArrival(s: State, c: BuybackEvent)
    requires Inv(s) && c.id == s.nextBuybackId
    ensures DistinctEventIds(s.buybacks) && forall row | row in s.buybacks :: row.id != c.id
  {
    hide TransactionsOk, ClustersOk, TableOk, RowsOk, MailOk;
    BuybacksHaveDistinctIds(s.buybacks);
  }

  /** The same for buyback disclosures. */
  lemma BuybackAmendmentChains(events: seq<Event>, i: nat)
    requires DistinctRefs(FiledBuybacks(events)) && i < |FiledBuybacks(events)|
    ensures BuybackEntries(Run(events).buybacks) == Chained(FiledBuybacks(events))
    ensures Run(events).buybacks[i].supersededBy == None <==> IsLastWithKey(FiledBuybacks(events), i)
    ensures WellFormed(Chained(FiledBuybacks(events)))
    ensures IsLastWithKey(FiledBuybacks(events), Resolve(Chained(FiledBuybacks(events)), i))
    ensures FiledBuybacks(events)[Resolve(Chained(FiledBuybacks(events)), i)].key == FiledBuybacks(events)[i].key
  {
    hide Run, FiledBuybacks, IngestAll, NextWithKey, WellFormed, Resolve;
    var cs := FiledBuybacks(events);
    FiledBuybackIds(events);
    BuybackTableIsIngestAll(events);
    assert DistinctFilings(cs);
    IngestAllChains(cs);
    LastOfKeyIsLive(cs, i);
    ChainEndsAtLast(cs, i);
    assert BuybackEntries(Run(events).buybacks)[i].next == Run(events).buybacks[i].supersededBy;
  }

  // ---------- Visibility ----------

  /** The default listing, notable or not, never shows a signal whose filing is superseded. */
  lemma ListedSignalsAreCurrent(events: seq<Event>, notableOnly: bool, row: SignalRow)
    requires row in Listing(Run(events).signals.rows, notableOnly, false)
    ensures !IsSupersededFiling(row.link, Run(events).txns, Run(events).buybacks)
  {
    hide Step, TransactionsOk, BuybacksOk, ClustersOk, TableOk, MailOk, Resolves, IsSupersededFiling;
    RunKeepsInv(events);
    ListedAre(Run(events).signals.rows, notableOnly, false);
  }

  /** A signal marked superseded stays so, even when its filing is fetched again. */
  lemma SupersededStays(s: State, e: Event, i: nat)
    requires Inv(s) && i < |s.signals.rows| && s.signals.rows[i].isSuperseded
    ensures i < |Step(s, e).signals.rows| && Step(s, e).signals.rows[i].isSuperseded
  {
    hide Inv, Step;
    RowStep(s, e, i);
  }

  /** In every reachable state the status agrees with notability, and a notification time is set
      exactly when an email about the signal was delivered. */
  lemma StatusHistory(events: seq<Event>, row: SignalRow)
    requires row in Run(events).signals.rows
    ensures Coherent(row)
    ensures row.notified <==> Attempt(row.id, true) in Run(events).outbox
  {
    hide Step, TransactionsOk, BuybacksOk, ClustersOk, TableOk, Resolves, IsSupersededFiling, Coherent;
    RunKeepsInv(events);
  }

  // ---------- Cluster signals ----------

  function Rank(status: Status): nat {
    match status case NotApplicable => 0 case Pending => 1 case Sent => 2 case Failed => 2
  }

  /** A cluster signal's status only climbs, and never moves between sent and failed. */
  lemma ClusterStatusClimbs(s: State, e: Event, i: nat)
    requires Inv(s) && i < |s.signals.rows| && s.signals.rows[i].link.ClusterLink?
    ensures i < |Step(s, e).signals.rows|
    ensures Rank(Step(s, e).signals.rows[i].status) >= Rank(s.signals.rows[i].status)
    ensures IsTried(s.signals.rows[i].status) ==> Step(s, e).signals.rows[i].status == s.signals.rows[i].status
  {
    hide Inv, Step;
    RowStep(s, e, i);
  }

  ghost predicate NotableNow(s: State, sid: Id) {
    exists row :: row in s.signals.rows && row.id == sid && row.isNotable
  }

  /** Some state of the run had the signal notable. */
  ghost predicate EverNotable(events: seq<Event>, sid: Id) {
    NotableNow(Run(events), sid) || (events != [] && EverNotable(events[..|events| - 1], sid))
  }

  lemma {:induction false} UnknownWasNeverNotable(events: seq<Event>, sid: Id)
    requires !IsKnown(Run(events), sid)
    ensures !EverNotable(events, sid)
  {
    if events != [] {
      hide Inv, Step;
      var before := events[..|events| - 1];
      RunKeepsInv(before);
      RunKeepsInv(events);
      if IsKnown(Run(before), sid) {
        KnownStep(Run(before), events[|events| - 1], sid);
      }
      UnknownWasNeverNotable(before, sid);
    }
  }

  lemma NotableAt(s: State, i: nat)
    requires Inv(s) && i < |s.signals.rows|
    ensures NotableNow(s, s.signals.rows[i].id) <==> s.signals.rows[i].isNotable
  {
    hide TransactionsOk, BuybacksOk, ClustersOk, RowsOk, MailOk;
    RowOf(s.signals.rows, s.signals.rows[i].id, i);
    assert s.signals.rows[i] in s.signals.rows;
  }

  /** A cluster signal is not_applicable exactly when no classify run ever found it notable. */
  lemma {:induction false} ClusterNotApplicableExactly(events: seq<Event>, i: nat)
    requires i < |Run(events).signals.rows| && Run(events).signals.rows[i].link.ClusterLink?
    ensures Run(events).signals.rows[i].status == NotApplicable <==>
      !EverNotable(events, Run(events).signals.rows[i].id)
  {
    hide Inv, Step, NotableNow, IsKnown;
    RunKeepsInv(events);
    if events != [] {
      var before, last := events[..|events| - 1], events[|events| - 1];
      var s, after := Run(before), Run(events);
      RunKeepsInv(before);
      NotableAt(after, i);
      if i < |s.signals.rows| {
        RowStep(s, last, i);
        NotableAt(s, i);
        ClusterNotApplicableExactly(before, i);
        NotableIsRecorded(before, s.signals.rows[i].id);
        CoherentAt(s, i);
      } else {
        NewRowStep(s, last, i);
        NewIdIsUnknown(s, after.signals.rows[i].id);
        UnknownWasNeverNotable(before, after.signals.rows[i].id);
      }
    }
  }

  lemma NotableIsRecorded(events: seq<Event>, sid: Id)
    ensures NotableNow(Run(events), sid) ==> EverNotable(events, sid)
  {}

  lemma NewIdIsUnknown(s: State, sid: Id)
    requires Inv(s) && sid >= s.signals.nextId
    ensures !IsKnown(s, sid)
  {
    hide TransactionsOk, BuybacksOk, ClustersOk, RowsOk, MailOk;
  }

  // ---------- Notify drains ----------

  /** After a notify run no signal is pending, and no other signal has changed. */
  lemma NotifyDrains(s: State, failing: set<Id>)
    ensures PendingRows(Step(s, RunNotify(failing)).signals.rows) == []
    ensures forall i | 0 <= i < |s.signals.rows| && s.signals.rows[i].status != Pending ::
      Step(s, RunNotify(failing)).signals.rows[i] == s.signals.rows[i]
    ensures forall i | 0 <= i < |s.signals.rows| ::
      var a, b := s.signals.rows[i], Step(s, RunNotify(failing)).signals.rows[i];
      b.isNotable == a.isNotable && b.isSuperseded == a.isSuperseded
    ensures |Step(s, RunNotify(failing)).outbox| == |s.outbox| + |PendingRows(s.signals.rows)|
  {
    hide PendingRows;
    NoneLeftPending(s.signals.rows, failing);
  }

  lemma NothingIn(rows: seq<SignalRow>)
    ensures rows == [] <==> forall row :: row !in rows
  {
    if rows != [] { assert rows[0] in rows; }
  }

  lemma NoneLeftPending(rows: seq<SignalRow>, failing: set<Id>)
    ensures PendingRows(NotifiedRows(rows, failing)) == []
  {
    hide PendingRows;
    var r := NotifiedRows(rows, failing);
    PendingAre(r);
    forall row | row in r
      ensures row.status != Pending
    {
      var i :| 0 <= i < |r| && r[i] == row;
    }
    NothingIn(PendingRows(r));
  }
}
