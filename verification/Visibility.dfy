// Which filings can be live, and which signals can be shown, beside each other.
module Visibility {
  import opened Domain
  import opened Rules
  import opened Signals
  import opened Dedup
  import opened Classify
  import opened Notify
  import opened Pipeline
  import opened Filings
  import opened RecordLaws
  import opened ClusterLaws
  import opened Invariants
  import opened Transitions
  import opened Settling
  import TransactionRepo
  import BuybackRepo

  // ---------- One live filing per natural key ----------

  predicate IsLiveFrom(t: Transaction, sources: set<Source>) {
    t.supersededBy == None && t.source in sources
  }

  /** Among the rows of the given sources, at most one is live for each company, filer and date. */
  ghost predicate OneLiveTransaction(rows: seq<Transaction>, sources: set<Source>) {
    forall t, u | t in rows && u in rows && IsLiveFrom(t, sources) && IsLiveFrom(u, sources)
      && TransactionRepo.SameKey(t, u) ::
      t.id == u.id
  }

  ghost predicate OneLiveBuyback(rows: seq<BuybackEvent>) {
    forall d, e | d in rows && e in rows && d.supersededBy == None && e.supersededBy == None
      && BuybackRepo.SameKey(d, e) ::
      d.id == e.id
  }

  /** An OpenInsider row that a stored SEC row already covers is dropped. */
  predicate IsDropped(rows: seq<Transaction>, c: Transaction) {
    c.source == OpenInsider && exists row | row in rows :: TransactionRepo.IsFuzzyMatch(row, c)
  }

  /** Another reference has a live row of the sources with the candidate's key. */
  predicate HasLiveRival(rows: seq<Transaction>, c: Transaction, sources: set<Source>) {
    exists p | p in rows :: IsLiveFrom(p, sources) && TransactionRepo.SameKey(p, c) && p.sourceRef != c.sourceRef
  }

  /** The transaction, of one of the sources, is written without superseding anything beside such a
      row: it is a re-fetch, or an OpenInsider row that no SEC row covers. */
  predicate BringsRivalTransaction(rows: seq<Transaction>, c: Transaction, sources: set<Source>) {
    c.source in sources && !IsDropped(rows, c) && !IsNewFiling(rows, c) && HasLiveRival(rows, c, sources)
  }

  /** The disclosure is re-fetched while another reference has a live row with its key. */
  predicate BringsRivalBuyback(rows: seq<BuybackEvent>, c: BuybackEvent) {
    && !IsNewDisclosure(rows, c)
    && exists p | p in rows :: p.supersededBy == None && BuybackRepo.SameKey(p, c) && p.sourceRef != c.sourceRef
  }

  lemma BuybacksAsEntries(rows: seq<BuybackEvent>)
    requires WellFormed(BuybackEntries(rows))
    ensures OneLiveBuyback(rows) <==> OneLivePerKey(BuybackEntries(rows))
  {
    var es := BuybackEntries(rows);
    hide PointsForward;
    forall i, j | 0 <= i < j < |rows|
      ensures es[i].key == es[j].key <==> BuybackRepo.SameKey(rows[i], rows[j])
      ensures rows[i].id != rows[j].id && rows[i] in rows && rows[j] in rows
    {
      assert es[i].id != es[j].id;
    }
    if OneLivePerKey(es) {
      forall d, e | d in rows && e in rows && d.supersededBy == None && e.supersededBy == None
        && BuybackRepo.SameKey(d, e)
        ensures d.id == e.id
      {
        var i, j :| 0 <= i < |rows| && 0 <= j < |rows| && rows[i] == d && rows[j] == e;
        assert es[i].next == None && es[j].next == None && es[i].key == es[j].key;
      }
    }
  }

  lemma RivalBuybackEntries(rows: seq<BuybackEvent>, c: BuybackEvent)
    ensures HasRival(BuybackEntries(rows), BuybackEntry(c)) <==>
      exists p :: p in rows && p.supersededBy == None && BuybackRepo.SameKey(p, c) && p.sourceRef != c.sourceRef
  {
    var es := BuybackEntries(rows);
    if p :| p in rows && p.supersededBy == None && BuybackRepo.SameKey(p, c) && p.sourceRef != c.sourceRef {
      var i :| 0 <= i < |rows| && rows[i] == p;
      assert es[i].key == BuybackEntry(c).key;
    }
    if HasRival(es, BuybackEntry(c)) {
      var j :| 0 <= j < |es| && es[j].next == None && es[j].key == BuybackEntry(c).key && es[j].ref != c.sourceRef;
      assert rows[j] in rows && BuybackRepo.SameKey(rows[j], c);
    }
  }

  ghost predicate DistinctSourceRefs(rows: seq<Transaction>) {
    forall i, j | 0 <= i < j < |rows| :: rows[i].sourceRef != rows[j].sourceRef
  }

  /** By position: the row at k becomes live from one of the sources without a rival, or is not. */
  lemma OneLiveByPosition(rows: seq<Transaction>, sources: set<Source>)
    requires DistinctIds(rows)
    ensures OneLiveTransaction(rows, sources) <==> forall i, j | 0 <= i < j < |rows| ::
      !(IsLiveFrom(rows[i], sources) && IsLiveFrom(rows[j], sources) && TransactionRepo.SameKey(rows[i], rows[j]))
  {
    hide IsLiveFrom, TransactionRepo.SameKey;
    if OneLiveTransaction(rows, sources) {
      forall i, j | 0 <= i < j < |rows|
        ensures !(IsLiveFrom(rows[i], sources) && IsLiveFrom(rows[j], sources)
          && TransactionRepo.SameKey(rows[i], rows[j]))
      {
        assert rows[i] in rows && rows[j] in rows && rows[i].id != rows[j].id;
      }
    } else {
      var t, u :| t in rows && u in rows && IsLiveFrom(t, sources) && IsLiveFrom(u, sources)
        && TransactionRepo.SameKey(t, u) && t.id != u.id;
      var i, j :| 0 <= i < |rows| && 0 <= j < |rows| && rows[i] == t && rows[j] == u;
      SameKeySymmetric(t, u);
      assert i < j || j < i;
    }
  }

  lemma SameKeySymmetric(t: Transaction, u: Transaction)
    ensures TransactionRepo.SameKey(t, u) == TransactionRepo.SameKey(u, t)
  {}

  lemma RivalStays(rows: seq<Transaction>, c: Transaction, sources: set<Source>)
    requires DistinctIds(rows) && c.supersededBy == None && forall row | row in rows :: row.id != c.id
    requires c.source in sources && HasLiveRival(rows, c, sources)
    ensures !OneLiveTransaction(TransactionRepo.UpsertByRef(rows, c), sources)
  {
    var after, f := TransactionRepo.UpsertByRef(rows, c), TransactionRepo.FindRef(rows, c.sourceRef);
    var p :| p in rows && IsLiveFrom(p, sources) && TransactionRepo.SameKey(p, c) && p.sourceRef != c.sourceRef;
    var j :| 0 <= j < |rows| && rows[j] == p;
    assert after[f] in after && after[j] in after;
    assert after[f].id != after[j].id && TransactionRepo.SameKey(after[j], after[f]);
  }

  lemma NoRivalStored(rows: seq<Transaction>, c: Transaction, sources: set<Source>)
    requires DistinctIds(rows) && DistinctSourceRefs(rows) && OneLiveTransaction(rows, sources)
    requires c.supersededBy == None && forall row | row in rows :: row.id != c.id
    requires c.source !in sources || !HasLiveRival(rows, c, sources)
    ensures OneLiveTransaction(TransactionRepo.UpsertByRef(rows, c), sources)
  {
    var after, f := TransactionRepo.UpsertByRef(rows, c), TransactionRepo.FindRef(rows, c.sourceRef);
    assert DistinctIds(after);
    OneLiveByPosition(rows, sources);
    OneLiveByPosition(after, sources);
    hide OneLiveTransaction, DistinctIds;
    forall i, j | 0 <= i < j < |after|
      ensures !(IsLiveFrom(after[i], sources) && IsLiveFrom(after[j], sources)
        && TransactionRepo.SameKey(after[i], after[j]))
    {
      assert i != f ==> rows[i] in rows && rows[i].sourceRef != c.sourceRef;
      assert j != f ==> rows[j] in rows && rows[j].sourceRef != c.sourceRef;
    }
  }

  lemma SupersedingOneLive(rows: seq<Transaction>, c: Transaction, sources: set<Source>)
    requires DistinctIds(rows) && OneLiveTransaction(rows, sources) && IsNewFiling(rows, c)
    requires c.supersededBy == None && forall row | row in rows :: row.id != c.id
    ensures OneLiveTransaction(IngestedTransactions(rows, c), sources)
  {
    var after := IngestedTransactions(rows, c);
    assert DistinctIds(after);
    OneLiveByPosition(rows, sources);
    OneLiveByPosition(after, sources);
    hide OneLiveTransaction, DistinctIds;
    forall i, j | 0 <= i < j < |after|
      ensures !(IsLiveFrom(after[i], sources) && IsLiveFrom(after[j], sources)
        && TransactionRepo.SameKey(after[i], after[j]))
    {
      assert rows[i] in rows;
      assert j < |rows| ==> rows[j] in rows;
    }
  }

  lemma OneLiveAfterIngest(rows: seq<Transaction>, c: Transaction, sources: set<Source>)
    requires DistinctIds(rows) && DistinctSourceRefs(rows) && OneLiveTransaction(rows, sources)
    requires c.supersededBy == None && forall row | row in rows :: row.id != c.id
    ensures OneLiveTransaction(IngestedTransactions(rows, c), sources) <==> !BringsRivalTransaction(rows, c, sources)
  {
    hide OneLiveTransaction, DistinctIds, DistinctSourceRefs, HasLiveRival, TransactionRepo.UpsertByRef;
    if IsNewFiling(rows, c) {
      SupersedingOneLive(rows, c, sources);
    } else if !IsDropped(rows, c) {
      if c.source in sources && HasLiveRival(rows, c, sources) {
        RivalStays(rows, c, sources);
      } else {
        NoRivalStored(rows, c, sources);
      }
    }
  }

  lemma StoredRefsDistinct(rows: seq<Transaction>)
    requires WellFormed(TransactionEntries(rows))
    ensures DistinctSourceRefs(rows)
  {
    hide PointsForward;
    var es := TransactionEntries(rows);
    assert forall i | 0 <= i < |rows| :: es[i].ref == rows[i].sourceRef;
  }

  /** Among the rows of any choice of sources, one live transaction per company, filer and date
      survives an ingestion, except exactly when the ingestion brings a rival. */
  lemma OneLiveTransactionExactly(s: State, c: Transaction, sources: set<Source>)
    requires Inv(s) && OneLiveTransaction(s.txns, sources)
    ensures OneLiveTransaction(Step(s, IngestTransaction(c)).txns, sources) <==>
      !BringsRivalTransaction(s.txns, c, sources)
  {
    hide BuybacksOk, ClustersOk, TableOk, RowsOk, MailOk, WellFormed, OneLiveTransaction, IngestedTransactions,
      SignalsAfterTransaction;
    var txn := ArrivingTransaction(s, c);
    TransactionsHaveDistinctIds(s.txns);
    StoredRefsDistinct(s.txns);
    OneLiveAfterIngest(s.txns, txn, sources);
    ArrivalIsTheSame(s.txns, c, txn, sources);
  }

  lemma ArrivalIsTheSame(rows: seq<Transaction>, c: Transaction, txn: Transaction, sources: set<Source>)
    requires txn == c.(id := txn.id, supersededBy := txn.supersededBy)
    ensures IsDropped(rows, txn) == IsDropped(rows, c)
    ensures BringsRivalTransaction(rows, txn, sources) == BringsRivalTransaction(rows, c, sources)
  {
    assert forall row :: TransactionRepo.IsFuzzyMatch(row, txn) == TransactionRepo.IsFuzzyMatch(row, c);
    assert forall row :: TransactionRepo.SameKey(row, txn) == TransactionRepo.SameKey(row, c);
  }

  /** One live buyback per company, date and type survives an ingestion, except exactly when the
      ingestion brings a rival. */
  lemma OneLiveBuybackExactly(s: State, c: BuybackEvent)
    requires Inv(s) && OneLiveBuyback(s.buybacks)
    ensures OneLiveBuyback(Step(s, IngestBuyback(c)).buybacks) <==> !BringsRivalBuyback(s.buybacks, c)
  {
    hide TransactionsOk, ClustersOk, TableOk, RowsOk, MailOk, WellFormed, OneLiveBuyback, OneLivePerKey, HasRival,
      Ingested, IngestedBuybacks, SignalsAfterBuyback;
    var event := ArrivingBuyback(s, c);
    BuybacksHaveDistinctIds(s.buybacks);
    IngestKeepsBuybacks(s.buybacks, s.nextBuybackId, event);
    BuybackIngestRefines(s.buybacks, event);
    BuybacksAsEntries(s.buybacks);
    BuybacksAsEntries(IngestedBuybacks(s.buybacks, event));
    RivalBuybackEntries(s.buybacks, event);
    SameEventRefPosition(s.buybacks, c.sourceRef);
    OneLivePerKeyExactly(BuybackEntries(s.buybacks), BuybackEntry(event));
    assert forall row :: BuybackRepo.SameKey(row, event) == BuybackRepo.SameKey(row, c);
  }

  ghost predicate OneLive(s: State, sources: set<Source>) {
    OneLiveTransaction(s.txns, sources) && OneLiveBuyback(s.buybacks)
  }

  predicate BringsRival(s: State, e: Event, sources: set<Source>) {
    match e
    case IngestTransaction(c) => BringsRivalTransaction(s.txns, c, sources)
    case IngestBuyback(c) => BringsRivalBuyback(s.buybacks, c)
    case _ => false
  }

  lemma OneLiveStep(s: State, e: Event, sources: set<Source>)
    requires Inv(s) && OneLive(s, sources)
    ensures OneLive(Step(s, e), sources) <==> !BringsRival(s, e, sources)
  {
    hide Inv, OneLiveTransaction, OneLiveBuyback, BringsRivalTransaction, BringsRivalBuyback, IngestedTransactions,
      IngestedBuybacks, DetectedEvents, JudgeAll;
    match e
    case IngestTransaction(c) => OneLiveTransactionExactly(s, c, sources);
    case IngestBuyback(c) => OneLiveBuybackExactly(s, c);
    case _ =>
  }

  /** Every state of the run had one live filing of the sources per key. */
  ghost predicate AlwaysOneLive(events: seq<Event>, sources: set<Source>) {
    OneLive(Run(events), sources) && (events != [] ==> AlwaysOneLive(events[..|events| - 1], sources))
  }

  /** No event of the run brought a rival. */
  ghost predicate NeverRival(events: seq<Event>, sources: set<Source>) {
    events == []
    || (NeverRival(events[..|events| - 1], sources)
      && !BringsRival(Run(events[..|events| - 1]), events[|events| - 1], sources))
  }

  /** Over every run and for any choice of sources, each key had at most one live filing throughout,
      if and only if no event brought a rival. */
  lemma {:induction false} OneLiveExactly(events: seq<Event>, sources: set<Source>)
    ensures AlwaysOneLive(events, sources) <==> NeverRival(events, sources)
  {
    hide Inv, Step, OneLive, BringsRival;
    if events == [] {
      NothingLive(sources);
    } else {
      var before := events[..|events| - 1];
      OneLiveExactly(before, sources);
      RunKeepsInv(before);
      if AlwaysOneLive(before, sources) {
        OneLiveStep(Run(before), events[|events| - 1], sources);
      }
    }
  }

  lemma NothingLive(sources: set<Source>)
    ensures OneLive(INITIAL, sources)
  {}

  // ---------- What is shown ----------

  /** The listing of current signals, notable or not, shows the record's signal. */
  ghost predicate IsShown(s: State, link: Link) {
    exists row :: row in Listing(s.signals.rows, false, false) && row.link == link
  }

  /** Of two SEC filings with one natural key, the later amends the earlier; aggregated rows are never
      amendments, and their keys say nothing, since they name no company. */
  predicate SameFiling(t: Transaction, u: Transaction) {
    t.source == SecEdgar && u.source == SecEdgar && TransactionRepo.SameKey(t, u)
  }

  /** The two links lead to filings of one event: a filing and its amendment. */
  ghost predicate SameEvent(s: State, a: Link, b: Link) {
    match (a, b)
    case (InsiderLink(x), InsiderLink(y)) =>
      exists t, u :: t in s.txns && u in s.txns && t.id == x && u.id == y && SameFiling(t, u)
    case (BuybackLink(x), BuybackLink(y)) =>
      exists d, e :: d in s.buybacks && e in s.buybacks && d.id == x && e.id == y && BuybackRepo.SameKey(d, e)
    case _ => false
  }

  /** Two signals about one event are shown beside each other. */
  ghost predicate ShowsConflict(s: State) {
    exists a: Link, b: Link :: a != b && IsShown(s, a) && IsShown(s, b) && SameEvent(s, a, b)
  }

  lemma ShownAre(s: State, link: Link)
    ensures IsShown(s, link) <==> exists row :: row in s.signals.rows && row.link == link && !row.isSuperseded
  {
    hide Listing;
    ListedAre(s.signals.rows, false, false);
  }

  lemma ShownLookup(s: State, link: Link)
    requires Inv(s)
    ensures IsShown(s, link) <==> Lookup(s.signals.rows, link).Some? && !Lookup(s.signals.rows, link).value.isSuperseded
  {
    hide TransactionsOk, BuybacksOk, ClustersOk, RowsOk, MailOk, IsShown;
    ShownAre(s, link);
    if row :| row in s.signals.rows && row.link == link {
      var i :| 0 <= i < |s.signals.rows| && s.signals.rows[i] == row;
      LookupAt(s.signals.rows, i);
    }
  }

  lemma ShownIsCurrent(s: State, link: Link)
    requires Inv(s) && IsShown(s, link)
    ensures Resolves(link, s.txns, s.buybacks, s.clusters) && !IsSupersededFiling(link, s.txns, s.buybacks)
  {
    hide TransactionsOk, BuybacksOk, ClustersOk, TableOk, MailOk, IsShown, Resolves, IsSupersededFiling;
    ShownAre(s, link);
  }

  /** With one live filing per key, no two signals about one event are shown. */
  lemma OneLiveNoConflict(s: State)
    requires Inv(s) && OneLive(s, {SecEdgar})
    ensures !ShowsConflict(s)
  {
    hide Inv, IsShown;
    forall a: Link, b: Link | IsShown(s, a) && IsShown(s, b) && SameEvent(s, a, b)
      ensures a == b
    {
      ShownIsCurrent(s, a);
      ShownIsCurrent(s, b);
    }
  }

  /** On every run in which no filing is re-fetched beside a live one with its key, no two signals
      about one event are ever shown beside each other. */
  lemma NoRivalNoConflict(events: seq<Event>)
    requires NeverRival(events, {SecEdgar})
    ensures !ShowsConflict(Run(events))
  {
    hide Inv, Step, NeverRival, OneLive, ShowsConflict;
    OneLiveExactly(events, {SecEdgar});
    RunKeepsInv(events);
    OneLiveNoConflict(Run(events));
  }

  // ---------- Exactly when a conflict appears ----------

  ghost predicate IsMarked(s: State, link: Link) {
    exists row :: row in s.signals.rows && row.link == link && row.isSuperseded
  }

  /** The filing behind the link is live, and its signal, if it has one, is not marked superseded. */
  ghost predicate MayBeShown(s: State, link: Link) {
    !IsSupersededFiling(link, s.txns, s.buybacks) && !IsMarked(s, link)
  }

  /** Two such filings have the same natural key. */
  ghost predicate HasVisibleRivals(s: State) {
    exists a: Link, b: Link :: a != b && MayBeShown(s, a) && MayBeShown(s, b) && SameEvent(s, a, b)
  }

  lemma MarkedStays(s: State, e: Event, link: Link)
    requires Inv(s) && IsMarked(s, link)
    ensures IsMarked(Step(s, e), link)
  {
    hide Inv, Step;
    var i :| 0 <= i < |s.signals.rows| && s.signals.rows[i].link == link && s.signals.rows[i].isSuperseded;
    RowStep(s, e, i);
    assert Step(s, e).signals.rows[i] in Step(s, e).signals.rows;
  }

  lemma MarkedIsHidden(s: State, link: Link)
    requires Inv(s) && IsMarked(s, link)
    ensures !IsShown(s, link)
  {
    hide TransactionsOk, BuybacksOk, ClustersOk, RowsOk, MailOk, IsShown;
    ShownAre(s, link);
  }

  /** A verdict about a filing whose signal is not marked leaves the signal shown. */
  lemma JudgedIsShown(s: State, reclassify: bool, v: Verdict)
    requires Inv(s) && (v in RecordVerdicts(s) || v in EventVerdicts(s)) && !IsMarked(s, v.link)
    ensures IsShown(Classified(s, reclassify), v.link)
  {
    hide Inv, RecordVerdicts, EventVerdicts, Classified, IsShown;
    ClassifyOutcome(s, reclassify, v);
    assert Inv(Classified(s, reclassify)) by { ClassifyKeepsInv(s, reclassify); }
    ShownLookup(Classified(s, reclassify), v.link);
    if Lookup(s.signals.rows, v.link).Some? {
      assert Lookup(s.signals.rows, v.link).value in s.signals.rows;
    }
  }

  /** A classify run shows whatever may be shown of a stored filing ... */
  lemma WillBeShown(s: State, reclassify: bool, link: Link)
    requires Inv(s) && MayBeShown(s, link) && !link.ClusterLink? && Resolves(link, s.txns, s.buybacks, s.clusters)
    ensures IsShown(Classified(s, reclassify), link)
  {
    hide Inv, IsShown, IsMarked, Classified, RecordVerdicts, EventVerdicts, IsNotableTransaction, IsNotableBuyback;
    LiveVerdicts(s);
    match link {
      case InsiderLink(id) =>
        var t :| t in s.txns && t.id == id;
        JudgedIsShown(s, reclassify, TransactionVerdict(t, s.thresholds));
      case BuybackLink(id) =>
        var e :| e in s.buybacks && e.id == id;
        JudgedIsShown(s, reclassify, BuybackVerdict(e, s.thresholds));
    }
  }

  /** ... and nothing else. */
  lemma WasToBeShown(s: State, reclassify: bool, link: Link)
    requires Inv(s) && IsShown(Classified(s, reclassify), link)
    ensures MayBeShown(s, link)
  {
    hide Inv, IsShown, IsMarked, Classified, IsSupersededFiling;
    assert Inv(Classified(s, reclassify)) by { ClassifyKeepsInv(s, reclassify); }
    ClassifyKeepsTables(s, reclassify);
    StepClassifies(s, reclassify);
    ShownIsCurrent(Classified(s, reclassify), link);
    if IsMarked(s, link) {
      MarkedStays(s, RunClassify(reclassify), link);
      MarkedIsHidden(Classified(s, reclassify), link);
    }
  }

  lemma SameEventResolves(s: State, a: Link, b: Link)
    requires SameEvent(s, a, b)
    ensures !a.ClusterLink? && Resolves(a, s.txns, s.buybacks, s.clusters)
    ensures !b.ClusterLink? && Resolves(b, s.txns, s.buybacks, s.clusters)
  {}

  lemma SameEventInTables(s: State, s1: State, a: Link, b: Link)
    requires s1.txns == s.txns && s1.buybacks == s.buybacks
    ensures SameEvent(s1, a, b) <==> SameEvent(s, a, b)
  {}

  /** After a classify run two signals about one event are shown exactly when, before it, two live
      filings had that event and neither's signal was marked superseded. */
  lemma ConflictAfterClassifyExactly(s: State, reclassify: bool)
    requires Inv(s)
    ensures ShowsConflict(Classified(s, reclassify)) <==> HasVisibleRivals(s)
  {
    hide Inv, IsShown, MayBeShown, Classified, SameEvent;
    var s1 := Classified(s, reclassify);
    ClassifyKeepsTables(s, reclassify);
    if a: Link, b: Link :| a != b && MayBeShown(s, a) && MayBeShown(s, b) && SameEvent(s, a, b) {
      SameEventResolves(s, a, b);
      SameEventInTables(s, s1, a, b);
      WillBeShown(s, reclassify, a);
      WillBeShown(s, reclassify, b);
    }
    if a: Link, b: Link :| a != b && IsShown(s1, a) && IsShown(s1, b) && SameEvent(s1, a, b) {
      SameEventInTables(s, s1, a, b);
      WasToBeShown(s, reclassify, a);
      WasToBeShown(s, reclassify, b);
    }
  }
}
