// A cluster that only gains later purchases keeps its row, its signal and its status.
module Growth {
  import opened Domain
  import opened Signals
  import opened ClusterBuying
  import opened DetectionStability
  import opened ClusterBuyRepo
  import opened Dedup
  import opened Classify
  import opened Pipeline
  import opened RecordLaws
  import opened ClusterLaws
  import opened Invariants
  import opened Transitions
  import opened Settling
  import TransactionRepo

  // ---------- Quiet events ----------

  /** Between two classify runs: notifications, buybacks, thresholds with the same window, and
      transactions that are simply inserted or, matching one that is stored, ignored. */
  ghost predicate IsQuiet(s: State, e: Event) {
    match e
    case IngestTransaction(c) =>
      var txn := ArrivingTransaction(s, c);
      var after := IngestedTransactions(s.txns, txn);
      after == s.txns || after == s.txns + [TransactionRepo.Inserted(txn)]
    case IngestBuyback(_) => true
    case RunClassify(_) => false
    case RunNotify(_) => true
    case SetThresholds(t) => t.clusterWindowDays == s.thresholds.clusterWindowDays
  }

  function RunFrom(s: State, events: seq<Event>): State
    decreases |events|
  {
    if events == [] then s else RunFrom(Step(s, events[0]), events[1..])
  }

  ghost predicate AllQuiet(s: State, events: seq<Event>)
    decreases |events|
  {
    events == [] || (IsQuiet(s, events[0]) && AllQuiet(Step(s, events[0]), events[1..]))
  }

  /** A signal's status unchanged, or moved on by a notification. */
  predicate MovesOn(before: Status, after: Status) {
    after == before || (before == Pending && after != NotApplicable)
  }

  /** The same signal later on. */
  predicate SameSignal(a: SignalRow, b: SignalRow) {
    b.id == a.id && b.link == a.link && MovesOn(a.status, b.status)
  }

  /** s2 has the clusters, the window, the transactions and the signals of s1,
      and maybe more transactions and signals. */
  ghost predicate Extends(s1: State, s2: State) {
    && s2.clusters == s1.clusters && s2.thresholds.clusterWindowDays == s1.thresholds.clusterWindowDays
    && s2.nextTxnId >= s1.nextTxnId
    && s1.txns <= s2.txns && (forall t | t in s2.txns[|s1.txns|..] :: t.id >= s1.nextTxnId)
    && |s1.signals.rows| <= |s2.signals.rows|
    && forall i | 0 <= i < |s1.signals.rows| ::
      SameSignal(s1.signals.rows[i], s2.signals.rows[i])
  }

  lemma QuietStepExtends(s1: State, s2: State, e: Event)
    requires Extends(s1, s2) && Inv(s2) && IsQuiet(s2, e)
    ensures Extends(s1, Step(s2, e))
  {
    hide Inv, Classified, IngestedTransactions;
    var s3 := Step(s2, e);
    if e.IngestTransaction? && s3.txns != s2.txns {
      assert s3.txns[|s1.txns|..] == s2.txns[|s1.txns|..] + [TransactionRepo.Inserted(ArrivingTransaction(s2, e.txn))];
    }
    forall i | 0 <= i < |s1.signals.rows|
      ensures i < |s3.signals.rows| && SameSignal(s1.signals.rows[i], s3.signals.rows[i])
    {
      RowStep(s2, e, i);
    }
    if |s1.signals.rows| > 0 { RowStep(s2, e, |s1.signals.rows| - 1); }
  }

  lemma {:induction false} QuietRunExtends(s1: State, s2: State, events: seq<Event>)
    requires Extends(s1, s2) && Inv(s2) && AllQuiet(s2, events)
    ensures Extends(s1, RunFrom(s2, events)) && Inv(RunFrom(s2, events))
    decreases |events|
  {
    hide Extends, Inv, Step, IsQuiet;
    if events != [] {
      QuietStepExtends(s1, s2, events[0]);
      StepKeepsInv(s2, events[0]);
      QuietRunExtends(s1, Step(s2, events[0]), events[1..]);
    }
  }

  // ---------- Candidates of a grown table ----------

  lemma {:induction false} LiveCounts(txns: seq<Transaction>)
    ensures forall x :: multiset(Live(txns))[x] == if x.supersededBy == None then multiset(txns)[x] else 0
  {
    if txns != [] {
      LiveCounts(txns[1..]);
      assert txns == [txns[0]] + txns[1..];
    }
  }

  function LiveListed(rows: seq<Transaction>): seq<Transaction> {
    Live(TransactionRepo.Listed(rows))
  }

  lemma LiveListedCounts(rows: seq<Transaction>)
    ensures forall x :: multiset(LiveListed(rows))[x] == if x.supersededBy == None then multiset(rows)[x] else 0
    ensures forall x :: x in LiveListed(rows) <==> x in rows && x.supersededBy == None
  {
    LiveCounts(TransactionRepo.Listed(rows));
    ListedIsPermutation(rows);
    LiveAre(TransactionRepo.Listed(rows));
  }

  lemma LiveListedGrows(rows: seq<Transaction>, added: seq<Transaction>)
    ensures multiset(LiveListed(rows + added)) == multiset(LiveListed(rows) + LiveListed(added))
  {
    hide LiveListed;
    LiveListedCounts(rows);
    LiveListedCounts(added);
    LiveListedCounts(rows + added);
    forall x
      ensures multiset(LiveListed(rows + added))[x] == multiset(LiveListed(rows) + LiveListed(added))[x]
    {
      assert multiset(rows + added)[x] == multiset(rows)[x] + multiset(added)[x];
    }
  }

  /** Every candidate of a table is reported again, grown, when later purchases are added. */
  lemma TableCandidatesGrow(rows: seq<Transaction>, added: seq<Transaction>, window: nat, c: ClusterCandidate)
    returns (d: ClusterCandidate)
    requires ArriveLater(rows, added) && c in Candidates(rows, window)
    ensures d in Candidates(rows + added, window) && GrownFrom(c, d, added)
  {
    hide Detect, LiveListed;
    LiveListedGrows(rows, added);
    LiveListedCounts(rows);
    LiveListedCounts(added);
    assert Candidates(rows, window) == Detect(LiveListed(rows), window) by { CandidatesUnfold(rows, window); }
    assert Candidates(rows + added, window)
      == Detect(LiveListed(rows + added), window) by { CandidatesUnfold(rows + added, window); }
    d := CandidatesGrow(LiveListed(rows), LiveListed(added), LiveListed(rows + added), window, c);
  }

  lemma CandidatesUnfold(rows: seq<Transaction>, window: nat)
    ensures Candidates(rows, window) == Detect(LiveListed(rows), window)
  {}

  // ---------- The theorem ----------

  /** The transactions of s2 beyond those of s0. */
  function Arrivals(s0: State, s2: State): seq<Transaction> {
    if |s0.txns| <= |s2.txns| then s2.txns[|s0.txns|..] else []
  }

  /** c and d are in the same row i before and after, under one signal: the one that the first run
      left in s1, which the second run finds in s2 with a status at most moved on, and leaves in s3
      with a status that is not reset. */
  ghost predicate KeepsIdentity(s1: State, s2: State, s3: State, c: ClusterCandidate, d: ClusterCandidate, i: nat) {
    && i < |s1.clusters| && i < |s3.clusters|
    && s1.clusters[i].content == c && s3.clusters[i].content == d
    && s3.clusters[i].id == s1.clusters[i].id
    && var link := ClusterLink(s1.clusters[i].id);
      && Lookup(s1.signals.rows, link).Some? && Lookup(s2.signals.rows, link).Some?
        && Lookup(s3.signals.rows, link).Some?
      && var a, m, b :=
        Lookup(s1.signals.rows, link).value, Lookup(s2.signals.rows, link).value, Lookup(s3.signals.rows, link).value;
        && SameSignal(a, m)
        && b.id == m.id
        && (m.status != NotApplicable ==> b.status == m.status)
  }

  lemma DetectedHas(s: State, c: ClusterCandidate) returns (k: nat)
    requires c in Candidates(s.txns, s.thresholds.clusterWindowDays)
    ensures k < |DetectedEvents(s)| && DetectedEvents(s)[k].content == c
  {
    k :| 0 <= k < |Candidates(s.txns, s.thresholds.clusterWindowDays)|
      && Candidates(s.txns, s.thresholds.clusterWindowDays)[k] == c;
  }

  /** Where a classify run puts a candidate, and that the row has a signal. */
  lemma PlacedWithSignal(s: State, reclassify: bool, c: ClusterCandidate) returns (i: nat)
    requires Inv(s) && c in Candidates(s.txns, s.thresholds.clusterWindowDays)
    ensures SettledAt(Classified(s, reclassify).clusters, c, i) && c.transactionIds != []
    ensures Lookup(Classified(s, reclassify).signals.rows, ClusterLink(Classified(s, reclassify).clusters[i].id)).Some?
  {
    hide Candidates, DetectedEvents, UpsertAll, Places, ClusterVerdicts, JudgeAll, TransactionsOk, BuybacksOk,
      ClustersOk, RowsOk, MailOk, TableOk, Disjoint, Lookup;
    var k := DetectedHas(s, c);
    var es := DetectedEvents(s);
    DetectedEventsOk(s);
    RunSettles(s.clusters, es, k);
    DisjointHasIds(es, k);
    i := Places(s.clusters, es)[k];
    VerdictNamesItsRow(s.clusters, es, s.thresholds, k);
    ClassifyOutcome(s, reclassify, RunVerdicts(s)[k]);
  }

  lemma DisjointHasIds(es: seq<ClusterBuyEvent>, k: nat)
    requires Disjoint(es) && k < |es|
    ensures es[k].content.transactionIds != []
  {
    assert es[k] in es;
  }

  lemma PersistingSignal(s1: State, s2: State, link: Link)
    requires Inv(s1) && Inv(s2) && Extends(s1, s2) && Lookup(s1.signals.rows, link).Some?
    ensures Lookup(s2.signals.rows, link).Some?
    ensures SameSignal(Lookup(s1.signals.rows, link).value, Lookup(s2.signals.rows, link).value)
  {
    hide TransactionsOk, BuybacksOk, ClustersOk, RowsOk, MailOk;
    LookupAt(s2.signals.rows, FindLink(s1.signals.rows, link));
  }

  /** The grown candidate overlaps only transactions that the row had, or that no row has seen. */
  lemma GrownIsUnseen(s1: State, added: seq<Transaction>, c: ClusterCandidate, d: ClusterCandidate)
    requires Inv(s1) && GrownFrom(c, d, added) && forall t | t in added :: t.id >= s1.nextTxnId
    ensures forall x, row | row in s1.clusters && x in d.transactionIds && x in row.content.transactionIds ::
      x in c.transactionIds
  {
    hide TransactionsOk, BuybacksOk, TableOk, RowsOk, MailOk;
  }

  /** Growth keeps identity: after a classify run, any quiet events that only bring purchases
      dated on or after their company's earlier ones, and another classify run, every earlier
      candidate is in the same row under the same signal, with nothing lost, at least as many
      filers, and its notification status not reset. */
  lemma GrowthKeepsIdentity(s0: State, first: bool, events: seq<Event>, second: bool, c: ClusterCandidate)
    returns (d: ClusterCandidate, i: nat)
    requires Inv(s0) && AllQuiet(Classified(s0, first), events)
    requires c in Candidates(s0.txns, s0.thresholds.clusterWindowDays)
    requires ArriveLater(s0.txns, Arrivals(s0, RunFrom(Classified(s0, first), events)))
    ensures GrownFrom(c, d, Arrivals(s0, RunFrom(Classified(s0, first), events)))
    ensures var s2 := RunFrom(Classified(s0, first), events);
      KeepsIdentity(Classified(s0, first), s2, Classified(s2, second), c, d, i)
  {
    hide Inv, Classified, Candidates, Lookup, IsOutcome, AllQuiet, RunFrom, GrownFrom, ArriveLater, Extends;
    var s1 := Classified(s0, first);
    assert Inv(s1) by { ClassifyKeepsInv(s0, first); }
    ExtendsItself(s1);
    QuietRunExtends(s1, s1, events);
    var s2 := RunFrom(s1, events);
    ExtendedTable(s0, first, s2);
    var added := Arrivals(s0, s2);
    i := PlacedWithSignal(s0, first, c);
    d := TableCandidatesGrow(s0.txns, added, s0.thresholds.clusterWindowDays, c);
    GrownPlace(s1, s2, second, added, c, d, i);
  }

  lemma ExtendsItself(s: State)
    ensures Extends(s, s)
  {}

  lemma ExtendedTable(s0: State, first: bool, s2: State)
    requires Extends(Classified(s0, first), s2)
    ensures s2.txns == s0.txns + Arrivals(s0, s2)
    ensures s2.thresholds.clusterWindowDays == s0.thresholds.clusterWindowDays
    ensures forall t | t in Arrivals(s0, s2) :: t.id >= Classified(s0, first).nextTxnId
  {
    hide Classified;
    ClassifyKeepsTables(s0, first);
  }

  lemma GrownPlace(s1: State, s2: State, second: bool, added: seq<Transaction>, c: ClusterCandidate,
      d: ClusterCandidate, i: nat)
    requires Inv(s1) && Inv(s2) && Extends(s1, s2) && SettledAt(s1.clusters, c, i) && c.transactionIds != []
    requires GrownFrom(c, d, added) && forall t | t in added :: t.id >= s1.nextTxnId
    requires d in Candidates(s2.txns, s2.thresholds.clusterWindowDays)
    requires Lookup(s1.signals.rows, ClusterLink(s1.clusters[i].id)).Some?
    ensures KeepsIdentity(s1, s2, Classified(s2, second), c, d, i)
  {
    hide Candidates, DetectedEvents, UpsertAll, Places, ClusterVerdicts, JudgeAll, TransactionsOk, BuybacksOk,
      ClustersOk, RowsOk, MailOk, TableOk, Disjoint, Lookup;
    var k := DetectedHas(s2, d);
    var es := DetectedEvents(s2);
    DetectedEventsOk(s2);
    GrownIsUnseen(s1, added, c, d);
    GrowthKeepsRow(s2.clusters, es, c, i, k);
    VerdictNamesItsRow(s2.clusters, es, s2.thresholds, k);
    PersistingSignal(s1, s2, ClusterLink(s1.clusters[i].id));
    ClassifyOutcome(s2, second, RunVerdicts(s2)[k]);
  }
}
