// What a classify run leaves behind, and why a second one changes nothing.
module Settling {
  import opened Domain
  import opened Rules
  import opened Signals
  import opened ClusterBuyRepo
  import opened Classify
  import opened Pipeline
  import opened VerdictLaws
  import opened RecordLaws
  import opened ClusterLaws
  import opened Invariants
  import opened Transitions
  import TransactionRepo
  import BuybackRepo

  /** The signal of a record, if it has one. */
  function Lookup(rows: seq<SignalRow>, link: Link): Option<SignalRow> {
    if FindLink(rows, link) < |rows| then Some(rows[FindLink(rows, link)]) else None
  }

  /** The verdict has taken effect: on the signal the record had, or on a new one. */
  ghost predicate IsOutcome(before: Option<SignalRow>, after: Option<SignalRow>, v: Verdict, revisit: bool,
      downgrade: bool) {
    && after.Some?
    && match before
       case Some(a) => after.value == if revisit then Judged(a, v, downgrade) else a
       case None => after.value == Created(after.value.id, v)
  }

  lemma LookupAt(rows: seq<SignalRow>, i: nat)
    requires UniqueLinks(rows) && i < |rows|
    ensures Lookup(rows, rows[i].link) == Some(rows[i])
  {
    FindLinkIs(rows, i);
  }

  lemma PassOutcome(t: SignalTable, vs: seq<Verdict>, revisit: bool, downgrade: bool, v: Verdict)
    requires TableOk(t) && DistinctLinks(vs) && v in vs
    ensures IsOutcome(Lookup(t.rows, v.link), Lookup(JudgeAll(t, vs, revisit, downgrade).rows, v.link), v, revisit,
      downgrade)
  {
    hide JudgeAll, DistinctLinks;
    var after := JudgeAll(t, vs, revisit, downgrade);
    JudgeAllKeepsTable(t, vs, revisit, downgrade);
    var i := FindLink(t.rows, v.link);
    if i < |t.rows| {
      if revisit {
        JudgedRow(t, vs, downgrade, i, v);
      } else {
        UnjudgedRow(t, vs, revisit, downgrade, i);
      }
      LookupAt(after.rows, i);
    } else {
      EveryVerdictHasSignal(t, vs, revisit, downgrade, v);
      NewSignalOutcome(t, vs, revisit, downgrade, v);
    }
  }

  lemma NewSignalOutcome(t: SignalTable, vs: seq<Verdict>, revisit: bool, downgrade: bool, v: Verdict)
    requires TableOk(t) && DistinctLinks(vs) && v in vs && !HasSignal(t.rows, v.link)
    requires HasSignal(JudgeAll(t, vs, revisit, downgrade).rows, v.link)
    ensures var b :=
      JudgeAll(t, vs, revisit, downgrade).rows[FindLink(JudgeAll(t, vs, revisit, downgrade).rows, v.link)];
      b == Created(b.id, v)
  {
    var rows := JudgeAll(t, vs, revisit, downgrade).rows;
    var j := FindLink(rows, v.link);
    if j < |t.rows| {
      PassOldRow(t, vs, revisit, downgrade, j);
    } else {
      NewRow(t, vs, revisit, downgrade, j);
      var w :| w in vs && IsCreatedFrom(rows[j], t, w);
      assert w == v;
    }
  }

  /** A pass leaves the records it has no verdict about as they were. */
  lemma PassLeaves(t: SignalTable, vs: seq<Verdict>, revisit: bool, downgrade: bool, link: Link)
    requires TableOk(t) && DistinctLinks(vs) && forall v | v in vs :: v.link != link
    ensures Lookup(JudgeAll(t, vs, revisit, downgrade).rows, link) == Lookup(t.rows, link)
  {
    hide JudgeAll, DistinctLinks;
    var after := JudgeAll(t, vs, revisit, downgrade);
    JudgeAllKeepsTable(t, vs, revisit, downgrade);
    var i, j := FindLink(t.rows, link), FindLink(after.rows, link);
    if i < |t.rows| {
      UnjudgedRow(t, vs, revisit, downgrade, i);
      LookupAt(after.rows, i);
    } else if j < |after.rows| {
      if j < |t.rows| {
        PassOldRow(t, vs, revisit, downgrade, j);
      } else {
        NewRow(t, vs, revisit, downgrade, j);
      }
    }
  }

  // ---------- A whole classify run ----------

  /** The verdicts that a classify run gives about clusters. */
  function RunVerdicts(s: State): seq<Verdict> {
    ClusterVerdicts(s.clusters, DetectedEvents(s), s.thresholds)
  }

  lemma RunFacts(s: State, reclassify: bool)
    requires Inv(s)
    ensures TableOk(s.signals) && TableOk(AfterTransactions(s, reclassify))
      && TableOk(SignalsAfterRecords(s, reclassify))
    ensures TableOk(Classified(s, reclassify).signals)
    ensures DistinctLinks(RecordVerdicts(s)) && DistinctLinks(EventVerdicts(s)) && DistinctLinks(RunVerdicts(s))
    ensures forall v | v in RecordVerdicts(s) :: v.link.InsiderLink?
    ensures forall v | v in EventVerdicts(s) :: v.link.BuybackLink?
    ensures forall v | v in RunVerdicts(s) :: v.link.ClusterLink?
  {
    hide RecordVerdicts, EventVerdicts, DetectedEvents, ClusterVerdicts, DistinctLinks, TableOk, VerdictOk, JudgeAll,
      UpsertAll, TransactionsOk, BuybacksOk, ClustersOk, RowsOk, MailOk;
    PassesKeepTable(s, reclassify);
    RecordVerdictsOk(s, s.clusters);
    EventVerdictsOk(s, s.clusters);
    ClusterVerdictsOk(s);
    RecordVerdictKinds(s);
    ClusterVerdictKinds(s.clusters, DetectedEvents(s), s);
  }

  /** Each verdict of a classify run takes effect on its record's signal, undisturbed by the other passes. */
  lemma ClassifyOutcome(s: State, reclassify: bool, v: Verdict)
    requires Inv(s)
    ensures v in RecordVerdicts(s) || v in EventVerdicts(s) ==>
      IsOutcome(Lookup(s.signals.rows, v.link), Lookup(Classified(s, reclassify).signals.rows, v.link), v, reclassify,
        true)
    ensures v in RunVerdicts(s) ==>
      IsOutcome(Lookup(s.signals.rows, v.link), Lookup(Classified(s, reclassify).signals.rows, v.link), v, true, false)
  {
    hide RecordVerdicts, EventVerdicts, DetectedEvents, ClusterVerdicts, DistinctLinks, TableOk, JudgeAll, UpsertAll,
      Inv, Lookup, IsOutcome;
    RunFacts(s, reclassify);
    var t1, t2 := AfterTransactions(s, reclassify), SignalsAfterRecords(s, reclassify);
    if v in RecordVerdicts(s) {
      PassOutcome(s.signals, RecordVerdicts(s), reclassify, true, v);
      PassLeaves(t1, EventVerdicts(s), reclassify, true, v.link);
      PassLeaves(t2, RunVerdicts(s), true, false, v.link);
    } else if v in EventVerdicts(s) {
      PassLeaves(s.signals, RecordVerdicts(s), reclassify, true, v.link);
      PassOutcome(t1, EventVerdicts(s), reclassify, true, v);
      PassLeaves(t2, RunVerdicts(s), true, false, v.link);
    }
    if v in RunVerdicts(s) {
      PassLeaves(s.signals, RecordVerdicts(s), reclassify, true, v.link);
      PassLeaves(t1, EventVerdicts(s), reclassify, true, v.link);
      PassOutcome(t2, RunVerdicts(s), true, false, v);
    }
  }

  /** A classify run leaves the records it has no verdict about as they were. */
  lemma ClassifyLeaves(s: State, reclassify: bool, link: Link)
    requires Inv(s)
    requires forall v | v in RecordVerdicts(s) || v in EventVerdicts(s) || v in RunVerdicts(s) :: v.link != link
    ensures Lookup(Classified(s, reclassify).signals.rows, link) == Lookup(s.signals.rows, link)
  {
    hide RecordVerdicts, EventVerdicts, DetectedEvents, ClusterVerdicts, DistinctLinks, TableOk, JudgeAll, UpsertAll,
      Inv, Lookup;
    RunFacts(s, reclassify);
    PassLeaves(s.signals, RecordVerdicts(s), reclassify, true, link);
    PassLeaves(AfterTransactions(s, reclassify), EventVerdicts(s), reclassify, true, link);
    PassLeaves(SignalsAfterRecords(s, reclassify), RunVerdicts(s), true, false, link);
  }

  // ---------- Reclassification agrees with the rules ----------

  lemma LiveVerdicts(s: State)
    requires Inv(s)
    ensures forall t | t in s.txns && t.supersededBy == None :: TransactionVerdict(t, s.thresholds) in RecordVerdicts(s)
    ensures forall e | e in s.buybacks && e.supersededBy == None :: BuybackVerdict(e, s.thresholds) in EventVerdicts(s)
    ensures forall v | v in RecordVerdicts(s) :: exists t ::
      t in s.txns && t.supersededBy == None && v == TransactionVerdict(t, s.thresholds)
    ensures forall v | v in EventVerdicts(s) :: exists e ::
      e in s.buybacks && e.supersededBy == None && v == BuybackVerdict(e, s.thresholds)
  {
    hide TransactionRepo.Listed, BuybackRepo.Listed, ClustersOk, RowsOk, MailOk;
    BuybacksHaveDistinctIds(s.buybacks);
    ListedIsPermutation(s.txns);
    ListedEventsArePermutation(s.buybacks);
    TransactionVerdictsAre(TransactionRepo.Listed(s.txns), s.thresholds);
    BuybackVerdictsAre(BuybackRepo.Listed(s.buybacks), s.thresholds);
  }

  /** The record has exactly one signal, and it says what the verdict says. */
  ghost predicate AgreesWith(rows: seq<SignalRow>, v: Verdict) {
    && (exists row :: row in rows && row.link == v.link)
    && forall row | row in rows && row.link == v.link ::
      row.isNotable == v.isNotable && row.snapshot == v.snapshot && row.isDiscretionary == v.isDiscretionary
      && (row.status == NotApplicable <==> !v.isNotable)
  }

  lemma OutcomeAgrees(s: State, v: Verdict)
    requires Inv(s) && (v in RecordVerdicts(s) || v in EventVerdicts(s))
    ensures AgreesWith(Classified(s, true).signals.rows, v)
  {
    hide RecordVerdicts, EventVerdicts, Classified, Inv, TransactionsOk, BuybacksOk, ClustersOk, MailOk;
    ClassifyOutcome(s, true, v);
    RunFacts(s, true);
    var rows := Classified(s, true).signals.rows;
    var i := FindLink(rows, v.link);
    assert rows[i] in rows;
    forall row | row in rows && row.link == v.link
      ensures row == rows[i]
    {
      var j :| 0 <= j < |rows| && rows[j] == row;
    }
  }

  /** After `classify --reclassify`, whatever happened before, every live transaction and buyback
      has one signal, which agrees with the rules under the current thresholds. */
  lemma ReclassifyAgreesWithRules(s: State)
    requires Inv(s)
    ensures forall t | t in s.txns && t.supersededBy == None ::
      AgreesWith(Classified(s, true).signals.rows, TransactionVerdict(t, s.thresholds))
    ensures forall e | e in s.buybacks && e.supersededBy == None ::
      AgreesWith(Classified(s, true).signals.rows, BuybackVerdict(e, s.thresholds))
  {
    hide Inv, AgreesWith, Classified;
    LiveVerdicts(s);
    forall t | t in s.txns && t.supersededBy == None { OutcomeAgrees(s, TransactionVerdict(t, s.thresholds)); }
    forall e | e in s.buybacks && e.supersededBy == None { OutcomeAgrees(s, BuybackVerdict(e, s.thresholds)); }
  }

  /** The links of live filings whose signal is notable. */
  ghost predicate IsNotableLive(s: State, link: Link) {
    && (match link
        case InsiderLink(id) => exists t :: t in s.txns && t.id == id && t.supersededBy == None
        case BuybackLink(id) => exists e :: e in s.buybacks && e.id == id && e.supersededBy == None
        case ClusterLink(_) => false)
    && exists row :: row in s.signals.rows && row.link == link && row.isNotable
  }

  /** Lowering dollar thresholds and reclassifying never makes a live filing stop being notable. */
  lemma LoweringNeverShrinks(s: State, high: Thresholds, low: Thresholds, link: Link)
    requires Inv(s) && Lowered(high, low)
    requires IsNotableLive(Step(Step(s, SetThresholds(high)), RunClassify(true)), link)
    ensures IsNotableLive(Step(Step(s, SetThresholds(low)), RunClassify(true)), link)
  {
    hide Inv, Classified, AgreesWith;
    var sh, sl := Step(s, SetThresholds(high)), Step(s, SetThresholds(low));
    ThresholdsKeepInv(s, high);
    ThresholdsKeepInv(s, low);
    ReclassifyAgreesWithRules(sh);
    ReclassifyAgreesWithRules(sl);
    ClassifyKeepsTables(sh, true);
    ClassifyKeepsTables(sl, true);
    match link {
      case InsiderLink(id) =>
        var t :| t in s.txns && t.id == id && t.supersededBy == None;
        NotableIff(Classified(sh, true).signals.rows, TransactionVerdict(t, high));
        NotableIff(Classified(sl, true).signals.rows, TransactionVerdict(t, low));
      case BuybackLink(id) =>
        var e :| e in s.buybacks && e.id == id && e.supersededBy == None;
        NotableIff(Classified(sh, true).signals.rows, BuybackVerdict(e, high));
        NotableIff(Classified(sl, true).signals.rows, BuybackVerdict(e, low));
      case ClusterLink(_) =>
    }
  }

  lemma NotableIff(rows: seq<SignalRow>, v: Verdict)
    requires AgreesWith(rows, v)
    ensures v.isNotable <==> exists row :: row in rows && row.link == v.link && row.isNotable
  {}

  // ---------- Clusters after a run ----------

  /** After a classify run every detected cluster has its own row, holding exactly it, and that
      row's signal says whether the cluster reaches the minimum under the current thresholds. */
  lemma ClustersAreStored(s: State, reclassify: bool, k: nat)
    requires Inv(s) && k < |DetectedEvents(s)|
    ensures var s1, p := Classified(s, reclassify), Places(s.clusters, DetectedEvents(s))[k];
      && SettledAt(s1.clusters, DetectedEvents(s)[k].content, p)
      && (forall m | 0 <= m < k :: Places(s.clusters, DetectedEvents(s))[m] != p)
      && Lookup(s1.signals.rows, ClusterLink(s1.clusters[p].id)).Some?
      && var row := Lookup(s1.signals.rows, ClusterLink(s1.clusters[p].id)).value;
        && (row.isNotable
          <==> DetectedEvents(s)[k].content.distinctFilerCount >= s.thresholds.minClusterFilerCount)
        && row.snapshot == s.thresholds && row.isDiscretionary == None
  {
    hide Candidates, DetectedEvents, UpsertAll, Places, ClusterVerdicts, JudgeAll, TransactionsOk, BuybacksOk,
      ClustersOk, RowsOk, MailOk, TableOk, Disjoint, Lookup;
    DetectedEventsOk(s);
    RunSettles(s.clusters, DetectedEvents(s), k);
    VerdictNamesItsRow(s.clusters, DetectedEvents(s), s.thresholds, k);
    ClassifyOutcome(s, reclassify, RunVerdicts(s)[k]);
  }

  // ---------- A second run is idle ----------

  lemma {:induction false} IdlePass(t: SignalTable, vs: seq<Verdict>, revisit: bool, downgrade: bool)
    requires forall v | v in vs :: Lookup(t.rows, v.link).Some?
    requires forall v | v in vs && revisit ::
      Judged(Lookup(t.rows, v.link).value, v, downgrade) == Lookup(t.rows, v.link).value
    ensures JudgeAll(t, vs, revisit, downgrade) == t
  {
    if vs != [] {
      var front, last := vs[..|vs| - 1], vs[|vs| - 1];
      assert last in vs && forall v | v in front :: v in vs;
      IdlePass(t, front, revisit, downgrade);
    }
  }

  lemma OutcomeIsFixed(before: Option<SignalRow>, after: Option<SignalRow>, v: Verdict, downgrade: bool)
    requires IsOutcome(before, after, v, true, downgrade)
    ensures Judged(after.value, v, downgrade) == after.value
  {}

  /** The second run judges the same rows in the same way. */
  lemma SameVerdictsAgain(s: State, reclassify: bool)
    requires Inv(s)
    ensures var s1 := Classified(s, reclassify);
      && RecordVerdicts(s1) == RecordVerdicts(s) && EventVerdicts(s1) == EventVerdicts(s)
      && RunVerdicts(s1) == RunVerdicts(s)
      && UpsertAll(s1.clusters, DetectedEvents(s1)) == s1.clusters
  {
    hide JudgeAll, RecordVerdicts, EventVerdicts, Candidates, UpsertAll, Places, ClusterVerdicts, Disjoint,
      TransactionsOk, BuybacksOk, ClustersOk, RowsOk, MailOk, TableOk;
    var s1 := Classified(s, reclassify);
    SameRecordVerdicts(s, s1);
    DetectedEventsOk(s);
    var es, again := DetectedEvents(s), DetectedEvents(s1);
    SecondRunIsIdle(s.clusters, es, again);
    var vs, ws := RunVerdicts(s), RunVerdicts(s1);
    forall k | 0 <= k < |vs|
      ensures vs[k] == ws[k]
    {
      VerdictNamesItsRow(s.clusters, es, s.thresholds, k);
      VerdictNamesItsRow(s1.clusters, again, s.thresholds, k);
    }
    assert vs == ws;
  }

  lemma SameRecordVerdicts(s: State, s1: State)
    requires s1.txns == s.txns && s1.buybacks == s.buybacks && s1.thresholds == s.thresholds
    ensures RecordVerdicts(s1) == RecordVerdicts(s) && EventVerdicts(s1) == EventVerdicts(s)
  {}

  /** A pass over records that all have signals creates none. */
  lemma {:induction false} PassAddsNone(t: SignalTable, vs: seq<Verdict>, revisit: bool, downgrade: bool)
    requires TableOk(t) && forall v | v in vs :: HasSignal(t.rows, v.link)
    ensures |JudgeAll(t, vs, revisit, downgrade).rows| == |t.rows|
      && JudgeAll(t, vs, revisit, downgrade).nextId == t.nextId
  {
    if vs != [] {
      var front, last := vs[..|vs| - 1], vs[|vs| - 1];
      assert last in vs && forall v | v in front :: v in vs;
      PassAddsNone(t, front, revisit, downgrade);
      LinksPersist(t, front, revisit, downgrade, last.link);
    }
  }

  /** After a classify run every record that it judges has a signal, and the clusters' signals say
      what a further run would say. */
  lemma JudgedRecordsHaveSignals(s: State, first: bool)
    requires Inv(s)
    ensures var rows := Classified(s, first).signals.rows;
      && (forall v | v in RecordVerdicts(s) || v in EventVerdicts(s) || v in RunVerdicts(s) :: HasSignal(rows, v.link))
      && (forall v | v in RunVerdicts(s) ::
        Lookup(rows, v.link).Some? && Judged(Lookup(rows, v.link).value, v, false) == Lookup(rows, v.link).value)
  {
    hide RecordVerdicts, EventVerdicts, RunVerdicts, Classified, Inv, Judged;
    var t := Classified(s, first).signals;
    forall v | v in RecordVerdicts(s) || v in EventVerdicts(s) || v in RunVerdicts(s)
      ensures HasSignal(t.rows, v.link)
      ensures v in RunVerdicts(s) ==> Judged(Lookup(t.rows, v.link).value, v, false) == Lookup(t.rows, v.link).value
    {
      ClassifyOutcome(s, first, v);
      if v in RunVerdicts(s) {
        OutcomeIsFixed(Lookup(s.signals.rows, v.link), Lookup(t.rows, v.link), v, false);
      }
    }
  }

  /** What a classify run does when every record it judges has a signal and the clusters' signals
      are settled: the pass over the clusters is idle and the other two leave cluster signals alone. */
  lemma SettledPasses(s: State, second: bool)
    requires Inv(s)
    requires forall v | v in RecordVerdicts(s) || v in EventVerdicts(s) || v in RunVerdicts(s) ::
      HasSignal(s.signals.rows, v.link)
    requires forall v | v in RunVerdicts(s) ::
      Lookup(s.signals.rows, v.link).Some?
        && Judged(Lookup(s.signals.rows, v.link).value, v, false) == Lookup(s.signals.rows, v.link).value
    ensures Classified(s, second).signals == SignalsAfterRecords(s, second)
    ensures |Classified(s, second).signals.rows| == |s.signals.rows|
      && Classified(s, second).signals.nextId == s.signals.nextId
    ensures forall i | 0 <= i < |s.signals.rows| && s.signals.rows[i].link.ClusterLink? ::
      Classified(s, second).signals.rows[i] == s.signals.rows[i]
  {
    hide RecordVerdicts, EventVerdicts, RunVerdicts, JudgeAll, Inv, Judged, Lookup, HasSignal, UpsertAll,
      DetectedEvents, DistinctLinks, TableOk;
    RunFacts(s, second);
    var t1, t2 := AfterTransactions(s, second), SignalsAfterRecords(s, second);
    PassAddsNone(s.signals, RecordVerdicts(s), second, true);
    forall v | v in EventVerdicts(s) || v in RunVerdicts(s)
      ensures HasSignal(t1.rows, v.link)
    {
      LinksPersist(s.signals, RecordVerdicts(s), second, true, v.link);
    }
    PassAddsNone(t1, EventVerdicts(s), second, true);
    forall v | v in RunVerdicts(s)
      ensures Lookup(t2.rows, v.link) == Lookup(s.signals.rows, v.link)
    {
      PassLeaves(s.signals, RecordVerdicts(s), second, true, v.link);
      PassLeaves(t1, EventVerdicts(s), second, true, v.link);
    }
    IdlePass(t2, RunVerdicts(s), true, false);
    ClassifiedSignals(s, second);
    forall i | 0 <= i < |s.signals.rows| && s.signals.rows[i].link.ClusterLink?
      ensures t2.rows[i] == s.signals.rows[i]
    {
      UnjudgedRow(s.signals, RecordVerdicts(s), second, true, i);
      UnjudgedRow(t1, EventVerdicts(s), second, true, i);
    }
  }

  lemma ClassifiedSignals(s: State, reclassify: bool)
    ensures Classified(s, reclassify).signals
      == JudgeAll(SignalsAfterRecords(s, reclassify), RunVerdicts(s), true, false)
  {}

  /** Whatever the flags, a second run on unchanged inputs changes no row of the record and cluster
      tables, creates no signal, and changes no cluster's signal. */
  lemma SecondRunKeeps(s: State, first: bool, second: bool)
    requires Inv(s)
    ensures var s1 := Classified(s, first);
      var s2 := Classified(s1, second);
      && s2 == s1.(nextClusterId := s2.nextClusterId, signals := s2.signals)
      && |s2.signals.rows| == |s1.signals.rows| && s2.signals.nextId == s1.signals.nextId
      && forall i | 0 <= i < |s1.signals.rows| && s1.signals.rows[i].link.ClusterLink? ::
        s2.signals.rows[i] == s1.signals.rows[i]
  {
    hide RecordVerdicts, EventVerdicts, RunVerdicts, DetectedEvents, JudgeAll, UpsertAll, Inv, Lookup, HasSignal,
      Judged;
    var s1 := Classified(s, first);
    assert Inv(s1) by { ClassifyKeepsInv(s, first); }
    SameVerdictsAgain(s, first);
    JudgedRecordsHaveSignals(s, first);
    SettledPasses(s1, second);
  }

  /** The signal says what the verdict says. */
  ghost predicate SaysTheSame(row: SignalRow, v: Verdict) {
    row.isNotable == v.isNotable && row.isDiscretionary == v.isDiscretionary && row.snapshot == v.snapshot
  }

  /** Every live filing that has a signal has one that agrees with the rules as they stand. */
  ghost predicate IsUpToDate(s: State) {
    && (forall t | t in s.txns && t.supersededBy == None && HasSignal(s.signals.rows, InsiderLink(t.id)) ::
      SaysTheSame(Lookup(s.signals.rows, InsiderLink(t.id)).value, TransactionVerdict(t, s.thresholds)))
    && (forall e | e in s.buybacks && e.supersededBy == None && HasSignal(s.signals.rows, BuybackLink(e.id)) ::
      SaysTheSame(Lookup(s.signals.rows, BuybackLink(e.id)).value, BuybackVerdict(e, s.thresholds)))
  }

  /** Re-judging a record leaves its signal alone exactly when the signal says the same. */
  lemma JudgedSame(s: State, v: Verdict)
    requires Inv(s) && HasSignal(s.signals.rows, v.link) && !v.link.ClusterLink?
    ensures Judged(Lookup(s.signals.rows, v.link).value, v, true) == Lookup(s.signals.rows, v.link).value
      <==> SaysTheSame(Lookup(s.signals.rows, v.link).value, v)
  {
    hide TransactionsOk, BuybacksOk, ClustersOk, TableOk, MailOk, IsSupersededFiling;
    assert Lookup(s.signals.rows, v.link).value in s.signals.rows;
  }

  /** The verdict is about a filing whose signal, from before, says something else. */
  ghost predicate IsStale(s: State, v: Verdict) {
    && (v in RecordVerdicts(s) || v in EventVerdicts(s))
    && HasSignal(s.signals.rows, v.link)
    && !SaysTheSame(Lookup(s.signals.rows, v.link).value, v)
  }

  lemma UpToDateVerdicts(s: State)
    requires Inv(s)
    ensures IsUpToDate(s) <==> forall v :: !IsStale(s, v)
  {
    hide RecordVerdicts, EventVerdicts, Inv, SaysTheSame, FindLink, IsNotableTransaction, IsNotableBuyback;
    LiveVerdicts(s);
    forall t | t in s.txns && t.supersededBy == None && (forall v :: !IsStale(s, v))
      && HasSignal(s.signals.rows, InsiderLink(t.id))
      ensures SaysTheSame(Lookup(s.signals.rows, InsiderLink(t.id)).value, TransactionVerdict(t, s.thresholds))
    {
      assert !IsStale(s, TransactionVerdict(t, s.thresholds));
    }
    forall e | e in s.buybacks && e.supersededBy == None && (forall v :: !IsStale(s, v))
      && HasSignal(s.signals.rows, BuybackLink(e.id))
      ensures SaysTheSame(Lookup(s.signals.rows, BuybackLink(e.id)).value, BuybackVerdict(e, s.thresholds))
    {
      assert !IsStale(s, BuybackVerdict(e, s.thresholds));
    }
  }

  /** Settled or revisited: what the second run's first two passes need to be idle. */
  lemma SettledVerdict(s: State, first: bool, v: Verdict)
    requires Inv(s) && (v in RecordVerdicts(s) || v in EventVerdicts(s))
    ensures HasSignal(Classified(s, first).signals.rows, v.link)
    ensures var b := Lookup(Classified(s, first).signals.rows, v.link).value;
      Judged(b, v, true) == b <==>
        (first || !HasSignal(s.signals.rows, v.link) || SaysTheSame(Lookup(s.signals.rows, v.link).value, v))
  {
    hide RecordVerdicts, EventVerdicts, RunVerdicts, Classified, Inv;
    RunFacts(s, first);
    ClassifyOutcome(s, first, v);
    if first {
      OutcomeIsFixed(Lookup(s.signals.rows, v.link), Lookup(Classified(s, first).signals.rows, v.link), v, true);
    } else if HasSignal(s.signals.rows, v.link) {
      JudgedSame(s, v);
    }
  }

  /** Classify settles in one run: from any state that keeps the invariant, stale or overlapping
      cluster rows included, a second run changes no row of any table and no signal, except exactly
      when it reclassifies, the first run did not, and a signal from before the first run is out of
      date. */
  lemma ClassifySettles(s: State, first: bool, second: bool)
    requires Inv(s)
    ensures var s1 := Classified(s, first);
      Classified(s1, second) == s1.(nextClusterId := s1.nextClusterId + |DetectedEvents(s1)|)
      <==> (second && !first ==> IsUpToDate(s))
  {
    hide RecordVerdicts, EventVerdicts, RunVerdicts, DetectedEvents, JudgeAll, UpsertAll, Inv, Lookup, HasSignal,
      IsOutcome, Judged, SaysTheSame, IsUpToDate, IsStale;
    var s1 := Classified(s, first);
    assert Inv(s1) by { ClassifyKeepsInv(s, first); }
    UpToDateVerdicts(s);
    SameVerdictsAgain(s, first);
    SecondRunKeeps(s, first, second);
    if second ==> first || IsUpToDate(s) {
      IdleRecordPasses(s, first, second);
    } else {
      OutOfDateIsRejudged(s, first, second);
    }
  }

  lemma IdleRecordPasses(s: State, first: bool, second: bool)
    requires Inv(s)
    requires second && !first ==> forall v :: !IsStale(s, v)
    ensures Classified(Classified(s, first), second).signals == Classified(s, first).signals
  {
    hide RecordVerdicts, EventVerdicts, RunVerdicts, DetectedEvents, UpsertAll, JudgeAll, Inv, Lookup, Judged,
      SaysTheSame, HasSignal;
    var s1 := Classified(s, first);
    var t := s1.signals;
    assert Inv(s1) by { ClassifyKeepsInv(s, first); }
    SameVerdictsAgain(s, first);
    JudgedRecordsHaveSignals(s, first);
    forall v | v in RecordVerdicts(s) || v in EventVerdicts(s)
      ensures Lookup(t.rows, v.link).Some?
      ensures second ==> Judged(Lookup(t.rows, v.link).value, v, true) == Lookup(t.rows, v.link).value
    {
      SettledVerdict(s, first, v);
      FoundByLookup(t.rows, v.link);
      assert second && !first ==> !IsStale(s, v);
    }
    IdlePass(t, RecordVerdicts(s), second, true);
    IdlePass(t, EventVerdicts(s), second, true);
    SettledPasses(s1, second);
  }

  lemma FoundByLookup(rows: seq<SignalRow>, link: Link)
    ensures HasSignal(rows, link) <==> Lookup(rows, link).Some?
  {}

  lemma OutOfDateIsRejudged(s: State, first: bool, second: bool)
    requires Inv(s) && second && !first
    requires exists v :: IsStale(s, v)
    ensures Classified(Classified(s, first), second).signals != Classified(s, first).signals
  {
    hide RecordVerdicts, EventVerdicts, RunVerdicts, Classified, Inv, Lookup, Judged, SaysTheSame, HasSignal;
    var s1 := Classified(s, first);
    assert Inv(s1) by { ClassifyKeepsInv(s, first); }
    SameVerdictsAgain(s, first);
    var v :| IsStale(s, v);
    SettledVerdict(s, first, v);
    FoundByLookup(s1.signals.rows, v.link);
    ClassifyOutcome(s1, second, v);
  }
}
