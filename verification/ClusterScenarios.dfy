// Runs on which a documented promise about stored clusters fails.
module ClusterScenarios {
  import opened Domain
  import opened Rules
  import opened Grouping
  import opened ClusterBuying
  import opened DetectionLaws
  import opened Signals
  import opened Dedup
  import opened ClusterBuyRepo
  import opened Classify
  import opened Pipeline
  import opened RecordLaws
  import opened ClusterLaws
  import opened Invariants
  import opened Settling
  import opened Splits
  import opened FilerLaws
  import TransactionRepo
  import opened Merges
  import opened UpsertInFields
  import opened EmailLaws
  import opened ResendLaws
  import opened Scenarios

  // ---------- A split row goes to the minority ----------

  /** Three filers within fourteen days, two of them in each half. */
  const FIVE: seq<Transaction> := [
    Purchase(0, "A", "a", None, 0), Purchase(1, "B", "b", None, 1),
    Purchase(2, "C", "a", None, 10), Purchase(3, "D", "c", None, 11), Purchase(4, "E", "a", None, 12)]

  const TRIOS: Thresholds := DEFAULTS.(minClusterFilerCount := 3)

  const NARROW: Thresholds := TRIOS.(clusterWindowDays := 5)

  /** One cluster of five purchases, detected and emailed. */
  const EMAILED: seq<Event> := Ingests(FIVE) + [SetThresholds(TRIOS), RunClassify(false)] + [RunNotify({})]

  lemma FivePurchases()
    ensures |FIVE| == 5
    ensures forall i | 0 <= i < 5 ::
      FIVE[i].id == i && Qualifies(FIVE[i]) && FIVE[i].cik == "1" && FIVE[i].filerId == None
  {}

  lemma FiveDates()
    ensures forall i, j | 0 <= i < j < |FIVE| :: FIVE[i].transactionDate < FIVE[j].transactionDate
  {}

  lemma FiveReferences()
    ensures forall i, j | 0 <= i < j < |FIVE| :: FIVE[i].sourceRef != FIVE[j].sourceRef
  {
    assert forall i | 0 <= i < |FIVE| :: FIVE[i].sourceRef[0] as int == 'A' as int + i;
  }

  lemma FiveIsSeries()
    ensures IsSeries(FIVE) && WithoutIds(FIVE) == FIVE && |FIVE| == 5
  {
    hide FIVE, Qualifies;
    FivePurchases();
    FiveDates();
    FiveReferences();
  }

  lemma FiveFilers()
    ensures FilerIdentity(FIVE[0]) == FilerIdentity(FIVE[2]) == FilerIdentity(FIVE[4]) == ByName("a")
    ensures FilerIdentity(FIVE[1]) == ByName("b") && FilerIdentity(FIVE[3]) == ByName("c")
  {
    NamedFiler(FIVE[0], "a");
    NamedFiler(FIVE[1], "b");
    NamedFiler(FIVE[2], "a");
    NamedFiler(FIVE[3], "c");
    NamedFiler(FIVE[4], "a");
  }

  lemma IdentitiesConcat(g: Group, h: Group)
    ensures Identities(g + h) == Identities(g) + Identities(h)
  {
    hide FilerIdentity;
  }

  /** Two filers in each half, three in all. */
  lemma FiveCounts(g: Group, h: Group)
    requires FIVE == g + h && |g| == 2 && |h| == 3
    ensures |Identities(FIVE)| == 3 && |Identities(g)| == 2 && |Identities(h)| == 2
  {
    FiveFilers();
    hide FIVE, FilerIdentity, Identities;
    var a, b, c := ByName("a"), ByName("b"), ByName("c");
    assert a != b && a != c && b != c by { assert "a"[0] != "b"[0] && "a"[0] != "c"[0] && "b"[0] != "c"[0]; }
    assert g[0] == FIVE[0] && g[1] == FIVE[1] && h[0] == FIVE[2] && h[1] == FIVE[3] && h[2] == FIVE[4];
    TwoFilersIn(g, a, b);
    TwoFilersIn(h, a, c);
    IdentitiesConcat(g, h);
    assert {a, b} + {a, c} == {a, b, c};
  }

  /** The two halves of the five purchases. */
  lemma Halves() returns (g: Group, h: Group)
    ensures FIVE == g + h
    ensures |g| == 2 && |h| == 3 && g[0] == FIVE[0] && g[1] == FIVE[1] && h[0] == FIVE[2] && h[1] == FIVE[3]
    ensures Ids(g) == [0, 1] && Ids(h) == [2, 3, 4] && Ids(FIVE) == [0, 1, 2, 3, 4]
    ensures g[0].cik == h[0].cik == FIVE[0].cik == "1"
    ensures forall t | t in g[1..] :: t.transactionDate <= g[0].transactionDate + 5
    ensures forall t | t in h[1..] :: t.transactionDate <= h[0].transactionDate + 5
    ensures h[0].transactionDate > g[0].transactionDate + 5
  {
    g, h := FIVE[..2], FIVE[2..];
    IdsAre(g, [0, 1]);
    IdsAre(h, [2, 3, 4]);
    IdsAre(FIVE, [0, 1, 2, 3, 4]);
  }

  lemma HalvesDiffer()
    ensures ByName("a") != ByName("b") && ByName("a") != ByName("c")
  {
    assert "a"[0] != "b"[0] && "a"[0] != "c"[0];
  }

  /** Two groups, each with two filers among its first purchases. */
  lemma TwoReports(g: Group, h: Group, window: int) returns (c: ClusterCandidate, d: ClusterCandidate)
    requires |g| >= 2 && FilerIdentity(g[0]) != FilerIdentity(g[1])
    requires |h| >= 2 && FilerIdentity(h[0]) != FilerIdentity(h[1])
    requires forall t | t in g[1..] :: t.transactionDate <= g[0].transactionDate + window
    requires forall t | t in h[1..] :: t.transactionDate <= h[0].transactionDate + window
    requires h[0].transactionDate > g[0].transactionDate + window
    ensures FinalizeAll(Groups(g + h, window)) == [c, d]
    ensures c.transactionIds == Ids(g) && c.cik == g[0].cik && c.distinctFilerCount == |Identities(g)|
    ensures d.transactionIds == Ids(h) && d.cik == h[0].cik && d.distinctFilerCount == |Identities(h)|
  {
    hide FinalizeAll, FinalizeGroup, Groups, FilerIdentity, ReportOf, Ids, Identities;
    c := OneReport(g, window);
    d := OneReport(h, window);
    CutGroup(g, h, window);
  }

  lemma FiveReports() returns (whole: ClusterCandidate, first: ClusterCandidate, second: ClusterCandidate)
    ensures FinalizeAll(Groups(FIVE, 14)) == [whole]
    ensures FinalizeAll(Groups(FIVE, 5)) == [first, second]
    ensures whole.cik == first.cik == second.cik == "1"
    ensures whole.transactionIds == [0, 1, 2, 3, 4] && first.transactionIds == [0, 1]
      && second.transactionIds == [2, 3, 4]
    ensures whole.distinctFilerCount == 3 && first.distinctFilerCount == second.distinctFilerCount == 2
  {
    hide FIVE, FinalizeAll, FinalizeGroup, Groups, FilerIdentity, ReportOf, Ids, Identities;
    FiveFilers();
    HalvesDiffer();
    var g, h := Halves();
    FiveCounts(g, h);
    first, second := TwoReports(g, h, 5);
    whole := WholeReport();
  }

  lemma WholeReport() returns (whole: ClusterCandidate)
    ensures FinalizeAll(Groups(FIVE, 14)) == [whole]
    ensures whole.transactionIds == Ids(FIVE) && whole.cik == FIVE[0].cik
      && whole.distinctFilerCount == |Identities(FIVE)|
  {
    assert forall t | t in FIVE[1..] :: t.transactionDate <= FIVE[0].transactionDate + 14;
    assert |FIVE| == 5;
    hide FIVE, FinalizeAll, FinalizeGroup, Groups, FilerIdentity, ReportOf, Ids, Identities;
    FiveFilers();
    HalvesDiffer();
    whole := OneReport(FIVE, 14);
  }

  lemma PendingIsSent(s: State, link: Link)
    requires Inv(s) && Lookup(s.signals.rows, link).Some? && Lookup(s.signals.rows, link).value.status == Pending
    ensures var after := Step(s, RunNotify({}));
      Lookup(after.signals.rows, link).Some? && Lookup(after.signals.rows, link).value.status == Sent
  {
    hide TransactionsOk, BuybacksOk, ClustersOk, RowsOk, MailOk;
    var i, after := FindLink(s.signals.rows, link), Step(s, RunNotify({}));
    assert after.signals.rows[i].link == link;
    NotifyKeepsTable(s.signals, {});
    LookupAt(after.signals.rows, i);
  }

  lemma NotifyKeeps(s: State)
    ensures var t := Step(s, RunNotify({}));
      && t.clusters == s.clusters && t.txns == s.txns && t.thresholds == s.thresholds
      && t.nextClusterId == s.nextClusterId
  {}

  /** The state in which the five purchases have been emailed as one cluster. */
  lemma EmailedState(whole: ClusterCandidate)
    requires FinalizeAll(Groups(FIVE, 14)) == [whole] && whole.distinctFilerCount == 3
    ensures var s := Run(EMAILED);
      && s.txns == FIVE && s.clusters == [ClusterBuyEvent(0, whole)]
      && Lookup(s.signals.rows, ClusterLink(0)).Some? && Lookup(s.signals.rows, ClusterLink(0)).value.status == Sent
  {
    FiveIsSeries();
    SeriesIsStocked(FIVE);
    CandidatesOfSeries(FIVE, 14);
    var events, s := Ingests(FIVE), Stocked(FIVE).(thresholds := TRIOS);
    assert s.txns == FIVE && s.clusters == [] && s.nextClusterId == 0 && s.signals.rows == [];
    assert Detected(s) == [whole];
    hide FIVE, Step, Classified, Stocked, Detected, Candidates, Inv, Lookup, FinalizeAll, Groups, Run;
    RunTwoMore(events, SetThresholds(TRIOS), RunClassify(false));
    WithThresholds(Stocked(FIVE), TRIOS);
    RunKeepsInv(events + [SetThresholds(TRIOS)]);
    FirstCluster(s, whole);
    StepClassifies(s, false);
    ClassifyKeepsTables(s, false);
    RunKeepsInv(events + [SetThresholds(TRIOS), RunClassify(false)]);
    RunSnoc(events + [SetThresholds(TRIOS), RunClassify(false)], RunNotify({}));
    PendingIsSent(Classified(s, false), ClusterLink(0));
    NotifyKeeps(Classified(s, false));
  }

  /** Narrowing the window detects two clusters in place of one. */
  lemma NarrowedState(s: State, first: ClusterCandidate, second: ClusterCandidate)
    requires FinalizeAll(Groups(FIVE, 5)) == [first, second] && s.txns == FIVE
    ensures Detected(s.(thresholds := NARROW)) == [first, second] && NARROW.minClusterFilerCount == 3
  {
    FiveIsSeries();
    CandidatesOfSeries(FIVE, 5);
    assert NARROW.clusterWindowDays == 5;
    hide FIVE, NARROW, Candidates, FinalizeAll, Groups, IsSeries;
  }

  /** The documented rule, that a split row goes to the piece with most of its transactions when no
      piece meets the minimum, is not what happens: the piece of two keeps the row and the sent
      signal, and the piece of three starts afresh; neither is notable. */
  lemma FirstPieceTakesRow() returns (p: nat)
    ensures var s, t := Run(EMAILED), Run(EMAILED + [SetThresholds(NARROW), RunClassify(false)]);
      && |s.clusters| == 1 && s.clusters[0].content.transactionIds == [0, 1, 2, 3, 4]
      && 0 < p < |t.clusters| && t.clusters[0].id == s.clusters[0].id
      && t.clusters[0].content.transactionIds == [0, 1] && t.clusters[p].content.transactionIds == [2, 3, 4]
      && Lookup(t.signals.rows, ClusterLink(s.clusters[0].id)).Some?
      && Lookup(t.signals.rows, ClusterLink(s.clusters[0].id)).value.status == Sent
      && HasFreshRowAndSignal(s, t, p)
      && !IsNotableAt(t, 0) && !IsNotableAt(t, p)
  {
    hide FIVE, EMAILED, NARROW, Run, Step, Classified, Detected, Inv, Lookup, FinalizeAll, Groups;
    var whole, first, second := FiveReports();
    EmailedState(whole);
    var n := Run(EMAILED + [SetThresholds(NARROW)]);
    RunTwoMore(EMAILED, SetThresholds(NARROW), RunClassify(false));
    WithThresholds(Run(EMAILED), NARROW);
    NarrowedState(Run(EMAILED), first, second);
    StepClassifies(n, false);
    RunKeepsInv(EMAILED + [SetThresholds(NARROW)]);
    TwoPieces(n, first, second);
    var zero := SplitKeepsHistory(n, false, 0, first);
    p := SplitKeepsHistory(n, false, 0, second);
    assert first in Detected(n) && second in Detected(n);
    ClusterVerdictShows(n, false, first, 0);
    ClusterVerdictShows(n, false, second, p);
  }

  lemma TwoPieces(s: State, first: ClusterCandidate, second: ClusterCandidate)
    requires |s.clusters| == 1 && Detected(s) == [first, second] && s.clusters[0].content.cik == first.cik == second.cik
    requires s.clusters[0].content.transactionIds == [0, 1, 2, 3, 4]
    requires first.transactionIds == [0, 1] && second.transactionIds == [2, 3, 4]
    ensures SplitsAlone(s, 0) && IsPiece(s, 0, first) && IsPiece(s, 0, second)
    ensures IsEarliestPiece(s, 0, first) && !IsEarliestPiece(s, 0, second)
  {
    var row := s.clusters[0].content;
    assert 0 in row.transactionIds && 0 in first.transactionIds;
    assert 2 in row.transactionIds && 2 in second.transactionIds;
    hide Detected, IsEarliestPiece;
    EarliestIsFirst(s, 0, 0);
    EarliestIsFirst(s, 0, 1);
  }

  // ---------- A merge leaves a duplicate ----------

  const PAIRS: Thresholds := DEFAULTS.(clusterWindowDays := 5)

  /** The two halves, each detected as a cluster under the narrower window. */
  const HALVED: seq<Event> := Ingests(FIVE) + [SetThresholds(PAIRS), RunClassify(false)]

  lemma TwoDetected(s: State, c: ClusterCandidate, d: ClusterCandidate)
    requires Detected(s) == [c, d] && s.nextClusterId == 0
    ensures DetectedEvents(s) == [ClusterBuyEvent(0, c), ClusterBuyEvent(1, d)]
  {
    hide Candidates;
  }

  lemma TwoUpserts(a: ClusterBuyEvent, b: ClusterBuyEvent)
    requires NoSharedId(a.content.transactionIds, b.content.transactionIds)
    ensures UpsertAll([], [a, b]) == [a, b]
  {
    assert [a, b][1..] == [b] && [b][1..] == [];
    assert Upsert([], a) == [a] && Upsert([a], b) == [a, b];
    assert UpsertAll([a, b], []) == [a, b] && UpsertAll([a], [b]) == UpsertAll([a, b], []);
  }

  lemma BothSettle(a: ClusterBuyEvent, b: ClusterBuyEvent)
    requires NoSharedId(a.content.transactionIds, b.content.transactionIds)
    requires a.content.transactionIds != [] && b.content.transactionIds != []
    ensures SettledAt([a, b], a.content, 0) && SettledAt([a, b], b.content, 1)
  {
    assert a.content.transactionIds[0] in a.content.transactionIds;
    assert b.content.transactionIds[0] in b.content.transactionIds;
    FirstOverlapIs([a, b], a.content, 0);
    FirstOverlapIs([a, b], b.content, 1);
  }

  /** The five purchases, stored, under the narrower window. */
  function HalvedBefore(): State {
    Stocked(FIVE).(thresholds := PAIRS)
  }

  lemma HalvesDetected(first: ClusterCandidate, second: ClusterCandidate)
    requires FinalizeAll(Groups(FIVE, 5)) == [first, second]
    ensures var s := HalvedBefore();
      && Detected(s) == [first, second] && s.thresholds.minClusterFilerCount == 2
      && s.txns == FIVE && s.clusters == [] && s.nextClusterId == 0
  {
    hide FIVE, FinalizeAll, Groups, Candidates;
    FiveIsSeries();
    CandidatesOfSeries(FIVE, 5);
  }

  lemma HalvedRun()
    ensures Run(HALVED) == Classified(HalvedBefore(), false) && Inv(HalvedBefore())
  {
    hide FIVE, Run, Step, Stocked, Classified, Inv;
    var events := Ingests(FIVE);
    FiveIsSeries();
    SeriesIsStocked(FIVE);
    RunTwoMore(events, SetThresholds(PAIRS), RunClassify(false));
    WithThresholds(Stocked(FIVE), PAIRS);
    RunKeepsInv(events + [SetThresholds(PAIRS)]);
    StepClassifies(HalvedBefore(), false);
  }

  /** The state in which the halves are two stored, notable clusters. */
  lemma HalvedState(first: ClusterCandidate, second: ClusterCandidate)
    requires FinalizeAll(Groups(FIVE, 5)) == [first, second]
    requires first.transactionIds == [0, 1] && second.transactionIds == [2, 3, 4]
    requires first.distinctFilerCount == second.distinctFilerCount == 2
    ensures var s := Run(HALVED);
      && s.txns == FIVE && s.clusters == [ClusterBuyEvent(0, first), ClusterBuyEvent(1, second)]
      && IsNotableAt(s, 0) && IsNotableAt(s, 1)
  {
    hide FIVE, HALVED, HalvedBefore, Run, Classified, Detected, DetectedEvents, Inv, Lookup, FinalizeAll, Groups,
      UpsertAll;
    var s, a, b := HalvedBefore(), ClusterBuyEvent(0, first), ClusterBuyEvent(1, second);
    HalvesDetected(first, second);
    HalvedRun();
    ClassifyKeepsTables(s, false);
    ClassifiedClusters(s, false);
    TwoDetected(s, first, second);
    TwoUpserts(a, b);
    BothSettle(a, b);
    assert first in Detected(s) && second in Detected(s);
    ClusterVerdictShows(s, false, first, 0);
    ClusterVerdictShows(s, false, second, 1);
  }

  lemma WidenedState(s: State, whole: ClusterCandidate)
    requires FinalizeAll(Groups(FIVE, 14)) == [whole] && s.txns == FIVE
    ensures Detected(s.(thresholds := DEFAULTS)) == [whole] && DEFAULTS.minClusterFilerCount == 2
  {
    FiveIsSeries();
    CandidatesOfSeries(FIVE, 14);
    assert DEFAULTS.clusterWindowDays == 14;
    hide FIVE, DEFAULTS, Candidates, FinalizeAll, Groups, IsSeries;
  }

  /** The documented promise, that a cluster is updated and not duplicated, fails for a merge: the
      widened cluster takes the row of the first half, and the second half keeps its row and its
      notable signal beside it. */
  lemma WideningLeavesDuplicate()
    ensures var t := Run(HALVED + [SetThresholds(DEFAULTS), RunClassify(false)]);
      && |t.clusters| == 2 && IsNotableAt(t, 0) && IsNotableAt(t, 1)
      && t.clusters[0].content.transactionIds == [0, 1, 2, 3, 4] && t.clusters[1].content.transactionIds == [2, 3, 4]
  {
    hide FIVE, HALVED, DEFAULTS, Run, Step, Classified, Detected, Inv, Lookup, FinalizeAll, Groups;
    var whole, first, second := FiveReports();
    HalvedState(first, second);
    var s, n := Run(HALVED), Run(HALVED + [SetThresholds(DEFAULTS)]);
    RunTwoMore(HALVED, SetThresholds(DEFAULTS), RunClassify(false));
    WithThresholds(s, DEFAULTS);
    WidenedState(s, whole);
    StepClassifies(n, false);
    RunKeepsInv(HALVED + [SetThresholds(DEFAULTS)]);
    OneMerges(n, first, second, whole);
    var p := MergeTakesFirst(n, false, whole);
    MergedCount(n, whole);
    ClusterVerdictShows(n, false, whole, 0);
  }

  lemma OneMerges(s: State, first: ClusterCandidate, second: ClusterCandidate, whole: ClusterCandidate)
    requires s.clusters == [ClusterBuyEvent(0, first), ClusterBuyEvent(1, second)] && Detected(s) == [whole]
    requires first.transactionIds == [0, 1] && second.transactionIds == [2, 3, 4]
      && whole.transactionIds == [0, 1, 2, 3, 4]
    requires first.cik == second.cik == whole.cik
    ensures whole in Detected(s) && MergesAlone(s, whole) && FirstOverlap(s.clusters, whole) == 0
    ensures Overlaps(s.clusters[1].content, whole)
  {
    assert 0 in first.transactionIds && 0 in whole.transactionIds;
    assert 2 in second.transactionIds && 2 in whole.transactionIds;
    FirstOverlapIs(s.clusters, whole, 0);
    hide Detected;
  }

  lemma OneUpsert(rows: seq<ClusterBuyEvent>, e: ClusterBuyEvent)
    ensures UpsertAll(rows, [e]) == Upsert(rows, e)
  {
    assert [e][1..] == [];
  }

  lemma MergedCount(s: State, whole: ClusterCandidate)
    requires Detected(s) == [whole] && FirstOverlap(s.clusters, whole) < |s.clusters|
    ensures |Classified(s, false).clusters| == |s.clusters|
  {
    hide Candidates, DetectedEvents, UpsertAll, Classified;
    ClassifiedClusters(s, false);
    LoneDetected(s, whole);
    OneUpsert(s.clusters, ClusterBuyEvent(s.nextClusterId, whole));
  }

  // ---------- A dissolved cluster stays ----------

  const PAIR: seq<Transaction> := [Purchase(0, "A", "a", None, 0), Purchase(1, "B", "b", None, 5)]

  /** The second purchase turns out to be a sale. */
  const CORRECTION: Transaction := Purchase(2, "C", "b", None, 5).(transactionType := Sell)

  /** Two filers' purchases, detected as a cluster. */
  const PAIRED: seq<Event> := Ingests(PAIR) + [RunClassify(false)]

  lemma PairIs()
    ensures IsSeries(PAIR) && WithoutIds(PAIR) == PAIR && |PAIR| == 2
    ensures FilerIdentity(PAIR[0]) == ByName("a") && FilerIdentity(PAIR[1]) == ByName("b") && ByName("a") != ByName("b")
    ensures forall t | t in PAIR[1..] :: t.transactionDate <= PAIR[0].transactionDate + 14
    ensures PAIR[0].id == 0 && PAIR[1].id == 1
  {
    assert "A"[0] != "B"[0] && "a"[0] != "b"[0];
    NamedFiler(PAIR[0], "a");
    NamedFiler(PAIR[1], "b");
  }

  lemma PairedState() returns (c: ClusterCandidate)
    ensures var s := Run(PAIRED);
      && s.txns == PAIR && s.thresholds == DEFAULTS && s.clusters == [ClusterBuyEvent(0, c)]
      && Detected(s) == [c] && c.transactionIds == [0, 1] && c.distinctFilerCount == 2
      && Lookup(s.signals.rows, ClusterLink(0)).Some? && Lookup(s.signals.rows, ClusterLink(0)).value.status == Pending
      && IsNotableAt(s, 0)
  {
    hide PAIR, Run, Step, Stocked, Classified, FilerIdentity, Candidates, Inv, Lookup;
    PairIs();
    IdsAre(PAIR, [0, 1]);
    PairCount(PAIR);
    c := SeriesClusters(PAIR);
    StockedIs(PAIR);
    RunKeepsInv(Ingests(PAIR));
    SeriesIsStocked(PAIR);
    assert c in Detected(Stocked(PAIR));
    LoneSettles(c);
    ClusterVerdictShows(Stocked(PAIR), false, c, 0);
  }

  lemma StockedIs(ps: seq<Transaction>)
    requires WithoutIds(ps) == ps
    ensures Stocked(ps).txns == ps && Stocked(ps).thresholds == DEFAULTS && DEFAULTS.minClusterFilerCount == 2
  {}

  lemma LoneSettles(c: ClusterCandidate)
    requires c.transactionIds == [0, 1]
    ensures SettledAt([ClusterBuyEvent(0, c)], c, 0)
  {
    assert 0 in c.transactionIds;
  }

  /** All qualifying purchases are one filer's, so there is no cluster. */
  lemma OneFilerNoCluster(txns: seq<Transaction>, window: nat, id: Identity)
    requires forall t | t in txns && Qualifies(t) :: FilerIdentity(t) == id
    ensures Detect(txns, window) == []
  {
    hide Detect, FilerIdentity, Qualifies;
    if Detect(txns, window) != [] {
      var g := CandidateIsItsWindow(txns, window, Detect(txns, window)[0]);
      SubsetSize(Identities(g), {id});
      assert false;
    }
  }

  lemma CorrectedTable(a: Transaction, b: Transaction, s: State)
    requires s.txns == [a, b] && PAIR == [a, b] && s.nextTxnId == 2
    ensures Step(s, IngestTransaction(CORRECTION)).txns == [a, b.(supersededBy := Some(2)), CORRECTION]
  {
    assert "A"[0] != "C"[0] && "B"[0] != "C"[0];
    assert TransactionRepo.FindRef([a, b], "C") == 2;
    assert ArrivingTransaction(s, CORRECTION) == CORRECTION;
    assert a in s.txns && b in s.txns && LivePriors(s.txns, CORRECTION) == {1};
  }

  lemma CorrectedRows(a: Transaction, b: Transaction)
    requires PAIR == [a, b]
    ensures FilerIdentity(a) == ByName("a") && b.id == 1
    ensures !Qualifies(CORRECTION) && !Qualifies(b.(supersededBy := Some(2)))
  {
    PairIs();
    hide FilerIdentity;
  }

  lemma NothingLeftToCluster(s: State, a: Transaction, b: Transaction)
    requires PAIR == [a, b] && s.txns == [a, b.(supersededBy := Some(2)), CORRECTION]
    ensures Candidates(s.txns, s.thresholds.clusterWindowDays) == []
    ensures b.(supersededBy := Some(2)) in s.txns && b.id == 1
  {
    hide PAIR, CORRECTION, FilerIdentity, Qualifies, Detect, Live, TransactionRepo.Listed;
    CorrectedRows(a, b);
    var live := Live(TransactionRepo.Listed(s.txns));
    assert s.txns[1] == b.(supersededBy := Some(2));
    ListedIsPermutation(s.txns);
    LiveAre(TransactionRepo.Listed(s.txns));
    OneFilerNoCluster(live, s.thresholds.clusterWindowDays, ByName("a"));
  }

  /** The documented promise, that a cluster reflects only transactions that are not superseded, fails
      when a correction dissolves it: the row keeps the superseded purchase and stays notable. */
  lemma DissolvedClusterStays()
    ensures var t := Run(PAIRED + [IngestTransaction(CORRECTION), RunClassify(false)]);
      && |t.clusters| == 1 && t.clusters[0].content.transactionIds == [0, 1]
      && HoldsSuperseded(t.txns, t.clusters[0]) && IsNotableAt(t, 0)
  {
    hide PAIR, PAIRED, CORRECTION, Run, Step, Classified, Inv, Lookup, Candidates, FilerIdentity, Detected;
    PairIs();
    var c := PairedState();
    var s, a, b := Run(PAIRED), PAIR[0], PAIR[1];
    var n := Step(s, IngestTransaction(CORRECTION));
    assert PAIR == [a, b];
    RunTwoMore(PAIRED, IngestTransaction(CORRECTION), RunClassify(false));
    RunKeepsInv(PAIRED);
    RunKeepsInv(PAIRED + [IngestTransaction(CORRECTION)]);
    PairedIds();
    CorrectedTable(a, b, s);
    IngestKeepsClusters(s, CORRECTION);
    NothingLeftToCluster(n, a, b);
    StepClassifies(n, false);
    ClassifyKeepsTables(n, false);
    NothingDetected(n, false);
    NothingPlaced(n);
    UnplacedRow(n, false, 0);
    ClusterSignalKept(s, IngestTransaction(CORRECTION), ClusterLink(0));
  }

  lemma PairedIds()
    ensures Run(PAIRED).nextTxnId == 2
  {
    hide PAIR, Run, Step, Classified, FilerIdentity;
    PairIs();
    SeriesIsStocked(PAIR);
    RunSnoc(Ingests(PAIR), RunClassify(false));
    StepClassifies(Stocked(PAIR), false);
    ClassifyKeepsTables(Stocked(PAIR), false);
  }

  lemma IngestKeepsClusters(s: State, c: Transaction)
    ensures Step(s, IngestTransaction(c)).clusters == s.clusters
  {}

  lemma NothingPlaced(s: State)
    requires Candidates(s.txns, s.thresholds.clusterWindowDays) == []
    ensures Places(s.clusters, DetectedEvents(s)) == []
  {}

  lemma ClusterSignalKept(s: State, e: Event, link: Link)
    requires Inv(s) && (e.IngestTransaction? || e.IngestBuyback?) && link.ClusterLink?
      && Lookup(s.signals.rows, link).Some?
    ensures Lookup(Step(s, e).signals.rows, link) == Lookup(s.signals.rows, link)
  {
    hide Inv, Step;
    var i := FindLink(s.signals.rows, link);
    IngestSparesClusters(s, e, i);
    StepKeepsInv(s, e);
    assert Inv(Step(s, e)) ==> UniqueLinks(Step(s, e).signals.rows) by { InvHasUniqueLinks(Step(s, e)); }
    LookupAt(Step(s, e).signals.rows, i);
  }

  lemma InvHasUniqueLinks(s: State)
    ensures Inv(s) ==> UniqueLinks(s.signals.rows)
  {}

  // ---------- A cluster that is no longer notable is mailed ----------

  const DIMMED: seq<Event> := PAIRED + [SetThresholds(TRIOS), RunClassify(false)]

  lemma StillDetected(s: State, c: ClusterCandidate)
    requires Detected(s) == [c] && s.thresholds == DEFAULTS
    ensures Detected(s.(thresholds := TRIOS)) == [c] && TRIOS.minClusterFilerCount == 3
  {
    assert TRIOS.clusterWindowDays == DEFAULTS.clusterWindowDays;
    hide Candidates, TRIOS, DEFAULTS;
  }

  lemma OnlyPiece(s: State, c: ClusterCandidate)
    requires Detected(s) == [c] && s.clusters == [ClusterBuyEvent(0, c)] && c.transactionIds == [0, 1]
    ensures SplitsAlone(s, 0) && IsPiece(s, 0, c) && IsEarliestPiece(s, 0, c)
  {
    assert 0 in c.transactionIds;
    hide Detected;
  }

  /** A pending cluster signal that a later run finds below the minimum is mailed all the same. */
  lemma UnnotableIsMailed() returns (i: nat)
    ensures var s := Run(DIMMED);
      && i < |s.signals.rows| && !s.signals.rows[i].isNotable
      && CountSends(Step(s, RunNotify({})).outbox, s.signals.rows[i].id)
        == CountSends(s.outbox, s.signals.rows[i].id) + 1
  {
    hide PAIRED, Run, Step, Classified, Inv, Lookup, Detected, TRIOS, CountSends;
    var c := PairedState();
    var s, n := Run(PAIRED), Run(PAIRED + [SetThresholds(TRIOS)]);
    RunTwoMore(PAIRED, SetThresholds(TRIOS), RunClassify(false));
    RunKeepsInv(PAIRED + [SetThresholds(TRIOS)]);
    WithThresholds(s, TRIOS);
    StillDetected(s, c);
    OnlyPiece(n, c);
    StepClassifies(n, false);
    var p := SplitKeepsHistory(n, false, 0, c);
    ClusterVerdictShows(n, false, c, 0);
    i := FoundAt(Run(DIMMED).signals.rows, ClusterLink(0));
    MailedExactly(DIMMED, {}, i);
  }

  lemma FoundAt(rows: seq<SignalRow>, link: Link) returns (i: nat)
    requires Lookup(rows, link).Some?
    ensures i < |rows| && rows[i] == Lookup(rows, link).value
  {
    i := FindLink(rows, link);
  }

  // ---------- Only the middle of a cluster survives ----------

  const FOUR: seq<Transaction> := [
    Purchase(0, "A", "a", None, 0), Purchase(1, "B", "b", None, 6),
    Purchase(2, "C", "c", None, 7), Purchase(3, "D", "d", None, 14)]

  const BRIEF: Thresholds := DEFAULTS.(clusterWindowDays := 2)

  /** Four filers' purchases, detected as one cluster and emailed. */
  const FOUR_EMAILED: seq<Event> := Ingests(FOUR) + [RunClassify(false)] + [RunNotify({})]

  lemma FourPurchases()
    ensures |FOUR| == 4
    ensures forall i | 0 <= i < 4 ::
      FOUR[i].id == i && Qualifies(FOUR[i]) && FOUR[i].cik == "1" && FOUR[i].filerId == None
    ensures FOUR[0].transactionDate == 0 && FOUR[1].transactionDate == 6
    ensures FOUR[2].transactionDate == 7 && FOUR[3].transactionDate == 14
    ensures FOUR[0].filerName == "a" && FOUR[1].filerName == "b" && FOUR[2].filerName == "c"
  {}

  lemma FourReferences()
    ensures forall i, j | 0 <= i < j < |FOUR| :: FOUR[i].sourceRef != FOUR[j].sourceRef
  {
    assert forall i | 0 <= i < |FOUR| :: FOUR[i].sourceRef[0] as int == 'A' as int + i;
  }

  lemma FourIsSeries()
    ensures IsSeries(FOUR) && WithoutIds(FOUR) == FOUR
    ensures forall t | t in FOUR[1..] :: t.transactionDate <= FOUR[0].transactionDate + 14
    ensures Ids(FOUR) == [0, 1, 2, 3]
  {
    hide FOUR, Qualifies;
    FourPurchases();
    FourReferences();
    IdsAre(FOUR, [0, 1, 2, 3]);
  }

  lemma FourFilers()
    ensures FilerIdentity(FOUR[0]) == ByName("a") && FilerIdentity(FOUR[1]) == ByName("b")
    ensures FilerIdentity(FOUR[2]) == ByName("c")
    ensures ByName("a") != ByName("b") && ByName("b") != ByName("c")
  {
    assert "a"[0] != "b"[0] && "b"[0] != "c"[0];
    hide FOUR, FilerIdentity;
    FourPurchases();
    NamedFiler(FOUR[0], "a");
    NamedFiler(FOUR[1], "b");
    NamedFiler(FOUR[2], "c");
  }

  lemma LoneReport(t: Transaction)
    ensures ReportOf([t]) == []
  {
    LoneFiler([t], FilerIdentity(t));
  }

  /** Under the brief window only the middle two are together. */
  lemma MiddleReport() returns (middle: ClusterCandidate)
    ensures FinalizeAll(Groups(FOUR, 2)) == [middle] && middle.transactionIds == [1, 2] && middle.cik == "1"
  {
    hide FOUR, FinalizeAll, Groups, FilerIdentity, ReportOf, Ids, Qualifies;
    FourPurchases();
    FourFilers();
    var a, m, d := [FOUR[0]], [FOUR[1], FOUR[2]], [FOUR[3]];
    assert FOUR == a + (m + d) && d == d + [] && m[1..] == [FOUR[2]] && a[1..] == [] && d[1..] == [];
    CutGroup(a, m + d, 2);
    CutGroup(m, d, 2);
    CutGroup(d, [], 2);
    NothingLeft(2);
    LoneReport(FOUR[0]);
    LoneReport(FOUR[3]);
    IdsAre(m, [1, 2]);
    middle := OneReport(m, 2);
  }

  lemma FourState() returns (whole: ClusterCandidate)
    ensures var s := Run(FOUR_EMAILED);
      && s.txns == FOUR && s.thresholds == DEFAULTS && s.clusters == [ClusterBuyEvent(0, whole)]
      && whole.transactionIds == [0, 1, 2, 3] && whole.cik == "1"
      && Lookup(s.signals.rows, ClusterLink(0)).Some? && Lookup(s.signals.rows, ClusterLink(0)).value.status == Sent
  {
    hide FOUR, Run, Step, Stocked, Classified, FilerIdentity, Inv, Lookup, Qualifies, IsSeries;
    FourPurchases();
    FourFilers();
    FourIsSeries();
    whole := SeriesClusters(FOUR);
    var events := Ingests(FOUR) + [RunClassify(false)];
    RunKeepsInv(events);
    RunSnoc(events, RunNotify({}));
    PendingIsSent(Run(events), ClusterLink(0));
    NotifyKeeps(Run(events));
  }

  lemma MiddleDetected(s: State, middle: ClusterCandidate)
    requires FinalizeAll(Groups(FOUR, 2)) == [middle] && s.txns == FOUR
    ensures Detected(s.(thresholds := BRIEF)) == [middle]
  {
    FourIsSeries();
    FourPurchases();
    CandidatesOfSeries(FOUR, 2);
    assert BRIEF.clusterWindowDays == 2;
    hide FOUR, BRIEF, Candidates, FinalizeAll, Groups, IsSeries;
  }

  /** Narrowing the window leaves only the two middle purchases of an emailed cluster together; they
      keep its row and its sent signal, and no row is added. */
  lemma MiddleKeepsRow()
    ensures var s, t := Run(FOUR_EMAILED), Run(FOUR_EMAILED + [SetThresholds(BRIEF), RunClassify(false)]);
      && |s.clusters| == 1 && s.clusters[0].content.transactionIds == [0, 1, 2, 3]
      && |t.clusters| == 1 && t.clusters[0].content.transactionIds == [1, 2] && t.clusters[0].id == s.clusters[0].id
      && Lookup(t.signals.rows, ClusterLink(s.clusters[0].id)).Some?
      && Lookup(t.signals.rows, ClusterLink(s.clusters[0].id)).value.status == Sent
  {
    hide FOUR, FOUR_EMAILED, BRIEF, Run, Step, Classified, Detected, Inv, Lookup, FinalizeAll, Groups;
    var whole := FourState();
    var middle := MiddleReport();
    var s, n := Run(FOUR_EMAILED), Run(FOUR_EMAILED + [SetThresholds(BRIEF)]);
    RunTwoMore(FOUR_EMAILED, SetThresholds(BRIEF), RunClassify(false));
    WithThresholds(s, BRIEF);
    MiddleDetected(s, middle);
    StepClassifies(n, false);
    RunKeepsInv(FOUR_EMAILED + [SetThresholds(BRIEF)]);
    OneShares(n, whole, middle);
    SharedIdKeepsSignal(n, false, middle, 0, 1);
    MergedCount(n, middle);
  }

  lemma OneShares(s: State, whole: ClusterCandidate, middle: ClusterCandidate)
    requires s.clusters == [ClusterBuyEvent(0, whole)] && Detected(s) == [middle] && whole.cik == middle.cik
    requires whole.transactionIds == [0, 1, 2, 3] && middle.transactionIds == [1, 2]
    ensures middle in Detected(s) && 1 in whole.transactionIds && 1 in middle.transactionIds
    ensures ShareOnlyEachOther(s, middle, 0) && FirstOverlap(s.clusters, middle) == 0
  {
    hide Detected;
    assert 1 in whole.transactionIds && 1 in middle.transactionIds;
    FirstOverlapIs(s.clusters, middle, 0);
  }
}
