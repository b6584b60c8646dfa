// Runs on which a documented promise about detection fails, and what all such runs share.
module Scenarios {
  import opened Domain
  import opened Rules
  import opened Ordering
  import opened Grouping
  import opened ClusterBuying
  import opened Signals
  import opened Dedup
  import opened ClusterBuyRepo
  import opened Classify
  import opened Pipeline
  import opened ClusterLaws
  import opened Invariants
  import opened Settling
  import opened Splits
  import opened FilerLaws
  import TransactionRepo

  /** A discretionary purchase worth a dollar. */
  function Purchase(id: Id, ref: string, filer: string, filerId: Option<string>, day: Day): Transaction {
    Transaction(id, "Acme", None, "1", filer, filerId, Officer, Buy, "P", true, 1.0, Some(1.0),
      day, day, SecEdgar, ref, "url", 0, None)
  }

  // ---------- Runs that ingest filings of different days ----------

  /** Purchases under one cik in the order of their dates, each on a day and under a reference of its own. */
  ghost predicate IsSeries(ps: seq<Transaction>) {
    && (forall i | 0 <= i < |ps| :: ps[i].id == i && Qualifies(ps[i]))
    && (forall i, j | 0 <= i < j < |ps| ::
      && ps[i].cik == ps[j].cik && ps[i].sourceRef != ps[j].sourceRef
      && ps[i].transactionDate < ps[j].transactionDate)
  }

  function Ingests(ps: seq<Transaction>): (events: seq<Event>)
    ensures |events| == |ps|
    ensures forall i | 0 <= i < |ps| :: events[i] == IngestTransaction(ps[i])
  {
    seq(|ps|, i requires 0 <= i < |ps| => IngestTransaction(ps[i]))
  }

  function Stocked(ps: seq<Transaction>): State {
    INITIAL.(txns := WithoutIds(ps), nextTxnId := |ps|)
  }

  /** A purchase of a new day under a new reference is simply inserted. */
  lemma NextInSeries(ps: seq<Transaction>, c: Transaction)
    requires c.supersededBy == None && c.id == |ps|
    requires forall p | p in ps :: p.sourceRef != c.sourceRef && p.transactionDate < c.transactionDate
    ensures Step(Stocked(ps), IngestTransaction(c)) == Stocked(ps + [c])
  {
    var rows := WithoutIds(ps);
    forall i | 0 <= i < |rows|
      ensures rows[i].sourceRef != c.sourceRef
      ensures !TransactionRepo.SameKey(rows[i], c) && !TransactionRepo.IsFuzzyMatch(rows[i], c)
    {
      assert ps[i] in ps;
    }
    assert TransactionRepo.FindRef(rows, c.sourceRef) == |rows|;
    assert LivePriors(rows, c) == {};
    assert ArrivingTransaction(Stocked(ps), c) == c;
    assert IngestedTransactions(rows, c) == rows + [TransactionRepo.Inserted(c)] == WithoutIds(ps + [c]);
  }

  lemma SeriesFront(ps: seq<Transaction>)
    requires IsSeries(ps) && ps != []
    ensures IsSeries(ps[..|ps| - 1])
    ensures var c := ps[|ps| - 1];
      && c.supersededBy == None && c.id == |ps| - 1
      && forall p | p in ps[..|ps| - 1] :: p.sourceRef != c.sourceRef && p.transactionDate < c.transactionDate
  {}

  lemma {:induction false} SeriesIsStocked(ps: seq<Transaction>)
    requires IsSeries(ps)
    ensures Run(Ingests(ps)) == Stocked(ps)
  {
    if ps == [] {
      assert Stocked([]) == INITIAL;
    } else {
      hide Step, Stocked, IsSeries;
      var front, last := ps[..|ps| - 1], ps[|ps| - 1];
      assert ps == front + [last];
      SeriesFront(ps);
      SeriesIsStocked(front);
      assert Ingests(ps) == Ingests(front) + [IngestTransaction(last)];
      RunSnoc(Ingests(front), IngestTransaction(last));
      NextInSeries(front, last);
    }
  }

  lemma RunTwoMore(events: seq<Event>, e: Event, f: Event)
    ensures Run(events + [e]) == Step(Run(events), e)
    ensures Run(events + [e, f]) == Step(Run(events + [e]), f)
  {
    hide Run, Step;
    RunSnoc(events, e);
    RunSnoc(events + [e], f);
    assert events + [e] + [f] == events + [e, f];
  }

  lemma WithThresholds(s: State, t: Thresholds)
    ensures Step(s, SetThresholds(t)) == s.(thresholds := t)
  {}

  // ---------- What is detected in a series ----------

  lemma {:induction false} AllQualify(ps: seq<Transaction>)
    requires forall p | p in ps :: Qualifies(p)
    ensures Qualifying(ps) == ps
  {
    if ps != [] {
      assert ps[0] in ps && forall p | p in ps[1..] :: p in ps;
      AllQualify(ps[1..]);
    }
  }

  lemma {:induction false} AllLive(ps: seq<Transaction>)
    requires forall p | p in ps :: p.supersededBy == None
    ensures Live(ps) == ps
  {
    if ps != [] {
      assert ps[0] in ps && forall p | p in ps[1..] :: p in ps;
      AllLive(ps[1..]);
    }
  }

  lemma {:induction false} OneCompany(ps: seq<Transaction>, cik: string)
    requires forall p | p in ps :: p.cik == cik
    ensures Bucket(ps, cik) == ps
    ensures ps != [] ==> Companies(ps) == [cik]
  {
    if ps != [] {
      var front, last := ps[..|ps| - 1], ps[|ps| - 1];
      assert last in ps && ps == front + [last] && forall p | p in front :: p in ps;
      OneCompany(front, cik);
    }
  }

  /** Purchases at one company, whatever their order, are grouped in the order of their dates. */
  lemma DetectOneCompany(ps: seq<Transaction>, order: seq<Transaction>, cik: string, window: int)
    requires order != [] && multiset(order) == multiset(ps) && StrictlySorted(order, TransactionDate)
    requires forall p | p in order :: Qualifies(p) && p.cik == cik
    ensures Detect(ps, window) == FinalizeAll(Groups(order, window))
  {
    hide Qualifies, FinalizeAll, Groups, Bucket, Companies, Qualifying, StrictlySorted;
    SameElements(order, ps);
    AllQualify(ps);
    OneCompany(ps, cik);
    SortedIsUnique(order, CompanyList(ps, cik), TransactionDate);
    assert CompanyList(ps, cik) == order && [cik][0] == cik && [cik][1..] == [];
    assert GroupsOf(ps, [], window) == [];
    assert GroupsOf(ps, [cik], window) == Groups(order, window) + [] == Groups(order, window);
    assert AllGroups(ps, window) == Groups(order, window);
  }

  lemma SeriesIsSorted(ps: seq<Transaction>)
    requires IsSeries(ps)
    ensures StrictlySorted(ps, TransactionDate)
    ensures forall p | p in ps :: Qualifies(p) && p.cik == ps[0].cik
  {}

  /** What a classify run detects when the stored purchases are a series. */
  lemma CandidatesOfSeries(ps: seq<Transaction>, window: int)
    requires IsSeries(ps) && ps != []
    ensures Candidates(WithoutIds(ps), window) == FinalizeAll(Groups(WithoutIds(ps), window))
  {
    var rows := WithoutIds(ps);
    forall p | p in rows
      ensures Qualifies(p) && p.cik == ps[0].cik
    {
      var i :| 0 <= i < |rows| && rows[i] == p;
    }
    assert StrictlySorted(rows, TransactionDate);
    hide IsSeries, StrictlySorted, FinalizeAll, Groups, Detect;
    var listed := TransactionRepo.Listed(rows);
    SameElements(rows, listed);
    AllLive(listed);
    DetectOneCompany(listed, rows, ps[0].cik, window);
  }

  /** The purchases within the window of the first form a group, and the rest are grouped likewise. */
  lemma CutGroup(g: Group, rest: Group, window: int)
    requires g != [] && forall t | t in g[1..] :: t.transactionDate <= g[0].transactionDate + window
    requires rest != [] ==> rest[0].transactionDate > g[0].transactionDate + window
    ensures FinalizeAll(Groups(g + rest, window)) == ReportOf(g) + FinalizeAll(Groups(rest, window))
  {
    hide Groups, ReportOf;
    CutIsUnique(g + rest, g, rest, window);
    assert ([g] + Groups(rest, window))[1..] == Groups(rest, window);
  }

  lemma NothingLeft(window: int)
    ensures FinalizeAll(Groups([], window)) == []
  {}

  lemma LoneFiler(g: Group, id: Identity)
    requires forall t | t in g :: FilerIdentity(t) == id
    ensures ReportOf(g) == []
  {
    assert Identities(g) <= {id};
    SubsetSize(Identities(g), {id});
  }

  lemma TwoOrMoreFilers(g: Group, t: Transaction, u: Transaction)
    requires t in g && u in g && FilerIdentity(t) != FilerIdentity(u)
    ensures FinalizeGroup(g).Some? && ReportOf(g) == [FinalizeGroup(g).value]
    ensures FinalizeGroup(g).value.transactionIds == Ids(g) && FinalizeGroup(g).value.cik == g[0].cik
    ensures FinalizeGroup(g).value.distinctFilerCount == |Identities(g)|
  {
    hide FilerIdentity;
    assert {FilerIdentity(t), FilerIdentity(u)} <= Identities(g);
    SubsetSize({FilerIdentity(t), FilerIdentity(u)}, Identities(g));
  }

  lemma NamedFiler(t: Transaction, name: string)
    requires t.filerId == None && t.filerName == name && name in {"a", "b", "c", "d"}
    ensures FilerIdentity(t) == ByName(name)
  {
    assert Lower(name) == name;
  }

  lemma {:induction false} IdsAre(g: Group, ids: seq<Id>)
    requires |ids| == |g| && forall i | 0 <= i < |g| :: g[i].id == ids[i]
    ensures Ids(g) == ids
  {
    if g != [] {
      IdsAre(g[1..], ids[1..]);
      assert ids == [ids[0]] + ids[1..];
    }
  }

  lemma TwoFilersIn(g: Group, x: Identity, y: Identity)
    requires |g| >= 2 && FilerIdentity(g[0]) == x && FilerIdentity(g[1]) == y
    requires forall i | 0 <= i < |g| :: FilerIdentity(g[i]) == x || FilerIdentity(g[i]) == y
    ensures Identities(g) == {x, y}
  {
    hide FilerIdentity;
    assert g[0] in g && g[1] in g;
  }

  /** All of the purchases fall in one group, and two filers are among them. */
  lemma OneReport(g: Group, window: int) returns (c: ClusterCandidate)
    requires |g| >= 2 && FilerIdentity(g[0]) != FilerIdentity(g[1])
    requires forall t | t in g[1..] :: t.transactionDate <= g[0].transactionDate + window
    ensures FinalizeAll(Groups(g, window)) == ReportOf(g) == [c]
    ensures c.transactionIds == Ids(g) && c.cik == g[0].cik && c.distinctFilerCount == |Identities(g)|
  {
    hide FinalizeAll, FinalizeGroup, Groups, FilerIdentity, ReportOf, Ids;
    assert g == g + [];
    CutGroup(g, [], window);
    NothingLeft(window);
    TwoOrMoreFilers(g, g[0], g[1]);
    c := FinalizeGroup(g).value;
  }

  // ---------- A classify run over a series ----------

  lemma NothingDetected(s: State, reclassify: bool)
    requires Candidates(s.txns, s.thresholds.clusterWindowDays) == []
    ensures Classified(s, reclassify).clusters == s.clusters
  {}

  lemma FirstUpsert(e: ClusterBuyEvent)
    ensures UpsertAll([], [e]) == [e] && Places([], [e]) == [0]
  {
    assert [e][1..] == [];
  }

  lemma LoneDetected(s: State, c: ClusterCandidate)
    requires Detected(s) == [c]
    ensures DetectedEvents(s) == [ClusterBuyEvent(s.nextClusterId, c)]
  {
    hide Candidates;
  }

  /** A first classify run that detects one notable cluster. */
  lemma FirstCluster(s: State, c: ClusterCandidate)
    requires Inv(s) && Detected(s) == [c] && s.clusters == [] && s.nextClusterId == 0 && s.signals.rows == []
    requires c.distinctFilerCount >= s.thresholds.minClusterFilerCount
    ensures var s1 := Classified(s, false);
      && s1.clusters == [ClusterBuyEvent(0, c)]
      && Lookup(s1.signals.rows, ClusterLink(0)).Some?
        && Lookup(s1.signals.rows, ClusterLink(0)).value.status == Pending
  {
    hide JudgeAll, Inv, Detected, DetectedEvents, UpsertAll, Places, ClusterVerdicts, Classified;
    var es := [ClusterBuyEvent(0, c)];
    LoneDetected(s, c);
    FirstUpsert(es[0]);
    ClassifiedClusters(s, false);
    VerdictNamesItsRow([], es, s.thresholds, 0);
    var v := ClusterVerdicts([], es, s.thresholds)[0];
    assert v.isNotable && v.link == ClusterLink(0);
    assert v in RunVerdicts(s);
    ClassifyOutcome(s, false, v);
  }

  ghost predicate IsNotableAt(s: State, i: nat)
    requires i < |s.clusters|
  {
    var signal := Lookup(s.signals.rows, ClusterLink(s.clusters[i].id));
    signal.Some? && signal.value.isNotable
  }

  // ---------- Two filers within the window go unreported ----------

  const MISSED: seq<Transaction> :=
    [Purchase(0, "A", "a", None, 0), Purchase(1, "B", "a", None, 10), Purchase(2, "C", "b", None, 20)]

  lemma MissedIsSeries()
    ensures IsSeries(MISSED) && WithoutIds(MISSED) == MISSED && |MISSED| == 3
  {
    assert "A"[0] != "B"[0] && "A"[0] != "C"[0] && "B"[0] != "C"[0];
  }

  lemma MissedReports()
    ensures FinalizeAll(Groups(MISSED, 14)) == []
  {
    var a, b, c := MISSED[0], MISSED[1], MISSED[2];
    assert MISSED == [a, b] + [c] && [c] == [c] + [] && [a, b][1..] == [b];
    NamedFiler(a, "a");
    NamedFiler(b, "a");
    NamedFiler(c, "b");
    hide FinalizeAll, Groups, FilerIdentity, ReportOf;
    CutGroup([a, b], [c], 14);
    CutGroup([c], [], 14);
    NothingLeft(14);
    LoneFiler([a, b], ByName("a"));
    LoneFiler([c], ByName("b"));
  }

  /** Two filers buy ten days apart, within the window of fourteen; an earlier purchase by one of
      them anchors the group, and a classify run finds no cluster. */
  lemma TwoFilersCanBeMissed() returns (t: Transaction, u: Transaction)
    ensures var s := Run(Ingests(MISSED) + [RunClassify(false)]);
      && t in s.txns && u in s.txns && Qualifies(t) && Qualifies(u) && t.cik == u.cik
      && FilerIdentity(t) != FilerIdentity(u)
      && t.transactionDate <= u.transactionDate <= t.transactionDate + s.thresholds.clusterWindowDays
      && s.clusters == []
  {
    t, u := MISSED[1], MISSED[2];
    assert t in MISSED && u in MISSED;
    NamedFiler(t, "a");
    NamedFiler(u, "b");
    MissedIsSeries();
    SeriesIsStocked(MISSED);
    CandidatesOfSeries(MISSED, 14);
    MissedReports();
    var s := Stocked(MISSED);
    assert s.txns == MISSED && s.thresholds == DEFAULTS && s.clusters == [];
    hide Step, Classified, FilerIdentity, Candidates, Stocked;
    RunSnoc(Ingests(MISSED), RunClassify(false));
    StepClassifies(s, false);
    NothingDetected(s, false);
    ClassifyKeepsTables(s, false);
  }

  // ---------- Two filers merged by storage ----------

  /** Two filers with different SEC ids and the same name. */
  const NAMESAKES: seq<Transaction> := [Purchase(0, "A", "a", Some("x"), 0), Purchase(1, "B", "a", Some("y"), 5)]

  lemma NamesakesAreSeries()
    ensures IsSeries(NAMESAKES) && |NAMESAKES| == 2
    ensures FilerIdentity(NAMESAKES[0]) == ById("x") && FilerIdentity(NAMESAKES[1]) == ById("y")
    ensures forall t | t in WithoutIds(NAMESAKES) :: FilerIdentity(t) == ByName("a")
    ensures forall t | t in NAMESAKES[1..] :: t.transactionDate <= NAMESAKES[0].transactionDate + 14
  {
    assert "A"[0] != "B"[0];
    forall t | t in WithoutIds(NAMESAKES)
      ensures FilerIdentity(t) == ByName("a")
    {
      NamedFiler(t, "a");
    }
  }

  /** Detection over the two filings as they were parsed finds a cluster ... */
  lemma ParsedNamesakesCluster()
    ensures Detect(NAMESAKES, 14) != []
  {
    hide NAMESAKES, Detect, FinalizeAll, Groups, FilerIdentity, Qualifies, IsSeries;
    NamesakesAreSeries();
    SeriesIsSorted(NAMESAKES);
    assert "x"[0] != "y"[0];
    DetectOneCompany(NAMESAKES, NAMESAKES, NAMESAKES[0].cik, 14);
    var c := OneReport(NAMESAKES, 14);
  }

  lemma StoredNamesakesReport()
    ensures FinalizeAll(Groups(WithoutIds(NAMESAKES), 14)) == []
  {
    NamesakesAreSeries();
    var rows := WithoutIds(NAMESAKES);
    assert rows == rows + [];
    hide NAMESAKES, FinalizeAll, Groups, FilerIdentity, ReportOf;
    CutGroup(rows, [], 14);
    NothingLeft(14);
    LoneFiler(rows, ByName("a"));
  }

  /** ... and a classify run over the same filings, stored, finds none. */
  lemma StorageMergesNamesakes()
    ensures var s := Run(Ingests(NAMESAKES) + [RunClassify(false)]);
      && s.txns == WithoutIds(NAMESAKES) && Detect(NAMESAKES, s.thresholds.clusterWindowDays) != []
      && s.clusters == []
  {
    NamesakesAreSeries();
    SeriesIsStocked(NAMESAKES);
    CandidatesOfSeries(NAMESAKES, 14);
    ParsedNamesakesCluster();
    StoredNamesakesReport();
    var s := Stocked(NAMESAKES);
    assert s.txns == WithoutIds(NAMESAKES) && s.thresholds == DEFAULTS && s.clusters == [];
    hide NAMESAKES, Step, Classified, Candidates, Stocked, Detect;
    RunSnoc(Ingests(NAMESAKES), RunClassify(false));
    StepClassifies(s, false);
    NothingDetected(s, false);
    ClassifyKeepsTables(s, false);
  }

  // ---------- Two companies in one cluster ----------

  /** A row as the aggregator's feed gives it: under no cik. */
  function Scraped(id: Id, ref: string, company: string, filer: string, day: Day): Transaction {
    Purchase(id, ref, filer, None, day).(companyName := company, cik := "", source := OpenInsider)
  }

  /** Two filers at two companies, five days apart. */
  const STRANGERS: seq<Transaction> := [Scraped(0, "A", "X", "a", 0), Scraped(1, "B", "Y", "b", 5)]

  lemma StrangersAre()
    ensures IsSeries(STRANGERS) && WithoutIds(STRANGERS) == STRANGERS && |STRANGERS| == 2
    ensures FilerIdentity(STRANGERS[0]) == ByName("a") && FilerIdentity(STRANGERS[1]) == ByName("b")
    ensures forall t | t in STRANGERS[1..] :: t.transactionDate <= STRANGERS[0].transactionDate + 14
    ensures STRANGERS[0].companyName != STRANGERS[1].companyName
    ensures STRANGERS[0].id == 0 && STRANGERS[1].id == 1
  {
    assert "A"[0] != "B"[0] && "X"[0] != "Y"[0];
    NamedFiler(STRANGERS[0], "a");
    NamedFiler(STRANGERS[1], "b");
  }

  /** The cluster that a first classify run finds in a series that lies within the window. */
  lemma SeriesClusters(ps: seq<Transaction>) returns (c: ClusterCandidate)
    requires IsSeries(ps) && WithoutIds(ps) == ps && |ps| >= 2 && FilerIdentity(ps[0]) != FilerIdentity(ps[1])
    requires forall t | t in ps[1..] :: t.transactionDate <= ps[0].transactionDate + 14
    ensures Detected(Stocked(ps)) == [c]
    ensures c.transactionIds == Ids(ps) && c.cik == ps[0].cik && c.distinctFilerCount == |Identities(ps)| >= 2
    ensures var s := Run(Ingests(ps) + [RunClassify(false)]);
      && s == Classified(Stocked(ps), false) && s.txns == ps && s.thresholds == DEFAULTS
      && s.clusters == [ClusterBuyEvent(0, c)]
      && Lookup(s.signals.rows, ClusterLink(0)).Some? && Lookup(s.signals.rows, ClusterLink(0)).value.status == Pending
  {
    var s := Stocked(ps);
    assert s.txns == ps && s.thresholds == DEFAULTS && s.clusters == [] && s.nextClusterId == 0 && s.signals.rows == [];
    hide IsSeries, FinalizeAll, Groups, Classified, Candidates, Stocked, Run, Step, FilerIdentity, Inv, Identities, Ids,
      Lookup;
    SeriesIsStocked(ps);
    CandidatesOfSeries(ps, 14);
    c := OneReport(ps, 14);
    AtLeastTwo(ps);
    RunKeepsInv(Ingests(ps));
    FirstCluster(s, c);
    RunSnoc(Ingests(ps), RunClassify(false));
    StepClassifies(s, false);
    ClassifyKeepsTables(s, false);
  }

  lemma AtLeastTwo(ps: seq<Transaction>)
    requires |ps| >= 2 && FilerIdentity(ps[0]) != FilerIdentity(ps[1])
    ensures |Identities(ps)| >= 2
  {
    hide FilerIdentity;
    assert ps[0] in ps && ps[1] in ps;
    SubsetSize({FilerIdentity(ps[0]), FilerIdentity(ps[1])}, Identities(ps));
  }

  lemma PairCount(ps: seq<Transaction>)
    requires |ps| == 2 && FilerIdentity(ps[0]) != FilerIdentity(ps[1])
    ensures |Identities(ps)| == 2
  {
    TwoFilersIn(ps, FilerIdentity(ps[0]), FilerIdentity(ps[1]));
  }

  /** The documented promise, that insiders at different companies are never grouped together, fails
      for rows without a cik. */
  lemma StrangersFormACluster()
    ensures var s := Run(Ingests(STRANGERS) + [RunClassify(false)]);
      && s.txns == STRANGERS && STRANGERS[0].companyName != STRANGERS[1].companyName
      && STRANGERS[0].id == 0 && STRANGERS[1].id == 1
      && |s.clusters| == 1 && s.clusters[0].content.transactionIds == [0, 1]
  {
    assert "a"[0] != "b"[0];
    hide STRANGERS, Run, Stocked, Detected, Classified, FilerIdentity, Lookup;
    StrangersAre();
    IdsAre(STRANGERS, [0, 1]);
    var c := SeriesClusters(STRANGERS);
  }
}
