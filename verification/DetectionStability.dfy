// How the reported clusters change when the input is reordered or extended.
module DetectionStability {
  import opened Domain
  import opened Ordering
  import opened Grouping
  import opened ClusterBuying
  import opened DetectionLaws

  /** A candidate up to the order of its transactions and the name printed for the company. */
  datatype View = View(
    cik: string, windowStart: Day, windowEnd: Day,
    distinctFilerCount: nat, totalValue: real, transactionIds: set<Id>)

  function ViewOf(c: ClusterCandidate): View {
    View(c.cik, c.windowStart, c.windowEnd, c.distinctFilerCount, c.totalValue, set x | x in c.transactionIds)
  }

  function Views(txns: seq<Transaction>, window: int): set<View> {
    set c | c in Detect(txns, window) :: ViewOf(c)
  }

  // ---------- Order independence ----------

  lemma ReorderedGroup(g: Group, h: Group)
    requires multiset(g) == multiset(h) && g != [] && h != [] && g[0].cik == h[0].cik
    ensures FinalizeGroup(g).Some? <==> FinalizeGroup(h).Some?
    ensures FinalizeGroup(g).Some? ==> ViewOf(FinalizeGroup(g).value) == ViewOf(FinalizeGroup(h).value)
  {
    hide SumValues, MinDate, MaxDate, Ids, Identities;
    SumPermutes(g, h);
    ReorderedParts(g, h);
    if FinalizeGroup(g).Some? {
      var c, d := FinalizeGroup(g).value, FinalizeGroup(h).value;
      assert c.transactionIds == Ids(g) && d.transactionIds == Ids(h);
      assert ViewOf(c).transactionIds == ViewOf(d).transactionIds;
    }
  }

  lemma ReorderedParts(g: Group, h: Group)
    requires multiset(g) == multiset(h) && g != [] && h != []
    ensures Identities(g) == Identities(h)
    ensures MinDate(g) == MinDate(h) && MaxDate(g) == MaxDate(h)
    ensures forall x :: x in Ids(g) <==> x in Ids(h)
  {
    hide MinDate, MaxDate, Ids, FilerIdentity;
    SameElements(g, h);
  }

  lemma CompanyListPermutes(a: Group, b: Group, cik: string)
    requires multiset(a) == multiset(b)
    ensures multiset(CompanyList(a, cik)) == multiset(CompanyList(b, cik))
  {
    CompanyListCounts(a, cik);
    CompanyListCounts(b, cik);
    assert forall x :: multiset(CompanyList(a, cik))[x] == multiset(CompanyList(b, cik))[x];
  }

  lemma QualifyingPermutes(a: seq<Transaction>, b: seq<Transaction>)
    requires multiset(a) == multiset(b)
    ensures multiset(Qualifying(a)) == multiset(Qualifying(b))
  {
    QualifyingCounts(a);
    QualifyingCounts(b);
    assert forall x :: multiset(Qualifying(a))[x] == multiset(Qualifying(b))[x];
  }

  lemma ReorderedViews(a: seq<Transaction>, b: seq<Transaction>, window: nat)
    requires multiset(a) == multiset(b)
    ensures Views(a, window) <= Views(b, window)
  {
    hide Detect, FinalizeGroup;
    QualifyingPermutes(a, b);
    forall c | c in Detect(a, window)
      ensures ViewOf(c) in Views(b, window)
    {
      CandidatesAreGroups(a, window, c);
      var g :| IsGroupAt(a, window, c.cik, g) && FinalizeGroup(g) == Some(c);
      var s, r := CompanyList(Qualifying(a), c.cik), CompanyList(Qualifying(b), c.cik);
      CompanyListPermutes(Qualifying(a), Qualifying(b), c.cik);
      CompanyListCounts(Qualifying(a), c.cik);
      CompanyListCounts(Qualifying(b), c.cik);
      var h := CounterpartGroup(s, r, window, g);
      GroupMembers(a, window, c.cik, g);
      GroupMembers(b, window, c.cik, h);
      assert g[0] in g && h[0] in h;
      ReorderedGroup(g, h);
      ReportedCounterpart(b, window, h);
    }
  }

  lemma CounterpartGroup(s: Group, r: Group, window: nat, g: Group) returns (h: Group)
    requires Sorted(s) && Sorted(r) && multiset(s) == multiset(r) && g in Groups(s, window)
    ensures h in Groups(r, window) && multiset(g) == multiset(h)
  {
    var i :| 0 <= i < |Groups(s, window)| && Groups(s, window)[i] == g;
    GroupsIgnoreTies(s, r, window, i);
    h := Groups(r, window)[i];
  }

  lemma ReportedCounterpart(b: seq<Transaction>, window: nat, h: Group)
    requires h != [] && IsGroupAt(b, window, h[0].cik, h) && FinalizeGroup(h).Some?
    ensures ViewOf(FinalizeGroup(h).value) in Views(b, window)
  {
    CandidatesAreGroups(b, window, FinalizeGroup(h).value);
  }

  /** The reported clusters do not depend on the order of the input. */
  lemma OrderIndependence(a: seq<Transaction>, b: seq<Transaction>, window: nat)
    requires multiset(a) == multiset(b)
    ensures Views(a, window) == Views(b, window)
  {
    ReorderedViews(a, b, window);
    ReorderedViews(b, a, window);
  }

  // ---------- Growth ----------

  /** No qualifying added purchase predates a qualifying earlier one at its company. */
  ghost predicate ArriveLater(txns: seq<Transaction>, added: seq<Transaction>) {
    forall t, u | t in txns && u in added && Qualifies(t) && Qualifies(u) && t.cik == u.cik ::
      t.transactionDate <= u.transactionDate
  }

  /** d is c with nothing lost and only added transactions added. */
  ghost predicate GrownFrom(c: ClusterCandidate, d: ClusterCandidate, added: seq<Transaction>) {
    && d.cik == c.cik && d.windowStart == c.windowStart
    && d.distinctFilerCount >= c.distinctFilerCount
    && (forall x | x in c.transactionIds :: x in d.transactionIds)
    && (forall x | x in d.transactionIds :: x in c.transactionIds || exists t :: t in added && t.id == x)
  }

  lemma GrownCompanyList(txns: seq<Transaction>, added: seq<Transaction>, all: seq<Transaction>, cik: string)
    requires multiset(all) == multiset(txns + added) && ArriveLater(txns, added)
    ensures
      var before, after := CompanyList(Qualifying(txns), cik), CompanyList(Qualifying(added), cik);
      Sorted(before + after) && multiset(CompanyList(Qualifying(all), cik)) == multiset(before + after)
  {
    hide CompanyList, Qualifying, Sorted, Qualifies;
    var s, later, r :=
      CompanyList(Qualifying(txns), cik), CompanyList(Qualifying(added), cik), CompanyList(Qualifying(all), cik);
    LaterList(txns, added, cik);
    forall x
      ensures multiset(r)[x] == multiset(s + later)[x]
    {
      GrownCounts(txns, added, all, cik, x);
    }
  }

  lemma LaterList(txns: seq<Transaction>, added: seq<Transaction>, cik: string)
    requires ArriveLater(txns, added)
    ensures Sorted(CompanyList(Qualifying(txns), cik) + CompanyList(Qualifying(added), cik))
  {
    hide CompanyList, Qualifying, Sorted, Qualifies;
    CompanyListCounts(Qualifying(txns), cik);
    CompanyListCounts(Qualifying(added), cik);
    InQualifying(txns);
    InQualifying(added);
    SortedJoin(CompanyList(Qualifying(txns), cik), CompanyList(Qualifying(added), cik));
  }

  lemma GrownCounts(txns: seq<Transaction>, added: seq<Transaction>, all: seq<Transaction>, cik: string, x: Transaction)
    requires multiset(all) == multiset(txns + added)
    ensures multiset(CompanyList(Qualifying(all), cik))[x]
      == multiset(CompanyList(Qualifying(txns), cik))[x] + multiset(CompanyList(Qualifying(added), cik))[x]
  {
    hide CompanyList, Qualifying;
    CompanyListCounts(Qualifying(txns), cik);
    CompanyListCounts(Qualifying(added), cik);
    CompanyListCounts(Qualifying(all), cik);
    QualifyingCounts(txns);
    QualifyingCounts(added);
    QualifyingCounts(all);
    assert multiset(all)[x] == multiset(txns)[x] + multiset(added)[x];
  }

  lemma GrownGroup(g: Group, h: Group, added: seq<Transaction>)
    requires FinalizeGroup(g).Some? && h != [] && h[0].cik == g[0].cik
    requires forall t | t in g :: t in h && MinDate(g) <= t.transactionDate
    requires forall t | t in h :: t in g || (t in added && MinDate(g) <= t.transactionDate)
    ensures FinalizeGroup(h).Some? && GrownFrom(FinalizeGroup(g).value, FinalizeGroup(h).value, added)
  {
    assert Identities(g) <= Identities(h);
    SubsetSize(Identities(g), Identities(h));
    assert MinDate(h) == MinDate(g);
  }

  /** When only later purchases arrive, every earlier candidate is reported again, grown. */
  lemma CandidatesGrow(txns: seq<Transaction>, added: seq<Transaction>, all: seq<Transaction>, window: nat,
      c: ClusterCandidate)
    returns (d: ClusterCandidate)
    requires multiset(all) == multiset(txns + added) && ArriveLater(txns, added)
    requires c in Detect(txns, window)
    ensures d in Detect(all, window) && GrownFrom(c, d, added)
  {
    hide Detect, FinalizeGroup, Qualifying, CompanyList;
    CandidatesAreGroups(txns, window, c);
    var g :| IsGroupAt(txns, window, c.cik, g) && FinalizeGroup(g) == Some(c);
    var h := GrownCounterpart(txns, added, all, window, c.cik, g);
    GrownReport(g, h, c, added);
    d := FinalizeGroup(h).value;
    CandidatesAreGroups(all, window, d);
  }

  lemma GrownReport(g: Group, h: Group, c: ClusterCandidate, added: seq<Transaction>)
    requires FinalizeGroup(g) == Some(c) && h != [] && h[0].cik == c.cik
    requires forall t | t in g :: t in h
    requires forall t | t in h :: t in g || (t in added && forall u | u in g :: u.transactionDate <= t.transactionDate)
    ensures FinalizeGroup(h).Some? && GrownFrom(c, FinalizeGroup(h).value, added)
  {
    assert g[0] in g;
    GrownGroup(g, h, added);
  }

  lemma GrownCounterpart(txns: seq<Transaction>, added: seq<Transaction>, all: seq<Transaction>, window: nat,
      cik: string, g: Group)
    returns (h: Group)
    requires multiset(all) == multiset(txns + added) && ArriveLater(txns, added)
    requires IsGroupAt(txns, window, cik, g)
    ensures IsGroupAt(all, window, cik, h) && h != [] && h[0].cik == cik
    ensures forall t | t in g :: t in h
    ensures forall t | t in h :: t in g || (t in added && forall u | u in g :: u.transactionDate <= t.transactionDate)
  {
    hide Qualifying, CompanyList, Groups;
    var s, later, r :=
      CompanyList(Qualifying(txns), cik), CompanyList(Qualifying(added), cik), CompanyList(Qualifying(all), cik);
    GrownCompanyList(txns, added, all, cik);
    CompanyListCounts(Qualifying(all), cik);
    h := GrownInLists(s, later, r, window, g);
    GroupMembers(txns, window, cik, g);
    GroupMembers(all, window, cik, h);
    assert h[0] in h;
    CompanyListCounts(Qualifying(added), cik);
    InQualifying(added);
    forall t | t in h && t !in g
      ensures t in added && forall u | u in g :: u.transactionDate <= t.transactionDate
    {}
  }

  lemma GrownInLists(s: Group, later: Group, r: Group, window: nat, g: Group) returns (h: Group)
    requires Sorted(s + later) && Sorted(r) && multiset(r) == multiset(s + later) && g in Groups(s, window)
    ensures h in Groups(r, window)
    ensures forall t | t in g :: t in h
    ensures forall t | t in h :: t in g || t in later
  {
    var i :| 0 <= i < |Groups(s, window)| && Groups(s, window)[i] == g;
    GroupsGrow(s, later, window, i);
    var grown := Groups(s + later, window)[i];
    h := CounterpartGroup(s + later, r, window, grown);
    SameElements(grown, h);
  }
}
