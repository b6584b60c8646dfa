// What detection reports and what it can miss.
module DetectionCoverage {
  import opened Domain
  import opened Grouping
  import opened ClusterBuying
  import opened DetectionLaws

  // ---------- Fewest groups ----------

  /** However the qualifying purchases at one company are assigned to parts that each span at most
      the window, there are at least as many parts as groups. */
  lemma FewestGroups(txns: seq<Transaction>, window: nat, cik: string, part: Transaction -> int)
    requires forall t, u | t in txns && u in txns && Qualifies(t) && Qualifies(u)
      && t.cik == cik && u.cik == cik && part(t) == part(u)
      :: u.transactionDate - t.transactionDate <= window
    ensures |Groups(CompanyList(Qualifying(txns), cik), window)|
      <= |set t | t in txns && Qualifies(t) && t.cik == cik :: part(t)|
  {
    hide Qualifying, CompanyList, Groups;
    var s := CompanyList(Qualifying(txns), cik);
    InQualifying(txns);
    CompanyListCounts(Qualifying(txns), cik);
    GreedyIsOptimal(s, window, part);
    assert PartsOf(s, part) == set t | t in txns && Qualifies(t) && t.cik == cik :: part(t);
  }

  // ---------- Coverage ----------

  /** A non-empty set of qualifying purchases at one company within one window starting on day lo. */
  ghost predicate IsSpan(span: set<Transaction>, txns: seq<Transaction>, cik: string, lo: Day, window: int) {
    && LiesInWindow(span, lo, window)
    && forall t | t in span :: t in txns && Qualifies(t) && t.cik == cik
  }

  ghost function FilersIn(span: set<Transaction>): set<Identity> {
    set t | t in span :: FilerIdentity(t)
  }

  /** Some group at the company holds at least half of the filers of any one window. */
  lemma HalfInOneGroup(txns: seq<Transaction>, window: nat, cik: string, lo: Day, span: set<Transaction>)
    returns (g: Group)
    requires IsSpan(span, txns, cik, lo, window)
    ensures IsGroupAt(txns, window, cik, g)
    ensures 2 * |Identities(g)| >= |FilersIn(span)|
  {
    var s := CompanyList(Qualifying(txns), cik);
    InQualifying(txns);
    CompanyListCounts(Qualifying(txns), cik);
    var g1, g2 := SpanMeetsTwoGroups(s, window, span, lo);
    assert FilersIn(span) <= Identities(g1) + Identities(g2);
    SubsetSize(FilersIn(span), Identities(g1) + Identities(g2));
    UnionSize(Identities(g1), Identities(g2));
    g := if |Identities(g1)| >= |Identities(g2)| then g1 else g2;
  }

  lemma UnionSize<T>(a: set<T>, b: set<T>)
    ensures |a + b| <= |a| + |b|
  {
    assert a + b == a + (b - a);
    SubsetSize(b - a, b);
  }

  /** Three or more filers within one window always yield a candidate, with at least half of them. */
  lemma ThreeFilersAreReported(txns: seq<Transaction>, window: nat, cik: string, lo: Day, span: set<Transaction>)
    requires IsSpan(span, txns, cik, lo, window)
    requires |FilersIn(span)| >= 3
    ensures exists c :: c in Detect(txns, window) && c.cik == cik && 2 * c.distinctFilerCount >= |FilersIn(span)|
  {
    var g := HalfInOneGroup(txns, window, cik, lo, span);
    GroupIsReported(txns, window, cik, g);
    assert FinalizeGroup(g).value.distinctFilerCount == |Identities(g)|;
  }

  /** With 2m - 1 filers within one window, some candidate is notable at minimum m. */
  lemma EnoughFilersAreNotable(txns: seq<Transaction>, window: nat, cik: string, lo: Day, span: set<Transaction>,
      m: int)
    requires IsSpan(span, txns, cik, lo, window)
    requires m >= 2 && |FilersIn(span)| >= 2 * m - 1
    ensures exists c :: c in Detect(txns, window) && c.cik == cik && IsNotableCluster(c, m)
  {
    ThreeFilersAreReported(txns, window, cik, lo, span);
    var c :| c in Detect(txns, window) && c.cik == cik && 2 * c.distinctFilerCount >= |FilersIn(span)|;
    assert IsNotableCluster(c, m);
  }

  // ---------- Two filers: when the promise holds ----------

  ghost predicate ReportedTogether(txns: seq<Transaction>, window: int, t: Transaction, u: Transaction) {
    exists c :: c in Detect(txns, window) && t.id in c.transactionIds && u.id in c.transactionIds
  }

  /** The start of the group into which a purchase dated d at the company falls. */
  function GroupStart(txns: seq<Transaction>, window: int, cik: string, d: Day): Day
    requires exists t :: t in CompanyList(Qualifying(txns), cik)
  {
    Anchor(CompanyList(Qualifying(txns), cik), window, d)
  }

  lemma SameId(txns: seq<Transaction>, t: Transaction, u: Transaction)
    requires DistinctIds(txns) && t in txns && u in txns && t.id == u.id
    ensures t == u
  {}

  lemma ReportedInGroup(txns: seq<Transaction>, window: nat, c: ClusterCandidate, t: Transaction) returns (g: Group)
    requires DistinctIds(txns) && t in txns && c in Detect(txns, window) && t.id in c.transactionIds
    ensures IsGroupAt(txns, window, c.cik, g) && FinalizeGroup(g) == Some(c) && t in g
  {
    CandidatesAreGroups(txns, window, c);
    g :| IsGroupAt(txns, window, c.cik, g) && FinalizeGroup(g) == Some(c);
    GroupMembers(txns, window, c.cik, g);
    var u :| u in g && u.id == t.id;
    SameId(txns, t, u);
  }

  /** Two purchases by different filers at one company are reported in one candidate exactly when
      the group of the later one starts no later than the earlier one. */
  lemma TwoFilersExactly(txns: seq<Transaction>, window: nat, t: Transaction, u: Transaction)
    requires DistinctIds(txns) && t in txns && u in txns && Qualifies(t) && Qualifies(u) && t.cik == u.cik
    requires FilerIdentity(t) != FilerIdentity(u) && t.transactionDate <= u.transactionDate
    ensures t in CompanyList(Qualifying(txns), t.cik)
    ensures ReportedTogether(txns, window, t, u) <==>
      GroupStart(txns, window, t.cik, u.transactionDate) <= t.transactionDate
  {
    hide FinalizeGroup, Detect, Qualifying, CompanyList;
    var s := CompanyList(Qualifying(txns), t.cik);
    InQualifying(txns);
    CompanyListCounts(Qualifying(txns), t.cik);
    SharedAnchor(s, window, t, u);
    if ReportedTogether(txns, window, t, u) {
      var c :| c in Detect(txns, window) && t.id in c.transactionIds && u.id in c.transactionIds;
      TogetherShareAnchor(txns, window, c, t, u);
    }
    if Anchor(s, window, t.transactionDate) == Anchor(s, window, u.transactionDate) {
      SharedAnchorIsReported(txns, window, t, u);
    }
  }

  lemma TogetherShareAnchor(txns: seq<Transaction>, window: nat, c: ClusterCandidate, t: Transaction, u: Transaction)
    requires DistinctIds(txns) && t in txns && u in txns && Qualifies(t) && Qualifies(u) && t.cik == u.cik
    requires c in Detect(txns, window) && t.id in c.transactionIds && u.id in c.transactionIds
    requires CompanyList(Qualifying(txns), t.cik) != []
    ensures Anchor(CompanyList(Qualifying(txns), t.cik), window, t.transactionDate)
      == Anchor(CompanyList(Qualifying(txns), t.cik), window, u.transactionDate)
  {
    var g := ReportedInGroup(txns, window, c, t);
    GroupMembers(txns, window, c.cik, g);
    var v :| v in g && v.id == u.id;
    SameId(txns, u, v);
  }

  lemma SharedAnchorIsReported(txns: seq<Transaction>, window: nat, t: Transaction, u: Transaction)
    requires t in txns && u in txns && Qualifies(t) && Qualifies(u) && t.cik == u.cik
    requires FilerIdentity(t) != FilerIdentity(u)
    requires CompanyList(Qualifying(txns), t.cik) != []
    requires Anchor(CompanyList(Qualifying(txns), t.cik), window, t.transactionDate)
      == Anchor(CompanyList(Qualifying(txns), t.cik), window, u.transactionDate)
    ensures ReportedTogether(txns, window, t, u)
  {
    hide Qualifying, CompanyList, Anchor, Detect, FilerIdentity;
    var g := GroupOf(txns, window, t);
    GroupMembers(txns, window, t.cik, g);
    assert {FilerIdentity(t), FilerIdentity(u)} <= Identities(g);
    SubsetSize({FilerIdentity(t), FilerIdentity(u)}, Identities(g));
    GroupIsReported(txns, window, t.cik, g);
    var c := FinalizeGroup(g).value;
    assert t.id in c.transactionIds && u.id in c.transactionIds;
  }
}
