// Detection in terms of the fields of its input: which purchases may form a
// cluster, and what is reported about them.
module DetectionInFields {
  import opened Domain
  import opened Grouping
  import opened ClusterBuying
  import opened DetectionLaws

  // ---------- What a candidate reports ----------

  /** Share count times price, over the priced purchases. */
  function Worth(g: seq<Transaction>): real {
    if g == [] then 0.0
    else (if g[0].pricePerShare.Some? then g[0].shareCount * g[0].pricePerShare.value else 0.0) + Worth(g[1..])
  }

  lemma {:induction false} SumIsWorth(g: Group)
    ensures SumValues(g) == Worth(g)
  {
    if g != [] { SumIsWorth(g[1..]); }
  }

  lemma {:induction false} GroupIsSorted(s: Group, window: nat, g: Group)
    requires Sorted(s) && g in Groups(s, window)
    ensures Sorted(g)
    decreases |s|
  {
    hide Sorted, FirstGroupSize;
    var h, rest := FirstGroup(s, window);
    if g != h {
      GroupIsSorted(rest, window, g);
    }
  }

  lemma {:induction false} SortedPairs(g: Group)
    requires Sorted(g)
    ensures forall i, j | 0 <= i < j < |g| :: g[i].transactionDate <= g[j].transactionDate
  {
    if g != [] {
      SortedPairs(g[1..]);
      forall i, j | 0 <= i < j < |g|
        ensures g[i].transactionDate <= g[j].transactionDate
      {
        assert g[j] in g;
        assert i > 0 ==> g[i] == g[1..][i - 1] && g[j] == g[1..][j - 1];
      }
    }
  }

  lemma DatesBetweenEnds(g: Group)
    requires g != [] && forall i, j | 0 <= i < j < |g| :: g[i].transactionDate <= g[j].transactionDate
    ensures forall t | t in g :: g[0].transactionDate <= t.transactionDate <= g[|g| - 1].transactionDate
  {
    forall t | t in g
      ensures g[0].transactionDate <= t.transactionDate <= g[|g| - 1].transactionDate
    {
      var i :| 0 <= i < |g| && g[i] == t;
      assert i == 0 || g[0].transactionDate <= g[i].transactionDate;
      assert i == |g| - 1 || g[i].transactionDate <= g[|g| - 1].transactionDate;
    }
  }

  lemma EndsAre(g: Group, first: Day, last: Day)
    requires g != [] && forall t | t in g :: first <= t.transactionDate <= last
    requires g[0].transactionDate == first && g[|g| - 1].transactionDate == last
    ensures MinDate(g) == first && MaxDate(g) == last
  {
    hide MinDate, MaxDate;
    assert g[0] in g && g[|g| - 1] in g;
  }

  lemma {:induction false} IdsInOrder(g: Group)
    ensures |Ids(g)| == |g| && forall i | 0 <= i < |g| :: Ids(g)[i] == g[i].id
  {
    if g != [] { IdsInOrder(g[1..]); }
  }

  /** A candidate is made of exactly the unsuperseded discretionary buys under its cik that are dated
      within the window of its start; it lists them by date, names the company as the first of them
      does, and reports their first and last dates, their distinct filers and their worth. */
  lemma CandidateInFields(txns: seq<Transaction>, window: nat, c: ClusterCandidate) returns (g: seq<Transaction>)
    requires c in Detect(txns, window)
    ensures forall t :: t in g <==>
      && t in txns && t.transactionType == Buy && t.isDiscretionary && t.supersededBy == None
      && t.cik == c.cik && c.windowStart <= t.transactionDate <= c.windowStart + window
    ensures forall i, j | 0 <= i < j < |g| :: g[i].transactionDate <= g[j].transactionDate
    ensures |c.transactionIds| == |g| && forall i | 0 <= i < |g| :: c.transactionIds[i] == g[i].id
    ensures g != [] && c.windowStart == g[0].transactionDate && c.windowEnd == g[|g| - 1].transactionDate
    ensures c.companyName == g[0].companyName && c.ticker == g[0].ticker
    ensures c.distinctFilerCount == |set t | t in g :: FilerIdentity(t)| >= 2
    ensures c.totalValue == Worth(g)
  {
    hide Detect, IsGroupAt, FinalizeGroup, Worth, FilerIdentity;
    CandidatesAreGroups(txns, window, c);
    g :| IsGroupAt(txns, window, c.cik, g) && FinalizeGroup(g) == Some(c);
    GroupInOrder(txns, window, c.cik, g);
    ReportInFields(g, c);
    GroupInFields(txns, window, c.cik, g);
  }

  lemma ReportInFields(g: Group, c: ClusterCandidate)
    requires g != [] && forall i, j | 0 <= i < j < |g| :: g[i].transactionDate <= g[j].transactionDate
    requires FinalizeGroup(g) == Some(c)
    ensures |c.transactionIds| == |g| && forall i | 0 <= i < |g| :: c.transactionIds[i] == g[i].id
    ensures c.windowStart == g[0].transactionDate && c.windowEnd == g[|g| - 1].transactionDate
    ensures c.companyName == g[0].companyName && c.ticker == g[0].ticker
    ensures c.distinctFilerCount == |set t | t in g :: FilerIdentity(t)| >= 2
    ensures c.totalValue == Worth(g)
  {
    hide MinDate, MaxDate, Ids, SumValues, Worth, FilerIdentity;
    DatesBetweenEnds(g);
    EndsAre(g, g[0].transactionDate, g[|g| - 1].transactionDate);
    IdsInOrder(g);
    SumIsWorth(g);
  }

  lemma GroupInOrder(txns: seq<Transaction>, window: nat, cik: string, g: Group)
    requires IsGroupAt(txns, window, cik, g)
    ensures g != [] && forall i, j | 0 <= i < j < |g| :: g[i].transactionDate <= g[j].transactionDate
  {
    hide Sorted, Groups;
    var s := CompanyList(Qualifying(txns), cik);
    CompanyListCounts(Qualifying(txns), cik);
    GroupsAreParts(s, window);
    GroupIsSorted(s, window, g);
    SortedPairs(g);
  }

  lemma GroupInFields(txns: seq<Transaction>, window: nat, cik: string, g: Group)
    requires IsGroupAt(txns, window, cik, g)
    ensures g != []
    ensures forall t :: t in g <==>
      && t in txns && t.transactionType == Buy && t.isDiscretionary && t.supersededBy == None
      && t.cik == cik && g[0].transactionDate <= t.transactionDate <= g[0].transactionDate + window
  {
    hide IsGroupAt;
    GroupMembers(txns, window, cik, g);
    forall t | t in txns && t.transactionType == Buy && t.isDiscretionary && t.supersededBy == None && t.cik == cik
      ensures t in g <==> g[0].transactionDate <= t.transactionDate <= g[0].transactionDate + window
    {
      GroupIsItsWindow(txns, window, cik, g, t);
    }
    forall t | t in g
      ensures g[0].transactionDate <= t.transactionDate <= g[0].transactionDate + window
    {
      GroupIsItsWindow(txns, window, cik, g, t);
    }
  }

  // ---------- What detection does not look at ----------

  lemma QualifyingHead(a: seq<Transaction>)
    requires a != []
    ensures Qualifying(a) == (if Qualifies(a[0]) then [a[0]] else []) + Qualifying(a[1..])
  {}

  lemma {:induction false} QualifyingConcat(a: seq<Transaction>, b: seq<Transaction>)
    ensures Qualifying(a + b) == Qualifying(a) + Qualifying(b)
  {
    if a == [] {
      assert a + b == b && Qualifying(a) == [];
    } else {
      hide Qualifying, Qualifies;
      assert (a + b)[1..] == a[1..] + b && (a + b)[0] == a[0];
      QualifyingConcat(a[1..], b);
      QualifyingHead(a);
      QualifyingHead(a + b);
    }
  }

  /** A row that is a sale, or routine, or superseded might as well not be there. */
  lemma OthersAreIgnored(a: seq<Transaction>, t: Transaction, b: seq<Transaction>, window: int)
    requires t.transactionType != Buy || !t.isDiscretionary || t.supersededBy != None
    ensures Detect(a + [t] + b, window) == Detect(a + b, window)
  {
    QualifyingConcat(a + [t], b);
    QualifyingConcat(a, [t]);
    QualifyingConcat(a, b);
    assert Qualifying([t]) == [] && Qualifying(a) + [] == Qualifying(a);
  }

  // ---------- What detection cannot miss ----------

  /** Of three filers' unsuperseded discretionary buys under one cik within one window, some two are
      reported in one candidate. */
  lemma ThreeBuyersAreReported(
      txns: seq<Transaction>, window: nat, cik: string, lo: Day, t: Transaction, u: Transaction, v: Transaction)
    returns (c: ClusterCandidate)
    requires forall x | x in {t, u, v} ::
      && x in txns && x.transactionType == Buy && x.isDiscretionary && x.supersededBy == None
      && x.cik == cik && lo <= x.transactionDate <= lo + window
    requires FilerIdentity(t) != FilerIdentity(u)
    requires FilerIdentity(u) != FilerIdentity(v) && FilerIdentity(v) != FilerIdentity(t)
    ensures c in Detect(txns, window) && c.cik == cik
    ensures exists x, y ::
      x in {t, u, v} && y in {t, u, v} && x != y && x.id in c.transactionIds && y.id in c.transactionIds
  {
    var g1, g2 := TwoGroupsHold(txns, window, cik, lo, {t, u, v});
    hide FilerIdentity, Detect, IsGroupAt;
    if t in g1 && u in g1 {
      c := PairIsReported(txns, window, cik, g1, t, u);
    } else if t in g2 && u in g2 {
      c := PairIsReported(txns, window, cik, g2, t, u);
    } else {
      var g := if v in g1 then g1 else g2;
      c := PairIsReported(txns, window, cik, g, v, if t in g then t else u);
    }
  }

  lemma TwoGroupsHold(txns: seq<Transaction>, window: nat, cik: string, lo: Day, span: set<Transaction>)
    returns (g1: Group, g2: Group)
    requires span != {}
    requires forall x | x in span ::
      && x in txns && x.transactionType == Buy && x.isDiscretionary && x.supersededBy == None
      && x.cik == cik && lo <= x.transactionDate <= lo + window
    ensures IsGroupAt(txns, window, cik, g1) && IsGroupAt(txns, window, cik, g2)
    ensures forall x | x in span :: x in g1 || x in g2
  {
    InQualifying(txns);
    CompanyListCounts(Qualifying(txns), cik);
    g1, g2 := SpanMeetsTwoGroups(CompanyList(Qualifying(txns), cik), window, span, lo);
  }

  lemma PairIsReported(txns: seq<Transaction>, window: nat, cik: string, g: Group, t: Transaction, u: Transaction)
    returns (c: ClusterCandidate)
    requires IsGroupAt(txns, window, cik, g) && t in g && u in g && FilerIdentity(t) != FilerIdentity(u)
    ensures c in Detect(txns, window) && c.cik == cik && t.id in c.transactionIds && u.id in c.transactionIds
  {
    hide FilerIdentity, Detect, IsGroupAt;
    assert {FilerIdentity(t), FilerIdentity(u)} <= Identities(g);
    SubsetSize({FilerIdentity(t), FilerIdentity(u)}, Identities(g));
    GroupIsReported(txns, window, cik, g);
    c := FinalizeGroup(g).value;
  }
}
