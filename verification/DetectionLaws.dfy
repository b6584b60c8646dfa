// What detection guarantees for any list of transactions.
module DetectionLaws {
  import opened Domain
  import opened Ordering
  import opened Grouping
  import opened ClusterBuying

  // ---------- Where groups and candidates come from ----------

  lemma {:induction false} InQualifying(txns: seq<Transaction>)
    ensures forall t :: t in Qualifying(txns) <==> t in txns && Qualifies(t)
  {
    if txns != [] { InQualifying(txns[1..]); }
  }

  lemma {:induction false} BucketCounts(q: Group, cik: string)
    ensures forall x :: multiset(Bucket(q, cik))[x] == if x.cik == cik then multiset(q)[x] else 0
  {
    if q != [] {
      BucketCounts(q[..|q| - 1], cik);
      assert q == q[..|q| - 1] + [q[|q| - 1]];
    }
  }

  lemma CompanyListCounts(q: Group, cik: string)
    ensures Sorted(CompanyList(q, cik))
    ensures forall x :: multiset(CompanyList(q, cik))[x] == if x.cik == cik then multiset(q)[x] else 0
    ensures forall t :: t in CompanyList(q, cik) <==> t in q && t.cik == cik
  {
    BucketCounts(q, cik);
    SortedByDate(CompanyList(q, cik));
    forall t
      ensures t in CompanyList(q, cik) <==> t in q && t.cik == cik
    {
      assert t in CompanyList(q, cik) <==> multiset(CompanyList(q, cik))[t] > 0;
      assert t in q <==> multiset(q)[t] > 0;
    }
  }

  lemma {:induction false} CompaniesAreDistinct(q: Group)
    ensures forall k :: k in Companies(q) <==> exists t :: t in q && t.cik == k
    ensures forall i, j | 0 <= i < j < |Companies(q)| :: Companies(q)[i] != Companies(q)[j]
  {
    if q != [] {
      CompaniesAreDistinct(q[..|q| - 1]);
      assert q == q[..|q| - 1] + [q[|q| - 1]];
    }
  }

  lemma {:induction false} GroupOrigin(q: Group, ciks: seq<string>, window: int, g: Group)
    ensures g in GroupsOf(q, ciks, window) <==> exists k :: k in ciks && g in Groups(CompanyList(q, k), window)
  {
    if ciks != [] {
      GroupOrigin(q, ciks[1..], window, g);
    }
  }

  lemma {:induction false} ReportOrigin(gs: seq<Group>, c: ClusterCandidate)
    ensures c in FinalizeAll(gs) <==> exists g :: g in gs && FinalizeGroup(g) == Some(c)
  {
    if gs != [] {
      ReportOrigin(gs[1..], c);
    }
  }

  /** g is one of the groups into which the purchases at company `cik` fall. */
  ghost predicate IsGroupAt(txns: seq<Transaction>, window: int, cik: string, g: Group) {
    g in Groups(CompanyList(Qualifying(txns), cik), window)
  }

  /** The candidates are exactly the groups with two or more filers. */
  lemma CandidatesAreGroups(txns: seq<Transaction>, window: int, c: ClusterCandidate)
    ensures c in Detect(txns, window) <==>
      exists g :: IsGroupAt(txns, window, c.cik, g) && FinalizeGroup(g) == Some(c)
  {
    hide FinalizeAll, GroupsOf, Qualifying;
    var q := Qualifying(txns);
    ReportOrigin(AllGroups(txns, window), c);
    CompaniesAreDistinct(q);
    forall g | FinalizeGroup(g) == Some(c)
      ensures g in AllGroups(txns, window) <==> IsGroupAt(txns, window, c.cik, g)
    {
      GroupOrigin(q, Companies(q), window, g);
      forall k | g in Groups(CompanyList(q, k), window)
        ensures k == c.cik && k in Companies(q)
      {
        CompanyListCounts(q, k);
        GroupsAreParts(CompanyList(q, k), window);
        assert g[0] in g;
      }
    }
  }

  /** A group is a non-empty set of qualifying purchases at one company within one window, and a
      purchase belongs to it iff the group starts at the purchase's anchor. */
  lemma GroupMembers(txns: seq<Transaction>, window: nat, cik: string, g: Group)
    requires IsGroupAt(txns, window, cik, g)
    ensures g != [] && WithinWindow(g, window)
    ensures forall t | t in g :: t in txns && Qualifies(t) && t.cik == cik
    ensures forall t | t in txns && Qualifies(t) && t.cik == cik ::
      t in g <==> Anchor(CompanyList(Qualifying(txns), cik), window, t.transactionDate) == g[0].transactionDate
  {
    var s := CompanyList(Qualifying(txns), cik);
    InQualifying(txns);
    CompanyListCounts(Qualifying(txns), cik);
    GroupsAreParts(s, window);
    GroupsAreGreedy(s, window);
    var i :| 0 <= i < |Groups(s, window)| && Groups(s, window)[i] == g;
    forall t | t in s { GroupByAnchor(s, window, t, i); }
  }

  /** Every qualifying purchase lies in a group of its company. */
  lemma GroupOf(txns: seq<Transaction>, window: nat, t: Transaction) returns (g: Group)
    requires t in txns && Qualifies(t)
    ensures IsGroupAt(txns, window, t.cik, g) && t in g
  {
    var s := CompanyList(Qualifying(txns), t.cik);
    InQualifying(txns);
    CompanyListCounts(Qualifying(txns), t.cik);
    GroupsAreParts(s, window);
    var i := FlattenIndex(Groups(s, window), t);
    g := Groups(s, window)[i];
  }

  lemma GroupSpansItsDates(txns: seq<Transaction>, window: nat, cik: string, g: Group, t: Transaction)
    requires IsGroupAt(txns, window, cik, g) && t in g
    ensures g != [] && g[0].transactionDate <= t.transactionDate <= g[0].transactionDate + window
  {
    hide Groups;
    var s := CompanyList(Qualifying(txns), cik);
    CompanyListCounts(Qualifying(txns), cik);
    GroupsAreGreedy(s, window);
    GroupsAreParts(s, window);
    GroupByDates(s, window, g, t);
  }

  lemma {:induction false} GroupByDates(s: Group, window: nat, g: Group, t: Transaction)
    requires Sorted(s) && g in Groups(s, window) && t in g
    ensures g != [] && g[0].transactionDate <= t.transactionDate <= g[0].transactionDate + window
    decreases |s|
  {
    hide Sorted, FirstGroupSize;
    var h, rest := FirstGroup(s, window);
    if g != h {
      GroupByDates(rest, window, g, t);
    }
  }

  lemma SameStartSameGroup(s: Group, window: nat, g: Group, h: Group)
    requires Sorted(s) && g in Groups(s, window) && h in Groups(s, window)
    requires g != [] && h != []
    requires h[0].transactionDate <= g[0].transactionDate + window
      && g[0].transactionDate <= h[0].transactionDate + window
    ensures g == h
  {
    hide Sorted, Groups;
    GroupsAreGreedy(s, window);
    var gs := Groups(s, window);
    var i, j :| 0 <= i < |gs| && 0 <= j < |gs| && gs[i] == g && gs[j] == h;
  }

  /** A group is everything the company qualifies with within the window of its first date. */
  lemma GroupIsItsWindow(txns: seq<Transaction>, window: nat, cik: string, g: Group, t: Transaction)
    requires IsGroupAt(txns, window, cik, g) && t in txns && Qualifies(t) && t.cik == cik
    ensures g != []
    ensures t in g <==> g[0].transactionDate <= t.transactionDate <= g[0].transactionDate + window
  {
    hide Groups, Qualifying, CompanyList, Anchor;
    GroupMembers(txns, window, cik, g);
    if t in g {
      GroupSpansItsDates(txns, window, cik, g, t);
    } else if g[0].transactionDate <= t.transactionDate <= g[0].transactionDate + window {
      var h := GroupOf(txns, window, t);
      GroupSpansItsDates(txns, window, cik, h, t);
      CompanyListCounts(Qualifying(txns), cik);
      SameStartSameGroup(CompanyList(Qualifying(txns), cik), window, g, h);
    }
  }

  /** What a candidate reports, in terms of the input alone: it is made of exactly the qualifying
      purchases at its company dated within the window of its start, with their ids, their filers,
      their value, and their first and last dates. */
  lemma CandidateIsItsWindow(txns: seq<Transaction>, window: nat, c: ClusterCandidate) returns (g: Group)
    requires c in Detect(txns, window)
    ensures forall t | t in txns && Qualifies(t) && t.cik == c.cik ::
      t in g <==> c.windowStart <= t.transactionDate <= c.windowStart + window
    ensures forall t | t in g :: t in txns && Qualifies(t) && t.cik == c.cik && t.transactionDate <= c.windowEnd
    ensures exists t :: t in g && t.transactionDate == c.windowStart
    ensures exists t :: t in g && t.transactionDate == c.windowEnd
    ensures c.windowEnd - c.windowStart <= window
    ensures forall x :: x in c.transactionIds <==> exists t :: t in g && t.id == x
    ensures c.distinctFilerCount == |Identities(g)| >= 2 && c.totalValue == SumValues(g)
  {
    hide Detect, IsGroupAt;
    CandidatesAreGroups(txns, window, c);
    g :| IsGroupAt(txns, window, c.cik, g) && FinalizeGroup(g) == Some(c);
    GroupMembers(txns, window, c.cik, g);
    forall t | t in g
      ensures g[0].transactionDate <= t.transactionDate
    {
      GroupSpansItsDates(txns, window, c.cik, g, t);
    }
    assert g[0] in g;
    forall t | t in txns && Qualifies(t) && t.cik == c.cik { GroupIsItsWindow(txns, window, c.cik, g, t); }
  }

  /** A group with two filers is reported. */
  lemma GroupIsReported(txns: seq<Transaction>, window: nat, cik: string, g: Group)
    requires IsGroupAt(txns, window, cik, g) && |Identities(g)| >= 2
    ensures FinalizeGroup(g).Some? && FinalizeGroup(g).value in Detect(txns, window)
    ensures FinalizeGroup(g).value.cik == cik
  {
    GroupMembers(txns, window, cik, g);
    assert g[0] in g;
    CandidatesAreGroups(txns, window, FinalizeGroup(g).value);
  }

  // ---------- Conservation ----------

  lemma {:induction false} FlattenConcat<T>(a: seq<seq<T>>, b: seq<seq<T>>)
    ensures Flatten(a + b) == Flatten(a) + Flatten(b)
  {
    if a == [] {
      assert a + b == b;
    } else {
      assert (a + b)[1..] == a[1..] + b;
      FlattenConcat(a[1..], b);
    }
  }

  lemma {:induction false} QualifyingCounts(txns: seq<Transaction>)
    ensures forall x :: multiset(Qualifying(txns))[x] == if Qualifies(x) then multiset(txns)[x] else 0
  {
    if txns != [] {
      QualifyingCounts(txns[1..]);
      assert txns == [txns[0]] + txns[1..];
    }
  }

  lemma {:induction false} GroupsOfCounts(q: Group, ciks: seq<string>, window: int, x: Transaction)
    requires forall i, j | 0 <= i < j < |ciks| :: ciks[i] != ciks[j]
    ensures multiset(Flatten(GroupsOf(q, ciks, window)))[x] == if x.cik in ciks then multiset(q)[x] else 0
  {
    if ciks != [] {
      hide Groups, CompanyList;
      var here, others := Groups(CompanyList(q, ciks[0]), window), GroupsOf(q, ciks[1..], window);
      GroupsOfCounts(q, ciks[1..], window, x);
      CompanyListCounts(q, ciks[0]);
      GroupsAreParts(CompanyList(q, ciks[0]), window);
      FlattenConcat(here, others);
      assert multiset(Flatten(here + others))[x] == multiset(Flatten(here))[x] + multiset(Flatten(others))[x];
    }
  }

  /** Every qualifying purchase lands in exactly one group, as often as it occurs in the input. */
  lemma GroupsConserve(txns: seq<Transaction>, window: int)
    ensures multiset(Flatten(AllGroups(txns, window))) == multiset(Qualifying(txns))
  {
    var q := Qualifying(txns);
    CompaniesAreDistinct(q);
    forall x
      ensures multiset(Flatten(AllGroups(txns, window)))[x] == multiset(q)[x]
    {
      GroupsOfCounts(q, Companies(q), window, x);
      assert x in multiset(q) <==> x in q;
    }
  }

  /** The value of all groups together. */
  function TotalValue(gs: seq<Group>): real {
    if gs == [] then 0.0 else SumValues(gs[0]) + TotalValue(gs[1..])
  }

  lemma {:induction false} SumConcat(a: Group, b: Group)
    ensures SumValues(a + b) == SumValues(a) + SumValues(b)
  {
    if a == [] {
      assert a + b == b;
    } else {
      assert (a + b)[1..] == a[1..] + b;
      SumConcat(a[1..], b);
    }
  }

  lemma TakeOut(b: Group, x: Transaction) returns (rest: Group)
    requires x in b
    ensures multiset(b) == multiset(rest) + multiset{x}
    ensures SumValues(b) == PricedValue(x) + SumValues(rest)
  {
    var i :| 0 <= i < |b| && b[i] == x;
    var front, back := b[..i], b[i + 1..];
    rest := front + back;
    assert b == front + ([x] + back);
    SumConcat(front, [x] + back);
    SumConcat(front, back);
    assert ([x] + back)[1..] == back;
  }

  /** The sum does not depend on the order. */
  lemma {:induction false} SumPermutes(a: Group, b: Group)
    requires multiset(a) == multiset(b)
    ensures SumValues(a) == SumValues(b)
  {
    SameElements(a, b);
    if a != [] {
      var rest := TakeOut(b, a[0]);
      assert a == [a[0]] + a[1..];
      assert multiset(a) == multiset{a[0]} + multiset(a[1..]);
      assert multiset(a[1..]) == multiset(a) - multiset{a[0]} == multiset(rest);
      SumPermutes(a[1..], rest);
    }
  }

  lemma {:induction false} TotalIsSum(gs: seq<Group>)
    ensures TotalValue(gs) == SumValues(Flatten(gs))
  {
    if gs != [] {
      TotalIsSum(gs[1..]);
      SumConcat(gs[0], Flatten(gs[1..]));
    }
  }

  /** No priced value is lost or counted twice by the grouping. */
  lemma ValueIsConserved(txns: seq<Transaction>, window: int)
    ensures TotalValue(AllGroups(txns, window)) == SumValues(Qualifying(txns))
  {
    TotalIsSum(AllGroups(txns, window));
    GroupsConserve(txns, window);
    SumPermutes(Flatten(AllGroups(txns, window)), Qualifying(txns));
  }

  // ---------- The candidates of one company come by date ----------

  /** Of two candidates of one company, the later one starts more than the window after the earlier. */
  ghost predicate ByDate(cs: seq<ClusterCandidate>, window: int) {
    forall i, j | 0 <= i < j < |cs| && cs[i].cik == cs[j].cik :: cs[j].windowStart > cs[i].windowStart + window
  }

  lemma ByDateConcat(a: seq<ClusterCandidate>, b: seq<ClusterCandidate>, window: int)
    requires ByDate(a, window) && ByDate(b, window)
    requires forall c, d | c in a && d in b && c.cik == d.cik :: d.windowStart > c.windowStart + window
    ensures ByDate(a + b, window)
  {}

  lemma {:induction false} CompanyReportsByDate(s: Group, window: nat, cik: string)
    requires Sorted(s) && forall t | t in s :: t.cik == cik
    ensures ByDate(FinalizeAll(Groups(s, window)), window)
    ensures forall c | c in FinalizeAll(Groups(s, window)) ::
      c.cik == cik && s != [] && c.windowStart >= s[0].transactionDate
    decreases |s|
  {
    if s != [] {
      hide Sorted, ByDate, FinalizeGroup;
      var g, rest := FirstGroup(s, window);
      assert rest != [] ==> rest[0] in rest;
      CompanyReportsByDate(rest, window, cik);
      FirstReport(g, cik);
      var others := FinalizeAll(Groups(rest, window));
      assert ([g] + Groups(rest, window))[1..] == Groups(rest, window);
      ByDateConcat(ReportOf(g), others, window);
    }
  }

  lemma FirstReport(g: Group, cik: string)
    requires g != [] && g[0].cik == cik && forall t | t in g :: g[0].transactionDate <= t.transactionDate
    ensures forall c | c in ReportOf(g) :: c.cik == cik && c.windowStart == g[0].transactionDate
    ensures forall w :: ByDate(ReportOf(g), w)
  {
    assert g[0] in g;
  }

  lemma {:induction false} ReportsByDate(q: Group, ciks: seq<string>, window: nat)
    requires forall i, j | 0 <= i < j < |ciks| :: ciks[i] != ciks[j]
    ensures ByDate(FinalizeAll(GroupsOf(q, ciks, window)), window)
    ensures forall c | c in FinalizeAll(GroupsOf(q, ciks, window)) :: c.cik in ciks
  {
    if ciks != [] {
      hide ByDate, Groups, CompanyList;
      var here, others := Groups(CompanyList(q, ciks[0]), window), GroupsOf(q, ciks[1..], window);
      CompanyListCounts(q, ciks[0]);
      CompanyReportsByDate(CompanyList(q, ciks[0]), window, ciks[0]);
      ReportsByDate(q, ciks[1..], window);
      FinalizeAllConcat(here, others);
      ByDateConcat(FinalizeAll(here), FinalizeAll(others), window);
    }
  }

  /** Detection reports the clusters of one company in the order of their dates, each starting
      after the window of every earlier one. */
  lemma CandidatesByDate(txns: seq<Transaction>, window: nat)
    ensures ByDate(Detect(txns, window), window)
  {
    CompaniesAreDistinct(Qualifying(txns));
    ReportsByDate(Qualifying(txns), Companies(Qualifying(txns)), window);
  }

  // ---------- Candidates of one run are disjoint ----------

  ghost predicate NoSharedId(a: seq<Id>, b: seq<Id>) {
    forall x :: !(x in a && x in b)
  }

  ghost predicate PairwiseDisjoint(cs: seq<ClusterCandidate>) {
    forall i, j | 0 <= i < j < |cs| :: NoSharedId(cs[i].transactionIds, cs[j].transactionIds)
  }

  /** Ids are distinct exactly when they are in any other order of the same list. */
  lemma DistinctIdsPermute(a: seq<Transaction>, b: seq<Transaction>)
    requires multiset(a) == multiset(b) && DistinctIds(a)
    ensures DistinctIds(b)
  {
    SameElements(a, b);
    forall i, j | 0 <= i < j < |b|
      ensures b[i].id != b[j].id
    {
      if b[i].id == b[j].id {
        assert b[i] in a && b[j] in a;
        assert b[i] == b[j];
        TwiceIn(b, i, j);
        OnceIn(a, b[i]);
        assert false;
      }
    }
  }

  lemma TwiceIn(b: seq<Transaction>, i: nat, j: nat)
    requires i < j < |b| && b[i] == b[j]
    ensures multiset(b)[b[i]] >= 2
  {
    assert b == b[..j] + b[j..];
    assert b[i] in b[..j] && b[j] in b[j..];
  }

  lemma OnceIn(a: seq<Transaction>, t: Transaction)
    requires DistinctIds(a) && t in a
    ensures multiset(a)[t] == 1
  {
    var i :| 0 <= i < |a| && a[i] == t;
    assert a == a[..i] + [a[i]] + a[i + 1..];
    assert t !in a[..i] && t !in a[i + 1..];
  }

  lemma DistinctIdsSplit(a: seq<Transaction>, b: seq<Transaction>)
    requires DistinctIds(a + b)
    ensures DistinctIds(a) && DistinctIds(b)
    ensures forall t, u | t in a && u in b :: t.id != u.id
  {
    var s := a + b;
    assert forall i | 0 <= i < |a| :: s[i] == a[i];
    assert forall i | 0 <= i < |b| :: s[|a| + i] == b[i];
  }

  lemma {:induction false} ReportedIds(gs: seq<Group>, c: ClusterCandidate, x: Id)
    requires c in FinalizeAll(gs) && x in c.transactionIds
    ensures exists t :: t in Flatten(gs) && t.id == x
  {
    if c in ReportOf(gs[0]) {
      var t :| t in gs[0] && t.id == x;
      assert t in Flatten(gs);
    } else {
      ReportedIds(gs[1..], c, x);
    }
  }

  lemma {:induction false} DistinctGroupsAreDisjoint(gs: seq<Group>)
    requires DistinctIds(Flatten(gs))
    ensures PairwiseDisjoint(FinalizeAll(gs))
  {
    if gs != [] {
      DistinctIdsSplit(gs[0], Flatten(gs[1..]));
      DistinctGroupsAreDisjoint(gs[1..]);
      var cs := FinalizeAll(gs[1..]);
      forall c, d | c in ReportOf(gs[0]) && d in cs
        ensures NoSharedId(c.transactionIds, d.transactionIds)
      {
        forall x | x in d.transactionIds { ReportedIds(gs[1..], d, x); }
      }
    }
  }

  /** The candidates of one run share no transaction. */
  lemma CandidatesAreDisjoint(txns: seq<Transaction>, window: int)
    requires DistinctIds(txns)
    ensures PairwiseDisjoint(Detect(txns, window))
  {
    DistinctQualifying(txns);
    GroupsConserve(txns, window);
    DistinctIdsPermute(Qualifying(txns), Flatten(AllGroups(txns, window)));
    DistinctGroupsAreDisjoint(AllGroups(txns, window));
  }

  lemma {:induction false} DistinctQualifying(txns: seq<Transaction>)
    requires DistinctIds(txns)
    ensures DistinctIds(Qualifying(txns))
  {
    if txns != [] {
      assert txns == [txns[0]] + txns[1..];
      DistinctIdsSplit([txns[0]], txns[1..]);
      DistinctQualifying(txns[1..]);
      InQualifying(txns[1..]);
    }
  }
}
