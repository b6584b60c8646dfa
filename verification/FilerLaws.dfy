// Who counts as one filer in storage: the SEC filer id is never stored, and
// exactly when that changes which clusters are detected.
module FilerLaws {
  import opened Domain
  import opened Ordering
  import opened Grouping
  import opened ClusterBuying
  import opened DetectionLaws
  import opened Classify
  import opened Pipeline
  import opened RecordLaws
  import opened ClusterLaws
  import opened Invariants
  import TransactionRepo

  // ---------- Two stored transactions ----------

  /** In every reachable state two stored transactions count as by one filer exactly when their
      filers' normalized names agree, whatever SEC ids they arrived with. */
  lemma StoredFilersExactly(events: seq<Event>, t: Transaction, u: Transaction)
    requires t in Run(events).txns && u in Run(events).txns
    ensures FilerIdentity(t) == FilerIdentity(u) <==> NormalizedName(t.filerName) == NormalizedName(u.filerName)
  {
    hide Step, BuybacksOk, ClustersOk, TableOk, RowsOk, MailOk, NormalizedName;
    RunKeepsInv(events);
  }

  // ---------- A list without its ids ----------

  /** The list as it is stored: without the filer ids. */
  function WithoutIds(s: seq<Transaction>): (r: seq<Transaction>)
    ensures |r| == |s|
    ensures forall i | 0 <= i < |s| :: r[i] == TransactionRepo.Inserted(s[i])
  {
    seq(|s|, i requires 0 <= i < |s| => TransactionRepo.Inserted(s[i]))
  }

  function AllWithoutIds(gs: seq<Group>): (r: seq<Group>)
    ensures |r| == |gs|
    ensures forall i | 0 <= i < |gs| :: r[i] == WithoutIds(gs[i])
  {
    seq(|gs|, i requires 0 <= i < |gs| => WithoutIds(gs[i]))
  }

  lemma WithoutIdsConcat(a: seq<Transaction>, b: seq<Transaction>)
    ensures WithoutIds(a + b) == WithoutIds(a) + WithoutIds(b)
  {}

  lemma WithoutIdsSnoc(a: seq<Transaction>, t: Transaction)
    ensures WithoutIds(a + [t]) == WithoutIds(a) + [TransactionRepo.Inserted(t)]
    ensures WithoutIds(a + [t])[..|a|] == WithoutIds(a)
  {}

  lemma {:induction false} QualifyingWithoutIds(s: seq<Transaction>)
    ensures Qualifying(WithoutIds(s)) == WithoutIds(Qualifying(s))
  {
    if s != [] {
      assert WithoutIds(s)[1..] == WithoutIds(s[1..]);
      QualifyingWithoutIds(s[1..]);
    }
  }

  lemma {:induction false} LiveWithoutIds(s: seq<Transaction>)
    ensures Live(WithoutIds(s)) == WithoutIds(Live(s))
  {
    if s != [] {
      assert WithoutIds(s)[1..] == WithoutIds(s[1..]);
      LiveWithoutIds(s[1..]);
    }
  }

  lemma {:induction false} CompaniesWithoutIds(q: Group)
    ensures Companies(WithoutIds(q)) == Companies(q)
  {
    if q != [] {
      assert WithoutIds(q)[..|q| - 1] == WithoutIds(q[..|q| - 1]);
      CompaniesWithoutIds(q[..|q| - 1]);
    }
  }

  lemma {:induction false} BucketWithoutIds(q: Group, cik: string)
    ensures Bucket(WithoutIds(q), cik) == WithoutIds(Bucket(q, cik))
  {
    if q != [] {
      assert WithoutIds(q)[..|q| - 1] == WithoutIds(q[..|q| - 1]);
      BucketWithoutIds(q[..|q| - 1], cik);
    }
  }

  /** The key does not look at the filer id. */
  ghost predicate IgnoresIds(key: Transaction -> int) {
    forall t :: key(TransactionRepo.Inserted(t)) == key(t)
  }

  lemma SortedWithoutIds(s: seq<Transaction>, key: Transaction -> int)
    requires IgnoresIds(key)
    ensures SortedBy(WithoutIds(s), key) <==> SortedBy(s, key)
  {
    assert forall i | 0 <= i < |s| :: key(WithoutIds(s)[i]) == key(s[i]);
  }

  lemma {:induction false} InsertWithoutIds(s: seq<Transaction>, x: Transaction, key: Transaction -> int)
    requires IgnoresIds(key) && SortedBy(s, key) && SortedBy(WithoutIds(s), key)
    ensures Insert(WithoutIds(s), TransactionRepo.Inserted(x), key) == WithoutIds(Insert(s, x, key))
  {
    var r, y := WithoutIds(s), TransactionRepo.Inserted(x);
    assert key(y) == key(x) && (s != [] ==> key(r[|s| - 1]) == key(s[|s| - 1]));
    hide SortedBy, Insert, IgnoresIds, TransactionRepo.Inserted;
    if s != [] && key(s[|s| - 1]) > key(x) {
      var front, last := s[..|s| - 1], s[|s| - 1];
      SortedFront(s, key);
      SortedWithoutIds(front, key);
      assert s == front + [last];
      WithoutIdsSnoc(front, last);
      InsertBefore(s, x, key);
      InsertBefore(r, y, key);
      InsertWithoutIds(front, x, key);
      WithoutIdsSnoc(Insert(front, x, key), last);
    } else {
      InsertLast(s, x, key);
      InsertLast(r, y, key);
      WithoutIdsSnoc(s, x);
    }
  }

  lemma InsertBefore(s: seq<Transaction>, x: Transaction, key: Transaction -> int)
    requires SortedBy(s, key) && s != [] && key(s[|s| - 1]) > key(x)
    ensures SortedBy(s[..|s| - 1], key)
    ensures Insert(s, x, key) == Insert(s[..|s| - 1], x, key) + [s[|s| - 1]]
  {}

  lemma {:induction false} SortWithoutIds(s: seq<Transaction>, key: Transaction -> int)
    requires IgnoresIds(key)
    ensures StableSort(WithoutIds(s), key) == WithoutIds(StableSort(s, key))
  {
    if s != [] {
      var front := s[..|s| - 1];
      assert WithoutIds(s)[..|s| - 1] == WithoutIds(front);
      SortWithoutIds(front, key);
      SortedWithoutIds(StableSort(front, key), key);
      InsertWithoutIds(StableSort(front, key), s[|s| - 1], key);
    }
  }

  lemma {:induction false} PrefixWithoutIds(s: Group, limit: Day)
    ensures PrefixUpTo(WithoutIds(s), limit) == PrefixUpTo(s, limit)
  {
    if s != [] && s[0].transactionDate <= limit {
      assert WithoutIds(s)[1..] == WithoutIds(s[1..]);
      PrefixWithoutIds(s[1..], limit);
    }
  }

  lemma FirstGroupWithoutIds(s: Group, window: int)
    requires s != []
    ensures FirstGroupSize(WithoutIds(s), window) == FirstGroupSize(s, window)
  {
    assert WithoutIds(s)[1..] == WithoutIds(s[1..]);
    PrefixWithoutIds(s[1..], s[0].transactionDate + window);
  }

  lemma AllWithoutIdsConcat(gs: seq<Group>, hs: seq<Group>)
    ensures AllWithoutIds(gs + hs) == AllWithoutIds(gs) + AllWithoutIds(hs)
  {}

  lemma {:induction false} GroupsWithoutIds(s: Group, window: int)
    ensures Groups(WithoutIds(s), window) == AllWithoutIds(Groups(s, window))
    decreases |s|
  {
    if s != [] {
      FirstGroupWithoutIds(s, window);
      var n := FirstGroupSize(s, window);
      var g, rest := s[..n], s[n..];
      assert s == g + rest;
      hide FirstGroupSize;
      WithoutIdsConcat(g, rest);
      GroupsUnfold(s, g, rest, window);
      GroupsUnfold(WithoutIds(s), WithoutIds(g), WithoutIds(rest), window);
      hide Groups;
      GroupsWithoutIds(rest, window);
      AllWithoutIdsConcat([g], Groups(rest, window));
      assert AllWithoutIds([g]) == [WithoutIds(g)];
    }
  }

  lemma CompanyListWithoutIds(q: Group, cik: string)
    ensures CompanyList(WithoutIds(q), cik) == WithoutIds(CompanyList(q, cik))
  {
    BucketWithoutIds(q, cik);
    SortWithoutIds(Bucket(q, cik), TransactionDate);
  }

  lemma {:induction false} GroupsOfWithoutIds(q: Group, ciks: seq<string>, window: int)
    ensures GroupsOf(WithoutIds(q), ciks, window) == AllWithoutIds(GroupsOf(q, ciks, window))
  {
    if ciks != [] {
      hide CompanyList, Groups;
      var here, others := Groups(CompanyList(q, ciks[0]), window), GroupsOf(q, ciks[1..], window);
      CompanyListWithoutIds(q, ciks[0]);
      GroupsWithoutIds(CompanyList(q, ciks[0]), window);
      GroupsOfWithoutIds(q, ciks[1..], window);
      AllWithoutIdsConcat(here, others);
    }
  }

  /** Dropping the ids changes no group. */
  lemma GroupsDoNotSeeIds(txns: seq<Transaction>, window: int)
    ensures AllGroups(WithoutIds(txns), window) == AllWithoutIds(AllGroups(txns, window))
  {
    QualifyingWithoutIds(txns);
    CompaniesWithoutIds(Qualifying(txns));
    GroupsOfWithoutIds(Qualifying(txns), Companies(Qualifying(txns)), window);
  }

  // ---------- What is reported about a group without its ids ----------

  function Names(g: Group): set<string> {
    set t | t in g :: NormalizedName(t.filerName)
  }

  /** What is reported about a group with n distinct filers. */
  function ReportWith(g: Group, n: nat): Option<ClusterCandidate>
    requires g != []
  {
    if n < 2 then None
    else Some(ClusterCandidate(g[0].companyName, g[0].ticker, g[0].cik, MinDate(g), MaxDate(g), n, SumValues(g),
      Ids(g)))
  }

  lemma {:induction false} CountByName(names: set<string>)
    ensures |set n | n in names :: ByName(n)| == |names|
  {
    if names != {} {
      var x :| x in names;
      CountByName(names - {x});
      assert (set n | n in names :: ByName(n)) == (set n | n in names - {x} :: ByName(n)) + {ByName(x)};
    }
  }

  lemma IdentitiesWithoutIds(g: Group)
    ensures |Identities(WithoutIds(g))| == |Names(g)|
  {
    hide NormalizedName;
    var ids, named := Identities(WithoutIds(g)), set n | n in Names(g) :: ByName(n);
    forall t | t in WithoutIds(g)
      ensures FilerIdentity(t) in named
    {
      var i :| 0 <= i < |g| && t == TransactionRepo.Inserted(g[i]);
      assert NormalizedName(g[i].filerName) in Names(g);
    }
    forall t | t in g
      ensures ByName(NormalizedName(t.filerName)) in ids
    {
      var i :| 0 <= i < |g| && t == g[i];
      assert WithoutIds(g)[i] in WithoutIds(g);
    }
    assert ids == named;
    CountByName(Names(g));
  }

  lemma ValueWithoutId(t: Transaction)
    ensures PricedValue(TransactionRepo.Inserted(t)) == PricedValue(t)
  {
    var stored := TransactionRepo.Inserted(t);
    assert stored.shareCount == t.shareCount && stored.pricePerShare == t.pricePerShare;
    if t.pricePerShare.Some? {
      assert stored.shareCount * stored.pricePerShare.value == t.shareCount * t.pricePerShare.value;
    }
  }

  lemma {:induction false} SumWithoutIds(g: Group)
    ensures SumValues(WithoutIds(g)) == SumValues(g)
  {
    if g != [] {
      hide PricedValue;
      assert WithoutIds(g)[1..] == WithoutIds(g[1..]);
      SumWithoutIds(g[1..]);
      ValueWithoutId(g[0]);
    }
  }

  lemma {:induction false} IdsWithoutFilers(g: Group)
    ensures Ids(WithoutIds(g)) == Ids(g)
  {
    if g != [] {
      assert WithoutIds(g)[1..] == WithoutIds(g[1..]);
      IdsWithoutFilers(g[1..]);
    }
  }

  function Dates(g: Group): set<Day> {
    set t | t in g :: t.transactionDate
  }

  lemma SameDates(g: Group, h: Group)
    requires g != [] && h != [] && Dates(g) == Dates(h)
    ensures MinDate(g) == MinDate(h) && MaxDate(g) == MaxDate(h)
  {
    hide MinDate, MaxDate;
    assert MinDate(g) in Dates(g) && MaxDate(g) in Dates(g);
    assert MinDate(h) in Dates(h) && MaxDate(h) in Dates(h);
  }

  lemma DatesWithoutIds(g: Group)
    requires g != []
    ensures MinDate(WithoutIds(g)) == MinDate(g) && MaxDate(WithoutIds(g)) == MaxDate(g)
  {
    var h := WithoutIds(g);
    forall d
      ensures d in Dates(g) <==> d in Dates(h)
    {
      if d in Dates(g) {
        var i :| 0 <= i < |g| && g[i].transactionDate == d;
        assert h[i] in h;
      }
      if d in Dates(h) {
        var i :| 0 <= i < |h| && h[i].transactionDate == d;
        assert g[i] in g;
      }
    }
    SameDates(g, h);
  }

  /** The reported fields other than the count do not depend on the ids. */
  lemma PartsWithoutIds(g: Group)
    requires g != []
    ensures SumValues(WithoutIds(g)) == SumValues(g) && Ids(WithoutIds(g)) == Ids(g)
    ensures MinDate(WithoutIds(g)) == MinDate(g) && MaxDate(WithoutIds(g)) == MaxDate(g)
  {
    SumWithoutIds(g);
    IdsWithoutFilers(g);
    DatesWithoutIds(g);
  }

  lemma Reports(g: Group)
    requires g != []
    ensures FinalizeGroup(g) == ReportWith(g, |Identities(g)|)
    ensures FinalizeGroup(WithoutIds(g)) == ReportWith(g, |Names(g)|)
  {
    hide Identities, Names, SumValues, MinDate, MaxDate, Ids, TransactionRepo.Inserted;
    IdentitiesWithoutIds(g);
    PartsWithoutIds(g);
    SameHeader(g);
  }

  lemma SameHeader(g: Group)
    requires g != []
    ensures WithoutIds(g)[0].companyName == g[0].companyName && WithoutIds(g)[0].ticker == g[0].ticker
    ensures WithoutIds(g)[0].cik == g[0].cik
  {}

  /** The group counts as many filers by id as by name, or too few for a cluster either way. */
  ghost predicate CountsAlike(g: Group) {
    |Identities(g)| == |Names(g)| || (|Identities(g)| < 2 && |Names(g)| < 2)
  }

  lemma AlikeExactly(g: Group)
    requires g != []
    ensures CountsAlike(g) <==> ReportOf(WithoutIds(g)) == ReportOf(g)
  {
    hide Identities, Names, FinalizeGroup;
    Reports(g);
  }

  lemma {:induction false} FlattenWithoutIds(gs: seq<Group>)
    ensures Flatten(AllWithoutIds(gs)) == WithoutIds(Flatten(gs))
  {
    if gs != [] {
      assert AllWithoutIds(gs)[1..] == AllWithoutIds(gs[1..]);
      FlattenWithoutIds(gs[1..]);
    }
  }

  lemma {:induction false} NotAmongReports(gs: seq<Group>, x: Id)
    requires forall t | t in Flatten(gs) :: t.id != x
    ensures forall c | c in FinalizeAll(gs) :: x !in c.transactionIds
  {
    if gs != [] {
      assert forall t | t in gs[0] || t in Flatten(gs[1..]) :: t in Flatten(gs);
      NotAmongReports(gs[1..], x);
    }
  }

  /** No group's report is among the reports of groups that share no transaction with it. */
  lemma NotReportedElsewhere(g: Group, gs: seq<Group>, n: nat)
    requires g != [] && n >= 2 && forall t, u | t in g && u in Flatten(gs) :: t.id != u.id
    ensures ReportWith(g, n).value !in FinalizeAll(gs) && ReportWith(g, n).value !in FinalizeAll(AllWithoutIds(gs))
  {
    hide FinalizeAll, MinDate, MaxDate, SumValues, Flatten;
    var c, x := ReportWith(g, n).value, g[0].id;
    assert g[0] in g && x in c.transactionIds;
    NotAmongReports(gs, x);
    FlattenWithoutIds(gs);
    forall t | t in WithoutIds(Flatten(gs))
      ensures t.id != x
    {
      var i :| 0 <= i < |Flatten(gs)| && t == TransactionRepo.Inserted(Flatten(gs)[i]);
      assert Flatten(gs)[i] in Flatten(gs);
    }
    NotAmongReports(AllWithoutIds(gs), x);
  }

  /** The heads of two equal lists of reports are equal when neither can come later in the other. */
  lemma SameHeads(a: seq<ClusterCandidate>, b: seq<ClusterCandidate>, rest: seq<ClusterCandidate>,
      others: seq<ClusterCandidate>)
    requires |a| <= 1 && |b| <= 1
    requires forall c | c in a || c in b :: c !in rest && c !in others
    ensures a + rest == b + others <==> a == b && rest == others
  {
    var whole := a + rest;
    if whole == b + others {
      assert a == [] ==> whole == rest;
      assert b == [] ==> whole == others;
      assert whole != [] ==> whole[0] in whole;
      assert (a != [] ==> whole[0] == a[0]) && (b != [] ==> whole[0] == b[0]);
      assert |a| == |b|;
      assert rest == whole[|a|..] && others == whole[|b|..];
    }
  }

  lemma {:induction false} SameReportsExactly(gs: seq<Group>)
    requires DistinctIds(Flatten(gs)) && forall g | g in gs :: g != []
    ensures FinalizeAll(AllWithoutIds(gs)) == FinalizeAll(gs) <==> forall g | g in gs :: CountsAlike(g)
  {
    if gs != [] {
      hide ReportOf, CountsAlike, DistinctIds;
      var g, rest := gs[0], gs[1..];
      assert g in gs && gs == [g] + rest && AllWithoutIds(gs)[1..] == AllWithoutIds(rest);
      assert forall h | h in rest :: h in gs;
      DistinctIdsSplit(g, Flatten(rest));
      SameReportsExactly(rest);
      AlikeExactly(g);
      LoneReports(g, rest);
      SameHeads(ReportOf(WithoutIds(g)), ReportOf(g), FinalizeAll(AllWithoutIds(rest)), FinalizeAll(rest));
    }
  }

  lemma LoneReports(g: Group, rest: seq<Group>)
    requires g != [] && forall t, u | t in g && u in Flatten(rest) :: t.id != u.id
    ensures |ReportOf(g)| <= 1 && |ReportOf(WithoutIds(g))| <= 1
    ensures forall c | c in ReportOf(g) || c in ReportOf(WithoutIds(g)) ::
      c !in FinalizeAll(rest) && c !in FinalizeAll(AllWithoutIds(rest))
  {
    hide FinalizeAll, FinalizeGroup, Identities, Names;
    Reports(g);
    if |Identities(g)| >= 2 { NotReportedElsewhere(g, rest, |Identities(g)|); }
    if |Names(g)| >= 2 { NotReportedElsewhere(g, rest, |Names(g)|); }
  }

  // ---------- Detection with and without the ids ----------

  lemma {:induction false} GroupsNotEmpty(q: Group, ciks: seq<string>, window: int)
    ensures forall g | g in GroupsOf(q, ciks, window) :: g != []
  {
    if ciks != [] {
      GroupsAreParts(CompanyList(q, ciks[0]), window);
      GroupsNotEmpty(q, ciks[1..], window);
    }
  }

  /** Detection reports the same with the filer ids as without them if and only if every group
      counts as many filers by id as by name, or too few for a cluster either way. */
  lemma IdsMatterExactly(txns: seq<Transaction>, window: int)
    requires DistinctIds(txns)
    ensures Detect(WithoutIds(txns), window) == Detect(txns, window) <==> forall g | g in AllGroups(txns, window) ::
      CountsAlike(g)
  {
    hide DistinctIds, CountsAlike;
    GroupsDoNotSeeIds(txns, window);
    GroupsNotEmpty(Qualifying(txns), Companies(Qualifying(txns)), window);
    DistinctQualifying(txns);
    GroupsConserve(txns, window);
    DistinctIdsPermute(Qualifying(txns), Flatten(AllGroups(txns, window)));
    SameReportsExactly(AllGroups(txns, window));
  }

  /** The same of every reachable table: whatever ids its filings had been given, the clusters
      detected from it are those that the ids would yield if and only if, in every group, ids and
      names count alike. */
  lemma StorageKeepsClustersExactly(events: seq<Event>, filed: seq<Transaction>, window: int)
    requires WithoutIds(filed) == Run(events).txns
    ensures Candidates(Run(events).txns, window) == Candidates(filed, window) <==>
      forall g | g in AllGroups(Live(TransactionRepo.Listed(filed)), window) :: CountsAlike(g)
  {
    hide Step, Inv, CountsAlike, Detect, AllGroups, StableSort, Live;
    assert DistinctIds(filed) by {
      RunKeepsInv(events);
      StoredIdsDistinct(Run(events));
      assert forall i | 0 <= i < |filed| :: filed[i].id == Run(events).txns[i].id;
    }
    var listed := TransactionRepo.Listed(filed);
    SortWithoutIds(filed, NewestFirst);
    LiveWithoutIds(listed);
    ListedIsPermutation(filed);
    LiveAre(listed);
    IdsMatterExactly(Live(listed), window);
  }

  lemma StoredIdsDistinct(s: State)
    requires Inv(s)
    ensures DistinctIds(s.txns)
  {
    hide BuybacksOk, ClustersOk, TableOk, RowsOk, MailOk;
    TransactionsHaveDistinctIds(s.txns);
  }
}
