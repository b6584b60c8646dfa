// Cluster detection: which discretionary purchases at one company form a
// cluster, and what is reported about each.
module ClusterBuying {
  import opened Domain
  import opened Ordering
  import opened Grouping

  // ---------- Who bought ----------

  datatype Identity = ById(filerId: string) | ByName(name: string)

  function FilerIdentity(t: Transaction): Identity {
    if t.filerId.Some? && t.filerId.value != "" then ById(t.filerId.value)
    else ByName(NormalizedName(t.filerName))
  }

  function NormalizedName(name: string): string {
    Lower(StripRight(StripLeft(name)))
  }

  predicate IsSpace(c: char) { c == ' ' || c == '\t' || c == '\n' || c == '\r' }

  function StripLeft(s: string): string {
    if s != "" && IsSpace(s[0]) then StripLeft(s[1..]) else s
  }

  function StripRight(s: string): string {
    if s != "" && IsSpace(s[|s| - 1]) then StripRight(s[..|s| - 1]) else s
  }

  function Lower(s: string): string {
    if s == "" then ""
    else [if 'A' <= s[0] <= 'Z' then s[0] - 'A' + 'a' else s[0]] + Lower(s[1..])
  }

  function Identities(g: Group): set<Identity> {
    set t | t in g :: FilerIdentity(t)
  }

  // ---------- What is reported about one group ----------

  function PricedValue(t: Transaction): real {
    if t.TotalValue().Some? then t.TotalValue().value else 0.0
  }

  function SumValues(g: Group): real {
    if g == [] then 0.0 else PricedValue(g[0]) + SumValues(g[1..])
  }

  function MinDate(g: Group): (d: Day)
    requires g != []
    ensures (exists t :: t in g && t.transactionDate == d) && forall t | t in g :: d <= t.transactionDate
  {
    if |g| == 1 then g[0].transactionDate
    else
      var m := MinDate(g[1..]);
      if g[0].transactionDate <= m then g[0].transactionDate else m
  }

  function MaxDate(g: Group): (d: Day)
    requires g != []
    ensures (exists t :: t in g && t.transactionDate == d) && forall t | t in g :: t.transactionDate <= d
  {
    if |g| == 1 then g[0].transactionDate
    else
      var m := MaxDate(g[1..]);
      if g[0].transactionDate >= m then g[0].transactionDate else m
  }

  function Ids(g: Group): (ids: seq<Id>)
    ensures |ids| == |g|
    ensures forall x :: x in ids <==> exists t :: t in g && t.id == x
  {
    if g == [] then []
    else
      var rest := Ids(g[1..]);
      assert g == [g[0]] + g[1..];
      [g[0].id] + rest
  }

  function FinalizeGroup(g: Group): Option<ClusterCandidate> {
    if g == [] then None
    else if |Identities(g)| < 2 then None
    else Some(ClusterCandidate(
      g[0].companyName, g[0].ticker, g[0].cik,
      MinDate(g), MaxDate(g), |Identities(g)|, SumValues(g), Ids(g)))
  }

  function ReportOf(g: Group): seq<ClusterCandidate> {
    if FinalizeGroup(g).Some? then [FinalizeGroup(g).value] else []
  }

  function FinalizeAll(gs: seq<Group>): seq<ClusterCandidate> {
    if gs == [] then [] else ReportOf(gs[0]) + FinalizeAll(gs[1..])
  }

  // ---------- Detection ----------

  predicate Qualifies(t: Transaction) {
    t.transactionType == Buy && t.isDiscretionary && t.supersededBy == None
  }

  function Qualifying(txns: seq<Transaction>): Group {
    if txns == [] then []
    else (if Qualifies(txns[0]) then [txns[0]] else []) + Qualifying(txns[1..])
  }

  /** The companies in the order in which they first appear. */
  function Companies(q: Group): seq<string> {
    if q == [] then []
    else
      var before := Companies(q[..|q| - 1]);
      if q[|q| - 1].cik in before then before else before + [q[|q| - 1].cik]
  }

  function Bucket(q: Group, cik: string): Group {
    if q == [] then []
    else Bucket(q[..|q| - 1], cik) + (if q[|q| - 1].cik == cik then [q[|q| - 1]] else [])
  }

  function CompanyList(q: Group, cik: string): Group {
    StableSort(Bucket(q, cik), TransactionDate)
  }

  function GroupsOf(q: Group, ciks: seq<string>, window: int): seq<Group> {
    if ciks == [] then []
    else Groups(CompanyList(q, ciks[0]), window) + GroupsOf(q, ciks[1..], window)
  }

  /** All groups of all companies, with and without enough filers. */
  function AllGroups(txns: seq<Transaction>, window: int): seq<Group> {
    GroupsOf(Qualifying(txns), Companies(Qualifying(txns)), window)
  }

  function Detect(txns: seq<Transaction>, window: int): seq<ClusterCandidate> {
    FinalizeAll(AllGroups(txns, window))
  }

  lemma {:induction false} FinalizeAllConcat(gs: seq<Group>, hs: seq<Group>)
    ensures FinalizeAll(gs + hs) == FinalizeAll(gs) + FinalizeAll(hs)
  {
    hide ReportOf;
    if gs == [] {
      assert gs + hs == hs;
    } else {
      assert (gs + hs)[1..] == gs[1..] + hs;
      FinalizeAllConcat(gs[1..], hs);
    }
  }

  lemma NothingToGroup(window: int)
    ensures Groups([], window) == [] && FinalizeAll([]) == [] && FinalizeGroup([]) == None
  {}

  /** `group` is the run of s from `start` up to i, all of it within the window of its first date. */
  ghost predicate IsOpenGroup(s: Group, start: nat, i: nat, group: Group, window: int) {
    && start <= i <= |s| && group == s[start..i] && (i > 0 ==> start < i)
    && (group != [] ==> forall t | t in group[1..] :: t.transactionDate - group[0].transactionDate <= window)
  }

  lemma GroupOpens(s: Group, i: nat, window: int)
    requires i < |s|
    ensures IsOpenGroup(s, i, i + 1, [s[i]], window)
  {
    assert s[i..i + 1] == [s[i]];
  }

  lemma GroupExtends(s: Group, start: nat, i: nat, group: Group, window: int)
    requires i < |s| && IsOpenGroup(s, start, i, group, window) && group != []
    requires s[i].transactionDate - group[0].transactionDate <= window
    ensures IsOpenGroup(s, start, i + 1, group + [s[i]], window)
  {
    assert s[start..i + 1] == group + [s[i]];
    assert (group + [s[i]])[1..] == group[1..] + [s[i]];
  }

  lemma GroupCloses(s: Group, start: nat, i: nat, group: Group, window: int)
    requires IsOpenGroup(s, start, i, group, window) && i > 0
    requires i < |s| ==> s[i].transactionDate - s[start].transactionDate > window
    ensures group != [] && group[0] == s[start]
    ensures Groups(s[start..], window) == [group] + Groups(s[i..], window)
  {
    assert s[start..] == s[start..i] + s[i..];
    CutIsUnique(s[start..], s[start..i], s[i..], window);
  }

  /** The reports of the groups before `start` are made. */
  ghost predicate Reported(s: Group, start: nat, candidates: seq<ClusterCandidate>, window: int) {
    start <= |s| && FinalizeAll(Groups(s, window)) == candidates + FinalizeAll(Groups(s[start..], window))
  }

  lemma NothingReported(s: Group, window: int)
    ensures Reported(s, 0, [], window) && IsOpenGroup(s, 0, 0, [], window)
  {
    assert s[0..] == s;
  }

  lemma GroupReports(s: Group, start: nat, i: nat, group: Group, window: int, before: seq<ClusterCandidate>)
    requires IsOpenGroup(s, start, i, group, window) && i > 0 && Reported(s, start, before, window)
    requires i < |s| ==> s[i].transactionDate - s[start].transactionDate > window
    ensures Reported(s, i, if FinalizeGroup(group).Some? then before + [FinalizeGroup(group).value] else before, window)
  {
    hide FinalizeGroup, Groups;
    GroupCloses(s, start, i, group, window);
    var rest := Groups(s[i..], window);
    assert ([group] + rest)[1..] == rest;
  }

  lemma AllReported(s: Group, candidates: seq<ClusterCandidate>, window: int)
    requires Reported(s, |s|, candidates, window)
    ensures candidates == FinalizeAll(Groups(s, window))
  {
    assert s[|s|..] == [];
    NothingToGroup(window);
  }

  lemma OpenGroupIs(s: Group, start: nat, i: nat, group: Group, window: int)
    requires IsOpenGroup(s, start, i, group, window)
    ensures start <= i <= |s| && (i > 0 <==> group != [])
    ensures i > 0 ==> start < i && group[0] == s[start]
  {}

  /** The inner loop: one company's purchases, already sorted. */
  method GroupCompany(companyTxns: Group, windowDays: int) returns (candidates: seq<ClusterCandidate>)
    ensures candidates == FinalizeAll(Groups(companyTxns, windowDays))
  {
    hide *;
    candidates := [];
    var group: Group := [];
    ghost var start := 0;
    NothingReported(companyTxns, windowDays);
    NothingToGroup(windowDays);
    for i := 0 to |companyTxns|
      invariant 0 <= start <= i && IsOpenGroup(companyTxns, start, i, group, windowDays)
      invariant Reported(companyTxns, start, candidates, windowDays)
    {
      OpenGroupIs(companyTxns, start, i, group, windowDays);
      var txn := companyTxns[i];
      if group == [] {
        GroupOpens(companyTxns, i, windowDays);
        group := [txn];
      } else {
        var groupStart := group[0].transactionDate;
        if txn.transactionDate - groupStart <= windowDays {
          GroupExtends(companyTxns, start, i, group, windowDays);
          group := group + [txn];
        } else {
          GroupReports(companyTxns, start, i, group, windowDays, candidates);
          GroupOpens(companyTxns, i, windowDays);
          var candidate := FinalizeGroup(group);
          if candidate.Some? {
            candidates := candidates + [candidate.value];
          }
          group := [txn];
          start := i;
        }
      }
    }
    OpenGroupIs(companyTxns, start, |companyTxns|, group, windowDays);
    if companyTxns != [] {
      GroupReports(companyTxns, start, |companyTxns|, group, windowDays, candidates);
    }
    var candidate := FinalizeGroup(group);
    if candidate.Some? {
      candidates := candidates + [candidate.value];
    }
    AllReported(companyTxns, candidates, windowDays);
  }

  lemma NextPurchase(q: Group, i: nat)
    requires i < |q|
    ensures Companies(q[..i + 1]) == Companies(q[..i]) + if q[i].cik in Companies(q[..i]) then [] else [q[i].cik]
    ensures forall k :: Bucket(q[..i + 1], k) == if k == q[i].cik then Bucket(q[..i], k) + [q[i]] else Bucket(q[..i], k)
  {
    assert q[..i + 1][..i] == q[..i];
  }

  lemma NoPurchases()
    ensures Companies([]) == [] && forall k :: Bucket([], k) == []
  {}

  /** The dict of lists, with its keys in insertion order. */
  method BucketByCompany(qualifying: Group) returns (order: seq<string>, byCompany: map<string, Group>)
    ensures order == Companies(qualifying)
    ensures forall k | k in order :: k in byCompany && byCompany[k] == Bucket(qualifying, k)
  {
    hide *;
    order, byCompany := [], map[];
    NoPurchases();
    assert qualifying[..0] == [];
    for i := 0 to |qualifying|
      invariant order == Companies(qualifying[..i])
      invariant forall k :: k in byCompany <==> k in order
      invariant forall k :: Bucket(qualifying[..i], k) == if k in byCompany then byCompany[k] else []
    {
      var txn := qualifying[i];
      NextPurchase(qualifying, i);
      if txn.cik !in byCompany {
        order := order + [txn.cik];
        byCompany := byCompany[txn.cik := []];
      }
      byCompany := byCompany[txn.cik := byCompany[txn.cik] + [txn]];
    }
    assert qualifying[..|qualifying|] == qualifying;
  }

  /** detect_clusters: buckets in order of first appearance, each sorted and grouped. */
  method DetectClusters(transactions: seq<Transaction>, windowDays: int) returns (candidates: seq<ClusterCandidate>)
    ensures candidates == Detect(transactions, windowDays)
  {
    hide *;
    var qualifying := Qualifying(transactions);
    var order, byCompany := BucketByCompany(qualifying);
    DetectUnfolds(transactions, windowDays);
    candidates := [];
    for i := 0 to |order|
      invariant Detect(transactions, windowDays) ==
        candidates + FinalizeAll(GroupsOf(qualifying, order[i..], windowDays))
    {
      assert order[i] in order;
      var companyTxns := StableSort(byCompany[order[i]], TransactionDate);
      var found := GroupCompany(companyTxns, windowDays);
      NextCompany(qualifying, order, i, windowDays);
      candidates := candidates + found;
    }
    assert order[|order|..] == [];
    DetectUnfolds(transactions, windowDays);
  }

  lemma DetectUnfolds(txns: seq<Transaction>, window: int)
    ensures Detect(txns, window) == FinalizeAll(GroupsOf(Qualifying(txns), Companies(Qualifying(txns)), window))
    ensures Companies(Qualifying(txns))[0..] == Companies(Qualifying(txns))
    ensures FinalizeAll(GroupsOf(Qualifying(txns), [], window)) == []
  {}

  lemma NextCompany(q: Group, order: seq<string>, i: nat, window: int)
    requires i < |order|
    ensures FinalizeAll(GroupsOf(q, order[i..], window))
      == FinalizeAll(Groups(StableSort(Bucket(q, order[i]), TransactionDate), window))
        + FinalizeAll(GroupsOf(q, order[i + 1..], window))
  {
    hide FinalizeAll, Groups, Bucket, StableSort;
    FinalizeAllConcat(Groups(StableSort(Bucket(q, order[i]), TransactionDate), window),
      GroupsOf(q, order[i + 1..], window));
    assert order[i..][1..] == order[i + 1..];
  }

  /** classify_cluster */
  predicate IsNotableCluster(c: ClusterCandidate, minFilers: int) {
    c.distinctFilerCount >= minFilers
  }
}
