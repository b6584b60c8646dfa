// Whether a cluster is of one company: purchases are bucketed by cik alone.
module CompanyLaws {
  import opened Domain
  import opened Grouping
  import opened ClusterBuying
  import opened DetectionLaws
  import opened DetectionCoverage

  /** Two qualifying purchases under one cik whose dates have the same anchor. */
  ghost predicate SharesAnchor(txns: seq<Transaction>, window: int, t: Transaction, u: Transaction) {
    && t in txns && u in txns && Qualifies(t) && Qualifies(u) && t.cik == u.cik
    && var s := CompanyList(Qualifying(txns), t.cik);
      s != [] && Anchor(s, window, t.transactionDate) == Anchor(s, window, u.transactionDate)
  }

  /** For the later of two such purchases that means: its group starts no later than the earlier one. */
  lemma SharesAnchorByDate(txns: seq<Transaction>, window: nat, t: Transaction, u: Transaction)
    requires t in txns && u in txns && Qualifies(t) && Qualifies(u) && t.cik == u.cik
    requires t.transactionDate <= u.transactionDate
    ensures t in CompanyList(Qualifying(txns), t.cik)
    ensures SharesAnchor(txns, window, t, u) <==>
      GroupStart(txns, window, t.cik, u.transactionDate) <= t.transactionDate
  {
    hide Qualifying, CompanyList;
    InQualifying(txns);
    CompanyListCounts(Qualifying(txns), t.cik);
    SharedAnchor(CompanyList(Qualifying(txns), t.cik), window, t, u);
  }

  lemma TogetherInGroup(txns: seq<Transaction>, window: nat, cik: string, g: Group, t: Transaction, u: Transaction)
    requires IsGroupAt(txns, window, cik, g) && t in g && u in g
    ensures SharesAnchor(txns, window, t, u)
  {
    hide Qualifying, CompanyList, Groups;
    GroupMembers(txns, window, cik, g);
    InQualifying(txns);
    CompanyListCounts(Qualifying(txns), cik);
  }

  lemma AnchoredInGroup(txns: seq<Transaction>, window: nat, g: Group, t: Transaction, u: Transaction)
    requires IsGroupAt(txns, window, t.cik, g) && t in g && SharesAnchor(txns, window, t, u)
    ensures u in g
  {
    hide Qualifying, CompanyList, Groups;
    GroupMembers(txns, window, t.cik, g);
  }

  /** Some reported cluster holds purchases under two company names. */
  ghost predicate MixesCompanies(txns: seq<Transaction>, window: int) {
    exists c, t, u :: c in Detect(txns, window) && t in txns && u in txns
      && t.id in c.transactionIds && u.id in c.transactionIds && t.companyName != u.companyName
  }

  /** Some purchase shares its anchor with one under another company name and with one by another filer. */
  ghost predicate HasMixedAnchor(txns: seq<Transaction>, window: int) {
    exists t, u, v :: SharesAnchor(txns, window, t, u) && SharesAnchor(txns, window, t, v)
      && t.companyName != u.companyName && FilerIdentity(t) != FilerIdentity(v)
  }

  lemma MixedClusterHasAnchor(txns: seq<Transaction>, window: nat, c: ClusterCandidate, t: Transaction, u: Transaction)
    requires DistinctIds(txns) && c in Detect(txns, window) && t in txns && u in txns
    requires t.id in c.transactionIds && u.id in c.transactionIds && t.companyName != u.companyName
    ensures HasMixedAnchor(txns, window)
  {
    hide Detect, FilerIdentity, SharesAnchor, IsGroupAt;
    var g := ReportedInGroup(txns, window, c, t);
    GroupMembers(txns, window, c.cik, g);
    var w :| w in g && w.id == u.id;
    SameId(txns, w, u);
    var v := AnotherFiler(g, t);
    TogetherInGroup(txns, window, c.cik, g, t, u);
    TogetherInGroup(txns, window, c.cik, g, t, v);
  }

  lemma AnotherFiler(g: Group, t: Transaction) returns (v: Transaction)
    requires FinalizeGroup(g).Some? && t in g
    ensures v in g && FilerIdentity(v) != FilerIdentity(t)
  {
    hide FilerIdentity;
    if forall v | v in g :: FilerIdentity(v) == FilerIdentity(t) {
      assert Identities(g) <= {FilerIdentity(t)};
      SubsetSize(Identities(g), {FilerIdentity(t)});
      assert false;
    }
    v :| v in g && FilerIdentity(v) != FilerIdentity(t);
  }

  lemma MixedAnchorIsReported(txns: seq<Transaction>, window: nat, t: Transaction, u: Transaction, v: Transaction)
    requires SharesAnchor(txns, window, t, u) && SharesAnchor(txns, window, t, v)
    requires t.companyName != u.companyName && FilerIdentity(t) != FilerIdentity(v)
    ensures MixesCompanies(txns, window)
  {
    assert t in txns && Qualifies(t) && u in txns;
    hide Detect, FilerIdentity, SharesAnchor, IsGroupAt, Qualifies;
    var g := GroupOf(txns, window, t);
    AnchoredInGroup(txns, window, g, t, u);
    AnchoredInGroup(txns, window, g, t, v);
    assert {FilerIdentity(t), FilerIdentity(v)} <= Identities(g);
    SubsetSize({FilerIdentity(t), FilerIdentity(v)}, Identities(g));
    GroupIsReported(txns, window, t.cik, g);
    var c := FinalizeGroup(g).value;
    assert t.id in c.transactionIds && u.id in c.transactionIds;
  }

  /** A reported cluster mixes company names if and only if some purchase shares its anchor with one
      under another company name and with one by another filer. */
  lemma MixedExactly(txns: seq<Transaction>, window: nat)
    requires DistinctIds(txns)
    ensures MixesCompanies(txns, window) <==> HasMixedAnchor(txns, window)
  {
    hide Detect, FilerIdentity, SharesAnchor;
    if MixesCompanies(txns, window) {
      var c, t, u :| c in Detect(txns, window) && t in txns && u in txns
        && t.id in c.transactionIds && u.id in c.transactionIds && t.companyName != u.companyName;
      MixedClusterHasAnchor(txns, window, c, t, u);
    }
    if HasMixedAnchor(txns, window) {
      var t, u, v :| SharesAnchor(txns, window, t, u) && SharesAnchor(txns, window, t, v)
        && t.companyName != u.companyName && FilerIdentity(t) != FilerIdentity(v);
      MixedAnchorIsReported(txns, window, t, u, v);
    }
  }
}
