// What becomes of a cluster that is split: its row, its signal, and the other pieces.
module Splits {
  import opened Domain
  import opened Signals
  import opened DetectionLaws
  import opened ClusterBuyRepo
  import opened Classify
  import opened Dedup
  import opened Pipeline
  import opened RecordLaws
  import opened ClusterLaws
  import opened Invariants
  import opened Transitions
  import opened Settling
  import opened Notify
  import TransactionRepo

  /** The clusters that the next classify run will detect. */
  function Detected(s: State): seq<ClusterCandidate> {
    Candidates(s.txns, s.thresholds.clusterWindowDays)
  }

  /** c is one of the detected clusters that overlap row r. */
  ghost predicate IsPiece(s: State, r: nat, c: ClusterCandidate)
    requires r < |s.clusters|
  {
    c in Detected(s) && Overlaps(s.clusters[r].content, c)
  }

  /** The detected clusters that overlap row r overlap no other row. */
  ghost predicate SplitsAlone(s: State, r: nat)
    requires r < |s.clusters|
  {
    forall c, j | IsPiece(s, r, c) && 0 <= j < |s.clusters| && Overlaps(s.clusters[j].content, c) :: j == r
  }

  ghost predicate IsEarliestPiece(s: State, r: nat, c: ClusterCandidate)
    requires r < |s.clusters|
  {
    IsPiece(s, r, c) && forall d | IsPiece(s, r, d) :: c.windowStart <= d.windowStart
  }

  /** Row r keeps its id and its signal: the same one, with its notification time, and with its
      status unless that was not_applicable. */
  ghost predicate KeepsRowAndSignal(s: State, s1: State, r: nat) {
    && r < |s.clusters| && r < |s1.clusters| && s1.clusters[r].id == s.clusters[r].id
    && var link := ClusterLink(s.clusters[r].id);
      Lookup(s.signals.rows, link).Some? ==>
      && Lookup(s1.signals.rows, link).Some?
      && var a, b := Lookup(s.signals.rows, link).value, Lookup(s1.signals.rows, link).value;
        && b.id == a.id && b.notified == a.notified
        && (a.status != NotApplicable ==> b.status == a.status)
  }

  /** Row p is new, under an id never used, and so is its signal, which was never sent. */
  ghost predicate HasFreshRowAndSignal(s: State, s1: State, p: nat) {
    && |s.clusters| <= p < |s1.clusters| && s1.clusters[p].id >= s.nextClusterId
    && var link := ClusterLink(s1.clusters[p].id);
      && Lookup(s.signals.rows, link) == None && Lookup(s1.signals.rows, link).Some?
      && var b := Lookup(s1.signals.rows, link).value;
        && b.id >= s.signals.nextId && !b.notified
        && b.status == if b.isNotable then Pending else NotApplicable
  }

  lemma DetectedByDate(s: State)
    ensures ByDate(Detected(s), s.thresholds.clusterWindowDays)
  {
    CandidatesByDate(Live(TransactionRepo.Listed(s.txns)), s.thresholds.clusterWindowDays);
  }

  /** In the order of detection, the earliest piece by date is the first. */
  lemma EarliestIsFirst(s: State, r: nat, k: nat)
    requires r < |s.clusters| && k < |Detected(s)| && IsPiece(s, r, Detected(s)[k])
    ensures IsEarliestPiece(s, r, Detected(s)[k]) <==>
      forall m | 0 <= m < k :: !Overlaps(s.clusters[r].content, Detected(s)[m])
  {
    DetectedByDate(s);
    hide Detected;
    var cs := Detected(s);
    if m :| 0 <= m < k && Overlaps(s.clusters[r].content, cs[m]) {
      assert IsPiece(s, r, cs[m]);
      assert cs[m].windowStart < cs[k].windowStart;
    } else {
      forall d | IsPiece(s, r, d)
        ensures cs[k].windowStart <= d.windowStart
      {
        var m :| 0 <= m < |cs| && cs[m] == d;
      }
    }
  }

  lemma PieceIndex(s: State, r: nat, c: ClusterCandidate) returns (k: nat)
    requires r < |s.clusters| && IsPiece(s, r, c)
    ensures k < |Detected(s)| && Detected(s)[k] == c
  {
    k :| 0 <= k < |Detected(s)| && Detected(s)[k] == c;
  }

  lemma {:induction false} FirstPiece(s: State, r: nat, k: nat) returns (m: nat)
    requires r < |s.clusters| && k < |Detected(s)| && IsPiece(s, r, Detected(s)[k])
    ensures m < |Detected(s)| && IsEarliestPiece(s, r, Detected(s)[m])
    decreases k
  {
    hide Detected, IsEarliestPiece;
    EarliestIsFirst(s, r, k);
    m := k;
    if j :| 0 <= j < k && Overlaps(s.clusters[r].content, Detected(s)[j]) {
      m := FirstPiece(s, r, j);
    }
  }

  /** Exactly one of the pieces of a row is the earliest. */
  lemma OneEarliestPiece(s: State, r: nat, c: ClusterCandidate) returns (d: ClusterCandidate)
    requires r < |s.clusters| && IsPiece(s, r, c)
    ensures forall e :: IsEarliestPiece(s, r, e) <==> e == d
  {
    DetectedByDate(s);
    hide Detected;
    var cs := Detected(s);
    var k := PieceIndex(s, r, c);
    var m := FirstPiece(s, r, k);
    d := cs[m];
    forall e | IsEarliestPiece(s, r, e)
      ensures e == d
    {
      var i := PieceIndex(s, r, e);
    }
  }

  /** Where the pieces of a row go, in the order of detection. */
  lemma PiecePlace(s: State, r: nat, k: nat)
    requires Inv(s) && r < |s.clusters| && SplitsAlone(s, r)
    requires k < |Detected(s)| && IsPiece(s, r, Detected(s)[k])
    ensures |DetectedEvents(s)| == |Detected(s)|
    ensures var p := Places(s.clusters, DetectedEvents(s))[k];
      && SettledAt(UpsertAll(s.clusters, DetectedEvents(s)), Detected(s)[k], p)
      && (p == r <==> IsEarliestPiece(s, r, Detected(s)[k]))
      && (p == r || p >= |s.clusters|)
      && UpsertAll(s.clusters, DetectedEvents(s))[p].id == if p == r then s.clusters[r].id else s.nextClusterId + k
  {
    var es := DetectedEvents(s);
    assert forall m | 0 <= m < |es| :: es[m].content == Detected(s)[m] && es[m].id == s.nextClusterId + m;
    hide Candidates, Detected, DetectedEvents, UpsertAll, Places, TransactionsOk, BuybacksOk, ClustersOk, RowsOk,
      MailOk, TableOk, Disjoint, Overlaps, SettledAt;
    DetectedEventsOk(s);
    forall m, j | 0 <= m < |es| && 0 <= j < |s.clusters|
      && Overlaps(s.clusters[r].content, es[m].content) && Overlaps(s.clusters[j].content, es[m].content)
      ensures j == r
    {
      assert IsPiece(s, r, Detected(s)[m]);
    }
    SplitKeepsFirst(s.clusters, es, r, k);
    RunSettles(s.clusters, es, k);
    EarliestIsFirst(s, r, k);
  }

  /** A signal that the run gives to a record without one is created under an unused id. */
  lemma NewSignalIsUnused(s: State, reclassify: bool, link: Link)
    requires Inv(s) && Lookup(s.signals.rows, link) == None
      && Lookup(Classified(s, reclassify).signals.rows, link).Some?
    ensures Lookup(Classified(s, reclassify).signals.rows, link).value.id >= s.signals.nextId
  {
    hide Inv, Classified;
    var after := Classified(s, reclassify).signals.rows;
    var j := FindLink(after, link);
    if j < |s.signals.rows| {
      ClassifyRow(s, reclassify, j);
    } else {
      ClassifyNewRow(s, reclassify, j);
    }
  }

  /** No signal is about a cluster row that is yet to come. */
  lemma NoSignalYet(s: State, id: Id)
    requires Inv(s) && id >= s.nextClusterId
    ensures Lookup(s.signals.rows, ClusterLink(id)) == None
  {
    hide TransactionsOk, BuybacksOk, TableOk, MailOk, DistinctRowIds, IsSupersededFiling;
    forall row | row in s.signals.rows
      ensures row.link != ClusterLink(id)
    {
      assert Resolves(row.link, s.txns, s.buybacks, s.clusters);
    }
  }

  /** When the clusters that overlap a row overlap no other row, exactly the earliest of them by
      date keeps the row and its signal with its history, and every other one gets a fresh row and
      a fresh signal; each holds exactly what was detected. */
  lemma SplitKeepsHistory(s: State, reclassify: bool, r: nat, c: ClusterCandidate) returns (p: nat)
    requires Inv(s) && r < |s.clusters| && SplitsAlone(s, r) && IsPiece(s, r, c)
    ensures SettledAt(Classified(s, reclassify).clusters, c, p)
    ensures p == r <==> IsEarliestPiece(s, r, c)
    ensures p == r ==> KeepsRowAndSignal(s, Classified(s, reclassify), r)
    ensures p != r ==> HasFreshRowAndSignal(s, Classified(s, reclassify), p)
  {
    hide Candidates, Detected, DetectedEvents, UpsertAll, Places, ClusterVerdicts, JudgeAll, Inv, Disjoint, Lookup,
      SplitsAlone, IsPiece, IsEarliestPiece, SettledAt, IsOutcome, KeepsRowAndSignal, HasFreshRowAndSignal;
    var k := PieceIndex(s, r, c);
    var es := DetectedEvents(s);
    PiecePlace(s, r, k);
    p := Places(s.clusters, es)[k];
    VerdictNamesItsRow(s.clusters, es, s.thresholds, k);
    var v := RunVerdicts(s)[k];
    ClassifyOutcome(s, reclassify, v);
    assert SettledAt(Classified(s, reclassify).clusters, c, p);
    SettledInside(Classified(s, reclassify).clusters, c, p);
    if p == r {
      HistoryIsKept(s, Classified(s, reclassify), r, v);
    } else {
      NoSignalYet(s, s.nextClusterId + k);
      SignalIsFresh(s, reclassify, p, v);
    }
  }

  lemma HistoryIsKept(s: State, s1: State, r: nat, v: Verdict)
    requires r < |s.clusters| && r < |s1.clusters| && s1.clusters[r].id == s.clusters[r].id
      && v.link == ClusterLink(s.clusters[r].id)
    requires IsOutcome(Lookup(s.signals.rows, v.link), Lookup(s1.signals.rows, v.link), v, true, false)
    ensures KeepsRowAndSignal(s, s1, r)
  {
    hide Lookup;
  }

  lemma SignalIsFresh(s: State, reclassify: bool, p: nat, v: Verdict)
    requires Inv(s)
    requires var s1 := Classified(s, reclassify);
      && |s.clusters| <= p < |s1.clusters| && s1.clusters[p].id >= s.nextClusterId
        && v.link == ClusterLink(s1.clusters[p].id)
      && Lookup(s.signals.rows, v.link) == None
      && IsOutcome(Lookup(s.signals.rows, v.link), Lookup(s1.signals.rows, v.link), v, true, false)
    ensures HasFreshRowAndSignal(s, Classified(s, reclassify), p)
  {
    hide Inv, Classified, Lookup;
    NewSignalIsUnused(s, reclassify, v.link);
  }

  lemma SettledInside(rows: seq<ClusterBuyEvent>, c: ClusterCandidate, p: nat)
    requires SettledAt(rows, c, p)
    ensures p < |rows|
  {}

  /** The signal of the row in which a cluster settled says whether the cluster reaches the minimum. */
  lemma ClusterVerdictShows(s: State, reclassify: bool, c: ClusterCandidate, p: nat)
    requires Inv(s) && c in Detected(s) && SettledAt(Classified(s, reclassify).clusters, c, p)
    ensures var s1 := Classified(s, reclassify);
      && p < |s1.clusters| && Lookup(s1.signals.rows, ClusterLink(s1.clusters[p].id)).Some?
      && Lookup(s1.signals.rows, ClusterLink(s1.clusters[p].id)).value.isNotable
        == (c.distinctFilerCount >= s.thresholds.minClusterFilerCount)
  {
    var k :| 0 <= k < |Detected(s)| && Detected(s)[k] == c;
    assert DetectedEvents(s)[k].content == c;
    hide Detected, DetectedEvents, Inv, Classified, Lookup, FirstOverlap, Places;
    ClustersAreStored(s, reclassify, k);
  }

  // ---------- Every cluster row has a signal ----------

  ghost predicate ClustersSignalled(s: State) {
    forall c | c in s.clusters :: HasSignal(s.signals.rows, ClusterLink(c.id))
  }

  /** A record that has a signal keeps one under every event. */
  lemma SignalPersists(s: State, e: Event, link: Link)
    requires Inv(s) && HasSignal(s.signals.rows, link)
    ensures HasSignal(Step(s, e).signals.rows, link)
  {
    hide Inv, Step;
    RowStep(s, e, FindLink(s.signals.rows, link));
  }

  lemma ClassifiedRowHasSignal(s: State, reclassify: bool, i: nat)
    requires Inv(s) && ClustersSignalled(s) && i < |UpsertAll(s.clusters, DetectedEvents(s))|
    ensures HasSignal(Classified(s, reclassify).signals.rows,
      ClusterLink(UpsertAll(s.clusters, DetectedEvents(s))[i].id))
  {
    hide DetectedEvents, UpsertAll, Places, ClusterVerdicts, JudgeAll, Inv, HasSignal;
    var es := DetectedEvents(s);
    RunKeepsRows(s.clusters, es);
    if i < |s.clusters| {
      assert s.clusters[i] in s.clusters;
      StepClassifies(s, reclassify);
      SignalPersists(s, RunClassify(reclassify), ClusterLink(s.clusters[i].id));
    } else {
      NewRowsArePlaced(s.clusters, es, i);
      var k :| 0 <= k < |es| && Places(s.clusters, es)[k] == i;
      VerdictNamesItsRow(s.clusters, es, s.thresholds, k);
      ClassifyOutcome(s, reclassify, RunVerdicts(s)[k]);
      FoundByLookup(Classified(s, reclassify).signals.rows, RunVerdicts(s)[k].link);
    }
  }

  lemma ClustersStaySignalled(s: State, e: Event)
    requires Inv(s) && ClustersSignalled(s)
    ensures ClustersSignalled(Step(s, e))
  {
    hide Inv, HasSignal, JudgeAll, UpsertAll, DetectedEvents, IngestedTransactions, IngestedBuybacks;
    var after := Step(s, e);
    forall c | c in after.clusters
      ensures HasSignal(after.signals.rows, ClusterLink(c.id))
    {
      if e.RunClassify? {
        var i :| 0 <= i < |after.clusters| && after.clusters[i] == c;
        ClassifiedRowHasSignal(s, e.reclassify, i);
      } else {
        SignalPersists(s, e, ClusterLink(c.id));
      }
    }
  }

  /** In every reachable state every cluster row, stale ones included, has a signal. */
  lemma {:induction false} EveryClusterHasSignal(events: seq<Event>)
    ensures ClustersSignalled(Run(events))
  {
    if events != [] {
      hide Inv, Step;
      var before := events[..|events| - 1];
      EveryClusterHasSignal(before);
      RunKeepsInv(before);
      ClustersStaySignalled(Run(before), events[|events| - 1]);
    }
  }

  /** The split theorem on runs, where the row's signal always exists. */
  lemma SplitOnRun(events: seq<Event>, reclassify: bool, r: nat, c: ClusterCandidate) returns (p: nat)
    requires r < |Run(events).clusters| && SplitsAlone(Run(events), r) && IsPiece(Run(events), r, c)
    ensures var s, s1 := Run(events), Run(events + [RunClassify(reclassify)]);
      && SettledAt(s1.clusters, c, p)
      && (p == r <==> IsEarliestPiece(s, r, c))
      && (p == r ==> KeepsRowAndSignal(s, s1, r) && Lookup(s.signals.rows, ClusterLink(s.clusters[r].id)).Some?)
      && (p != r ==> HasFreshRowAndSignal(s, s1, p))
  {
    hide Step, Run, Inv, SplitsAlone, IsPiece, IsEarliestPiece, SettledAt, Classified, HasSignal, Lookup;
    var s := Run(events);
    RunKeepsInv(events);
    EveryClusterHasSignal(events);
    assert s.clusters[r] in s.clusters;
    FoundByLookup(s.signals.rows, ClusterLink(s.clusters[r].id));
    RunSnoc(events, RunClassify(reclassify));
    StepClassifies(s, reclassify);
    p := SplitKeepsHistory(s, reclassify, r, c);
  }
}
