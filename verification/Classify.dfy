// The classify command: per-record verdicts, cluster verdicts, and the one
// place that creates or updates a signal.
module Classify {
  import opened Domain
  import opened Rules
  import opened Signals
  import opened ClusterBuying
  import opened ClusterBuyRepo
  import DetectionLaws
  import TransactionRepo
  import BuybackRepo

  /** uuid4 for one table: each call returns an id never returned before. */
  class IdSource {
    var next: Id

    constructor ()
      ensures next == 0
    {
      next := 0;
    }

    method Fresh() returns (id: Id)
      modifies this
      ensures id == old(next) && next == old(next) + 1
    {
      id := next;
      next := next + 1;
    }
  }

  // ---------- One verdict ----------

  datatype Verdict = Verdict(link: Link, isNotable: bool, isDiscretionary: Option<bool>, snapshot: Thresholds)

  /** The signal table together with the next unused signal id. */
  datatype SignalTable = SignalTable(rows: seq<SignalRow>, nextId: Id)

  ghost predicate TableOk(t: SignalTable) {
    && UniqueIds(t.rows) && UniqueLinks(t.rows)
    && forall row | row in t.rows :: row.id < t.nextId
  }

  function Created(id: Id, v: Verdict): SignalRow {
    SignalRow(id, v.link, v.isNotable, v.isDiscretionary, false, v.snapshot,
      if v.isNotable then Pending else NotApplicable, false)
  }

  function Judged(row: SignalRow, v: Verdict, downgrade: bool): SignalRow {
    row.(
      isNotable := v.isNotable,
      isDiscretionary := v.isDiscretionary,
      snapshot := v.snapshot,
      status :=
        if v.isNotable && row.status == NotApplicable then Pending
        else if !v.isNotable && downgrade then NotApplicable
        else row.status)
  }

  /** Creates the signal of a record without one; otherwise updates it if `revisit` says so. */
  function Judge(t: SignalTable, v: Verdict, revisit: bool, downgrade: bool): SignalTable {
    var i := FindLink(t.rows, v.link);
    if i == |t.rows| then SignalTable(t.rows + [Created(t.nextId, v)], t.nextId + 1)
    else if revisit then t.(rows := t.rows[i := Judged(t.rows[i], v, downgrade)])
    else t
  }

  function JudgeAll(t: SignalTable, vs: seq<Verdict>, revisit: bool, downgrade: bool): SignalTable {
    if vs == [] then t
    else Judge(JudgeAll(t, vs[..|vs| - 1], revisit, downgrade), vs[|vs| - 1], revisit, downgrade)
  }

  predicate HasSignal(rows: seq<SignalRow>, link: Link) {
    FindLink(rows, link) < |rows|
  }

  /** How many of the verdicts were evaluated, and how many of those were notable: a record that
      already has a signal counts only when it is revisited. */
  function Tally(t: SignalTable, vs: seq<Verdict>, revisit: bool): (nat, nat) {
    if vs == [] then (0, 0)
    else
      var v := vs[|vs| - 1];
      var (evaluated, notable) := Tally(t, vs[..|vs| - 1], revisit);
      if revisit || !HasSignal(JudgeAll(t, vs[..|vs| - 1], revisit, true).rows, v.link)
      then (evaluated + 1, notable + if v.isNotable then 1 else 0)
      else (evaluated, notable)
  }

  lemma JudgeKeepsTable(t: SignalTable, v: Verdict, revisit: bool, downgrade: bool)
    requires TableOk(t)
    ensures TableOk(Judge(t, v, revisit, downgrade))
  {}

  lemma {:induction false} JudgeAllKeepsTable(t: SignalTable, vs: seq<Verdict>, revisit: bool, downgrade: bool)
    requires TableOk(t)
    ensures TableOk(JudgeAll(t, vs, revisit, downgrade))
  {
    if vs != [] {
      JudgeAllKeepsTable(t, vs[..|vs| - 1], revisit, downgrade);
      JudgeKeepsTable(JudgeAll(t, vs[..|vs| - 1], revisit, downgrade), vs[|vs| - 1], revisit, downgrade);
    }
  }

  lemma TallySnoc(t: SignalTable, vs: seq<Verdict>, v: Verdict, revisit: bool)
    ensures var (evaluated, notable) := Tally(t, vs, revisit);
      Tally(t, vs + [v], revisit) ==
      if revisit || !HasSignal(JudgeAll(t, vs, revisit, true).rows, v.link)
      then (evaluated + 1, notable + if v.isNotable then 1 else 0)
      else (evaluated, notable)
  {
    assert (vs + [v])[..|vs|] == vs;
  }

  lemma JudgeAllSnoc(t: SignalTable, vs: seq<Verdict>, v: Verdict, revisit: bool, downgrade: bool)
    ensures JudgeAll(t, vs + [v], revisit, downgrade)
      == Judge(JudgeAll(t, vs, revisit, downgrade), v, revisit, downgrade)
  {
    assert (vs + [v])[..|vs|] == vs;
  }

  /** _upsert_signal */
  method UpsertSignal(signalRepo: SignalRepository, signalIds: IdSource, existing: Signal?, v: Verdict,
      downgradeOnNotNotable: bool)
    requires TableOk(SignalTable(signalRepo.rows, signalIds.next))
    requires existing == null ==> FindLink(signalRepo.rows, v.link) == |signalRepo.rows|
    requires existing != null ==>
      FindLink(signalRepo.rows, v.link) < |signalRepo.rows|
        && existing.Row() == signalRepo.rows[FindLink(signalRepo.rows, v.link)]
    modifies signalRepo, signalIds, existing
    ensures SignalTable(signalRepo.rows, signalIds.next)
      == Judge(old(SignalTable(signalRepo.rows, signalIds.next)), v, true, downgradeOnNotNotable)
  {
    var signal: Signal;
    if existing == null {
      var id := signalIds.Fresh();
      signal := new Signal(Created(id, v));
    } else {
      signal := existing;
      signal.isNotable := v.isNotable;
      signal.isDiscretionary := v.isDiscretionary;
      signal.snapshot := v.snapshot;
      if v.isNotable && signal.status == NotApplicable {
        signal.status := Pending;
      } else if !v.isNotable && downgradeOnNotNotable {
        signal.status := NotApplicable;
      }
      FindSignalIs(signalRepo.rows, FindLink(signalRepo.rows, v.link));
    }
    signalRepo.Save(signal);
  }

  // ---------- Transactions and buybacks ----------

  function TransactionVerdict(txn: Transaction, thresholds: Thresholds): Verdict {
    Verdict(InsiderLink(txn.id), IsNotableTransaction(txn, thresholds), Some(txn.isDiscretionary), thresholds)
  }

  function TransactionVerdicts(txns: seq<Transaction>, thresholds: Thresholds): seq<Verdict> {
    if txns == [] then []
    else
      var last := txns[|txns| - 1];
      var before := TransactionVerdicts(txns[..|txns| - 1], thresholds);
      if last.supersededBy == None then before + [TransactionVerdict(last, thresholds)] else before
  }

  function BuybackVerdict(event: BuybackEvent, thresholds: Thresholds): Verdict {
    Verdict(BuybackLink(event.id), IsNotableBuyback(event, thresholds), None, thresholds)
  }

  function BuybackVerdicts(events: seq<BuybackEvent>, thresholds: Thresholds): seq<Verdict> {
    if events == [] then []
    else
      var last := events[|events| - 1];
      var before := BuybackVerdicts(events[..|events| - 1], thresholds);
      if last.supersededBy == None then before + [BuybackVerdict(last, thresholds)] else before
  }

  lemma PassStarts(t: SignalTable, revisit: bool, downgrade: bool)
    ensures JudgeAll(t, [], revisit, downgrade) == t && Tally(t, [], revisit) == (0, 0)
  {}

  lemma TransactionVerdictsStep(txns: seq<Transaction>, thresholds: Thresholds, i: nat)
    requires i < |txns|
    ensures TransactionVerdicts(txns[..i + 1], thresholds) ==
      if txns[i].supersededBy == None
      then TransactionVerdicts(txns[..i], thresholds) + [TransactionVerdict(txns[i], thresholds)]
      else TransactionVerdicts(txns[..i], thresholds)
  {
    assert txns[..i + 1][..i] == txns[..i];
  }

  lemma BuybackVerdictsStep(events: seq<BuybackEvent>, thresholds: Thresholds, i: nat)
    requires i < |events|
    ensures BuybackVerdicts(events[..i + 1], thresholds) ==
      if events[i].supersededBy == None
      then BuybackVerdicts(events[..i], thresholds) + [BuybackVerdict(events[i], thresholds)]
      else BuybackVerdicts(events[..i], thresholds)
  {
    assert events[..i + 1][..i] == events[..i];
  }

  lemma TransactionVerdictSays(txn: Transaction, thresholds: Thresholds)
    ensures TransactionVerdict(txn, thresholds).isNotable == IsNotableTransaction(txn, thresholds)
    ensures TransactionVerdict(txn, thresholds).link == InsiderLink(txn.id)
  {}

  lemma BuybackVerdictSays(event: BuybackEvent, thresholds: Thresholds)
    ensures BuybackVerdict(event, thresholds).isNotable == IsNotableBuyback(event, thresholds)
    ensures BuybackVerdict(event, thresholds).link == BuybackLink(event.id)
  {}

  lemma NoVerdicts(thresholds: Thresholds)
    ensures TransactionVerdicts([], thresholds) == [] && BuybackVerdicts([], thresholds) == []
  {}

  /** The lookup, the skip of a record that already has a signal, and the upsert. */
  method ClassifyRecord(signalRepo: SignalRepository, signalIds: IdSource, v: Verdict, reclassify: bool)
    returns (counted: bool)
    requires TableOk(SignalTable(signalRepo.rows, signalIds.next))
    modifies signalRepo, signalIds
    ensures SignalTable(signalRepo.rows, signalIds.next)
      == Judge(old(SignalTable(signalRepo.rows, signalIds.next)), v, reclassify, true)
    ensures TableOk(SignalTable(signalRepo.rows, signalIds.next))
    ensures counted <==> reclassify || !HasSignal(old(signalRepo.rows), v.link)
  {
    JudgeKeepsTable(SignalTable(signalRepo.rows, signalIds.next), v, reclassify, true);
    var found := signalRepo.GetFor(v.link);
    assert found.Success?;
    var existing := found.value;
    if existing != null && !reclassify {
      return false;
    }
    UpsertSignal(signalRepo, signalIds, existing, v, true);
    return true;
  }

  method ClassifyInsiderTransactions(
      txnRepo: TransactionRepo.InsiderTransactionRepository, signalRepo: SignalRepository, signalIds: IdSource,
      thresholds: Thresholds, reclassify: bool)
    returns (evaluated: nat, notable: nat)
    requires TableOk(SignalTable(signalRepo.rows, signalIds.next))
    modifies signalRepo, signalIds
    ensures SignalTable(signalRepo.rows, signalIds.next) == JudgeAll(
      old(SignalTable(signalRepo.rows, signalIds.next)),
      TransactionVerdicts(TransactionRepo.Listed(txnRepo.rows), thresholds), reclassify, true)
    ensures (evaluated, notable) == Tally(
      old(SignalTable(signalRepo.rows, signalIds.next)),
      TransactionVerdicts(TransactionRepo.Listed(txnRepo.rows), thresholds), reclassify)
  {
    hide *;
    NoVerdicts(thresholds);
    PassStarts(SignalTable(signalRepo.rows, signalIds.next), reclassify, true);
    evaluated, notable := 0, 0;
    var txns := txnRepo.List();
    ghost var start := SignalTable(signalRepo.rows, signalIds.next);
    for i := 0 to |txns|
      invariant TableOk(SignalTable(signalRepo.rows, signalIds.next))
      invariant SignalTable(signalRepo.rows, signalIds.next)
        == JudgeAll(start, TransactionVerdicts(txns[..i], thresholds), reclassify, true)
      invariant (evaluated, notable) == Tally(start, TransactionVerdicts(txns[..i], thresholds), reclassify)
    {
      TransactionVerdictsStep(txns, thresholds, i);
      var txn := txns[i];
      if txn.supersededBy != None { continue; }
      var isNotable := IsNotableTransaction(txn, thresholds);
      var counted := ClassifyRecord(signalRepo, signalIds, TransactionVerdict(txn, thresholds), reclassify);
      assert TransactionVerdict(txn, thresholds).isNotable == isNotable by { TransactionVerdictSays(txn, thresholds); }
      JudgeAllSnoc(start, TransactionVerdicts(txns[..i], thresholds), TransactionVerdict(txn, thresholds), reclassify,
        true);
      TallySnoc(start, TransactionVerdicts(txns[..i], thresholds), TransactionVerdict(txn, thresholds), reclassify);
      if counted {
        evaluated := evaluated + 1;
        notable := notable + if isNotable then 1 else 0;
      }
    }
    assert txns[..|txns|] == txns;
  }

  method ClassifyBuybacks(
      buybackRepo: BuybackRepo.BuybackEventRepository, signalRepo: SignalRepository, signalIds: IdSource,
      thresholds: Thresholds, reclassify: bool)
    returns (evaluated: nat, notable: nat)
    requires TableOk(SignalTable(signalRepo.rows, signalIds.next))
    modifies signalRepo, signalIds
    ensures SignalTable(signalRepo.rows, signalIds.next) == JudgeAll(
      old(SignalTable(signalRepo.rows, signalIds.next)),
      BuybackVerdicts(BuybackRepo.Listed(buybackRepo.rows), thresholds), reclassify, true)
    ensures (evaluated, notable) == Tally(
      old(SignalTable(signalRepo.rows, signalIds.next)),
      BuybackVerdicts(BuybackRepo.Listed(buybackRepo.rows), thresholds), reclassify)
  {
    hide *;
    NoVerdicts(thresholds);
    PassStarts(SignalTable(signalRepo.rows, signalIds.next), reclassify, true);
    evaluated, notable := 0, 0;
    var events := buybackRepo.List();
    ghost var start := SignalTable(signalRepo.rows, signalIds.next);
    for i := 0 to |events|
      invariant TableOk(SignalTable(signalRepo.rows, signalIds.next))
      invariant SignalTable(signalRepo.rows, signalIds.next)
        == JudgeAll(start, BuybackVerdicts(events[..i], thresholds), reclassify, true)
      invariant (evaluated, notable) == Tally(start, BuybackVerdicts(events[..i], thresholds), reclassify)
    {
      BuybackVerdictsStep(events, thresholds, i);
      var event := events[i];
      if event.supersededBy != None { continue; }
      var isNotable := IsNotableBuyback(event, thresholds);
      var counted := ClassifyRecord(signalRepo, signalIds, BuybackVerdict(event, thresholds), reclassify);
      assert BuybackVerdict(event, thresholds).isNotable == isNotable by { BuybackVerdictSays(event, thresholds); }
      JudgeAllSnoc(start, BuybackVerdicts(events[..i], thresholds), BuybackVerdict(event, thresholds), reclassify,
        true);
      TallySnoc(start, BuybackVerdicts(events[..i], thresholds), BuybackVerdict(event, thresholds), reclassify);
      if counted {
        evaluated := evaluated + 1;
        notable := notable + if isNotable then 1 else 0;
      }
    }
    assert events[..|events|] == events;
  }

  // ---------- Clusters ----------

  function Live(txns: seq<Transaction>): seq<Transaction> {
    if txns == [] then []
    else (if txns[0].supersededBy == None then [txns[0]] else []) + Live(txns[1..])
  }

  function Candidates(txns: seq<Transaction>, window: int): seq<ClusterCandidate> {
    Detect(Live(TransactionRepo.Listed(txns)), window)
  }

  function NotableOnes(cs: seq<ClusterCandidate>, minFilers: int): seq<ClusterCandidate> {
    if cs == [] then []
    else
      var before := NotableOnes(cs[..|cs| - 1], minFilers);
      if IsNotableCluster(cs[|cs| - 1], minFilers) then before + [cs[|cs| - 1]] else before
  }

  /** Each candidate becomes an event under the next fresh id. */
  function EventsFor(cs: seq<ClusterCandidate>, firstId: Id): (es: seq<ClusterBuyEvent>)
    ensures |es| == |cs|
    ensures forall k | 0 <= k < |cs| :: es[k] == ClusterBuyEvent(firstId + k, cs[k])
  {
    seq(|cs|, k requires 0 <= k < |cs| => ClusterBuyEvent(firstId + k, cs[k]))
  }

  /** The id of the row that an upsert saves to. */
  function SavedId(rows: seq<ClusterBuyEvent>, e: ClusterBuyEvent): Id {
    var i := FirstOverlap(rows, e.content);
    if i < |rows| then rows[i].id else e.id
  }

  function ClusterVerdict(rows: seq<ClusterBuyEvent>, e: ClusterBuyEvent, thresholds: Thresholds): Verdict {
    Verdict(ClusterLink(SavedId(rows, e)), IsNotableCluster(e.content, thresholds.minClusterFilerCount), None,
      thresholds)
  }

  /** The verdicts of one run, each on the row that its candidate was saved to. */
  function ClusterVerdicts(rows: seq<ClusterBuyEvent>, es: seq<ClusterBuyEvent>,
      thresholds: Thresholds): (vs: seq<Verdict>)
    ensures |vs| == |es|
    decreases |es|
  {
    if es == [] then []
    else [ClusterVerdict(rows, es[0], thresholds)] + ClusterVerdicts(Upsert(rows, es[0]), es[1..], thresholds)
  }

  /** The event's own validator. */
  method MakeClusterBuyEvent(id: Id, c: ClusterCandidate) returns (r: Result<ClusterBuyEvent>)
    ensures r == if c.windowEnd < c.windowStart then Failure(InvalidEvent) else Success(ClusterBuyEvent(id, c))
  {
    if c.windowEnd < c.windowStart {
      return Failure(InvalidEvent);
    }
    return Success(ClusterBuyEvent(id, c));
  }

  /** Detected windows never end before they start, so the validator never rejects one. */
  lemma CandidateWindow(txns: seq<Transaction>, window: int, c: ClusterCandidate)
    requires c in Detect(txns, window)
    ensures c.windowStart <= c.windowEnd
  {
    DetectionLaws.CandidatesAreGroups(txns, window, c);
    var g :| DetectionLaws.IsGroupAt(txns, window, c.cik, g) && FinalizeGroup(g) == Some(c);
    assert g[0] in g;
  }

  /** The body of the loop over the candidates. */
  method ClassifyCandidate(
      e: ClusterBuyEvent, clusterRepo: ClusterBuyEventRepository, signalRepo: SignalRepository, signalIds: IdSource,
      thresholds: Thresholds)
    requires TableOk(SignalTable(signalRepo.rows, signalIds.next))
    modifies clusterRepo, signalRepo, signalIds
    ensures clusterRepo.rows == Upsert(old(clusterRepo.rows), e)
    ensures SignalTable(signalRepo.rows, signalIds.next) == Judge(
      old(SignalTable(signalRepo.rows, signalIds.next)),
      ClusterVerdict(old(clusterRepo.rows), e, thresholds), true, false)
    ensures TableOk(SignalTable(signalRepo.rows, signalIds.next))
  {
    ghost var v := ClusterVerdict(clusterRepo.rows, e, thresholds);
    JudgeKeepsTable(SignalTable(signalRepo.rows, signalIds.next), v, true, false);
    var isNotable := IsNotableCluster(e.content, thresholds.minClusterFilerCount);
    var savedEvent := clusterRepo.UpsertByOverlappingTransactions(e);
    assert ClusterLink(savedEvent.id) == v.link;
    var found := signalRepo.GetFor(ClusterLink(savedEvent.id));
    assert found.Success?;
    UpsertSignal(signalRepo, signalIds, found.value, Verdict(ClusterLink(savedEvent.id), isNotable, None, thresholds),
      false);
  }

  method LiveTransactions(txns: seq<Transaction>) returns (r: seq<Transaction>)
    ensures r == Live(txns)
  {
    r := [];
    for i := 0 to |txns|
      invariant Live(txns) == r + Live(txns[i..])
    {
      if txns[i].supersededBy == None { r := r + [txns[i]]; }
    }
  }

  lemma NoCandidates(rows: seq<ClusterBuyEvent>, thresholds: Thresholds)
    ensures UpsertAll(rows, []) == rows && ClusterVerdicts(rows, [], thresholds) == []
    ensures NotableOnes([], thresholds.minClusterFilerCount) == []
  {}

  lemma NotableOnesStep(cs: seq<ClusterCandidate>, minFilers: int, i: nat)
    requires i < |cs|
    ensures |NotableOnes(cs[..i + 1], minFilers)|
      == |NotableOnes(cs[..i], minFilers)| + if IsNotableCluster(cs[i], minFilers) then 1 else 0
  {
    assert cs[..i + 1][..i] == cs[..i];
  }

  lemma RestOfRun(rows: seq<ClusterBuyEvent>, es: seq<ClusterBuyEvent>, thresholds: Thresholds, i: nat)
    requires i < |es|
    ensures UpsertAll(rows, es[i..]) == UpsertAll(Upsert(rows, es[i]), es[i + 1..])
    ensures ClusterVerdicts(rows, es[i..], thresholds)
      == [ClusterVerdict(rows, es[i], thresholds)] + ClusterVerdicts(Upsert(rows, es[i]), es[i + 1..], thresholds)
  {
    hide Upsert, ClusterVerdict;
    assert es[i..][0] == es[i] && es[i..][1..] == es[i + 1..];
  }

  /** The loop over the candidates. */
  method ClassifyCandidates(
      candidates: seq<ClusterCandidate>, clusterRepo: ClusterBuyEventRepository,
      signalRepo: SignalRepository, eventIds: IdSource, signalIds: IdSource, thresholds: Thresholds)
    returns (notable: nat)
    requires eventIds != signalIds
    requires TableOk(SignalTable(signalRepo.rows, signalIds.next))
    requires forall c | c in candidates :: c.windowStart <= c.windowEnd
    modifies clusterRepo, signalRepo, eventIds, signalIds
    ensures var es := EventsFor(candidates, old(eventIds.next));
      && clusterRepo.rows == UpsertAll(old(clusterRepo.rows), es)
      && SignalTable(signalRepo.rows, signalIds.next) == JudgeAll(
        old(SignalTable(signalRepo.rows, signalIds.next)),
        ClusterVerdicts(old(clusterRepo.rows), es, thresholds), true, false)
      && eventIds.next == old(eventIds.next) + |es|
    ensures notable == |NotableOnes(candidates, thresholds.minClusterFilerCount)|
  {
    hide *;
    notable := 0;
    PassStarts(SignalTable(signalRepo.rows, signalIds.next), true, false);
    NoCandidates(clusterRepo.rows, thresholds);
    ghost var es := EventsFor(candidates, eventIds.next);
    ghost var rows0, t0, id0 := clusterRepo.rows, SignalTable(signalRepo.rows, signalIds.next), eventIds.next;
    ghost var vs: seq<Verdict> := [];
    for i := 0 to |candidates|
      invariant TableOk(SignalTable(signalRepo.rows, signalIds.next))
      invariant eventIds.next == id0 + i
      invariant UpsertAll(rows0, es) == UpsertAll(clusterRepo.rows, es[i..])
      invariant ClusterVerdicts(rows0, es, thresholds) == vs + ClusterVerdicts(clusterRepo.rows, es[i..], thresholds)
      invariant SignalTable(signalRepo.rows, signalIds.next) == JudgeAll(t0, vs, true, false)
      invariant notable == |NotableOnes(candidates[..i], thresholds.minClusterFilerCount)|
    {
      var candidate := candidates[i];
      NotableOnesStep(candidates, thresholds.minClusterFilerCount, i);
      notable := notable + if IsNotableCluster(candidate, thresholds.minClusterFilerCount) then 1 else 0;
      var id := eventIds.Fresh();
      var made := MakeClusterBuyEvent(id, candidate);
      assert made.Success? && made.value == es[i];
      ghost var v := ClusterVerdict(clusterRepo.rows, es[i], thresholds);
      RestOfRun(clusterRepo.rows, es, thresholds, i);
      ClassifyCandidate(made.value, clusterRepo, signalRepo, signalIds, thresholds);
      JudgeAllSnoc(t0, vs, v, true, false);
      vs := vs + [v];
    }
    assert es[|candidates|..] == [] && candidates[..|candidates|] == candidates;
    NoCandidates(clusterRepo.rows, thresholds);
    assert vs == ClusterVerdicts(rows0, es, thresholds);
  }

  method ClassifyClusters(
      txnRepo: TransactionRepo.InsiderTransactionRepository, clusterRepo: ClusterBuyEventRepository,
      signalRepo: SignalRepository, eventIds: IdSource, signalIds: IdSource, thresholds: Thresholds)
    returns (detected: nat, notable: nat)
    requires eventIds != signalIds
    requires TableOk(SignalTable(signalRepo.rows, signalIds.next))
    modifies clusterRepo, signalRepo, eventIds, signalIds
    ensures var es := EventsFor(Candidates(txnRepo.rows, thresholds.clusterWindowDays), old(eventIds.next));
      && clusterRepo.rows == UpsertAll(old(clusterRepo.rows), es)
      && SignalTable(signalRepo.rows, signalIds.next) == JudgeAll(
        old(SignalTable(signalRepo.rows, signalIds.next)),
        ClusterVerdicts(old(clusterRepo.rows), es, thresholds), true, false)
      && eventIds.next == old(eventIds.next) + |es|
      && detected == |es|
    ensures notable
      == |NotableOnes(Candidates(txnRepo.rows, thresholds.clusterWindowDays), thresholds.minClusterFilerCount)|
  {
    hide Detect, TransactionRepo.Listed;
    var listed := txnRepo.List();
    var transactions := LiveTransactions(listed);
    var candidates := DetectClusters(transactions, thresholds.clusterWindowDays);
    forall c | c in candidates { CandidateWindow(transactions, thresholds.clusterWindowDays, c); }
    detected := |candidates|;
    notable := ClassifyCandidates(candidates, clusterRepo, signalRepo, eventIds, signalIds, thresholds);
  }
}
