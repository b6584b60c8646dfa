// When reclassifying takes back a sent signal, and the second email that can follow.
module ResendLaws {
  import opened Domain
  import opened Rules
  import opened Signals
  import opened Classify
  import opened Notify
  import opened Pipeline
  import opened RecordLaws
  import opened ClusterLaws
  import opened Invariants
  import opened Transitions
  import opened Settling
  import opened EmailLaws
  import ClusterBuying
  import VerdictLaws
  import TransactionRepo
  import BuybackRepo

  /** The record behind the link is live and the rule for it says that it is not notable. */
  ghost predicate RuleRejects(s: State, link: Link) {
    match link
    case InsiderLink(id) => exists t ::
      t in s.txns && t.id == id && t.supersededBy == None && !IsNotableTransaction(t, s.thresholds)
    case BuybackLink(id) => exists e ::
      e in s.buybacks && e.id == id && e.supersededBy == None && !IsNotableBuyback(e, s.thresholds)
    case ClusterLink(_) => false
  }

  lemma RowLookup(s: State, i: nat)
    requires Inv(s) && i < |s.signals.rows|
    ensures Lookup(s.signals.rows, s.signals.rows[i].link) == Some(s.signals.rows[i])
  {
    LookupAt(s.signals.rows, i);
  }

  /** A sent or failed row after a reclassifying run. */
  lemma ReclassifiedRow(s: State, a: SignalRow)
    requires Inv(s) && Lookup(s.signals.rows, a.link) == Some(a) && IsTried(a.status)
    ensures Lookup(Classified(s, true).signals.rows, a.link).Some?
    ensures IsTried(Lookup(Classified(s, true).signals.rows, a.link).value.status) <==> !RuleRejects(s, a.link)
  {
    hide RecordVerdicts, EventVerdicts, RunVerdicts, Classified, Lookup, TransactionsOk, BuybacksOk, ClustersOk,
      TableOk, RowsOk, MailOk;
    LiveVerdicts(s);
    RunFacts(s, true);
    if v :| (v in RecordVerdicts(s) || v in EventVerdicts(s) || v in RunVerdicts(s)) && v.link == a.link {
      ClassifyOutcome(s, true, v);
      RejectedIff(s, v);
    } else {
      ClassifyLeaves(s, true, a.link);
    }
  }

  lemma RejectedTransaction(s: State, t: Transaction)
    requires DistinctIds(s.txns) && t in s.txns && t.supersededBy == None
    ensures RuleRejects(s, InsiderLink(t.id)) <==> !IsNotableTransaction(t, s.thresholds)
  {
    hide IsNotableTransaction;
  }

  lemma RejectedBuyback(s: State, e: BuybackEvent)
    requires DistinctEventIds(s.buybacks) && e in s.buybacks && e.supersededBy == None
    ensures RuleRejects(s, BuybackLink(e.id)) <==> !IsNotableBuyback(e, s.thresholds)
  {
    hide IsNotableBuyback;
  }

  lemma RejectedIff(s: State, v: Verdict)
    requires Inv(s) && (v in RecordVerdicts(s) || v in EventVerdicts(s) || v in RunVerdicts(s))
    ensures RuleRejects(s, v.link) <==> !v.link.ClusterLink? && !v.isNotable
  {
    hide RecordVerdicts, EventVerdicts, RunVerdicts, Inv, RuleRejects, VerdictLaws.DistinctLinks, IsNotableTransaction,
      IsNotableBuyback, DistinctIds, DistinctEventIds;
    RunFacts(s, true);
    LiveVerdicts(s);
    RecordIdsDistinct(s);
    match v.link {
      case InsiderLink(id) =>
        var t :| t in s.txns && t.supersededBy == None && v.link == InsiderLink(t.id);
        OneVerdictPerLink(RecordVerdicts(s), v, TransactionVerdict(t, s.thresholds));
        RejectedTransaction(s, t);
      case BuybackLink(id) =>
        var e :| e in s.buybacks && e.supersededBy == None && v.link == BuybackLink(e.id);
        OneVerdictPerLink(EventVerdicts(s), v, BuybackVerdict(e, s.thresholds));
        RejectedBuyback(s, e);
      case ClusterLink(id) =>
        NoRuleForClusters(s, id);
    }
  }

  lemma NoRuleForClusters(s: State, id: Id)
    ensures !RuleRejects(s, ClusterLink(id))
  {}

  lemma RecordIdsDistinct(s: State)
    requires Inv(s)
    ensures DistinctIds(s.txns) && DistinctEventIds(s.buybacks)
  {
    hide ClustersOk, RowsOk, MailOk, TableOk;
    TransactionsHaveDistinctIds(s.txns);
    BuybacksHaveDistinctIds(s.buybacks);
  }

  lemma OneVerdictPerLink(vs: seq<Verdict>, v: Verdict, w: Verdict)
    requires VerdictLaws.DistinctLinks(vs) && v in vs && w in vs && v.link == w.link
    ensures v == w
  {}

  /** `--reclassify` takes a signal back from sent or failed exactly when its filing is live and
      not notable under the current thresholds. */
  lemma DowngradeExactly(s: State, i: nat)
    requires Inv(s) && i < |s.signals.rows|
    ensures IsDowngrade(s, RunClassify(true), s.signals.rows[i].id) <==>
      IsTried(s.signals.rows[i].status) && RuleRejects(s, s.signals.rows[i].link)
  {
    hide Inv, RuleRejects, Classified;
    var a := s.signals.rows[i];
    var after := Step(s, RunClassify(true));
    assert a in s.signals.rows;
    var k := KnownIndex(s, a.id);
    SameIndex(s, i, k);
    if IsTried(a.status) {
      RowLookup(s, i);
      ReclassifiedRow(s, a);
      RowStep(s, RunClassify(true), i);
      ClassifyKeepsInv(s, true);
      RowLookup(after, i);
      assert after.signals.rows[i] in after.signals.rows;
      var j := KnownIndex(after, a.id);
      SameIndex(after, i, j);
    }
  }

  // ---------- Attempts over whole runs, by the guard ----------

  /** A reclassifying run finds the signal sent or failed, and its live filing not notable. */
  ghost predicate TakesBack(s: State, e: Event, sid: Id) {
    e == RunClassify(true)
    && exists row :: row in s.signals.rows && row.id == sid && IsTried(row.status) && RuleRejects(s, row.link)
  }

  /** How many events of the run found that. */
  ghost function CountTakenBack(events: seq<Event>, sid: Id): nat {
    if events == [] then 0
    else
      var before := events[..|events| - 1];
      CountTakenBack(before, sid) + if TakesBack(Run(before), events[|events| - 1], sid) then 1 else 0
  }

  lemma DowngradeIsTakenBack(s: State, e: Event, sid: Id)
    requires Inv(s) && Inv(Step(s, e))
    ensures IsDowngrade(s, e, sid) <==> TakesBack(s, e, sid)
  {
    hide Inv, Step, RuleRejects, IsDowngrade;
    if e == RunClassify(true) && IsKnown(s, sid) {
      var i := KnownIndex(s, sid);
      DowngradeExactly(s, i);
      OneRow(s, i);
    } else if IsDowngrade(s, e, sid) {
      OnlyReclassifyDowngrades(s, e, sid);
      UntriedIsNotDowngraded(s, e, sid);
    }
  }

  lemma UntriedIsNotDowngraded(s: State, e: Event, sid: Id)
    requires IsDowngrade(s, e, sid)
    ensures IsKnown(s, sid)
  {
    hide Step;
  }

  lemma OneRow(s: State, i: nat)
    requires Inv(s) && i < |s.signals.rows|
    ensures s.signals.rows[i] in s.signals.rows
    ensures forall row | row in s.signals.rows && row.id == s.signals.rows[i].id :: row == s.signals.rows[i]
  {
    hide TransactionsOk, BuybacksOk, ClustersOk, RowsOk, MailOk;
    RowOf(s.signals.rows, s.signals.rows[i].id, i);
  }

  lemma {:induction false} DowngradesByGuard(events: seq<Event>, sid: Id)
    ensures Downgrades(events, sid) == CountTakenBack(events, sid)
  {
    hide Inv, Step, IsDowngrade, TakesBack;
    if events != [] {
      var before := events[..|events| - 1];
      DowngradesByGuard(before, sid);
      RunKeepsInv(before);
      RunKeepsInv(events);
      DowngradeIsTakenBack(Run(before), events[|events| - 1], sid);
    }
  }

  /** Over every run, the send attempts for a signal are the reclassifying runs that found it sent or
      failed while the rule rejected its live filing, plus one if it is now sent or failed. */
  lemma AttemptsExactly(events: seq<Event>, sid: Id)
    ensures CountSends(Run(events).outbox, sid)
      == CountTakenBack(events, sid) + if WasTried(Run(events), sid) then 1 else 0
  {
    SendsAreAccounted(events, sid);
    DowngradesByGuard(events, sid);
  }

  // ---------- Which mailed signals are out of date ----------

  lemma IngestSparesClusters(s: State, e: Event, i: nat)
    requires (e.IngestTransaction? || e.IngestBuyback?) && i < |s.signals.rows| && s.signals.rows[i].link.ClusterLink?
    ensures i < |Step(s, e).signals.rows| && Step(s, e).signals.rows[i] == s.signals.rows[i]
  {}

  /** No ingestion supersedes a cluster's signal. */
  lemma {:induction false} ClusterNeverSuperseded(events: seq<Event>, i: nat)
    requires i < |Run(events).signals.rows| && Run(events).signals.rows[i].link.ClusterLink?
    ensures !Run(events).signals.rows[i].isSuperseded
  {
    if events != [] {
      hide Inv, Step;
      var before, e := events[..|events| - 1], events[|events| - 1];
      var s := Run(before);
      RunKeepsInv(before);
      if i < |s.signals.rows| {
        RowStep(s, e, i);
        ClusterNeverSuperseded(before, i);
        if e.IngestTransaction? || e.IngestBuyback? {
          IngestSparesClusters(s, e, i);
        }
      } else {
        NewRowStep(s, e, i);
      }
    }
  }

  /** What a notify run mails, in every reachable state: exactly the pending signals. The mailed ones
      that are out of date are exactly the cluster signals that are no longer notable and the filing
      signals that are superseded. */
  lemma MailedExactly(events: seq<Event>, failing: set<Id>, i: nat)
    requires i < |Run(events).signals.rows|
    ensures var s, row := Run(events), Run(events).signals.rows[i];
      && CountSends(Step(s, RunNotify(failing)).outbox, row.id)
        == CountSends(s.outbox, row.id) + (if row.status == Pending then 1 else 0)
      && (row.status == Pending ==>
        (!row.isNotable || row.isSuperseded <==> if row.link.ClusterLink? then !row.isNotable else row.isSuperseded))
  {
    hide Inv, Step, CountSends, WasTried, IsWaiting, IsKnown;
    var s := Run(events);
    RunKeepsInv(events);
    SendsOfStep(s, RunNotify(failing), s.signals.rows[i].id);
    PendingIsWaiting(s, i);
    CoherentAt(s, i);
    if s.signals.rows[i].link.ClusterLink? {
      ClusterNeverSuperseded(events, i);
    }
  }

  lemma PendingIsWaiting(s: State, i: nat)
    requires Inv(s) && i < |s.signals.rows|
    ensures IsWaiting(s, s.signals.rows[i].id) <==> s.signals.rows[i].status == Pending
  {
    hide Inv;
    OneRow(s, i);
  }

  // ---------- A second email ----------

  const EVENT := BuybackEvent(0, "Acme", None, "1", Authorized, 60000000.0, 0, "ref", "url", 0, None)

  const STRICT: Thresholds := DEFAULTS.(minBuybackAmount := 100000000.0)

  /** Announced and emailed, taken back under stricter thresholds, and emailed again. */
  const TWICE: seq<Event> := [
    IngestBuyback(EVENT), RunClassify(false), RunNotify({}),
    SetThresholds(STRICT), RunClassify(true),
    SetThresholds(DEFAULTS), RunClassify(true), RunNotify({})]

  lemma NoTransactions(s: State)
    requires s.txns == []
    ensures RecordVerdicts(s) == [] && DetectedEvents(s) == []
  {
    assert TransactionRepo.Listed([]) == [];
    assert Live([]) == [];
    assert ClusterBuying.Qualifying([]) == [];
  }

  /** A classify run over one buyback and nothing else. */
  lemma LoneBuyback(s: State, reclassify: bool)
    requires s.txns == [] && |s.buybacks| == 1 && s.buybacks[0].supersededBy == None
    ensures Classified(s, reclassify) ==
      s.(signals := Judge(s.signals, BuybackVerdict(s.buybacks[0], s.thresholds), reclassify, true))
  {
    NoTransactions(s);
    var e := s.buybacks[0];
    assert s.buybacks == [e] && [e][..0] == [];
    assert BuybackRepo.Listed([e]) == [e];
    assert BuybackVerdicts([e], s.thresholds) == [BuybackVerdict(e, s.thresholds)] by {
      assert BuybackVerdicts([e][..0], s.thresholds) == [];
    }
    var v := BuybackVerdict(e, s.thresholds);
    assert EventVerdicts(s) == [v] && [v][..0] == [];
    assert JudgeAll(s.signals, [v], reclassify, true) == Judge(s.signals, v, reclassify, true);
  }

  function After(row: SignalRow, sends: seq<Attempt>, thresholds: Thresholds): State {
    State([], 0, [EVENT], 1, [], 0, SignalTable([row], 1), thresholds, sends)
  }

  function Announced(status: Status, isNotable: bool, notified: bool, snapshot: Thresholds): SignalRow {
    SignalRow(0, BuybackLink(0), isNotable, None, false, snapshot, status, notified)
  }

  lemma ClassifyAnnounced(row: SignalRow, sends: seq<Attempt>, thresholds: Thresholds)
    requires row.link == BuybackLink(0)
    ensures Step(After(row, sends, thresholds), RunClassify(true))
      == After(Judged(row, BuybackVerdict(EVENT, thresholds), true), sends, thresholds)
  {
    LoneBuyback(After(row, sends, thresholds), true);
  }

  lemma NotifyAnnounced(row: SignalRow, sends: seq<Attempt>, thresholds: Thresholds)
    requires row.status == Pending
    ensures Step(After(row, sends, thresholds), RunNotify({}))
      == After(Notified(row, {}), sends + [Attempt(row.id, true)], thresholds)
  {
    assert [row][..0] == [];
    assert PendingRows([row]) == [row];
  }

  lemma RunNext(events: seq<Event>, k: nat)
    requires k < |events|
    ensures Run(events[..k + 1]) == Step(Run(events[..k]), events[k])
  {
    assert events[..k + 1][..k] == events[..k];
  }

  lemma FirstIngest()
    ensures Step(INITIAL, IngestBuyback(EVENT)) == State([], 0, [EVENT], 1, [], 0, SignalTable([], 0), DEFAULTS, [])
  {}

  lemma FirstClassify()
    ensures Step(State([], 0, [EVENT], 1, [], 0, SignalTable([], 0), DEFAULTS, []), RunClassify(false))
      == After(Announced(Pending, true, false, DEFAULTS), [], DEFAULTS)
  {
    LoneBuyback(State([], 0, [EVENT], 1, [], 0, SignalTable([], 0), DEFAULTS, []), false);
  }

  lemma ThresholdsAfter(row: SignalRow, sends: seq<Attempt>, before: Thresholds, t: Thresholds)
    ensures Step(After(row, sends, before), SetThresholds(t)) == After(row, sends, t)
  {}

  /** What the three kinds of event do to the announced signal. */
  lemma Announcements(status: Status, isNotable: bool, notified: bool, snapshot: Thresholds)
    ensures Notified(Announced(Pending, true, notified, snapshot), {}) == Announced(Sent, true, true, snapshot)
    ensures Judged(Announced(Sent, true, notified, snapshot), BuybackVerdict(EVENT, STRICT), true)
      == Announced(NotApplicable, false, notified, STRICT)
    ensures Judged(Announced(NotApplicable, false, notified, snapshot), BuybackVerdict(EVENT, DEFAULTS), true)
      == Announced(Pending, true, notified, DEFAULTS)
  {}

  lemma FinalState()
    ensures Run(TWICE) == After(Announced(Sent, true, true, DEFAULTS), [Attempt(0, true), Attempt(0, true)], DEFAULTS)
  {
    hide Run, Step, Notified, Judged, BuybackVerdict;
    assert Run(TWICE[..0]) == INITIAL by { EmptyRun(); }
    assert TWICE[..8] == TWICE;
    RunNext(TWICE, 0);
    RunNext(TWICE, 1);
    RunNext(TWICE, 2);
    RunNext(TWICE, 3);
    RunNext(TWICE, 4);
    RunNext(TWICE, 5);
    RunNext(TWICE, 6);
    RunNext(TWICE, 7);
    FirstIngest();
    FirstClassify();
    Announcements(Sent, true, false, DEFAULTS);
    Announcements(Sent, true, true, DEFAULTS);
    Announcements(Sent, true, true, STRICT);
    var sends := [Attempt(0, true)];
    var pending, sent := Announced(Pending, true, false, DEFAULTS), Announced(Sent, true, true, DEFAULTS);
    NotifyAnnounced(pending, [], DEFAULTS);
    assert Run(TWICE[..3]) == After(sent, sends, DEFAULTS);
    ThresholdsAfter(sent, sends, DEFAULTS, STRICT);
    ClassifyAnnounced(sent, sends, STRICT);
    var back := Announced(NotApplicable, false, true, STRICT);
    assert Run(TWICE[..5]) == After(back, sends, STRICT);
    ThresholdsAfter(back, sends, STRICT, DEFAULTS);
    ClassifyAnnounced(back, sends, DEFAULTS);
    var again := Announced(Pending, true, true, DEFAULTS);
    assert Run(TWICE[..7]) == After(again, sends, DEFAULTS);
    NotifyAnnounced(again, sends, DEFAULTS);
  }

  lemma EmptyRun()
    ensures Run(TWICE[..0]) == INITIAL
  {}

  /** The documented guarantee of one notification per signal fails when thresholds are raised and
      lowered again around reclassifying runs. */
  lemma ReclassifyCanResend()
    ensures CountSends(Run(TWICE).outbox, 0) == 2 && Downgrades(TWICE, 0) == 1
  {
    hide Run, Step, Downgrades;
    FinalState();
    var one := [Attempt(0, true)];
    CountConcat(one, one, 0);
    assert one[..0] == [] && CountSends(one, 0) == 1;
    assert one + one == [Attempt(0, true), Attempt(0, true)];
    assert Run(TWICE).signals.rows == [Announced(Sent, true, true, DEFAULTS)];
    assert Announced(Sent, true, true, DEFAULTS) in Run(TWICE).signals.rows;
    SendsAreAccounted(TWICE, 0);
  }
}
