// How many emails a signal can cause over a whole run.
module EmailLaws {
  import opened Domain
  import opened Signals
  import opened ClusterBuyRepo
  import opened Classify
  import opened Notify
  import opened Pipeline
  import opened Invariants
  import opened RecordLaws
  import opened ClusterLaws
  import opened Transitions

  /** The send attempts made for one signal. */
  function CountSends(outbox: seq<Attempt>, sid: Id): nat {
    if outbox == [] then 0
    else CountSends(outbox[..|outbox| - 1], sid) + if outbox[|outbox| - 1].signalId == sid then 1 else 0
  }

  predicate IsTried(status: Status) {
    status == Sent || status == Failed
  }

  /** The signal's status says that a send was attempted. */
  ghost predicate WasTried(s: State, sid: Id) {
    exists row :: row in s.signals.rows && row.id == sid && IsTried(row.status)
  }

  ghost predicate SomePending(rows: seq<SignalRow>, sid: Id) {
    exists row :: row in rows && row.id == sid && row.status == Pending
  }

  ghost predicate IsWaiting(s: State, sid: Id) {
    SomePending(s.signals.rows, sid)
  }

  /** The event took the signal from sent or failed back to another status. */
  ghost predicate IsDowngrade(s: State, e: Event, sid: Id) {
    WasTried(s, sid) && !WasTried(Step(s, e), sid)
  }

  ghost function Downgrades(events: seq<Event>, sid: Id): nat {
    if events == [] then 0
    else
      var before := events[..|events| - 1];
      Downgrades(before, sid) + if IsDowngrade(Run(before), events[|events| - 1], sid) then 1 else 0
  }

  // ---------- Counting ----------

  lemma {:induction false} CountConcat(a: seq<Attempt>, b: seq<Attempt>, sid: Id)
    ensures CountSends(a + b, sid) == CountSends(a, sid) + CountSends(b, sid)
  {
    if b == [] {
      assert a + b == a;
    } else {
      assert (a + b)[..|a + b| - 1] == a + b[..|b| - 1];
      CountConcat(a, b[..|b| - 1], sid);
    }
  }

  lemma AttemptsSnoc(pending: seq<SignalRow>, row: SignalRow, failing: set<Id>)
    ensures Attempts(pending + [row], failing) == Attempts(pending, failing) + [Attempt(row.id, row.id !in failing)]
  {}

  /** One run attempts at most one send for a signal, and does so iff the signal is pending. */
  lemma {:induction false} OneSendPerRun(rows: seq<SignalRow>, failing: set<Id>, sid: Id)
    requires UniqueIds(rows)
    ensures CountSends(Attempts(PendingRows(rows), failing), sid) == if SomePending(rows, sid) then 1 else 0
  {
    if rows != [] {
      var front, last := rows[..|rows| - 1], rows[|rows| - 1];
      OneSendPerRun(front, failing, sid);
      AttemptsSnoc(PendingRows(front), last, failing);
      CountConcat(Attempts(PendingRows(front), failing), [Attempt(last.id, last.id !in failing)], sid);
      assert [Attempt(last.id, last.id !in failing)][..0] == [];
      assert rows == front + [last];
      assert PendingRows(front) + [] == PendingRows(front);
      if SomePending(front, sid) {
        var row :| row in front && row.id == sid && row.status == Pending;
        assert row in rows && row.id != last.id;
      }
    }
  }

  // ---------- One event ----------

  lemma RowOf(rows: seq<SignalRow>, sid: Id, i: nat)
    requires UniqueIds(rows) && i < |rows| && rows[i].id == sid
    ensures forall row | row in rows && row.id == sid :: row == rows[i]
  {
    forall row | row in rows && row.id == sid
      ensures row == rows[i]
    {
      var j :| 0 <= j < |rows| && rows[j] == row;
    }
  }

  ghost predicate IsKnown(s: State, sid: Id) {
    exists row :: row in s.signals.rows && row.id == sid
  }

  lemma KnownIndex(s: State, sid: Id) returns (i: nat)
    requires Inv(s) && IsKnown(s, sid)
    ensures i < |s.signals.rows| && s.signals.rows[i].id == sid
    ensures WasTried(s, sid) <==> IsTried(s.signals.rows[i].status)
    ensures IsWaiting(s, sid) <==> s.signals.rows[i].status == Pending
  {
    hide TransactionsOk, BuybacksOk, ClustersOk, RowsOk, MailOk;
    i :| 0 <= i < |s.signals.rows| && s.signals.rows[i].id == sid;
    RowOf(s.signals.rows, sid, i);
    assert s.signals.rows[i] in s.signals.rows;
  }

  /** A signal that an event creates has not been tried. */
  lemma UnknownIsUntried(s: State, e: Event, sid: Id)
    requires Inv(s) && !IsKnown(s, sid)
    ensures !WasTried(s, sid) && !IsWaiting(s, sid) && !WasTried(Step(s, e), sid)
  {
    hide Inv, Step;
    var after := Step(s, e).signals.rows;
    forall row | row in after && row.id == sid
      ensures !IsTried(row.status)
    {
      var i :| 0 <= i < |after| && after[i] == row;
      if i < |s.signals.rows| {
        assert s.signals.rows[i] in s.signals.rows;
        RowStep(s, e, i);
      } else {
        NewRowStep(s, e, i);
      }
    }
  }

  /** A known signal stays known, and is tried anew exactly when a notify run finds it pending. */
  lemma KnownStep(s: State, e: Event, sid: Id)
    requires Inv(s) && Inv(Step(s, e)) && IsKnown(s, sid)
    ensures IsKnown(Step(s, e), sid)
    ensures !WasTried(s, sid) && WasTried(Step(s, e), sid) <==> e.RunNotify? && IsWaiting(s, sid)
  {
    hide Inv, Step;
    var i := KnownIndex(s, sid);
    RowStep(s, e, i);
    var after := Step(s, e);
    assert after.signals.rows[i] in after.signals.rows;
    var j := KnownIndex(after, sid);
    SameIndex(after, i, j);
  }

  lemma SameIndex(s: State, i: nat, j: nat)
    requires Inv(s) && i < |s.signals.rows| && j < |s.signals.rows| && s.signals.rows[i].id == s.signals.rows[j].id
    ensures i == j
  {}

  lemma SendsOfStep(s: State, e: Event, sid: Id)
    requires Inv(s)
    ensures CountSends(Step(s, e).outbox, sid)
      == CountSends(s.outbox, sid) + if e.RunNotify? && IsWaiting(s, sid) then 1 else 0
  {
    hide TransactionsOk, BuybacksOk, ClustersOk, RowsOk, MailOk, CountSends, DetectedEvents, JudgeAll, UpsertAll;
    if e.RunNotify? {
      OneSendPerRun(s.signals.rows, e.failing, sid);
      CountConcat(s.outbox, Attempts(PendingRows(s.signals.rows), e.failing), sid);
    }
  }

  /** The balance of one event: attempts made, less downgrades, is the change in being tried. */
  lemma Balance(s: State, e: Event, sid: Id)
    requires Inv(s) && Inv(Step(s, e))
    ensures CountSends(Step(s, e).outbox, sid) + (if WasTried(s, sid) then 1 else 0)
      == CountSends(s.outbox, sid) + (if WasTried(Step(s, e), sid) then 1 else 0)
        + (if IsDowngrade(s, e, sid) then 1 else 0)
  {
    hide Inv, Step, CountSends, WasTried, IsWaiting, IsKnown;
    SendsOfStep(s, e, sid);
    if IsKnown(s, sid) {
      KnownStep(s, e, sid);
      if e.RunNotify? && IsWaiting(s, sid) && WasTried(s, sid) {
        var i := KnownIndex(s, sid);
      }
    } else {
      UnknownIsUntried(s, e, sid);
    }
  }

  // ---------- Whole runs ----------

  /** Over every run, the send attempts for a signal are its downgrades, plus one if it is now
      sent or failed. */
  lemma {:induction false} SendsAreAccounted(events: seq<Event>, sid: Id)
    ensures CountSends(Run(events).outbox, sid) == Downgrades(events, sid) + if WasTried(Run(events), sid) then 1 else 0
  {
    hide Inv, Step, WasTried, IsDowngrade;
    if events == [] {
      NothingTried(sid);
    } else {
      var before := events[..|events| - 1];
      SendsAreAccounted(before, sid);
      RunKeepsInv(before);
      RunKeepsInv(events);
      Balance(Run(before), events[|events| - 1], sid);
    }
  }

  lemma NothingTried(sid: Id)
    ensures !WasTried(INITIAL, sid) && CountSends(INITIAL.outbox, sid) == 0
  {}

  lemma {:induction false} UnknownWasNeverDowngraded(events: seq<Event>, sid: Id)
    requires !IsKnown(Run(events), sid)
    ensures Downgrades(events, sid) == 0
  {
    hide Inv, Step, IsKnown, WasTried;
    if events != [] {
      var before := events[..|events| - 1];
      RunKeepsInv(before);
      RunKeepsInv(events);
      if IsKnown(Run(before), sid) {
        KnownStep(Run(before), events[|events| - 1], sid);
      }
      UnknownWasNeverDowngraded(before, sid);
      UnknownIsUntried(Run(before), events[|events| - 1], sid);
    }
  }

  ghost predicate IsClusterSignal(s: State, sid: Id) {
    exists row :: row in s.signals.rows && row.id == sid && row.link.ClusterLink?
  }

  /** A cluster signal that was tried stays tried, and a known one keeps its kind. */
  lemma ClusterStep(s: State, e: Event, sid: Id)
    requires Inv(s) && Inv(Step(s, e)) && IsKnown(s, sid) && IsClusterSignal(Step(s, e), sid)
    ensures IsClusterSignal(s, sid) && !IsDowngrade(s, e, sid)
  {
    hide Inv, Step;
    var i := KnownIndex(s, sid);
    RowStep(s, e, i);
    var after := Step(s, e);
    var row :| row in after.signals.rows && row.id == sid && row.link.ClusterLink?;
    var j :| 0 <= j < |after.signals.rows| && after.signals.rows[j] == row;
    SameIndex(after, i, j);
    assert s.signals.rows[i] in s.signals.rows;
    if WasTried(s, sid) {
      assert IsTried(after.signals.rows[i].status);
      assert WasTried(after, sid);
    }
  }

  lemma {:induction false} ClusterNeverDowngraded(events: seq<Event>, sid: Id)
    requires IsClusterSignal(Run(events), sid)
    ensures Downgrades(events, sid) == 0
  {
    hide Inv, Step, IsKnown, WasTried, IsClusterSignal, IsDowngrade;
    if events != [] {
      var before := events[..|events| - 1];
      RunKeepsInv(before);
      RunKeepsInv(events);
      if IsKnown(Run(before), sid) {
        ClusterStep(Run(before), events[|events| - 1], sid);
        ClusterNeverDowngraded(before, sid);
      } else {
        UnknownWasNeverDowngraded(before, sid);
        UnknownIsUntried(Run(before), events[|events| - 1], sid);
        NoDowngradeUntried(Run(before), events[|events| - 1], sid);
      }
    }
  }

  lemma NoDowngradeUntried(s: State, e: Event, sid: Id)
    requires !WasTried(s, sid)
    ensures !IsDowngrade(s, e, sid)
  {}

  /** A cluster signal causes at most one send attempt over any run whatever: one exactly when it
      is sent or failed. */
  lemma ClusterEmailedAtMostOnce(events: seq<Event>, sid: Id)
    requires IsClusterSignal(Run(events), sid)
    ensures CountSends(Run(events).outbox, sid) == if WasTried(Run(events), sid) then 1 else 0
  {
    SendsAreAccounted(events, sid);
    ClusterNeverDowngraded(events, sid);
  }

  /** Only a reclassifying run downgrades. */
  lemma OnlyReclassifyDowngrades(s: State, e: Event, sid: Id)
    requires Inv(s) && Inv(Step(s, e)) && IsDowngrade(s, e, sid)
    ensures e == RunClassify(true)
  {
    hide Inv, Step;
    var row :| row in s.signals.rows && row.id == sid && IsTried(row.status);
    var i := KnownIndex(s, sid);
    RowStep(s, e, i);
    var after := Step(s, e);
    assert after.signals.rows[i] in after.signals.rows;
    assert !IsTried(after.signals.rows[i].status);
  }

  /** Without --reclassify every signal causes at most one send attempt. */
  lemma {:induction false} NoReclassifyNoResend(events: seq<Event>, sid: Id)
    requires forall e | e in events :: e != RunClassify(true)
    ensures Downgrades(events, sid) == 0 && CountSends(Run(events).outbox, sid) <= 1
  {
    SendsAreAccounted(events, sid);
    if events != [] {
      hide Inv, Step, WasTried, IsDowngrade, CountSends;
      var before, last := events[..|events| - 1], events[|events| - 1];
      assert last in events && forall e | e in before :: e in events;
      NoReclassifyNoResend(before, sid);
      RunKeepsInv(before);
      RunKeepsInv(events);
      if IsDowngrade(Run(before), last, sid) {
        OnlyReclassifyDowngrades(Run(before), last, sid);
      }
    }
  }
}
