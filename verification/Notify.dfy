// The notify command: one send attempt for every pending signal.
module Notify {
  import opened Domain
  import opened Signals
  import opened ClusterBuyRepo
  import TransactionRepo
  import BuybackRepo

  datatype Attempt = Attempt(signalId: Id, delivered: bool)

  /** What one run does to a row when the sends to the signals in `failing` fail. */
  function Notified(row: SignalRow, failing: set<Id>): SignalRow {
    if row.status != Pending then row
    else if row.id in failing then row.(status := Failed)
    else row.(status := Sent, notified := true)
  }

  function NotifiedRows(rows: seq<SignalRow>, failing: set<Id>): (r: seq<SignalRow>)
    ensures |r| == |rows|
    ensures forall i | 0 <= i < |rows| :: r[i] == Notified(rows[i], failing)
  {
    seq(|rows|, i requires 0 <= i < |rows| => Notified(rows[i], failing))
  }

  function Attempts(pending: seq<SignalRow>, failing: set<Id>): (r: seq<Attempt>)
    ensures |r| == |pending|
    ensures forall i | 0 <= i < |pending| :: r[i] == Attempt(pending[i].id, pending[i].id !in failing)
  {
    seq(|pending|, i requires 0 <= i < |pending| => Attempt(pending[i].id, pending[i].id !in failing))
  }

  function CountDelivered(attempts: seq<Attempt>): nat {
    if attempts == [] then 0
    else CountDelivered(attempts[..|attempts| - 1]) + if attempts[|attempts| - 1].delivered then 1 else 0
  }

  /** The mail server: it records every send and reports whether it succeeded. */
  class Mailer {
    var outbox: seq<Attempt>

    constructor ()
      ensures outbox == []
    {
      outbox := [];
    }

    method Send(signalId: Id, failing: set<Id>) returns (delivered: bool)
      modifies this
      ensures delivered <==> signalId !in failing
      ensures outbox == old(outbox) + [Attempt(signalId, delivered)]
    {
      delivered := signalId !in failing;
      outbox := outbox + [Attempt(signalId, delivered)];
    }
  }

  /** The record behind a link is in its table. */
  ghost predicate Resolves(link: Link, txns: seq<Transaction>, events: seq<BuybackEvent>,
      clusters: seq<ClusterBuyEvent>) {
    match link
    case InsiderLink(id) => exists t :: t in txns && t.id == id
    case BuybackLink(id) => exists e :: e in events && e.id == id
    case ClusterLink(id) => exists c :: c in clusters && c.id == id
  }

  /** compose_signal_email, reduced to its one failure: the linked record is missing. */
  method ComposeSignalEmail(
      link: Link, txnRepo: TransactionRepo.InsiderTransactionRepository,
      buybackRepo: BuybackRepo.BuybackEventRepository, clusterRepo: ClusterBuyEventRepository)
    returns (r: Result<()>)
    ensures r.Success? <==> Resolves(link, txnRepo.rows, buybackRepo.rows, clusterRepo.rows)
  {
    match link {
      case InsiderLink(id) =>
        var txn := txnRepo.Get(id);
        r := if txn.Some? then Success(()) else Failure(MissingRecord);
      case BuybackLink(id) =>
        var event := buybackRepo.Get(id);
        r := if event.Some? then Success(()) else Failure(MissingRecord);
      case ClusterLink(id) =>
        var cluster := clusterRepo.Get(id);
        r := if cluster.Some? then Success(()) else Failure(MissingRecord);
    }
  }

  /** The rows in the middle of a run: those with an id in `done` have been handled. */
  ghost function PartlyNotified(rows: seq<SignalRow>, done: set<Id>, failing: set<Id>): (r: seq<SignalRow>)
    ensures |r| == |rows|
    ensures forall i | 0 <= i < |rows| :: r[i] == if rows[i].id in done then Notified(rows[i], failing) else rows[i]
  {
    seq(|rows|, i requires 0 <= i < |rows| => if rows[i].id in done then Notified(rows[i], failing) else rows[i])
  }

  lemma SaveNotified(rows: seq<SignalRow>, done: set<Id>, failing: set<Id>, row: SignalRow)
    requires UniqueIds(rows) && row in rows
    ensures SaveRow(PartlyNotified(rows, done, failing), Notified(row, failing))
      == PartlyNotified(rows, done + {row.id}, failing)
  {
    var i :| 0 <= i < |rows| && rows[i] == row;
    var partly := PartlyNotified(rows, done, failing);
    assert forall k | 0 <= k < |rows| :: partly[k].id == rows[k].id;
    hide Notified;
    FindSignalIs(partly, i);
    var saved, goal := partly[i := Notified(row, failing)], PartlyNotified(rows, done + {row.id}, failing);
    forall k | 0 <= k < |rows|
      ensures saved[k] == goal[k]
    {
      assert k != i ==> rows[k].id != row.id;
    }
    assert Notified(row, failing).id == row.id by { NotifiedKeepsId(row, failing); }
  }

  lemma NotifiedKeepsId(row: SignalRow, failing: set<Id>)
    ensures Notified(row, failing).id == row.id
  {}

  ghost function IdsOf(rows: seq<SignalRow>): set<Id> {
    set row | row in rows :: row.id
  }

  lemma AllNotified(rows: seq<SignalRow>, failing: set<Id>)
    ensures PartlyNotified(rows, IdsOf(PendingRows(rows)), failing) == NotifiedRows(rows, failing)
  {
    PendingAre(rows);
  }

  /** The body of the loop over the pending signals; moving a pending signal on never raises. */
  method NotifyOne(
      signal: Signal, signalRepo: SignalRepository, txnRepo: TransactionRepo.InsiderTransactionRepository,
      buybackRepo: BuybackRepo.BuybackEventRepository, clusterRepo: ClusterBuyEventRepository,
      mailer: Mailer, failing: set<Id>)
    returns (r: Result<bool>)
    requires signal.status == Pending
    modifies signal, signalRepo, mailer
    ensures r.Success? <==> Resolves(signal.link, txnRepo.rows, buybackRepo.rows, clusterRepo.rows)
    ensures r.Success? ==>
      && r.value == (signal.id !in failing)
      && signalRepo.rows == SaveRow(old(signalRepo.rows), Notified(old(signal.Row()), failing))
      && mailer.outbox == old(mailer.outbox) + [Attempt(signal.id, r.value)]
    ensures r.Failure? ==> signalRepo.rows == old(signalRepo.rows) && mailer.outbox == old(mailer.outbox)
  {
    var email := ComposeSignalEmail(signal.link, txnRepo, buybackRepo, clusterRepo);
    if email.Failure? {
      return Failure(email.error);
    }
    var delivered := mailer.Send(signal.id, failing);
    var moved := signal.TransitionNotification(if delivered then Sent else Failed);
    assert moved.Success?;
    signalRepo.Save(signal);
    return Success(delivered);
  }

  /** run_notify: it raises only when a pending signal's record is missing; otherwise it attempts
      one send per pending signal and leaves every other row as it was. */
  method RunNotify(
      signalRepo: SignalRepository, txnRepo: TransactionRepo.InsiderTransactionRepository,
      buybackRepo: BuybackRepo.BuybackEventRepository, clusterRepo: ClusterBuyEventRepository,
      mailer: Mailer, failing: set<Id>)
    returns (r: Result<(nat, nat)>)
    requires UniqueIds(signalRepo.rows)
    modifies signalRepo, mailer
    ensures r.Success? <==> forall row | row in PendingRows(old(signalRepo.rows)) ::
      Resolves(row.link, txnRepo.rows, buybackRepo.rows, clusterRepo.rows)
    ensures r.Success? ==>
      && signalRepo.rows == NotifiedRows(old(signalRepo.rows), failing)
      && mailer.outbox == old(mailer.outbox) + Attempts(PendingRows(old(signalRepo.rows)), failing)
      && r.value.0 == CountDelivered(Attempts(PendingRows(old(signalRepo.rows)), failing))
      && r.value.0 + r.value.1 == |PendingRows(old(signalRepo.rows))|
  {
    hide *;
    ghost var rows0, pendingRows := signalRepo.rows, PendingRows(signalRepo.rows);
    ghost var attempts := Attempts(pendingRows, failing);
    PendingAre(rows0);
    var pending := signalRepo.ListPendingNotifications();
    var sent, failed := 0, 0;
    BeforeFirst(rows0, pendingRows, attempts, failing);
    assert forall k | 0 <= k < |pendingRows| :: pendingRows[k] in pendingRows;
    for i := 0 to |pending|
      invariant signalRepo.rows == PartlyNotified(rows0, IdsOf(pendingRows[..i]), failing)
      invariant mailer.outbox == old(mailer.outbox) + attempts[..i]
      invariant forall k | i <= k < |pending| :: pending[k].Row() == pendingRows[k]
      invariant forall k | 0 <= k < i :: Resolves(pendingRows[k].link, txnRepo.rows, buybackRepo.rows, clusterRepo.rows)
      invariant sent == CountDelivered(attempts[..i]) && sent + failed == i
    {
      var signal := pending[i];
      ghost var row := pendingRows[i];
      assert row in pendingRows;
      NextPending(pendingRows, attempts, i);
      SaveNotified(rows0, IdsOf(pendingRows[..i]), failing, row);
      assert signal.Row() == row && signal.status == Pending && signal.link == row.link && signal.id == row.id by {
        RowFields(signal);
      }
      var done := NotifyOne(signal, signalRepo, txnRepo, buybackRepo, clusterRepo, mailer, failing);
      if done.Failure? {
        return Failure(done.error);
      }
      if done.value {
        sent := sent + 1;
      } else {
        failed := failed + 1;
      }
    }
    assert pendingRows[..|pending|] == pendingRows && attempts[..|pending|] == attempts;
    AllNotified(rows0, failing);
    return Success((sent, failed));
  }

  lemma RowFields(signal: Signal)
    ensures signal.Row().status == signal.status && signal.Row().link == signal.link && signal.Row().id == signal.id
  {}

  lemma BeforeFirst(rows: seq<SignalRow>, pendingRows: seq<SignalRow>, attempts: seq<Attempt>, failing: set<Id>)
    ensures PartlyNotified(rows, IdsOf(pendingRows[..0]), failing) == rows
    ensures CountDelivered(attempts[..0]) == 0
  {}

  lemma NextPending(pendingRows: seq<SignalRow>, attempts: seq<Attempt>, i: nat)
    requires i < |pendingRows| == |attempts|
    ensures IdsOf(pendingRows[..i + 1]) == IdsOf(pendingRows[..i]) + {pendingRows[i].id}
    ensures attempts[..i + 1] == attempts[..i] + [attempts[i]]
    ensures CountDelivered(attempts[..i + 1]) == CountDelivered(attempts[..i]) + if attempts[i].delivered then 1 else 0
  {
    assert pendingRows[..i + 1] == pendingRows[..i] + [pendingRows[i]];
    assert attempts[..i + 1][..i] == attempts[..i];
  }
}
