// Signals: the mutable domain object, the stored rows, and the table.
module Signals {
  import opened Domain
  import opened Rules

  datatype Status = NotApplicable | Pending | Sent | Failed

  /** signal_type together with the one linked id that the type requires. */
  datatype Link = InsiderLink(id: Id) | BuybackLink(id: Id) | ClusterLink(id: Id)

  /** `notified` says whether notified_at is set. */
  datatype SignalRow = SignalRow(
    id: Id,
    link: Link,
    isNotable: bool,
    isDiscretionary: Option<bool>,
    isSuperseded: bool,
    snapshot: Thresholds,
    status: Status,
    notified: bool)

  predicate MayTransition(from: Status, to: Status) {
    from == Pending && (to == Sent || to == Failed)
  }

  class Signal {
    const id: Id
    const link: Link
    var isNotable: bool
    var isDiscretionary: Option<bool>
    var isSuperseded: bool
    var snapshot: Thresholds
    var status: Status
    var notified: bool

    constructor (row: SignalRow)
      ensures Row() == row
    {
      id, link := row.id, row.link;
      isNotable, isDiscretionary, isSuperseded := row.isNotable, row.isDiscretionary, row.isSuperseded;
      snapshot, status, notified := row.snapshot, row.status, row.notified;
    }

    function Row(): SignalRow
      reads this
    {
      SignalRow(id, link, isNotable, isDiscretionary, isSuperseded, snapshot, status, notified)
    }

    method TransitionNotification(newStatus: Status) returns (r: Result<()>)
      modifies this
      ensures r.Success? <==> old(status) == Pending && (newStatus == Sent || newStatus == Failed)
      ensures r.Success? ==> Row() == old(Row()).(status := newStatus, notified := old(notified) || newStatus == Sent)
      ensures r.Failure? ==> Row() == old(Row())
    {
      if !MayTransition(status, newStatus) {
        return Failure(InvalidTransition);
      }
      status := newStatus;
      if newStatus == Sent {
        notified := true;
      }
      return Success(());
    }

    method MarkSuperseded() returns (r: Result<()>)
      modifies this
      ensures r.Success? <==> !old(isSuperseded)
      ensures Row() == old(Row()).(isSuperseded := true)
    {
      if isSuperseded {
        return Failure(AlreadySuperseded);
      }
      isSuperseded := true;
      return Success(());
    }
  }

  // ---------- The table ----------

  /** The first row with the id, or the position of a new row. */
  function FindSignal(rows: seq<SignalRow>, id: Id): (i: nat)
    ensures i <= |rows|
    ensures i < |rows| ==> rows[i].id == id
    ensures forall j | 0 <= j < i :: rows[j].id != id
  {
    if rows == [] || rows[0].id == id then 0 else 1 + FindSignal(rows[1..], id)
  }

  /** The first row with the link, or the position of a new row. */
  function FindLink(rows: seq<SignalRow>, link: Link): (i: nat)
    ensures i <= |rows|
    ensures i < |rows| ==> rows[i].link == link
    ensures forall j | 0 <= j < i :: rows[j].link != link
  {
    if rows == [] || rows[0].link == link then 0 else 1 + FindLink(rows[1..], link)
  }

  function SaveRow(rows: seq<SignalRow>, row: SignalRow): seq<SignalRow> {
    var i := FindSignal(rows, row.id);
    if i < |rows| then rows[i := row] else rows + [row]
  }

  ghost predicate UniqueIds(rows: seq<SignalRow>) {
    forall i, j | 0 <= i < j < |rows| :: rows[i].id != rows[j].id
  }

  ghost predicate UniqueLinks(rows: seq<SignalRow>) {
    forall i, j | 0 <= i < j < |rows| :: rows[i].link != rows[j].link
  }

  ghost predicate IsAmbiguous(rows: seq<SignalRow>, link: Link) {
    exists i, j :: 0 <= i < j < |rows| && rows[i].link == link && rows[j].link == link
  }

  function PendingRows(rows: seq<SignalRow>): seq<SignalRow> {
    if rows == [] then []
    else PendingRows(rows[..|rows| - 1]) + (if rows[|rows| - 1].status == Pending then [rows[|rows| - 1]] else [])
  }

  predicate IsListed(row: SignalRow, notableOnly: bool, includeSuperseded: bool) {
    (includeSuperseded || !row.isSuperseded) && (notableOnly ==> row.isNotable)
  }

  function Listing(rows: seq<SignalRow>, notableOnly: bool, includeSuperseded: bool): seq<SignalRow> {
    if rows == [] then []
    else
      var last := rows[|rows| - 1];
      Listing(rows[..|rows| - 1], notableOnly, includeSuperseded)
      + (if IsListed(last, notableOnly, includeSuperseded) then [last] else [])
  }

  class SignalRepository {
    var rows: seq<SignalRow>

    constructor ()
      ensures rows == []
    {
      rows := [];
    }

    method Get(id: Id) returns (r: Option<SignalRow>)
      ensures r == if FindSignal(rows, id) < |rows| then Some(rows[FindSignal(rows, id)]) else None
    {
      for i := 0 to |rows|
        invariant forall j | 0 <= j < i :: rows[j].id != id
      {
        if rows[i].id == id {
          assert FindSignal(rows, id) == i;
          return Some(rows[i]);
        }
      }
      return None;
    }

    /** get_for_insider_transaction, get_for_buyback_event and get_for_cluster_buy_event: a
        one_or_none query, which raises when two rows match. */
    method GetFor(link: Link) returns (r: Result<Signal?>)
      ensures r.Failure? <==> IsAmbiguous(rows, link)
      ensures r.Success? && r.value == null ==> FindLink(rows, link) == |rows|
      ensures r.Success? && r.value != null ==>
        && fresh(r.value)
        && FindLink(rows, link) < |rows|
        && r.value.Row() == rows[FindLink(rows, link)]
    {
      var found: Signal? := null;
      ghost var first := |rows|;
      for i := 0 to |rows|
        invariant found == null ==> first == |rows| && forall j | 0 <= j < i :: rows[j].link != link
        invariant found != null ==>
          && fresh(found) && 0 <= first < i && rows[first].link == link && found.Row() == rows[first]
          && forall j | 0 <= j < i && j != first :: rows[j].link != link
      {
        if rows[i].link == link {
          if found != null {
            assert rows[first].link == link && rows[i].link == link;
            return Failure(MultipleResultsFound);
          }
          found := new Signal(rows[i]);
          first := i;
        }
      }
      assert found != null ==> FindLink(rows, link) == first;
      return Success(found);
    }

    method Save(signal: Signal)
      modifies this
      ensures rows == SaveRow(old(rows), signal.Row())
    {
      var i := 0;
      while i < |rows| && rows[i].id != signal.id
        invariant i <= |rows|
        invariant forall j | 0 <= j < i :: rows[j].id != signal.id
      {
        i := i + 1;
      }
      assert i == FindSignal(rows, signal.id);
      rows := if i < |rows| then rows[i := signal.Row()] else rows + [signal.Row()];
    }

    /** The filters of list; the default call has notableOnly set and includeSuperseded clear. */
    method List(notableOnly: bool, includeSuperseded: bool) returns (result: seq<SignalRow>)
      ensures result == Listing(rows, notableOnly, includeSuperseded)
      ensures forall row :: row in result <==>
        row in rows && (notableOnly ==> row.isNotable) && (includeSuperseded || !row.isSuperseded)
    {
      result := [];
      for i := 0 to |rows|
        invariant result == Listing(rows[..i], notableOnly, includeSuperseded)
      {
        assert rows[..i + 1][..i] == rows[..i];
        if IsListed(rows[i], notableOnly, includeSuperseded) {
          result := result + [rows[i]];
        }
      }
      assert rows[..|rows|] == rows;
      ListedAre(rows, notableOnly, includeSuperseded);
    }

    method ListPendingNotifications() returns (pending: seq<Signal>)
      ensures |pending| == |PendingRows(rows)|
      ensures forall i | 0 <= i < |pending| :: fresh(pending[i]) && pending[i].Row() == PendingRows(rows)[i]
      ensures forall i, j | 0 <= i < j < |pending| :: pending[i] != pending[j]
    {
      pending := [];
      for i := 0 to |rows|
        invariant |pending| == |PendingRows(rows[..i])|
        invariant forall k | 0 <= k < |pending| :: fresh(pending[k]) && pending[k].Row() == PendingRows(rows[..i])[k]
        invariant forall k, m | 0 <= k < m < |pending| :: pending[k] != pending[m]
      {
        assert rows[..i + 1][..i] == rows[..i];
        if rows[i].status == Pending {
          var signal := new Signal(rows[i]);
          pending := pending + [signal];
        }
      }
      assert rows[..|rows|] == rows;
    }
  }

  // ---------- Facts about the table ----------

  lemma FindSignalIs(rows: seq<SignalRow>, i: nat)
    requires UniqueIds(rows) && i < |rows|
    ensures FindSignal(rows, rows[i].id) == i
  {}

  lemma FindLinkIs(rows: seq<SignalRow>, i: nat)
    requires UniqueLinks(rows) && i < |rows|
    ensures FindLink(rows, rows[i].link) == i
  {}

  lemma {:induction false} PendingAre(rows: seq<SignalRow>)
    ensures forall row :: row in PendingRows(rows) <==> row in rows && row.status == Pending
  {
    if rows != [] {
      PendingAre(rows[..|rows| - 1]);
      assert rows == rows[..|rows| - 1] + [rows[|rows| - 1]];
    }
  }

  lemma {:induction false} ListedAre(rows: seq<SignalRow>, notableOnly: bool, includeSuperseded: bool)
    ensures forall row :: row in Listing(rows, notableOnly, includeSuperseded) <==>
      row in rows && (notableOnly ==> row.isNotable) && (includeSuperseded || !row.isSuperseded)
  {
    if rows != [] {
      ListedAre(rows[..|rows| - 1], notableOnly, includeSuperseded);
      assert rows == rows[..|rows| - 1] + [rows[|rows| - 1]];
    }
  }
}
