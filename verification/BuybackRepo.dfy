// The table of buyback disclosures.
module BuybackRepo {
  import opened Domain
  import opened Ordering

  /** The first row with the source reference, or the position of a new row. */
  function FindRef(rows: seq<BuybackEvent>, ref: string): (i: nat)
    ensures i <= |rows|
    ensures i < |rows| ==> rows[i].sourceRef == ref
    ensures forall j | 0 <= j < i :: rows[j].sourceRef != ref
  {
    if rows == [] || rows[0].sourceRef == ref then 0 else 1 + FindRef(rows[1..], ref)
  }

  /** _apply_domain writes every column but the id. */
  function ApplyDomain(row: BuybackEvent, event: BuybackEvent): BuybackEvent {
    event.(id := row.id)
  }

  function UpsertByRef(rows: seq<BuybackEvent>, event: BuybackEvent): seq<BuybackEvent> {
    var i := FindRef(rows, event.sourceRef);
    if i < |rows| then rows[i := ApplyDomain(rows[i], event)] else rows + [event]
  }

  predicate SameKey(a: BuybackEvent, b: BuybackEvent) {
    a.cik == b.cik && a.disclosureDate == b.disclosureDate && a.disclosureType == b.disclosureType
  }

  function WithSameKey(rows: seq<BuybackEvent>, c: BuybackEvent): seq<BuybackEvent> {
    if rows == [] then []
    else WithSameKey(rows[..|rows| - 1], c) + (if SameKey(rows[|rows| - 1], c) then [rows[|rows| - 1]] else [])
  }

  /** The rows whose id is among `ids` now point at `newId`. */
  function MarkSome(rows: seq<BuybackEvent>, ids: set<Id>, newId: Id): (r: seq<BuybackEvent>)
    ensures |r| == |rows|
    ensures forall i | 0 <= i < |rows| ::
      r[i] == if rows[i].id in ids then rows[i].(supersededBy := Some(newId)) else rows[i]
  {
    seq(|rows|, i requires 0 <= i < |rows| =>
      if rows[i].id in ids then rows[i].(supersededBy := Some(newId)) else rows[i])
  }

  /** The newest first; the order of the rows decides between equal dates. */
  function Listed(rows: seq<BuybackEvent>): seq<BuybackEvent> {
    StableSort(rows, NewestBuybackFirst)
  }

  class BuybackEventRepository {
    var rows: seq<BuybackEvent>

    constructor ()
      ensures rows == []
    {
      rows := [];
    }

    method Get(id: Id) returns (r: Option<BuybackEvent>)
      ensures r.Some? ==> r.value in rows && r.value.id == id
      ensures r.None? ==> forall row | row in rows :: row.id != id
    {
      for i := 0 to |rows|
        invariant forall j | 0 <= j < i :: rows[j].id != id
      {
        if rows[i].id == id { return Some(rows[i]); }
      }
      return None;
    }

    method GetBySourceRef(ref: string) returns (r: Option<BuybackEvent>)
      ensures r == if FindRef(rows, ref) < |rows| then Some(rows[FindRef(rows, ref)]) else None
    {
      for i := 0 to |rows|
        invariant forall j | 0 <= j < i :: rows[j].sourceRef != ref
      {
        if rows[i].sourceRef == ref {
          assert FindRef(rows, ref) == i;
          return Some(rows[i]);
        }
      }
      return None;
    }

    method List() returns (r: seq<BuybackEvent>)
      ensures r == Listed(rows)
      ensures multiset(r) == multiset(rows)
      ensures forall i, j | 0 <= i < j < |r| :: r[i].disclosureDate >= r[j].disclosureDate
    {
      r := StableSort(rows, NewestBuybackFirst);
    }

    method UpsertBySourceRef(event: BuybackEvent) returns (saved: BuybackEvent)
      modifies this
      ensures rows == UpsertByRef(old(rows), event)
      ensures FindRef(old(rows), event.sourceRef) < |rows| && saved == rows[FindRef(old(rows), event.sourceRef)]
    {
      var i := 0;
      while i < |rows| && rows[i].sourceRef != event.sourceRef
        invariant i <= |rows|
        invariant forall j | 0 <= j < i :: rows[j].sourceRef != event.sourceRef
      {
        i := i + 1;
      }
      assert i == FindRef(rows, event.sourceRef);
      if i < |rows| {
        rows := rows[i := ApplyDomain(rows[i], event)];
      } else {
        rows := rows + [event];
      }
      saved := rows[i];
    }

    method FindByNaturalKey(c: BuybackEvent) returns (r: seq<BuybackEvent>)
      ensures r == WithSameKey(rows, c)
      ensures forall row :: row in r <==>
        && row in rows
        && row.cik == c.cik && row.disclosureDate == c.disclosureDate && row.disclosureType == c.disclosureType
    {
      r := [];
      for i := 0 to |rows|
        invariant r == WithSameKey(rows[..i], c)
      {
        assert rows[..i + 1][..i] == rows[..i];
        if SameKey(rows[i], c) { r := r + [rows[i]]; }
      }
      assert rows[..|rows|] == rows;
      SameKeyAre(rows, c);
    }

    method MarkSuperseded(id: Id, newId: Id)
      requires forall i, j | 0 <= i < j < |rows| :: rows[i].id != rows[j].id
      modifies this
      ensures rows == MarkSome(old(rows), {id}, newId)
    {
      for i := 0 to |rows|
        invariant rows == old(rows) && forall j | 0 <= j < i :: rows[j].id != id
      {
        if rows[i].id == id {
          rows := rows[i := rows[i].(supersededBy := Some(newId))];
          return;
        }
      }
    }
  }

  lemma {:induction false} SameKeyAre(rows: seq<BuybackEvent>, c: BuybackEvent)
    ensures forall p :: p in WithSameKey(rows, c) <==> p in rows && SameKey(p, c)
  {
    if rows != [] {
      SameKeyAre(rows[..|rows| - 1], c);
      assert rows == rows[..|rows| - 1] + [rows[|rows| - 1]];
    }
  }

  lemma MarkTwice(rows: seq<BuybackEvent>, a: set<Id>, b: set<Id>, newId: Id)
    ensures MarkSome(MarkSome(rows, a, newId), b, newId) == MarkSome(rows, a + b, newId)
  {}
}
