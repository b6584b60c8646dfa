// The table of insider transactions.
module TransactionRepo {
  import opened Domain
  import opened Ordering

  /** The first row with the source reference, or the position of a new row. */
  function FindRef(rows: seq<Transaction>, ref: string): (i: nat)
    ensures i <= |rows|
    ensures i < |rows| ==> rows[i].sourceRef == ref
    ensures forall j | 0 <= j < i :: rows[j].sourceRef != ref
  {
    if rows == [] || rows[0].sourceRef == ref then 0 else 1 + FindRef(rows[1..], ref)
  }

  /** _apply_domain writes every column but the id and filer_id. */
  function ApplyDomain(row: Transaction, txn: Transaction): Transaction {
    txn.(id := row.id, filerId := row.filerId)
  }

  /** A new row: its filer_id column is never written. */
  function Inserted(txn: Transaction): Transaction {
    txn.(filerId := None)
  }

  function UpsertByRef(rows: seq<Transaction>, txn: Transaction): seq<Transaction> {
    var i := FindRef(rows, txn.sourceRef);
    if i < |rows| then rows[i := ApplyDomain(rows[i], txn)] else rows + [Inserted(txn)]
  }

  predicate SameKey(a: Transaction, b: Transaction) {
    a.cik == b.cik && a.filerName == b.filerName && a.transactionDate == b.transactionDate
  }

  predicate IsFuzzyMatch(row: Transaction, c: Transaction) {
    && row.ticker == c.ticker && row.filerName == c.filerName
    && row.transactionDate == c.transactionDate && row.shareCount == c.shareCount
    && row.source == SecEdgar
  }

  function WithSameKey(rows: seq<Transaction>, c: Transaction): seq<Transaction> {
    if rows == [] then []
    else WithSameKey(rows[..|rows| - 1], c) + (if SameKey(rows[|rows| - 1], c) then [rows[|rows| - 1]] else [])
  }

  /** The rows whose id is among `ids` now point at `newId`. */
  function MarkSome(rows: seq<Transaction>, ids: set<Id>, newId: Id): (r: seq<Transaction>)
    ensures |r| == |rows|
    ensures forall i | 0 <= i < |rows| ::
      r[i] == if rows[i].id in ids then rows[i].(supersededBy := Some(newId)) else rows[i]
  {
    seq(|rows|, i requires 0 <= i < |rows| =>
      if rows[i].id in ids then rows[i].(supersededBy := Some(newId)) else rows[i])
  }

  /** The newest first; the order of the rows decides between equal dates. */
  function Listed(rows: seq<Transaction>): seq<Transaction> {
    StableSort(rows, NewestFirst)
  }

  class InsiderTransactionRepository {
    var rows: seq<Transaction>

    constructor ()
      ensures rows == []
    {
      rows := [];
    }

    method Get(id: Id) returns (r: Option<Transaction>)
      ensures r.Some? ==> r.value in rows && r.value.id == id
      ensures r.None? ==> forall row | row in rows :: row.id != id
    {
      for i := 0 to |rows|
        invariant forall j | 0 <= j < i :: rows[j].id != id
      {
        if rows[i].id == id { return Some(rows[i]); }
      }
      return None;
    }

    method GetBySourceRef(ref: string) returns (r: Option<Transaction>)
      ensures r == if FindRef(rows, ref) < |rows| then Some(rows[FindRef(rows, ref)]) else None
    {
      for i := 0 to |rows|
        invariant forall j | 0 <= j < i :: rows[j].sourceRef != ref
      {
        if rows[i].sourceRef == ref {
          assert FindRef(rows, ref) == i;
          return Some(rows[i]);
        }
      }
      return None;
    }

    method List() returns (r: seq<Transaction>)
      ensures r == Listed(rows)
      ensures multiset(r) == multiset(rows)
      ensures forall i, j | 0 <= i < j < |r| :: r[i].transactionDate >= r[j].transactionDate
    {
      r := StableSort(rows, NewestFirst);
    }

    method UpsertBySourceRef(txn: Transaction) returns (saved: Transaction)
      modifies this
      ensures rows == UpsertByRef(old(rows), txn)
      ensures FindRef(old(rows), txn.sourceRef) < |rows| && saved == rows[FindRef(old(rows), txn.sourceRef)]
    {
      var i := 0;
      while i < |rows| && rows[i].sourceRef != txn.sourceRef
        invariant i <= |rows|
        invariant forall j | 0 <= j < i :: rows[j].sourceRef != txn.sourceRef
      {
        i := i + 1;
      }
      assert i == FindRef(rows, txn.sourceRef);
      if i < |rows| {
        rows := rows[i := ApplyDomain(rows[i], txn)];
      } else {
        rows := rows + [Inserted(txn)];
      }
      saved := rows[i];
    }

    method FindByNaturalKey(c: Transaction) returns (r: seq<Transaction>)
      ensures r == WithSameKey(rows, c)
      ensures forall row :: row in r <==>
        && row in rows
        && row.cik == c.cik && row.filerName == c.filerName && row.transactionDate == c.transactionDate
    {
      r := [];
      for i := 0 to |rows|
        invariant r == WithSameKey(rows[..i], c)
      {
        assert rows[..i + 1][..i] == rows[..i];
        if SameKey(rows[i], c) { r := r + [rows[i]]; }
      }
      assert rows[..|rows|] == rows;
      SameKeyAre(rows, c);
    }

    method FindByFuzzyMatch(c: Transaction) returns (r: Option<Transaction>)
      ensures r.Some? ==> r.value in rows && IsFuzzyMatch(r.value, c)
      ensures r.None? ==> forall row | row in rows :: !IsFuzzyMatch(row, c)
      ensures r.Some? ==>
        && r.value.source == SecEdgar && r.value.ticker == c.ticker && r.value.filerName == c.filerName
        && r.value.transactionDate == c.transactionDate && r.value.shareCount == c.shareCount
      ensures r.None? ==> forall row | row in rows && row.source == SecEdgar
        && row.ticker == c.ticker && row.filerName == c.filerName && row.transactionDate == c.transactionDate ::
        row.shareCount != c.shareCount
    {
      for i := 0 to |rows|
        invariant forall j | 0 <= j < i :: !IsFuzzyMatch(rows[j], c)
      {
        if IsFuzzyMatch(rows[i], c) { return Some(rows[i]); }
      }
      return None;
    }

    method MarkSuperseded(id: Id, newId: Id)
      requires forall i, j | 0 <= i < j < |rows| :: rows[i].id != rows[j].id
      modifies this
      ensures rows == MarkSome(old(rows), {id}, newId)
    {
      for i := 0 to |rows|
        invariant rows == old(rows) && forall j | 0 <= j < i :: rows[j].id != id
      {
        if rows[i].id == id {
          rows := rows[i := rows[i].(supersededBy := Some(newId))];
          return;
        }
      }
    }
  }

  lemma {:induction false} SameKeyAre(rows: seq<Transaction>, c: Transaction)
    ensures forall p :: p in WithSameKey(rows, c) <==> p in rows && SameKey(p, c)
  {
    if rows != [] {
      SameKeyAre(rows[..|rows| - 1], c);
      assert rows == rows[..|rows| - 1] + [rows[|rows| - 1]];
    }
  }

  lemma MarkTwice(rows: seq<Transaction>, a: set<Id>, b: set<Id>, newId: Id)
    ensures MarkSome(MarkSome(rows, a, newId), b, newId) == MarkSome(rows, a + b, newId)
  {}
}
