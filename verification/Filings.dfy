// Supersession, seen only through ids, source references, natural keys and
// pointers. Both record tables follow this protocol.
module Filings {
  import opened Domain

  datatype Entry<K> = Entry(id: Id, ref: string, key: K, next: Option<Id>)

  ghost function FindEntry<K>(es: seq<Entry<K>>, ref: string): (i: nat)
    ensures i <= |es|
    ensures i < |es| ==> es[i].ref == ref
    ensures forall j | 0 <= j < i :: es[j].ref != ref
  {
    if es == [] || es[0].ref == ref then 0 else 1 + FindEntry(es[1..], ref)
  }

  /** The live entries with the candidate's key now point at it. */
  ghost function Superseded<K>(es: seq<Entry<K>>, c: Entry<K>): (r: seq<Entry<K>>)
    ensures |r| == |es|
    ensures forall i | 0 <= i < |es| ::
      r[i] == if es[i].key == c.key && es[i].next == None then es[i].(next := Some(c.id)) else es[i]
  {
    seq(|es|, i requires 0 <= i < |es| =>
      if es[i].key == c.key && es[i].next == None then es[i].(next := Some(c.id)) else es[i])
  }

  /** A known reference is overwritten in place, keeping its id; a new one is appended. */
  ghost function Stored<K>(es: seq<Entry<K>>, c: Entry<K>): seq<Entry<K>> {
    var i := FindEntry(es, c.ref);
    if i < |es| then es[i := c.(id := es[i].id)] else es + [c]
  }

  /** A known reference is overwritten; a new one also supersedes the live entries with its key. */
  ghost function Ingested<K>(es: seq<Entry<K>>, c: Entry<K>): seq<Entry<K>> {
    if FindEntry(es, c.ref) < |es| then Stored(es, c) else Superseded(es, c) + [c]
  }

  // ---------- What every ingestion keeps ----------

  ghost predicate PointsForward<K>(es: seq<Entry<K>>, i: nat)
    requires i < |es|
  {
    es[i].next.Some? ==> exists j :: i < j < |es| && es[j].id == es[i].next.value
  }

  ghost predicate WellFormed<K>(es: seq<Entry<K>>) {
    && (forall i, j | 0 <= i < j < |es| :: es[i].id != es[j].id)
    && (forall i, j | 0 <= i < j < |es| :: es[i].ref != es[j].ref)
    && (forall i | 0 <= i < |es| :: PointsForward(es, i))
  }

  ghost predicate IsFreshEntry<K>(es: seq<Entry<K>>, c: Entry<K>) {
    c.next == None && forall e | e in es :: e.id != c.id
  }

  lemma StoredIsWellFormed<K>(es: seq<Entry<K>>, c: Entry<K>)
    requires WellFormed(es) && IsFreshEntry(es, c)
    ensures WellFormed(Stored(es, c))
  {
    var r := Stored(es, c);
    forall i | 0 <= i < |r|
      ensures PointsForward(r, i)
    {
      if i < |es| && r[i].next.Some? {
        assert PointsForward(es, i);
        var j :| i < j < |es| && es[j].id == es[i].next.value;
        assert r[j].id == es[j].id;
      }
    }
  }

  /** Ids and references stay unique and every pointer still leads to a later entry. */
  lemma IngestedIsWellFormed<K>(es: seq<Entry<K>>, c: Entry<K>)
    requires WellFormed(es) && IsFreshEntry(es, c)
    ensures WellFormed(Ingested(es, c))
  {
    hide PointsForward;
    if FindEntry(es, c.ref) < |es| {
      StoredIsWellFormed(es, c);
    } else {
      var r := Superseded(es, c) + [c];
      forall i | 0 <= i < |r|
        ensures PointsForward(r, i)
      {
        NewEntryPointsForward(es, c, i);
      }
      assert forall i | 0 <= i < |es| :: r[i].id == es[i].id && r[i].ref == es[i].ref && es[i] in es;
    }
  }

  lemma NewEntryPointsForward<K>(es: seq<Entry<K>>, c: Entry<K>, i: nat)
    requires i <= |es| && c.next == None && (i < |es| ==> PointsForward(es, i))
    ensures PointsForward(Superseded(es, c) + [c], i)
  {
    var r := Superseded(es, c) + [c];
    if i < |es| && es[i].next.Some? {
      var j :| i < j < |es| && es[j].id == es[i].next.value;
      assert r[j].id == es[j].id;
    } else {
      assert r[|es|].id == c.id;
    }
  }

  ghost function FindId<K>(es: seq<Entry<K>>, id: Id): (i: nat)
    ensures i <= |es|
    ensures i < |es| ==> es[i].id == id
    ensures forall j | 0 <= j < i :: es[j].id != id
  {
    if es == [] || es[0].id == id then 0 else 1 + FindId(es[1..], id)
  }

  lemma NextIsLater<K>(es: seq<Entry<K>>, i: nat)
    requires WellFormed(es) && i < |es| && es[i].next.Some?
    ensures i < FindId(es, es[i].next.value) < |es|
  {
    assert PointsForward(es, i);
  }

  /** Following the pointers from entry i: it ends, at an entry that is live. */
  ghost function Resolve<K>(es: seq<Entry<K>>, i: nat): (last: nat)
    requires WellFormed(es) && i < |es|
    ensures i <= last < |es| && es[last].next == None
    decreases |es| - i
  {
    if es[i].next == None then i
    else
      NextIsLater(es, i);
      Resolve(es, FindId(es, es[i].next.value))
  }

  // ---------- Runs of distinct filings ----------

  ghost function IngestAll<K>(cs: seq<Entry<K>>): seq<Entry<K>> {
    if cs == [] then [] else Ingested(IngestAll(cs[..|cs| - 1]), cs[|cs| - 1])
  }

  /** The id of the first entry from position j on with the key. */
  ghost function NextWithKey<K>(cs: seq<Entry<K>>, key: K, j: nat): Option<Id>
    decreases |cs| - j
  {
    if j >= |cs| then None else if cs[j].key == key then Some(cs[j].id) else NextWithKey(cs, key, j + 1)
  }

  /** Each entry points at the next one with its key. */
  ghost function Chained<K>(cs: seq<Entry<K>>): (r: seq<Entry<K>>)
    ensures |r| == |cs|
    ensures forall i | 0 <= i < |cs| :: r[i] == cs[i].(next := NextWithKey(cs, cs[i].key, i + 1))
  {
    seq(|cs|, i requires 0 <= i < |cs| => cs[i].(next := NextWithKey(cs, cs[i].key, i + 1)))
  }

  ghost predicate DistinctFilings<K>(cs: seq<Entry<K>>) {
    && (forall i, j | 0 <= i < j < |cs| :: cs[i].ref != cs[j].ref && cs[i].id != cs[j].id)
    && (forall c | c in cs :: c.next == None)
  }

  lemma {:induction false} NextWithKeySnoc<K>(cs: seq<Entry<K>>, c: Entry<K>, key: K, j: nat)
    requires j <= |cs|
    ensures NextWithKey(cs + [c], key, j) ==
      if NextWithKey(cs, key, j) != None then NextWithKey(cs, key, j) else if c.key == key then Some(c.id) else None
    decreases |cs| - j
  {
    if j < |cs| && cs[j].key != key {
      NextWithKeySnoc(cs, c, key, j + 1);
    }
  }

  lemma DistinctFilingsFront<K>(cs: seq<Entry<K>>)
    requires DistinctFilings(cs) && cs != []
    ensures DistinctFilings(cs[..|cs| - 1]) && cs[|cs| - 1].next == None
    ensures forall i | 0 <= i < |cs| - 1 :: cs[i].ref != cs[|cs| - 1].ref
  {
    assert cs[|cs| - 1] in cs;
    assert forall c | c in cs[..|cs| - 1] :: c in cs;
  }

  /** Over any run of filings with distinct references, the table is the list of filings, each
      pointing at the next one with its key. */
  lemma {:induction false} IngestAllChains<K>(cs: seq<Entry<K>>)
    requires DistinctFilings(cs)
    ensures IngestAll(cs) == Chained(cs)
  {
    hide DistinctFilings, Superseded, NextWithKey;
    if cs != [] {
      var before, c := cs[..|cs| - 1], cs[|cs| - 1];
      DistinctFilingsFront(cs);
      IngestAllChains(before);
      assert cs == before + [c] && c in cs;
      NoSuchRef(Chained(before), c.ref);
      ChainedSnoc(before, c);
    }
  }

  lemma NoSuchRef<K>(es: seq<Entry<K>>, ref: string)
    requires forall i | 0 <= i < |es| :: es[i].ref != ref
    ensures FindEntry(es, ref) == |es|
  {}

  lemma NoneAfter<K>(cs: seq<Entry<K>>, key: K)
    ensures NextWithKey(cs, key, |cs|) == None
  {}

  lemma ChainedSnoc<K>(cs: seq<Entry<K>>, c: Entry<K>)
    requires c.next == None
    ensures Superseded(Chained(cs), c) + [c] == Chained(cs + [c])
  {
    hide NextWithKey;
    forall i | 0 <= i < |cs|
      ensures Superseded(Chained(cs), c)[i] == Chained(cs + [c])[i]
    {
      NextWithKeySnoc(cs, c, cs[i].key, i + 1);
    }
    assert NextWithKey(cs + [c], c.key, |cs| + 1) == None by { NoneAfter(cs + [c], c.key); }
  }

  lemma {:induction false} NextWithKeyFinds<K>(cs: seq<Entry<K>>, key: K, j: nat)
    ensures NextWithKey(cs, key, j) == None <==> forall m | j <= m < |cs| :: cs[m].key != key
    ensures NextWithKey(cs, key, j) != None ==>
      exists m :: j <= m < |cs| && cs[m].key == key && NextWithKey(cs, key, j) == Some(cs[m].id)
    decreases |cs| - j
  {
    if j < |cs| && cs[j].key != key {
      NextWithKeyFinds(cs, key, j + 1);
    }
  }

  ghost predicate IsLastWithKey<K>(cs: seq<Entry<K>>, i: nat) {
    i < |cs| && forall m | i < m < |cs| :: cs[m].key != cs[i].key
  }

  lemma ChainedIsWellFormed<K>(cs: seq<Entry<K>>)
    requires DistinctFilings(cs)
    ensures WellFormed(Chained(cs))
  {
    var r := Chained(cs);
    forall i | 0 <= i < |r|
      ensures PointsForward(r, i)
    {
      NextWithKeyFinds(cs, cs[i].key, i + 1);
      if r[i].next.Some? {
        var m :| i + 1 <= m < |cs| && r[i].next == Some(cs[m].id);
        assert r[m].id == cs[m].id;
      }
    }
  }

  /** Exactly the last filing of each key is live. */
  lemma LastOfKeyIsLive<K>(cs: seq<Entry<K>>, i: nat)
    requires i < |cs|
    ensures Chained(cs)[i].next == None <==> IsLastWithKey(cs, i)
  {
    NextWithKeyFinds(cs, cs[i].key, i + 1);
  }

  /** The chain from every filing ends at the last filing of its key. */
  lemma {:induction false} ChainEndsAtLast<K>(cs: seq<Entry<K>>, i: nat)
    requires DistinctFilings(cs) && i < |cs|
    ensures WellFormed(Chained(cs))
    ensures IsLastWithKey(cs, Resolve(Chained(cs), i)) && cs[Resolve(Chained(cs), i)].key == cs[i].key
    decreases |cs| - i
  {
    ChainedIsWellFormed(cs);
    var r := Chained(cs);
    LastOfKeyIsLive(cs, i);
    if r[i].next != None {
      NextWithKeyFinds(cs, cs[i].key, i + 1);
      NextIsLater(r, i);
      var m :| i + 1 <= m < |cs| && cs[m].key == cs[i].key && r[i].next == Some(cs[m].id);
      assert r[m].id == cs[m].id;
      assert FindId(r, cs[m].id) == m;
      ChainEndsAtLast(cs, m);
    }
  }

  // ---------- When one live entry per key can be lost ----------

  ghost predicate OneLivePerKey<K>(es: seq<Entry<K>>) {
    forall i, j | 0 <= i < j < |es| && es[i].next == None && es[j].next == None :: es[i].key != es[j].key
  }

  /** Another reference has a live entry with the candidate's key. */
  ghost predicate HasRival<K>(es: seq<Entry<K>>, c: Entry<K>) {
    exists j :: 0 <= j < |es| && es[j].next == None && es[j].key == c.key && es[j].ref != c.ref
  }

  /** Storing an entry without superseding keeps one live entry per key exactly when it has no rival. */
  lemma StoredBesideRival<K>(es: seq<Entry<K>>, c: Entry<K>)
    requires WellFormed(es) && OneLivePerKey(es) && c.next == None
    ensures OneLivePerKey(Stored(es, c)) <==> !HasRival(es, c)
  {
    var i, r := FindEntry(es, c.ref), Stored(es, c);
    if j :| 0 <= j < |es| && es[j].next == None && es[j].key == c.key && es[j].ref != c.ref {
      assert r[j] == es[j] && r[i].next == None && r[i].key == c.key;
    }
  }

  /** Ingestion keeps one live entry per key, except exactly when it re-fetches a known reference
      while another one has a live entry with the candidate's key. */
  lemma OneLivePerKeyExactly<K>(es: seq<Entry<K>>, c: Entry<K>)
    requires WellFormed(es) && OneLivePerKey(es) && c.next == None
    ensures OneLivePerKey(Ingested(es, c)) <==> !(FindEntry(es, c.ref) < |es| && HasRival(es, c))
  {
    if FindEntry(es, c.ref) < |es| {
      StoredBesideRival(es, c);
    }
  }
}
