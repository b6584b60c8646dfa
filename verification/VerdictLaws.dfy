// What a pass over verdicts with distinct links does to the signal table.
module VerdictLaws {
  import opened Domain
  import opened Rules
  import opened Signals
  import opened Classify

  ghost predicate DistinctLinks(vs: seq<Verdict>) {
    forall i, j | 0 <= i < j < |vs| :: vs[i].link != vs[j].link
  }

  lemma DistinctFront(vs: seq<Verdict>)
    requires DistinctLinks(vs) && vs != []
    ensures DistinctLinks(vs[..|vs| - 1])
    ensures forall v | v in vs[..|vs| - 1] :: v.link != vs[|vs| - 1].link
  {}

  /** Rows are never removed or reordered. */
  lemma {:induction false} JudgeAllGrows(t: SignalTable, vs: seq<Verdict>, revisit: bool, downgrade: bool)
    ensures |JudgeAll(t, vs, revisit, downgrade).rows| >= |t.rows|
    ensures JudgeAll(t, vs, revisit, downgrade).nextId >= t.nextId
  {
    if vs != [] {
      JudgeAllGrows(t, vs[..|vs| - 1], revisit, downgrade);
    }
  }

  lemma JudgeRow(t: SignalTable, v: Verdict, revisit: bool, downgrade: bool, i: nat)
    requires UniqueLinks(t.rows) && i < |t.rows|
    ensures Judge(t, v, revisit, downgrade).rows[i] ==
      if revisit && t.rows[i].link == v.link then Judged(t.rows[i], v, downgrade) else t.rows[i]
  {
    if t.rows[i].link == v.link { FindLinkIs(t.rows, i); }
  }

  /** A row that no verdict names, or that is not revisited, stays as it is. */
  lemma {:induction false} UnjudgedRow(t: SignalTable, vs: seq<Verdict>, revisit: bool, downgrade: bool, i: nat)
    requires TableOk(t) && i < |t.rows|
    requires !revisit || forall v | v in vs :: v.link != t.rows[i].link
    ensures i < |JudgeAll(t, vs, revisit, downgrade).rows|
    ensures JudgeAll(t, vs, revisit, downgrade).rows[i] == t.rows[i]
  {
    if vs != [] {
      var front, last := vs[..|vs| - 1], vs[|vs| - 1];
      assert last in vs && forall v | v in front :: v in vs;
      UnjudgedRow(t, front, revisit, downgrade, i);
      JudgeAllKeepsTable(t, front, revisit, downgrade);
      JudgeRow(JudgeAll(t, front, revisit, downgrade), last, revisit, downgrade, i);
    }
  }

  /** A row that one verdict names is judged by exactly that verdict. */
  lemma {:induction false} JudgedRow(t: SignalTable, vs: seq<Verdict>, downgrade: bool, i: nat, v: Verdict)
    requires TableOk(t) && i < |t.rows| && DistinctLinks(vs) && v in vs && v.link == t.rows[i].link
    ensures i < |JudgeAll(t, vs, true, downgrade).rows|
    ensures JudgeAll(t, vs, true, downgrade).rows[i] == Judged(t.rows[i], v, downgrade)
  {
    var front, last := vs[..|vs| - 1], vs[|vs| - 1];
    DistinctFront(vs);
    JudgeAllKeepsTable(t, front, true, downgrade);
    JudgeAllGrows(t, front, true, downgrade);
    var before := JudgeAll(t, front, true, downgrade);
    if v == last {
      UnjudgedRow(t, front, true, downgrade, i);
    } else {
      assert v in front;
      JudgedRow(t, front, downgrade, i, v);
    }
    JudgeRow(before, last, true, downgrade, i);
  }

  /** The row is what the verdict creates for a record that had no signal. */
  ghost predicate IsCreatedFrom(row: SignalRow, t: SignalTable, v: Verdict) {
    !HasSignal(t.rows, v.link) && row == Created(row.id, v)
  }

  /** A new row is what one of the verdicts creates, for a record that had no signal. */
  lemma {:induction false} NewRow(t: SignalTable, vs: seq<Verdict>, revisit: bool, downgrade: bool, i: nat)
    requires TableOk(t) && DistinctLinks(vs) && |t.rows| <= i < |JudgeAll(t, vs, revisit, downgrade).rows|
    ensures JudgeAll(t, vs, revisit, downgrade).rows[i].id >= t.nextId
    ensures exists v :: v in vs && IsCreatedFrom(JudgeAll(t, vs, revisit, downgrade).rows[i], t, v)
  {
    if vs != [] {
      var front, last := vs[..|vs| - 1], vs[|vs| - 1];
      DistinctFront(vs);
      JudgeAllKeepsTable(t, front, revisit, downgrade);
      JudgeAllGrows(t, front, revisit, downgrade);
      var before := JudgeAll(t, front, revisit, downgrade);
      if i < |before.rows| {
        NewRow(t, front, revisit, downgrade, i);
        var v :| v in front && IsCreatedFrom(before.rows[i], t, v);
        JudgeRow(before, last, revisit, downgrade, i);
        assert v in vs;
      } else {
        if HasSignal(t.rows, last.link) {
          LinksPersist(t, front, revisit, downgrade, last.link);
        }
        assert last in vs;
      }
    }
  }

  /** A record that has a signal keeps one. */
  lemma LinksPersist(t: SignalTable, vs: seq<Verdict>, revisit: bool, downgrade: bool, link: Link)
    requires TableOk(t) && HasSignal(t.rows, link)
    ensures HasSignal(JudgeAll(t, vs, revisit, downgrade).rows, link)
    decreases |vs|
  {
    if vs != [] {
      var front, last := vs[..|vs| - 1], vs[|vs| - 1];
      LinksPersist(t, front, revisit, downgrade, link);
      JudgeAllKeepsTable(t, front, revisit, downgrade);
      var before := JudgeAll(t, front, revisit, downgrade);
      JudgeRow(before, last, revisit, downgrade, FindLink(before.rows, link));
    }
  }

  /** After the pass every verdict's record has a signal. */
  lemma {:induction false} EveryVerdictHasSignal(t: SignalTable, vs: seq<Verdict>, revisit: bool, downgrade: bool,
      v: Verdict)
    requires TableOk(t) && v in vs
    ensures HasSignal(JudgeAll(t, vs, revisit, downgrade).rows, v.link)
  {
    var front, last := vs[..|vs| - 1], vs[|vs| - 1];
    JudgeAllKeepsTable(t, front, revisit, downgrade);
    var before := JudgeAll(t, front, revisit, downgrade);
    if v == last {
      var after := Judge(before, last, revisit, downgrade).rows;
      var i := FindLink(before.rows, v.link);
      assert i < |after| && after[i].link == v.link;
    } else {
      assert v in front;
      EveryVerdictHasSignal(t, front, revisit, downgrade, v);
      assert front + [last] == vs && [last][..0] == [];
      assert JudgeAll(before, [last], revisit, downgrade) == Judge(before, last, revisit, downgrade);
      LinksPersist(before, [last], revisit, downgrade, v.link);
    }
  }

  // ---------- The verdicts of the two record passes ----------

  lemma {:induction false} TransactionVerdictsAre(txns: seq<Transaction>, thresholds: Thresholds)
    ensures forall v :: v in TransactionVerdicts(txns, thresholds) <==>
      exists t :: t in txns && t.supersededBy == None && v == TransactionVerdict(t, thresholds)
  {
    if txns != [] {
      TransactionVerdictsAre(txns[..|txns| - 1], thresholds);
      assert txns == txns[..|txns| - 1] + [txns[|txns| - 1]];
    }
  }

  lemma {:induction false} TransactionLinksDistinct(txns: seq<Transaction>, thresholds: Thresholds)
    requires DistinctIds(txns)
    ensures DistinctLinks(TransactionVerdicts(txns, thresholds))
  {
    if txns != [] {
      var front, last := txns[..|txns| - 1], txns[|txns| - 1];
      TransactionLinksDistinct(front, thresholds);
      TransactionVerdictsAre(front, thresholds);
      forall v | v in TransactionVerdicts(front, thresholds)
        ensures v.link != InsiderLink(last.id)
      {
        var t :| t in front && v == TransactionVerdict(t, thresholds);
      }
    }
  }

  lemma {:induction false} BuybackVerdictsAre(events: seq<BuybackEvent>, thresholds: Thresholds)
    ensures forall v :: v in BuybackVerdicts(events, thresholds) <==>
      exists e :: e in events && e.supersededBy == None && v == BuybackVerdict(e, thresholds)
  {
    if events != [] {
      BuybackVerdictsAre(events[..|events| - 1], thresholds);
      assert events == events[..|events| - 1] + [events[|events| - 1]];
    }
  }

  lemma {:induction false} BuybackLinksDistinct(events: seq<BuybackEvent>, thresholds: Thresholds)
    requires DistinctEventIds(events)
    ensures DistinctLinks(BuybackVerdicts(events, thresholds))
  {
    if events != [] {
      var front, last := events[..|events| - 1], events[|events| - 1];
      BuybackLinksDistinct(front, thresholds);
      BuybackVerdictsAre(front, thresholds);
      forall v | v in BuybackVerdicts(front, thresholds)
        ensures v.link != BuybackLink(last.id)
      {
        var e :| e in front && v == BuybackVerdict(e, thresholds);
      }
    }
  }
}
