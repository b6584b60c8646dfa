// The counts that the commands print, in terms of the stored records.
module PrintedCounts {
  import opened Domain
  import opened Rules
  import opened Signals
  import opened Classify
  import opened Notify
  import opened Pipeline
  import opened VerdictLaws
  import opened Invariants
  import opened Transitions
  import opened Settling
  import opened RecordLaws

  // ---------- Verdicts evaluated in one pass ----------

  /** The verdicts on records that have no signal yet, or on all of them when revisiting. */
  ghost function Evaluated(t: SignalTable, vs: seq<Verdict>, revisit: bool): set<Verdict> {
    set v | v in vs && (revisit || !HasSignal(t.rows, v.link))
  }

  ghost function Notables(vs: set<Verdict>): set<Verdict> {
    set v | v in vs && v.isNotable
  }

  lemma StillWithout(t: SignalTable, vs: seq<Verdict>, revisit: bool, link: Link)
    requires TableOk(t) && DistinctLinks(vs) && forall v | v in vs :: v.link != link
    ensures HasSignal(JudgeAll(t, vs, revisit, true).rows, link) <==> HasSignal(t.rows, link)
  {
    PassLeaves(t, vs, revisit, true, link);
    FoundByLookup(t.rows, link);
    FoundByLookup(JudgeAll(t, vs, revisit, true).rows, link);
  }

  lemma EvaluatedSnoc(t: SignalTable, front: seq<Verdict>, last: Verdict, revisit: bool)
    requires last !in front
    ensures var before, after := Evaluated(t, front, revisit), Evaluated(t, front + [last], revisit);
      var isNew := revisit || !HasSignal(t.rows, last.link);
      && |after| == |before| + (if isNew then 1 else 0)
      && |Notables(after)| == |Notables(before)| + if isNew && last.isNotable then 1 else 0
  {
    hide HasSignal;
    var before, after := Evaluated(t, front, revisit), Evaluated(t, front + [last], revisit);
    if revisit || !HasSignal(t.rows, last.link) {
      assert after == before + {last};
      NotablesSnoc(before, last);
    } else {
      assert after == before;
    }
  }

  lemma NotablesSnoc(vs: set<Verdict>, last: Verdict)
    requires last !in vs
    ensures |Notables(vs + {last})| == |Notables(vs)| + if last.isNotable then 1 else 0
  {
    assert Notables(vs + {last}) == Notables(vs) + if last.isNotable then {last} else {};
  }

  lemma {:induction false} TallyIs(t: SignalTable, vs: seq<Verdict>, revisit: bool)
    requires TableOk(t) && DistinctLinks(vs)
    ensures Tally(t, vs, revisit) == (|Evaluated(t, vs, revisit)|, |Notables(Evaluated(t, vs, revisit))|)
  {
    if vs == [] {
      assert Evaluated(t, vs, revisit) == {};
    } else {
      var front, last := vs[..|vs| - 1], vs[|vs| - 1];
      assert vs == front + [last];
      LastIsNew(vs);
      hide JudgeAll, TableOk, HasSignal, Evaluated, Notables, DistinctLinks;
      TallyIs(t, front, revisit);
      StillWithout(t, front, revisit, last.link);
      EvaluatedSnoc(t, front, last, revisit);
      TallySnoc(t, front, last, revisit);
    }
  }

  lemma LastIsNew(vs: seq<Verdict>)
    requires vs != [] && DistinctLinks(vs)
    ensures DistinctLinks(vs[..|vs| - 1]) && forall v | v in vs[..|vs| - 1] :: v.link != vs[|vs| - 1].link
  {
    DistinctFront(vs);
  }

  // ---------- Records evaluated in one run ----------

  lemma {:induction false} SameSize<A, B>(a: set<A>, b: set<B>, f: A -> B)
    requires forall x, y | x in a && y in a && f(x) == f(y) :: x == y
    requires forall x | x in a :: f(x) in b
    requires forall y | y in b :: exists x :: x in a && f(x) == y
    ensures |a| == |b|
  {
    if a == {} {
      assert b == {};
    } else {
      var x :| x in a;
      SameSize(a - {x}, b - {f(x)}, f);
      assert |a| == |a - {x}| + 1 && |b| == |b - {f(x)}| + 1;
    }
  }

  /** The live transactions that a run evaluates: all of them when reclassifying, else those without a
      signal. */
  ghost function EvaluatedTransactions(s: State, reclassify: bool): set<Transaction> {
    set t | t in s.txns && t.supersededBy == None
      && (reclassify || forall row | row in s.signals.rows :: row.link != InsiderLink(t.id))
  }

  ghost function EvaluatedBuybacks(s: State, reclassify: bool): set<BuybackEvent> {
    set e | e in s.buybacks && e.supersededBy == None
      && (reclassify || forall row | row in s.signals.rows :: row.link != BuybackLink(e.id))
  }

  ghost function NotableTransactions(s: State, reclassify: bool): set<Transaction> {
    set t | t in EvaluatedTransactions(s, reclassify) && IsNotableTransaction(t, s.thresholds)
  }

  ghost function NotableBuybacks(s: State, reclassify: bool): set<BuybackEvent> {
    set e | e in EvaluatedBuybacks(s, reclassify) && IsNotableBuyback(e, s.thresholds)
  }

  lemma WithoutSignal(rows: seq<SignalRow>, link: Link)
    ensures !HasSignal(rows, link) <==> forall row | row in rows :: row.link != link
  {
    if HasSignal(rows, link) { assert rows[FindLink(rows, link)] in rows; }
  }

  lemma CountedTransactions(s: State, reclassify: bool)
    requires Inv(s)
    ensures var vs := Evaluated(s.signals, RecordVerdicts(s), reclassify);
      && |vs| == |EvaluatedTransactions(s, reclassify)|
      && |Notables(vs)| == |NotableTransactions(s, reclassify)|
  {
    hide Inv, RecordVerdicts, EventVerdicts, IsNotableTransaction, HasSignal;
    LiveVerdicts(s);
    InvIds(s);
    forall link { WithoutSignal(s.signals.rows, link); }
    var ts, vs := EvaluatedTransactions(s, reclassify), Evaluated(s.signals, RecordVerdicts(s), reclassify);
    var f := (t: Transaction) => TransactionVerdict(t, s.thresholds);
    forall v | v in vs ensures exists t :: t in ts && f(t) == v {
      var t :| t in s.txns && t.supersededBy == None && v == TransactionVerdict(t, s.thresholds);
      assert t in ts && f(t) == v;
    }
    SameSize(ts, vs, f);
    SameSize(NotableTransactions(s, reclassify), Notables(vs), f);
  }

  lemma InvIds(s: State)
    requires Inv(s)
    ensures DistinctIds(s.txns) && DistinctEventIds(s.buybacks)
  {
    TransactionsHaveDistinctIds(s.txns);
    BuybacksHaveDistinctIds(s.buybacks);
  }

  lemma CountedBuybacks(s: State, reclassify: bool)
    requires Inv(s)
    ensures var vs := Evaluated(s.signals, EventVerdicts(s), reclassify);
      && |vs| == |EvaluatedBuybacks(s, reclassify)|
      && |Notables(vs)| == |NotableBuybacks(s, reclassify)|
  {
    hide Inv, RecordVerdicts, EventVerdicts, IsNotableBuyback, HasSignal;
    LiveVerdicts(s);
    InvIds(s);
    forall link { WithoutSignal(s.signals.rows, link); }
    var es, vs := EvaluatedBuybacks(s, reclassify), Evaluated(s.signals, EventVerdicts(s), reclassify);
    var f := (e: BuybackEvent) => BuybackVerdict(e, s.thresholds);
    forall v | v in vs ensures exists e :: e in es && f(e) == v {
      var e :| e in s.buybacks && e.supersededBy == None && v == BuybackVerdict(e, s.thresholds);
      assert e in es && f(e) == v;
    }
    SameSize(es, vs, f);
    SameSize(NotableBuybacks(s, reclassify), Notables(vs), f);
  }

  /** The buybacks' verdicts find the same signals before and after the pass over the transactions. */
  lemma SameEvaluatedBuybacks(s: State, reclassify: bool)
    requires Inv(s)
    ensures Evaluated(AfterTransactions(s, reclassify), EventVerdicts(s), reclassify)
      == Evaluated(s.signals, EventVerdicts(s), reclassify)
  {
    hide Inv, RecordVerdicts, EventVerdicts, HasSignal, JudgeAll, TransactionVerdict, BuybackVerdict;
    RunFacts(s, reclassify);
    LiveVerdicts(s);
    forall v | v in EventVerdicts(s)
      ensures HasSignal(AfterTransactions(s, reclassify).rows, v.link) <==> HasSignal(s.signals.rows, v.link)
    {
      StillWithout(s.signals, RecordVerdicts(s), reclassify, v.link);
    }
  }

  /** What a run prints about transactions and buybacks: it evaluates each live record without a signal, or
      every live record when reclassifying, and the notable ones among them are the ones the rules accept. */
  lemma CountsAre(s: State, reclassify: bool)
    requires Inv(s)
    ensures Tally(s.signals, RecordVerdicts(s), reclassify)
      == (|EvaluatedTransactions(s, reclassify)|, |NotableTransactions(s, reclassify)|)
    ensures Tally(AfterTransactions(s, reclassify), EventVerdicts(s), reclassify)
      == (|EvaluatedBuybacks(s, reclassify)|, |NotableBuybacks(s, reclassify)|)
  {
    hide Inv, RecordVerdicts, EventVerdicts, HasSignal, JudgeAll, Evaluated, Notables, EvaluatedTransactions,
      EvaluatedBuybacks, NotableTransactions, NotableBuybacks, Tally, IsNotableTransaction, IsNotableBuyback;
    RunFacts(s, reclassify);
    TallyIs(s.signals, RecordVerdicts(s), reclassify);
    TallyIs(AfterTransactions(s, reclassify), EventVerdicts(s), reclassify);
    SameEvaluatedBuybacks(s, reclassify);
    CountedTransactions(s, reclassify);
    CountedBuybacks(s, reclassify);
  }

  // ---------- Clusters ----------

  /** The positions of the candidates with enough filers. */
  ghost function NotableCandidates(cs: seq<ClusterCandidate>, minFilers: int): set<nat> {
    set i | 0 <= i < |cs| && cs[i].distinctFilerCount >= minFilers
  }

  lemma {:induction false} NotableOnesAre(cs: seq<ClusterCandidate>, minFilers: int)
    ensures |NotableOnes(cs, minFilers)| == |NotableCandidates(cs, minFilers)|
  {
    if cs == [] {
      assert NotableCandidates(cs, minFilers) == {};
    } else {
      var last := |cs| - 1;
      NotableOnesAre(cs[..last], minFilers);
      assert NotableCandidates(cs, minFilers)
        == NotableCandidates(cs[..last], minFilers) + if cs[last].distinctFilerCount >= minFilers then {last} else {};
    }
  }

  // ---------- Sends ----------

  /** The pending signals whose send fails, or those whose send succeeds. */
  ghost function Tried(rows: seq<SignalRow>, failing: set<Id>, delivered: bool): set<SignalRow> {
    set row | row in rows && row.status == Pending && (row.id !in failing) == delivered
  }

  lemma {:induction false} TriedAre(rows: seq<SignalRow>, failing: set<Id>)
    requires UniqueIds(rows)
    ensures CountDelivered(Attempts(PendingRows(rows), failing)) == |Tried(rows, failing, true)|
    ensures |PendingRows(rows)| == |Tried(rows, failing, true)| + |Tried(rows, failing, false)|
  {
    if rows == [] {
      assert Tried(rows, failing, true) == Tried(rows, failing, false) == {};
    } else {
      var front, last := rows[..|rows| - 1], rows[|rows| - 1];
      assert rows == front + [last] && last !in front;
      TriedAre(front, failing);
      TriedSnoc(front, last, failing, true);
      TriedSnoc(front, last, failing, false);
      DeliveredSnoc(front, last, failing);
    }
  }

  lemma TriedSnoc(front: seq<SignalRow>, last: SignalRow, failing: set<Id>, delivered: bool)
    requires last !in front
    ensures |Tried(front + [last], failing, delivered)| == |Tried(front, failing, delivered)|
      + if last.status == Pending && (last.id !in failing) == delivered then 1 else 0
  {
    assert Tried(front + [last], failing, delivered) == Tried(front, failing, delivered)
      + if last.status == Pending && (last.id !in failing) == delivered then {last} else {};
  }

  lemma DeliveredSnoc(front: seq<SignalRow>, last: SignalRow, failing: set<Id>)
    ensures PendingRows(front + [last]) == PendingRows(front) + if last.status == Pending then [last] else []
    ensures CountDelivered(Attempts(PendingRows(front + [last]), failing))
      == CountDelivered(Attempts(PendingRows(front), failing))
        + if last.status == Pending && last.id !in failing then 1 else 0
  {
    assert (front + [last])[..|front|] == front;
    var attempts := Attempts(PendingRows(front), failing);
    assert PendingRows(front) + [] == PendingRows(front);
    if last.status == Pending {
      var more := Attempts(PendingRows(front + [last]), failing);
      assert more == attempts + [Attempt(last.id, last.id !in failing)];
      assert more[..|more| - 1] == attempts && more[|more| - 1].delivered == (last.id !in failing);
      assert CountDelivered(more) == CountDelivered(attempts) + if last.id !in failing then 1 else 0;
    }
  }
}
