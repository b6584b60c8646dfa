// What a classify run says of each filing, in terms of the filing's fields and
// the current thresholds.
module RulesInFields {
  import opened Domain
  import opened Rules
  import opened Signals
  import opened Classify
  import opened Pipeline
  import opened Invariants
  import opened Settling

  lemma {:induction false} OnlySignal(s: State, row: SignalRow)
    requires Inv(s) && row in s.signals.rows
    ensures Lookup(s.signals.rows, row.link) == Some(row)
  {
    hide RowsOk, MailOk;
    var i :| 0 <= i < |s.signals.rows| && s.signals.rows[i] == row;
    LookupAt(s.signals.rows, i);
  }

  /** The signal is notable exactly if the bar is cleared, and carries the flag and the thresholds of
      the evaluation; the status agrees. */
  ghost predicate Says(row: SignalRow, isNotable: bool, isDiscretionary: Option<bool>, thresholds: Thresholds) {
    && (row.isNotable <==> isNotable) && row.isDiscretionary == isDiscretionary && row.snapshot == thresholds
    && (row.status == NotApplicable <==> !isNotable)
  }

  lemma AgreedRow(s: State, v: Verdict) returns (row: SignalRow)
    requires Inv(s) && AgreesWith(Classified(s, true).signals.rows, v)
    ensures row in Classified(s, true).signals.rows && row.link == v.link
    ensures Says(row, v.isNotable, v.isDiscretionary, v.snapshot)
    ensures forall other | other in Classified(s, true).signals.rows && other.link == v.link :: other == row
  {
    ClassifyKeepsInv(s, true);
    hide Inv, Classified;
    row :| row in Classified(s, true).signals.rows && row.link == v.link;
    forall other | other in Classified(s, true).signals.rows && other.link == v.link
      ensures other == row
    {
      OnlySignal(Classified(s, true), other);
      OnlySignal(Classified(s, true), row);
    }
  }

  /** After `classify --reclassify` a live transaction has exactly one signal, and it is notable if and
      only if the transaction is a discretionary buy with a price, worth at least the bar for its
      filer's role: the lower one when the role is among the notable ones, else the general one. */
  lemma TransactionSignal(s: State, t: Transaction) returns (row: SignalRow)
    requires Inv(s) && t in s.txns && t.supersededBy == None
    ensures row in Classified(s, true).signals.rows && row.link == InsiderLink(t.id)
    ensures forall other | other in Classified(s, true).signals.rows && other.link == InsiderLink(t.id) :: other == row
    ensures Says(row,
      && t.transactionType == Buy && t.isDiscretionary && t.pricePerShare.Some?
      && t.shareCount * t.pricePerShare.value >=
        (if t.filerRole in s.thresholds.notableFilerRoles then s.thresholds.minNotableRoleBuyValue
         else s.thresholds.minInsiderBuyValue),
      Some(t.isDiscretionary), s.thresholds)
  {
    var v := TransactionVerdict(t, s.thresholds);
    TransactionBar(t, s.thresholds);
    hide Inv, Classified, IsNotableTransaction;
    ReclassifyAgreesWithRules(s);
    row := AgreedRow(s, v);
  }

  lemma TransactionBar(t: Transaction, h: Thresholds)
    ensures IsNotableTransaction(t, h) <==>
      && t.transactionType == Buy && t.isDiscretionary && t.pricePerShare.Some?
      && t.shareCount * t.pricePerShare.value >=
        if t.filerRole in h.notableFilerRoles then h.minNotableRoleBuyValue else h.minInsiderBuyValue
  {}

  /** After `classify --reclassify` a live buyback has exactly one signal, and it is notable if and only
      if its amount is at least the minimum, the minimum itself included. */
  lemma BuybackSignal(s: State, e: BuybackEvent) returns (row: SignalRow)
    requires Inv(s) && e in s.buybacks && e.supersededBy == None
    ensures row in Classified(s, true).signals.rows && row.link == BuybackLink(e.id)
    ensures forall other | other in Classified(s, true).signals.rows && other.link == BuybackLink(e.id) :: other == row
    ensures Says(row, e.amount >= s.thresholds.minBuybackAmount, None, s.thresholds)
  {
    var v := BuybackVerdict(e, s.thresholds);
    assert v.isNotable <==> e.amount >= s.thresholds.minBuybackAmount;
    hide Inv, Classified, IsNotableBuyback;
    ReclassifyAgreesWithRules(s);
    row := AgreedRow(s, v);
  }

  /** The signal that a run creates: pending if notable, unmarked and unsent, whatever the flag. */
  lemma FirstSignal(s: State, reclassify: bool, v: Verdict) returns (row: SignalRow)
    requires Inv(s) && (v in RecordVerdicts(s) || v in EventVerdicts(s)) && !HasSignal(s.signals.rows, v.link)
    ensures row in Classified(s, reclassify).signals.rows && row.link == v.link
    ensures row.isNotable == v.isNotable && row.isDiscretionary == v.isDiscretionary && row.snapshot == v.snapshot
    ensures row.status == (if v.isNotable then Pending else NotApplicable) && !row.isSuperseded && !row.notified
  {
    hide Inv, RecordVerdicts, EventVerdicts, RunVerdicts, Classified;
    ClassifyOutcome(s, reclassify, v);
    FoundByLookup(Classified(s, reclassify).signals.rows, v.link);
    row := Lookup(Classified(s, reclassify).signals.rows, v.link).value;
  }

  /** A live transaction that no run has seen gets its signal from any run, reclassifying or not. */
  lemma NewTransactionSignal(s: State, reclassify: bool, t: Transaction) returns (row: SignalRow)
    requires Inv(s) && t in s.txns && t.supersededBy == None
    requires forall row | row in s.signals.rows :: row.link != InsiderLink(t.id)
    ensures row in Classified(s, reclassify).signals.rows && row.link == InsiderLink(t.id)
    ensures Says(row,
      && t.transactionType == Buy && t.isDiscretionary && t.pricePerShare.Some?
      && t.shareCount * t.pricePerShare.value >=
        (if t.filerRole in s.thresholds.notableFilerRoles then s.thresholds.minNotableRoleBuyValue
         else s.thresholds.minInsiderBuyValue),
      Some(t.isDiscretionary), s.thresholds)
    ensures row.status == (if row.isNotable then Pending else NotApplicable) && !row.isSuperseded && !row.notified
  {
    var v := TransactionVerdict(t, s.thresholds);
    TransactionBar(t, s.thresholds);
    hide Inv, Classified, IsNotableTransaction, RecordVerdicts, EventVerdicts;
    LiveVerdicts(s);
    row := FirstSignal(s, reclassify, v);
  }

  /** The same for a buyback. */
  lemma NewBuybackSignal(s: State, reclassify: bool, e: BuybackEvent) returns (row: SignalRow)
    requires Inv(s) && e in s.buybacks && e.supersededBy == None
    requires forall row | row in s.signals.rows :: row.link != BuybackLink(e.id)
    ensures row in Classified(s, reclassify).signals.rows && row.link == BuybackLink(e.id)
    ensures Says(row, e.amount >= s.thresholds.minBuybackAmount, None, s.thresholds)
    ensures row.status == (if row.isNotable then Pending else NotApplicable) && !row.isSuperseded && !row.notified
  {
    var v := BuybackVerdict(e, s.thresholds);
    assert v.isNotable <==> e.amount >= s.thresholds.minBuybackAmount;
    hide Inv, Classified, IsNotableBuyback, RecordVerdicts, EventVerdicts;
    LiveVerdicts(s);
    row := FirstSignal(s, reclassify, v);
  }

  // ---------- The default bars ----------

  /** Under the thresholds that the tool starts with, a discretionary purchase is notable from 100,000
      on for officers and directors and from 1,000,000 on for everyone else, and a buyback from
      50,000,000 on. */
  lemma DefaultBars(t: Transaction, e: BuybackEvent)
    requires t.transactionType == Buy && t.isDiscretionary && t.pricePerShare.Some?
    ensures IsNotableTransaction(t, DEFAULTS) <==>
      t.shareCount * t.pricePerShare.value >= match t.filerRole
        case Officer => 100000.0
        case Director => 100000.0
        case TenPercentOwner => 1000000.0
        case OtherRole => 1000000.0
    ensures IsNotableBuyback(e, DEFAULTS) <==> e.amount >= 50000000.0
  {
    TransactionBar(t, DEFAULTS);
  }
}
