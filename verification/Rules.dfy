// The notability thresholds and the per-record rules that read them.
module Rules {
  import opened Domain

  datatype ThresholdFields = ThresholdFields(
    minInsiderBuyValue: real,
    minNotableRoleBuyValue: real,
    notableFilerRoles: seq<FilerRole>,
    minBuybackAmount: real,
    clusterWindowDays: int,
    minClusterFilerCount: int)
  {
    /** The field validators. */
    predicate Valid() {
      && minInsiderBuyValue >= 0.0 && minNotableRoleBuyValue >= 0.0 && minBuybackAmount >= 0.0
      && clusterWindowDays >= 1
      && minClusterFilerCount >= 2
    }

    function ThresholdForRole(role: FilerRole): real {
      if role in notableFilerRoles then minNotableRoleBuyValue else minInsiderBuyValue
    }
  }

  const DEFAULT_FIELDS := ThresholdFields(1000000.0, 100000.0, [Officer, Director], 50000000.0, 14, 2)

  type Thresholds = t: ThresholdFields | t.Valid() witness DEFAULT_FIELDS

  const DEFAULTS: Thresholds := DEFAULT_FIELDS

  /** The field validators: negative amounts, an empty window and clusters of one are rejected. */
  method MakeThresholds(fields: ThresholdFields) returns (r: Result<Thresholds>)
    ensures r.Success? <==>
      && 0.0 <= fields.minInsiderBuyValue && 0.0 <= fields.minNotableRoleBuyValue && 0.0 <= fields.minBuybackAmount
      && 1 <= fields.clusterWindowDays && 2 <= fields.minClusterFilerCount
    ensures r.Success? ==> r.value == fields
  {
    if !fields.Valid() {
      return Failure(InvalidThresholds);
    }
    return Success(fields);
  }

  predicate IsNotableTransaction(txn: Transaction, config: Thresholds) {
    if txn.transactionType != Buy then false
    else if !txn.isDiscretionary then false
    else if txn.TotalValue().None? then false
    else txn.TotalValue().value >= config.ThresholdForRole(txn.filerRole)
  }

  predicate IsNotableBuyback(event: BuybackEvent, config: Thresholds) {
    event.amount >= config.minBuybackAmount
  }

  /** No dollar threshold of `low` exceeds that of `high`, and the roles are the same. */
  ghost predicate Lowered(high: Thresholds, low: Thresholds) {
    && low.minInsiderBuyValue <= high.minInsiderBuyValue
    && low.minNotableRoleBuyValue <= high.minNotableRoleBuyValue
    && low.minBuybackAmount <= high.minBuybackAmount
    && low.notableFilerRoles == high.notableFilerRoles
  }
}
