// The records that the pipeline stores and passes around.
module Domain {

  datatype Option<+T> = None | Some(value: T)

  /** A Python exception is a Failure; a call that returns normally is a Success. */
  datatype Result<+T> = Success(value: T) | Failure(error: Error)

  datatype Error =
    | MultipleResultsFound
    | InvalidTransition
    | AlreadySuperseded
    | InvalidEvent
    | InvalidThresholds
    | MissingRecord

  type Id = nat   // a UUID; fresh ones come from a counter
  type Day = int  // a calendar date

  datatype FilerRole = Officer | Director | TenPercentOwner | OtherRole
  datatype TransactionType = Buy | Sell
  datatype Source = SecEdgar | OpenInsider
  datatype DisclosureType = Authorized | Executed

  datatype Transaction = Transaction(
    id: Id,
    companyName: string,
    ticker: Option<string>,
    cik: string,
    filerName: string,
    filerId: Option<string>,
    filerRole: FilerRole,
    transactionType: TransactionType,
    transactionCode: string,
    isDiscretionary: bool,
    shareCount: real,
    pricePerShare: Option<real>,
    transactionDate: Day,
    filingDate: Day,
    source: Source,
    sourceRef: string,
    sourceUrl: string,
    fetchedAt: int,
    supersededBy: Option<Id>)
  {
    function TotalValue(): Option<real> {
      if pricePerShare.None? then None else Some(shareCount * pricePerShare.value)
    }
  }

  datatype BuybackEvent = BuybackEvent(
    id: Id,
    companyName: string,
    ticker: Option<string>,
    cik: string,
    disclosureType: DisclosureType,
    amount: real,
    disclosureDate: Day,
    sourceRef: string,
    sourceUrl: string,
    fetchedAt: int,
    supersededBy: Option<Id>)

  /** What detection reports; `transactionIds` is contributing_transaction_ids. */
  datatype ClusterCandidate = ClusterCandidate(
    companyName: string,
    ticker: Option<string>,
    cik: string,
    windowStart: Day,
    windowEnd: Day,
    distinctFilerCount: nat,
    totalValue: real,
    transactionIds: seq<Id>)

  /** What the cluster table stores: a candidate under a row id. */
  datatype ClusterBuyEvent = ClusterBuyEvent(id: Id, content: ClusterCandidate)

  function TransactionDate(t: Transaction): Day { t.transactionDate }

  function NewestFirst(t: Transaction): int { -t.transactionDate }

  function NewestBuybackFirst(e: BuybackEvent): int { -e.disclosureDate }

  ghost predicate DistinctIds(txns: seq<Transaction>) {
    forall i, j | 0 <= i < j < |txns| :: txns[i].id != txns[j].id
  }

  ghost predicate DistinctEventIds(events: seq<BuybackEvent>) {
    forall i, j | 0 <= i < j < |events| :: events[i].id != events[j].id
  }
}
