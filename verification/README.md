# insideoutside: the classify pipeline, modelled and proved

insideoutside collects filings about insider purchases and corporate buybacks, decides which
are notable, detects clusters of insiders buying at one company, and emails about each notable
signal. This project models that pipeline in Dafny and proves what it keeps, for every input
and over every run.

The pipeline is a state machine over its tables (`Pipeline.dfy`): transactions, buybacks,
cluster rows, signals and thresholds, with the mail server's log of send attempts. Its events are
ingesting one record, a classify run (with or without `--reclassify`), a notify run in which any
chosen sends fail, and a change of thresholds. `Application.dfy` holds the same tables as mutable
objects and proves each command to be one step of that machine; between the two lie the
imperative methods of each source file, each proved against a specification function.

| file | what it covers |
|---|---|
| `Domain`, `Rules`, `Ordering` | records, thresholds and per-record rules, the stable sort |
| `DetectionInFields`, `FilerNames`, `UpsertInFields`, `RulesInFields`, `IngestInFields`, `PrintedCounts` | what detection, the upsert, the rules, ingestion and the printed counts are, in terms of the stored fields alone |
| `Grouping`, `ClusterBuying` | the single-pass grouping and the detection methods |
| `DetectionLaws`, `DetectionCoverage`, `DetectionStability` | what detection guarantees, misses, and keeps under reordering and growth |
| `ClusterBuyRepo`, `ClusterLaws`, `Splits`, `Merges` | the overlap upsert, whole runs of it, and what becomes of clusters that split, merge or dissolve |
| `Signals`, `TransactionRepo`, `BuybackRepo`, `Filings`, `RecordLaws`, `Dedup` | the tables, the supersession protocol, ingestion |
| `Classify`, `VerdictLaws`, `Settling`, `Growth` | the classify run, what it leaves, and that it settles |
| `Visibility`, `Conflicts` | which filings are live, and which signals are shown, beside each other |
| `FilerLaws`, `CompanyLaws` | who counts as one filer once the SEC id is dropped, and what counts as one company |
| `Notify`, `EmailLaws`, `ResendLaws` | sending, and how many emails a signal can cause |
| `Pipeline`, `Invariants`, `Transitions`, `Guarantees`, `Application` | the state machine, its invariant, safety over whole runs, the commands |
| `Scenarios`, `ClusterScenarios`, `FilingScenarios` | runs on which a documented promise fails |

How the source is read:

- Dates are integer days and money is exact (`real`). UUIDs are naturals from one counter per table.
- A buyback's `source` has one value and is not stored in the model.
- A signal's `signal_type` and its one linked id form a single `Link`, so the linkage validator holds by construction.
- `notified_at` is a flag: whether it is set. The threshold snapshot is the threshold record itself.
- A Python exception is a `Failure`; where the callers of a lookup rely on it not raising, that is proved from the invariant. The table methods themselves also accept tables that break it.
- Unordered queries enumerate rows in insertion order; `list` breaks date ties by it, and `DetectionStability.OrderIndependence` shows that the detected clusters do not depend on that choice.
- Parsed candidates arrive with a fresh id and no superseded-by pointer.

Where the code departs from its documents, the code is modelled. For each of these promises a lemma
exhibits a run on which it fails, and another states exactly when it holds:

| promise | fails | holds |
|---|---|---|
| two insiders within the window form a cluster (spec 002, FR-001, SC-001) | `TwoFilersCanBeMissed` | `TwoFilersExactly`; always from three filers on, `ThreeFilersAreReported` |
| insiders at different companies are never grouped together (spec 002, edge cases and assumptions) | `StrangersFormACluster`: rows without a cik | `MixedExactly` |
| filers are told apart by SEC id (research 002, section 2) | `StorageMergesNamesakes`: the id is never stored | `StoredFilersExactly`, `StorageKeepsClustersExactly` |
| an existing cluster is updated and not duplicated (spec 002, FR-005) | `WideningLeavesDuplicate`: a merge | `RowsStayDisjointExactly`, `MergeTakesFirst`; always under growth, `GrowthKeepsIdentity` |
| a cluster reflects only transactions that are not superseded (spec 002, edge cases) | `DissolvedClusterStays` | `HoldsSupersededExactly` |
| a split row goes to the majority piece (research 002, section 5) | `FirstPieceTakesRow` | `SplitKeepsHistory`: it goes to the earliest piece by date |
| only the current signal of an amended filing is shown (spec 001, FR-016) | `RefetchShowsBoth` | `ConflictsExactly`, `NoRivalNoConflict`; the rows behind it: `RefetchRevives`, `ScrapedRowsStayLive`, `OneLiveExactly` |
| one notification per signal (spec 001, FR-012) | `ReclassifyCanResend` | `AttemptsExactly`; always without `--reclassify`, always for clusters |
| emails announce current, notable signals (spec 001, FR-011 and FR-016) | `SupersededIsMailed`, `UnnotableIsMailed` | `MailedExactly` |

## Model

| member | source | states |
|---|---|---|
| Grouping.GroupsAreGreedy | src/insideoutside/classification/cluster_buying.py:84-103 | the groups of a date-sorted list are consecutive runs that lose nothing, each spans at most the window, and each starts more than a window after every earlier start |
| Grouping.GreedyPartitionIsUnique | src/insideoutside/classification/cluster_buying.py:84-103 | a list of groups is the result of the pass if and only if it meets that declarative description |
| Grouping.GroupByAnchor | src/insideoutside/classification/cluster_buying.py:89-94 | a purchase lies in a group if and only if the group starts at the anchor computed from its date alone, so same-date ties never separate |
| Grouping.WideningNeverSplits | src/insideoutside/classification/cluster_buying.py:93 | widening the window never yields more groups |
| Grouping.GroupsGrow | src/insideoutside/classification/cluster_buying.py:88-99 | appending later purchases leaves every earlier group a prefix of the group at the same position |
| Grouping.GroupsIgnoreTies | src/insideoutside/classification/cluster_buying.py:85-99 | two sorted orders of the same purchases have the same groups up to the order inside each |
| ClusterBuying.GroupCompany | src/insideoutside/classification/cluster_buying.py:84-103 | the mutable inner loop returns exactly the reports of the recursive grouping, for any window |
| ClusterBuying.BucketByCompany | src/insideoutside/classification/cluster_buying.py:79-81 | the dict of lists holds each company once, in order of first appearance, with its purchases in input order |
| ClusterBuying.DetectClusters | src/insideoutside/classification/cluster_buying.py:62-105 | the whole of detect_clusters computes the specification Detect on every input |
| DetectionLaws.CandidatesAreGroups | src/insideoutside/classification/cluster_buying.py:39-59 | the candidates are exactly the groups with two or more filer identities |
| DetectionLaws.CandidateIsItsWindow | src/insideoutside/classification/cluster_buying.py:47-59 | a candidate is made of exactly the qualifying purchases at its company dated within the window of its start; its dates are their first and last, its count their distinct filers, its total their priced value, and it spans at most the window |
| DetectionLaws.GroupsConserve | src/insideoutside/classification/cluster_buying.py:71-105 | over all companies every qualifying purchase lands in exactly one group, as often as it occurs |
| DetectionLaws.ValueIsConserved | src/insideoutside/classification/cluster_buying.py:54-57 | the values of all groups add up to the value of all qualifying purchases |
| DetectionLaws.CandidatesAreDisjoint | src/insideoutside/classification/cluster_buying.py:79-105 | candidates of one run share no transaction id |
| DetectionLaws.CandidatesByDate | src/insideoutside/classification/cluster_buying.py:84-105 | detection reports the clusters of one company in the order of their dates, each starting more than the window after every earlier one |
| DetectionInFields.CandidateInFields | src/insideoutside/classification/cluster_buying.py:39-77 | a candidate is made of exactly the unsuperseded discretionary buys under its cik dated within the window of its start; it lists their ids by date, takes its names from the first, and reports first and last dates, distinct filers, and share count times price summed over the priced ones |
| DetectionInFields.OthersAreIgnored | src/insideoutside/classification/cluster_buying.py:71-77 | a row that is a sale, routine or superseded might as well not be in the input |
| DetectionInFields.ThreeBuyersAreReported | src/insideoutside/classification/cluster_buying.py:71-103 | of three filers' unsuperseded discretionary buys under one cik within one window, some two are reported in one candidate |
| FilerNames.NamesAgreeExactly | src/insideoutside/classification/cluster_buying.py:31-36 | two names count as one if and only if they agree up to outer spaces and case |
| FilerNames.SameFilerExactly | src/insideoutside/classification/cluster_buying.py:31-36 | two purchases are one filer's if and only if they carry the same non-empty SEC id or, when neither carries one, names that agree |
| DetectionStability.OrderIndependence | src/insideoutside/classification/cluster_buying.py:79-105 | permuting the input leaves the set of reported clusters unchanged (company, dates, filer count, value, set of ids) |
| DetectionStability.CandidatesGrow | src/insideoutside/classification/cluster_buying.py:84-103 | when only later purchases arrive, every earlier candidate is reported again with the same start, a superset of its ids, only new ids added, and no fewer filers |
| FilerLaws.StoredFilersExactly | src/insideoutside/storage/repositories/insider_transaction_repo.py:17-34 | in every reachable state two stored transactions count as by one filer if and only if their normalized names agree: the SEC filer id is never stored |
| FilerLaws.GroupsDoNotSeeIds | src/insideoutside/classification/cluster_buying.py:84-103 | dropping the filer ids changes no group |
| FilerLaws.IdsMatterExactly | src/insideoutside/classification/cluster_buying.py:31-46 | detection reports the same with the filer ids as without them if and only if every group counts as many filers by id as by name, or fewer than two either way |
| FilerLaws.StorageKeepsClustersExactly | src/insideoutside/storage/repositories/insider_transaction_repo.py:17-34 | whatever filer ids its filings had, the clusters detected from a reachable table are those that the ids would yield if and only if ids and names count alike in every group |
| Scenarios.StorageMergesNamesakes | src/insideoutside/storage/repositories/insider_transaction_repo.py:17-34 | the documented identity fails: two filers with different SEC ids and one name form a cluster as parsed and none once stored |
| CompanyLaws.MixedExactly | src/insideoutside/classification/cluster_buying.py:79-105 | a reported cluster mixes company names if and only if some purchase shares its anchor with one under another company name and with one by another filer |
| CompanyLaws.SharesAnchorByDate | src/insideoutside/classification/cluster_buying.py:92-99 | two purchases under one cik share an anchor if and only if the group of the later one starts no later than the earlier one |
| Scenarios.StrangersFormACluster | src/insideoutside/ingestion/openinsider_feed.py:75-79 | the documented separation of companies fails: two filers at two companies, on rows without a cik, are stored as one cluster |
| DetectionCoverage.FewestGroups | src/insideoutside/classification/cluster_buying.py:84-103 | no assignment of a company's qualifying purchases to parts spanning at most the window uses fewer parts than there are groups |
| DetectionCoverage.HalfInOneGroup | src/insideoutside/classification/cluster_buying.py:84-103 | of the filers buying within any one window, some single group holds at least half |
| DetectionCoverage.ThreeFilersAreReported | src/insideoutside/classification/cluster_buying.py:44-46 | three or more filers within one window always yield a candidate holding at least half of them |
| DetectionCoverage.EnoughFilersAreNotable | src/insideoutside/classification/cluster_buying.py:108-112 | 2m - 1 filers within one window always yield a candidate that is notable at minimum m |
| DetectionCoverage.TwoFilersExactly | src/insideoutside/classification/cluster_buying.py:92-99 | two purchases by different filers are reported in one candidate if and only if the group of the later one starts no later than the earlier one |
| Scenarios.TwoFilersCanBeMissed | src/insideoutside/classification/cluster_buying.py:92-99 | the documented promise fails for two filers: a run that stores purchases by two filers ten days apart, under the default window of fourteen, and detects no cluster |
| Ordering.SortIsStable | src/insideoutside/classification/cluster_buying.py:85 | sorting by date keeps the relative order of equal dates |
| ClusterBuyRepo.ClusterBuyEventRepository.UpsertByOverlappingTransactions | src/insideoutside/storage/repositories/cluster_buy_repo.py:54-75 | the new table is the old one with the first row of the candidate's cik that holds any of its transaction ids replaced under its old id, or, if no row does, with the candidate appended; the saved row is returned |
| UpsertInFields.SharedIdTakesRow | src/insideoutside/storage/repositories/cluster_buy_repo.py:61-72 | sharing one id, whichever, with a row of its cik is enough: the first such row gets the candidate's content and keeps its id |
| UpsertInFields.NoSharedIdAddsRow | src/insideoutside/storage/repositories/cluster_buy_repo.py:66-69 | a candidate that shares no id with a row of its cik becomes a new row under its own id |
| UpsertInFields.RunTakesFirstSharing | src/insideoutside/storage/repositories/cluster_buy_repo.py:61-72 | over a whole run, in terms of the table before it: each candidate ends in the first row of its cik holding one of its ids that no earlier candidate took, under that row's id, else in a new row under its own |
| UpsertInFields.SharedIdKeepsSignal | src/insideoutside/cli/commands/classify.py:154-182 | a detected cluster that shares an id with one stored row of its cik only, and that alone, is in that row after a classify run, with the row's id and its signal's history |
| ClusterScenarios.MiddleKeepsRow | src/insideoutside/storage/repositories/cluster_buy_repo.py:61-72 | a run on which only the two middle purchases of an emailed cluster of four stay together: they keep its row and its sent signal and no row is added |
| ClusterBuyRepo.RunSettles | src/insideoutside/storage/repositories/cluster_buy_repo.py:61-72 | from any table, after a run with disjoint candidates each has its own row holding exactly it, which is also the first row overlapping it |
| ClusterBuyRepo.SecondRunIsIdle | src/insideoutside/storage/repositories/cluster_buy_repo.py:54-75 | repeating the run changes no row and puts each candidate in the same row, whatever fresh ids it brings |
| ClusterBuyRepo.FirstUnclaimedRow | src/insideoutside/storage/repositories/cluster_buy_repo.py:62-65 | in terms of the table before the run, a candidate takes the first overlapping row that no earlier candidate of the run took, else a new row |
| ClusterBuyRepo.RunKeepsRows | src/insideoutside/storage/repositories/cluster_buy_repo.py:66-72 | rows are never removed or reordered, keep their ids, and change only where a candidate is placed, so stale rows stay |
| Splits.SplitKeepsHistory | src/insideoutside/cli/commands/classify.py:154-182 | when the clusters that overlap a stored row overlap no other row, a classify run gives the row, under its id and with its signal and that signal's history, to exactly the earliest of them by date, and every other one a fresh row and a fresh signal; each row holds exactly its cluster |
| Splits.OneEarliestPiece | src/insideoutside/classification/cluster_buying.py:84-103 | of the clusters that overlap a row exactly one is the earliest by date |
| Splits.EveryClusterHasSignal | src/insideoutside/cli/commands/classify.py:168-182 | in every reachable state every cluster row, stale ones included, has a signal |
| Splits.SplitOnRun | src/insideoutside/cli/commands/classify.py:154-182 | the split theorem on runs, where the signal of the split row always exists |
| ClusterScenarios.FirstPieceTakesRow | src/insideoutside/storage/repositories/cluster_buy_repo.py:62-72 | the documented majority rule fails: on a run that emails a cluster of three filers at a minimum of three and then narrows the window, neither piece meets the minimum, and the piece of two purchases keeps the row and the sent signal while the piece of three starts afresh |
| Merges.MergeTakesFirst | src/insideoutside/storage/repositories/cluster_buy_repo.py:61-72 | a cluster that overlaps rows no other one overlaps takes the first of them, under its id and with its signal and that signal's history; each of the others keeps its content and its signal untouched |
| Merges.RowsStayDisjointExactly | src/insideoutside/storage/repositories/cluster_buy_repo.py:61-72 | from rows that share no transaction, the rows after a run share none if and only if no row that the run does not write holds a transaction of a candidate |
| ClusterScenarios.WideningLeavesDuplicate | src/insideoutside/storage/repositories/cluster_buy_repo.py:61-72 | the documented update in place fails for a merge: after the window is widened, one cluster has two rows and two notable signals |
| Merges.HoldsSupersededExactly | src/insideoutside/cli/commands/classify.py:148-154 | after a classify run a cluster row holds a superseded transaction if and only if it held one before and no detected cluster was placed in it |
| ClusterScenarios.DissolvedClusterStays | src/insideoutside/cli/commands/classify.py:148-154 | the documented restriction to current transactions fails: a correction dissolves a cluster, and its row keeps the superseded purchase and a notable signal |
| ClusterBuyRepo.GrowthKeepsRow | src/insideoutside/storage/repositories/cluster_buy_repo.py:59-72 | a candidate that extends the content of its settled row by unseen ids keeps that row |
| Signals.Signal.TransitionNotification | src/insideoutside/domain/signal.py:44-53 | succeeds if and only if the move is pending to sent or failed; a success sets the status, and the time only when sent; a failure changes nothing |
| Signals.Signal.MarkSuperseded | src/insideoutside/domain/signal.py:55-58 | raises if and only if the signal is already superseded |
| Signals.SignalRepository.GetFor | src/insideoutside/storage/repositories/signal_repo.py:50-75 | returns the one signal of a record, none if there is none, and raises if and only if two rows match |
| Signals.SignalRepository.Save | src/insideoutside/storage/repositories/signal_repo.py:77-86 | overwrites the row with the signal's id or appends one |
| Signals.SignalRepository.List | src/insideoutside/storage/repositories/signal_repo.py:100-103 | returns exactly the stored rows that are notable, if only those are asked for, and not superseded, unless those are included, in table order |
| Signals.SignalRepository.ListPendingNotifications | src/insideoutside/storage/repositories/signal_repo.py:125-128 | returns a distinct fresh object for every pending row, in table order |
| Signals.PendingAre | src/insideoutside/storage/repositories/signal_repo.py:127 | a row is drained if and only if it is stored and pending, superseded or not |
| TransactionRepo.InsiderTransactionRepository.UpsertBySourceRef | src/insideoutside/storage/repositories/insider_transaction_repo.py:62-78 | overwrites the row with the reference, keeping its id and its filer_id, or appends one with a null filer_id |
| TransactionRepo.InsiderTransactionRepository.FindByNaturalKey | src/insideoutside/storage/repositories/insider_transaction_repo.py:80-90 | returns exactly the rows with the same company, filer name and date |
| TransactionRepo.InsiderTransactionRepository.FindByFuzzyMatch | src/insideoutside/storage/repositories/insider_transaction_repo.py:92-109 | returns an SEC row with the same ticker, filer name, date and share count, or none if and only if no stored row is one |
| TransactionRepo.InsiderTransactionRepository.List | src/insideoutside/storage/repositories/insider_transaction_repo.py:55-60 | returns the rows newest first |
| TransactionRepo.InsiderTransactionRepository.MarkSuperseded | src/insideoutside/storage/repositories/insider_transaction_repo.py:111-117 | points the row with the id at the new one and changes no other row |
| BuybackRepo.BuybackEventRepository.UpsertBySourceRef | src/insideoutside/storage/repositories/buyback_repo.py:49-63 | overwrites the row with the reference, keeping its id, or appends one |
| Dedup.IngestInsiderTransaction | src/insideoutside/ingestion/dedup.py:37-68 | both tables after one ingestion: re-fetch, amendment, fuzzy match or insert; no lookup or mark raises |
| Dedup.IngestBuybackEvent | src/insideoutside/ingestion/dedup.py:78-95 | both tables after one buyback ingestion |
| Dedup.SupersedePriorSignal | src/insideoutside/ingestion/dedup.py:14-18 | marks the prior's signal if it has one and leaves every other signal alone |
| RecordLaws.SecIngestRefines | src/insideoutside/ingestion/dedup.py:38-55 | an SEC transaction is ingested by the generic supersession protocol |
| RecordLaws.BuybackIngestRefines | src/insideoutside/ingestion/dedup.py:78-95 | a buyback is ingested by the same protocol |
| RecordLaws.OpenInsiderIngestRefines | src/insideoutside/ingestion/dedup.py:57-66 | an OpenInsider row either changes nothing or is stored without superseding anything |
| IngestInFields.SecFilingIsStored | src/insideoutside/ingestion/dedup.py:38-55 | an SEC filing, first fetched or fetched again, ends up live in the one row with its reference, in every field but the id and filer_id; of the other rows exactly the live ones with its cik, filer name and date are pointed at it, if it is new, and nothing else changes |
| IngestInFields.SecFilingMarksSignals | src/insideoutside/ingestion/dedup.py:52-54 | exactly the signals of the filings so amended are marked superseded |
| IngestInFields.CoveredRowIsDropped | src/insideoutside/ingestion/dedup.py:57-65 | an OpenInsider row changes nothing if a stored SEC row agrees with it in ticker, filer name, date and share count |
| IngestInFields.UncoveredRowIsStored | src/insideoutside/ingestion/dedup.py:57-66 | if none agrees in all four, it ends up live in the one row with its reference, in every field but the id, and nothing else changes |
| IngestInFields.UnchangedOnlyIf | src/insideoutside/ingestion/dedup.py:57-66 | the table is left as it was only if such a row agrees or the row itself is already stored, unchanged and live |
| IngestInFields.BuybackIsStored | src/insideoutside/ingestion/dedup.py:78-95 | a buyback disclosure, first fetched or fetched again, ends up live in the one row with its reference, in every field but the id; of the other rows exactly the live ones with its cik, date and type are pointed at it, if it is new |
| IngestInFields.BuybackMarksSignals | src/insideoutside/ingestion/dedup.py:92-94 | exactly the signals of the disclosures so amended are marked superseded |
| FilingScenarios.OtherShareCountIsStored | src/insideoutside/ingestion/dedup.py:57-66 | a run that stores an OpenInsider row beside an SEC row of the same filer and day with another share count |
| FilingScenarios.RefetchedAmountCounts | src/insideoutside/storage/repositories/buyback_repo.py:49-63 | a run that fetches a disclosure again with a larger amount and finds it notable |
| Filings.IngestedIsWellFormed | src/insideoutside/ingestion/dedup.py:37-55 | ingestion keeps ids and references unique and every superseded-by pointer leading to a later row |
| Filings.IngestAllChains | src/insideoutside/ingestion/dedup.py:42-55 | over filings with distinct references the table is the list of filings, each pointing at the next one with its key |
| Filings.ChainEndsAtLast | src/insideoutside/ingestion/dedup.py:42-55 | the chain from every filing ends at the last filing with its key |
| Visibility.OneLiveTransactionExactly | src/insideoutside/ingestion/dedup.py:37-68 | among the rows of any choice of sources, one live transaction per company, filer and date survives an ingestion if and only if the ingestion, from one of them, is not a re-fetch or an unmatched OpenInsider row while another reference has a live row with its key |
| Visibility.OneLiveBuybackExactly | src/insideoutside/ingestion/dedup.py:78-95 | one live buyback per company, date and type survives an ingestion if and only if it is not a re-fetch while another reference has a live row with its key |
| Visibility.OneLiveExactly | src/insideoutside/storage/repositories/insider_transaction_repo.py:34 | over every run and for any choice of sources, each key has at most one live filing throughout if and only if no event brings such a rival |
| Visibility.ConflictAfterClassifyExactly | src/insideoutside/cli/commands/classify.py:85-102 | after a classify run the signals of a filing and of its amendment, two SEC filings or two buybacks with one natural key, are both shown if and only if, before it, both were live and neither signal was marked superseded |
| Visibility.NoRivalNoConflict | src/insideoutside/storage/repositories/signal_repo.py:100-101 | on every run in which no SEC filing or buyback is re-fetched beside a live one with its key, the signals of a filing and its amendment are never shown together |
| Conflicts.ConflictExactly | src/insideoutside/ingestion/dedup.py:37-55 | from a state that shows no such pair an event leads to one if and only if its condition, checked before it, holds: live unmarked rivals for a classify run, a re-fetch that gives one shown filing the key of another for an ingestion, never for the rest |
| Conflicts.ConflictsExactly | src/insideoutside/ingestion/dedup.py:37-55 | over every run, only the current signal of an amended filing is ever shown if and only if no event of the run meets its condition |
| FilingScenarios.RefetchRevives | src/insideoutside/storage/repositories/insider_transaction_repo.py:34 | a filing, its amendment and the filing again: both are stored live with the same key |
| FilingScenarios.RefetchShowsBoth | src/insideoutside/storage/repositories/signal_repo.py:100-103 | the documented promise fails: after that run and a classify run the default listing shows the signals of both filings |
| FilingScenarios.ScrapedRowsStayLive | src/insideoutside/ingestion/dedup.py:57-66 | two OpenInsider rows for one filer, company and day under different references both stay live, without any re-fetch |
| Settling.LoweringNeverShrinks | src/insideoutside/classification/rules.py:13-37 | with the roles fixed, lower dollar thresholds never make a live filing stop being notable after reclassifying |
| Classify.UpsertSignal | src/insideoutside/cli/commands/classify.py:35-73 | the table after creating or updating one signal is the specification Judge applied to the table before |
| Classify.ClassifyInsiderTransactions | src/insideoutside/cli/commands/classify.py:76-103 | the signal table and both counts after the loop over the transactions |
| Classify.ClassifyBuybacks | src/insideoutside/cli/commands/classify.py:106-133 | the signal table and both counts after the loop over the buybacks |
| Classify.ClassifyClusters | src/insideoutside/cli/commands/classify.py:136-198 | the cluster table, the signal table and both counts after the loop over the candidates |
| Classify.CandidateWindow | src/insideoutside/domain/cluster_buy_event.py:31-35 | no detected cluster is rejected by the event validator |
| Settling.ClassifyOutcome | src/insideoutside/cli/commands/classify.py:201-219 | each verdict of a whole classify run takes effect on the signal of its own record, undisturbed by the other verdicts |
| Settling.ReclassifyAgreesWithRules | src/insideoutside/cli/commands/classify.py:85-102 | after `--reclassify`, whatever happened before, every live transaction and buyback has exactly one signal, which agrees with the rules and the snapshot of the current thresholds |
| RulesInFields.TransactionSignal | src/insideoutside/classification/rules.py:13-30 | after `--reclassify` a live transaction has one signal, notable if and only if it is a discretionary buy with a price whose share count times price is at least the notable-role bar when the role is among the notable ones and at least the general bar otherwise; flag, snapshot and status agree |
| RulesInFields.BuybackSignal | src/insideoutside/classification/rules.py:33-37 | after `--reclassify` a live buyback has one signal, notable if and only if its amount is at least the minimum |
| RulesInFields.NewTransactionSignal | src/insideoutside/cli/commands/classify.py:85-102 | a live transaction that has no signal gets one by the same bars from any classify run: pending if notable, not marked, not sent |
| RulesInFields.NewBuybackSignal | src/insideoutside/cli/commands/classify.py:115-132 | the same for a buyback |
| RulesInFields.DefaultBars | src/insideoutside/domain/threshold_configuration.py:9-15 | under the default thresholds the bars are 100,000 for officers and directors, 1,000,000 for everyone else, and 50,000,000 for buybacks |
| Rules.MakeThresholds | src/insideoutside/domain/threshold_configuration.py:38-60 | thresholds are rejected if and only if an amount is negative, the window shorter than a day or the minimum below two filers |
| Settling.ClustersAreStored | src/insideoutside/cli/commands/classify.py:154-182 | after a classify run each detected cluster has its own row holding exactly it, and the row's signal is notable if and only if its filers reach the minimum |
| Settling.SecondRunKeeps | src/insideoutside/cli/commands/classify.py:201-219 | whatever the flags of the two runs, a second classify run on unchanged inputs changes no transaction, buyback or cluster row, creates no signal and changes no cluster's signal, stale or overlapping cluster rows included |
| Settling.ClassifySettles | src/insideoutside/cli/commands/classify.py:88-90 | the second run changes no signal at all, except exactly when it reclassifies, the first run did not, and some live filing's signal from before the first run disagrees with the rules or snapshot of the current thresholds |
| Growth.GrowthKeepsIdentity | src/insideoutside/cli/commands/classify.py:148-182 | after a classify run, quiet events that bring only later purchases, and another run, every earlier cluster has the row and the signal that the first run left, lost no transaction or filer, and its status was at most moved on by a notification |
| Notify.ComposeSignalEmail | src/insideoutside/notifications/composer.py:20-45 | composing fails if and only if the linked record is missing |
| Notify.RunNotify | src/insideoutside/notifications/orchestrator.py:18-57 | succeeds if and only if every pending signal's record is stored; then one attempt per pending signal, every other row untouched, and exact counts |
| Guarantees.NotifyDrains | src/insideoutside/notifications/orchestrator.py:36-57 | a notify run leaves no signal pending, changes no other signal, no notability and no supersession, and attempts one send per pending signal |
| Invariants.RunKeepsInv | src/insideoutside/cli/commands/classify.py:201-219 | the invariant of tables, links, visibility, status and mail holds after every run of events |
| Transitions.RowStep | src/insideoutside/cli/commands/classify.py:64-71 | under any event a stored signal keeps its position, id and link and changes only in the way that event allows |
| EmailLaws.SendsAreAccounted | src/insideoutside/notifications/orchestrator.py:36-55 | over every run, the send attempts for a signal are its downgrades plus one if it is now sent or failed |
| EmailLaws.ClusterEmailedAtMostOnce | src/insideoutside/cli/commands/classify.py:68-71 | over every run whatever, a cluster signal causes one send attempt if it is sent or failed and none otherwise |
| EmailLaws.NoReclassifyNoResend | src/insideoutside/cli/commands/classify.py:88-90 | over every run without `--reclassify`, every signal causes at most one send attempt |
| ResendLaws.DowngradeExactly | src/insideoutside/cli/commands/classify.py:68-71 | `--reclassify` takes a signal back from sent or failed if and only if its filing is live and not notable under the current thresholds |
| ResendLaws.AttemptsExactly | src/insideoutside/cli/commands/classify.py:68-71 | over every run, the send attempts for a signal are the reclassifying runs that found it sent or failed while the rule rejected its live filing, plus one if it is now sent or failed |
| ResendLaws.MailedExactly | src/insideoutside/storage/repositories/signal_repo.py:125-128 | in every reachable state a notify run mails exactly the pending signals, and the out-of-date ones among them are exactly the cluster signals no longer notable and the filing signals superseded |
| FilingScenarios.SupersededIsMailed | src/insideoutside/notifications/orchestrator.py:36-55 | a pending signal whose filing is amended before the notify run is mailed |
| ClusterScenarios.UnnotableIsMailed | src/insideoutside/notifications/orchestrator.py:36-55 | a pending cluster signal that a later run finds below the minimum is mailed |
| ResendLaws.ReclassifyCanResend | src/insideoutside/cli/commands/classify.py:68-71 | the documented single notification fails: a run with two reclassifications that emails one buyback signal twice |
| Guarantees.LookupsNeverRaise | src/insideoutside/storage/repositories/signal_repo.py:50-75 | in every reachable state no lookup of a record's signal is ambiguous and every signal's record is stored |
| Guarantees.RecordsKeepIdentity | src/insideoutside/storage/repositories/insider_transaction_repo.py:69-75 | a stored transaction or buyback keeps its position, id and source reference under every event |
| Guarantees.OneRowPerReference | src/insideoutside/storage/repositories/insider_transaction_repo.py:62-75 | in every reachable state each source reference has at most one transaction row and at most one buyback row |
| Guarantees.SupersessionEnds | src/insideoutside/storage/repositories/insider_transaction_repo.py:111-117 | in every reachable state, re-fetches included, the pointers from any transaction lead through later rows to a live one |
| Guarantees.BuybackSupersessionEnds | src/insideoutside/storage/repositories/buyback_repo.py:76-82 | the same for buybacks |
| Guarantees.AmendmentChains | src/insideoutside/ingestion/dedup.py:42-55 | over any run whose transactions are SEC filings with distinct references: each points at the next with its key, exactly the last of each key is live, and every chain ends there |
| Guarantees.BuybackAmendmentChains | src/insideoutside/ingestion/dedup.py:82-95 | the same for buybacks |
| Guarantees.ListedSignalsAreCurrent | src/insideoutside/storage/repositories/signal_repo.py:100-101 | in every reachable state the default listing shows no signal whose filing is superseded |
| Guarantees.SupersededStays | src/insideoutside/domain/signal.py:55-58 | a signal marked superseded stays so under every event |
| Guarantees.StatusHistory | src/insideoutside/cli/commands/classify.py:56-71 | in every reachable state insider and buyback signals are notable exactly when not not_applicable, notable cluster signals are never not_applicable, and the notification time is set exactly when an email was delivered |
| Guarantees.ClusterStatusClimbs | src/insideoutside/cli/commands/classify.py:68-71 | a cluster signal's status never falls back, and never moves between sent and failed |
| Guarantees.ClusterNotApplicableExactly | src/insideoutside/cli/commands/classify.py:56-71 | a cluster signal is not_applicable if and only if no classify run ever found it notable |
| Application.ThresholdConfigurationRepository.Get | src/insideoutside/storage/repositories/threshold_repo.py:22-39 | returns the stored configuration, storing the defaults first if there is none |
| Application.Application.IngestTransaction | src/insideoutside/ingestion/dedup.py:21-26 | over the mutable tables, one ingestion is one step of the pipeline |
| Application.Application.RunClassify | src/insideoutside/cli/commands/classify.py:201-231 | over the mutable tables, a classify run is one step of the pipeline; it prints how many live records had no signal (all live ones with `--reclassify`), how many of these are notable, how many clusters there are, and how many reach the filer count |
| PrintedCounts.CountsAre | src/insideoutside/cli/commands/classify.py:83-103 | the counters of the two record passes are the numbers of live records without a signal (of all live ones with `--reclassify`) and of the notable ones among them, each record counted once |
| PrintedCounts.TriedAre | src/insideoutside/notifications/orchestrator.py:36-57 | the delivered attempts are the pending signals whose send succeeds, and every other pending one counts as failed |
| Application.Application.RunNotify | src/insideoutside/notifications/orchestrator.py:18-57 | over the mutable tables, a notify run is one step of the pipeline and never raises; it prints how many pending signals' sends succeed and how many fail |

## Left out

- Fetching and retrying over the network, and the parsing of Form 4 XML, OpenInsider pages and buyback disclosures: their output is an arbitrary candidate record.
- SMTP and the email text: a send succeeds or fails by choice, and composing is reduced to finding the linked record.
- SQLAlchemy sessions, schema and migrations: tables are sequences of rows, and each command is serial and atomic, so nothing is said about concurrent commands.
- Dashboard, HTTP routes, argument parsing and the scheduler: thin wrappers over the commands modelled here.
- Signals.SignalRepository.List: models the superseded and notable filters; the `since` and `signal_type` filters, the order by creation time, the paging and the total are not modelled.
- Wall-clock values, including `created_at` and `updated_at` of cluster rows, which every upsert rewrites.
- Decimal's 28-digit context and the serialization of thresholds.
- Unicode case folding and whitespace in filer names: normalization covers ASCII letters and the four common spaces.
- `notify` when a pending signal's record is missing: that it raises is modelled, the partly drained table it leaves is not; no reachable state has one.
