# Verification of the reconciliation engine, the inventory ledger and the governed state machines

This project models, in Dafny, the parts of the repository whose correctness spans many rows,
calls or transactions, and proves what they promise over all inputs and all runs.

**The reconciliation engine.** Invoice rows are sorted on ten fields, grouped by identity and
walked in order; each unambiguous group consumes capacity of its purchase-order line. The loops of
the four modes are methods proved equal to closed specifications (`ThreeWay`, `InvoicePo`,
`InvoiceReceipt`, `PoReceipt`, over `InvoiceHelpers`, `ReceiptTotals`, `Exposure`, `Money` and
`Ordering`). On the specifications rest the results that relate modes and inputs: three-way is the
meet of the two-way modes (`MeetOfModes`), its disputes dominate those of the invoice-PO mode
(`DisputeDominance`), allocation telescopes (`Allocation`), row order is irrelevant
(`OrderIndependence`), more receipts never hurt (`ReceiptMonotone`), and totals are exact on what
the loaders accept (`Loaders`, `AcceptedInvoices`). `Disputes` says what every row of every report
disputes, in quantities and prices. `Findings` shows that persisting findings pairs report rows with
stored lines without ever running out of them, and what each stored finding says.

**The inventory ledger.** `Ledger` gives the atomic effect of each request, `Inventory` is the
service as a class whose methods equal it. `Postings` and `MasterRecords` say exactly which requests
are accepted and what they do to balances and records; `LedgerInvariants`, `Cancellation` and
`Idempotency` are about all runs. `Locking`, `Interleaving` and `Linearizability` let any number of
transactions take their lock, check and commit steps in any order. `Triggers` models the second set
of checks in the database and proves that the service always meets them.

**Versioned state machines, paging and limits.** `Workflow`, `WorkflowRules` and `EventSourcing` for
findings, `Governance`, `GovernanceAuthority` and `GovernanceSafety` for members and invitations,
`AuditTimeline` for the merged keyset pages, `Throttle` and `ThrottleAnswers` for the fixed-window
limits. `Policy` holds the role permissions they use.

Three things a reader of the code may not expect. Any interval of one throttle window holds at most
2 * maximum - 1 allowed attempts, one fewer than two full windows, and no smaller bound holds; a
login meets it exactly as long as no sign-in clears it (`Throttle.NoClearIsExact`).
Groups of duplicate invoice rows are contiguous in the sorted rows only because the loader refuses
documents with two dates; without that check rows are reordered
(`AcceptedInvoices.InconsistentDatesSplit`). In `accept_invitation` the test for an existing
membership can never fire in a reachable state (`GovernanceSafety.AvailableIsRedeemable`).

`dafny verify dfyconfig.toml` checks the whole project.

## Model

| member | source | states |
|---|---|---|
| MeetOfModes.ThreeWayIsMeet | src/reconcile/reconciliation.py:54-81 | For every row of every input, resolved lines: three-way supported quantity is the minimum of the two two-way supported quantities and its issues are the union of theirs without RECEIPT_ITEM_MISMATCH; every line is MATCHED three-way if and only if both two-way modes match it |
| MeetOfModes.PriorsAgree | src/reconcile/analysis/invoice_receipt.py:36-90 | Capacity keyed by PO, line and item (receipt mode) and by PO line (the other modes) records the same consumption wherever the PO line has receipts |
| MeetOfModes.SupportedIsMeet | src/reconcile/reconciliation.py:205-218 | Line by line, three-way support is the smaller of the two-way supports, ambiguous groups and missing receipts included |
| MeetOfModes.IssuesAreUnion | src/reconcile/reconciliation.py:126-161 | Line by line, three-way issues are the union of the two-way issues without the receipt-only item mismatch |
| DisputeDominance.ThreeWayDisputesMore | src/reconcile/analysis/invoice_po.py:38-96 | On the same records every line, and every currency in the summary, is disputed three-way for at least what the invoice-PO mode disputes |
| Allocation.AllocationTelescopes | src/reconcile/reconciliation.py:54-81 | Walking the groups in order grants a PO line exactly min(what the groups bill, min(ordered, received or 0)), whatever the order and number of groups |
| Allocation.OverrunFlaggedExactly | src/reconcile/reconciliation.py:126-161 | Some row is flagged QUANTITY_EXCEEDS_PO (QUANTITY_EXCEEDS_RECEIPT) if and only if the groups together bill more than was ordered (received) |
| Allocation.ReportAllocates | src/reconcile/reconciliation.py:31-85 | Both results for every PO line of the input files, on the rows of the actual report |
| Allocation.GroupTakes | src/reconcile/reconciliation.py:205-218 | One unambiguous group is granted min(its largest quantity, what is left), duplicates counted once |
| OrderIndependence.ReportsOrderIndependent | README.md:510 | Any permutation of invoice, receipt and uniquely keyed PO rows gives the same results and summary in the three invoice modes |
| OrderIndependence.ReceivingOrderIndependent | src/reconcile/analysis/po_receipt.py:27-91 | The receiving report is unchanged by permuting PO and receipt rows with unique keys |
| ReceiptMonotone.MoreReceiptsNeverHurt | src/reconcile/reconciliation.py:88-98 | Adding receipt lines anywhere never lowers a supported quantity, never raises a disputed amount or a currency total, and never unmatches a line |
| ReceiptMonotone.DisputeShrinks | src/reconcile/invoice_helpers.py:106-124 | More support, the same price verdict and the same full-exposure issues cannot raise a rounded dispute, under any of the eight rounding modes |
| InvoiceHelpers.SortKeyInjective | src/reconcile/invoice_helpers.py:61-73 | Rows with equal ten-field keys are equal rows |
| InvoiceHelpers.GroupInvoices | src/reconcile/invoice_helpers.py:54-58 | The dictionary of lists yields the groups in order of first appearance |
| InvoiceHelpers.GroupRowsMeaning | src/reconcile/invoice_helpers.py:54-58 | A group lists exactly the rows of its identity, in sorted order; identities without rows have no group |
| InvoiceHelpers.GroupsElements | src/reconcile/invoice_helpers.py:54-58 | Grouping neither loses nor invents rows |
| InvoiceHelpers.AmbiguousMeans | src/reconcile/reconciliation.py:55-57 | A group is ambiguous exactly when two of its rows bill different targets |
| InvoiceHelpers.ResolveMeans | src/reconcile/invoice_helpers.py:84-95 | With unique PO keys a line resolves to a PO line if and only if that line is in the file and has its number, line and item |
| InvoiceHelpers.OrderIssuesMembers | src/reconcile/invoice_helpers.py:141-142 | The ordered issue list holds exactly the issues found, each once |
| InvoiceHelpers.ConsumeGroupCapacity | src/reconcile/invoice_helpers.py:127-138 | Only the billed PO line is charged, by the largest quantity of the group, and only if its item agrees |
| InvoiceHelpers.Summarize | src/reconcile/invoice_helpers.py:150-178 | The summary loops compute document, line, status and issue counts and the sorted non-zero currency totals |
| MoneyRounding.RoundMonotone | src/reconcile/invoice_helpers.py:145-147 | No rounding mode reverses the order of two amounts |
| MoneyRounding.RoundIsNear | src/reconcile/invoice_helpers.py:145-147 | Rounding is off by less than a quantum, the half modes by at most half of one, half-up never downward by exactly half |
| MoneyRounding.RoundExact | src/reconcile/invoice_helpers.py:145-147 | Rounding a whole number of quanta changes nothing |
| MoneyRounding.RoundsExactly | src/reconcile/invoice_helpers.py:145-147 | For each of the eight rounding modes the rounded number of quanta is the only whole number with the inequalities that define the mode, ties and the 0-or-5 rule included |
| MoneyRounding.PlacesAdd | src/reconcile/invoice_helpers.py:145-147 | The quantum shrinks by a factor of ten with each decimal place |
| MoneyRounding.Hundredths | src/reconcile/invoice_helpers.py:145-147 | With two places amounts are rounded to whole hundredths |
| GroupExposure.SummaryDisputes | src/reconcile/invoice_helpers.py:150-178 | Each currency in the summary is exactly the sum of the group exposures: the outer rounding is a no-op and dropped zero entries lose nothing |
| GroupExposure.SummaryCounts | src/reconcile/invoice_helpers.py:161-170 | The summary counts distinct documents, lines and matched rows, and matched and reviewed rows are all rows |
| ThreeWay.Reconcile | src/reconcile/reconciliation.py:31-85 | The engine loop, its mutable capacity dictionary included, computes the specified report |
| ThreeWay.AggregateReceipts | src/reconcile/reconciliation.py:88-98 | The receipt dictionary holds, for every PO line, the sum of the receipts naming its number, line and item, and an entry exactly when there is one |
| ThreeWay.ReconcileInvoiceLine | src/reconcile/reconciliation.py:101-202 | One result row: the branch for unresolved lines, the issue set, support and dispute |
| ThreeWay.LineIssuesMeaning | src/reconcile/reconciliation.py:126-161 | When each issue code is raised |
| Disputes.ThreeWayRowsTold | src/reconcile/reconciliation.py:101-202 | For every row of every three-way report on uniquely keyed PO lines, in terms of the row and the input files alone: without issues nothing is disputed; an unresolved, duplicate, wrong-supplier or wrong-currency line is disputed in full; otherwise a line with PRICE_MISMATCH for round(max(quantity * price - supported * PO price, 0)) and one without for round((quantity - supported) * price). PRICE_MISMATCH if and only if the prices differ by more than PO price * rate; UNKNOWN_PO and UNKNOWN_ITEM by what the PO file holds; MATCHED if and only if there is no issue |
| Disputes.PriceDifference | src/reconcile/invoice_helpers.py:119-124 | A fully supported line with PRICE_MISMATCH and no full-exposure issue is disputed for its quantity times the price difference, rounded, when billed above the PO price, and for zero when billed below it |
| Disputes.ResolvesExactly | src/reconcile/invoice_helpers.py:84-95 | A line resolves if and only if some PO line has its number, line and item; UNKNOWN_PO if and only if no PO line has its number, UNKNOWN_ITEM in the remaining cases |
| InvoicePo.AnalyzeInvoicePo | src/reconcile/analysis/invoice_po.py:25-103 | The nested loops of the invoice-PO mode compute the specified report |
| Disputes.InvoicePoRowsTold | src/reconcile/analysis/invoice_po.py:41-87 | The same disputes, issues and statuses for every row of every invoice-PO report |
| InvoiceReceipt.AnalyzeInvoiceReceipt | src/reconcile/analysis/invoice_receipt.py:20-99 | The nested loops of the invoice-receipt mode compute the specified report |
| InvoiceReceipt.SumReceipts | src/reconcile/analysis/invoice_receipt.py:28-35 | Totals and references hold exactly what the receipts say, after sorting them |
| Disputes.ReceiptRowsTold | src/reconcile/analysis/invoice_receipt.py:41-82 | For every row of every invoice-receipt report: the unsupported amount is round((quantity - supported) * price), or of the whole quantity on a duplicate row; MISSING_RECEIPT, RECEIPT_ITEM_MISMATCH and QUANTITY_EXCEEDS_RECEIPT by what the receipts name; MATCHED if and only if there is no issue |
| AcceptedInvoices.GroupsAreContiguous | src/reconcile/loaders.py:262-294 | On invoices the loader accepts, concatenating the groups gives the sorted rows |
| AcceptedInvoices.InconsistentDatesSplit | src/reconcile/invoice_helpers.py:54-73 | Three rows the loader would reject for which contiguity fails |
| AcceptedInvoices.GroupHasOneCurrency | src/reconcile/loaders.py:262-294 | On accepted invoices every row of a group has the currency the group is charged to |
| AcceptedInvoices.ThreeWayTotals | src/reconcile/reconciliation.py:76-84 | On accepted invoices each currency total is exactly the sum of per-group maxima, and a multi-row group contributes its largest rounded line amount once |
| AcceptedInvoices.InvoicePoTotals | src/reconcile/analysis/invoice_po.py:88-103 | The same for the invoice-PO mode |
| AcceptedInvoices.InvoiceReceiptTotals | src/reconcile/analysis/invoice_receipt.py:84-99 | The same for the invoice-receipt mode |
| AcceptedInvoices.ThreeWayBounded | src/reconcile/invoice_helpers.py:106-124 | A dispute lies between zero and the rounded line amount and equals it on duplicate rows |
| AcceptedInvoices.InvoicePoBounded | src/reconcile/analysis/invoice_po.py:66-71 | The same for the invoice-PO mode |
| AcceptedInvoices.InvoiceReceiptBounded | src/reconcile/analysis/invoice_receipt.py:54-80 | The same for the unsupported amount of the receipt mode |
| Loaders.ValidateIdentities | src/reconcile/loaders.py:237-259 | Exactly the rows with an earlier row of equal key are reported, once each, in row order, naming the first such row; none if and only if all keys are distinct; nothing at all where repeats are kept for review |
| Loaders.ValidateDocumentConsistency | src/reconcile/loaders.py:262-294 | Exactly the columns in which a row differs from the first row of its document are reported, in row and column order; none if and only if all rows of a document agree, although only first rows are compared |
| Loaders.AcceptanceMeaning | src/reconcile/loaders.py:237-294 | Acceptance is exactly what the engine relies on: unique PO and receipt keys, one date and currency per invoice document |
| PoReceipt.AnalyzePoReceipt | src/reconcile/analysis/po_receipt.py:18-112 | The receiving loops compute the specified report |
| PoReceipt.ReceiptsPartition | src/reconcile/analysis/po_receipt.py:28-91 | The total received is the quantity counted on PO lines plus the quantity of orphans |
| PoReceipt.CountedOnce | src/reconcile/analysis/po_receipt.py:30-54 | A receipt that fits a PO line is counted there and on no other line; an orphan on none |
| PoReceipt.OrphanMeans | src/reconcile/analysis/po_receipt.py:33-40 | A receipt is an orphan if and only if no PO line has its number, line and item |
| PoReceipt.FulfillmentMeaning | src/reconcile/analysis/po_receipt.py:58-70 | Received minus ordered is excess minus outstanding, at most one nonzero; the status says which; received is what three-way reconciliation aggregates |
| Disputes.FulfillmentValued | src/reconcile/analysis/po_receipt.py:60-71 | Outstanding and excess quantities are valued at the PO price, rounded |
| Disputes.ReceivingTotals | src/reconcile/analysis/po_receipt.py:72-105 | Each currency of the receiving summary is what the rows in that currency add up to, for outstanding and for excess values |
| Disputes.OrphanedExactly | src/reconcile/analysis/po_receipt.py:33-40 | An orphan is reported as UNKNOWN_PO, UNKNOWN_ITEM or RECEIPT_ITEM_MISMATCH if and only if no PO has its number, no line of it has its line number, or that line is for another item |
| Findings.ImportSources | src/reconcile/persistence/imports.py:95-189 | The index maps each PO target and receipt key to its last row and queues up the invoice rows of each key in file order; every line is stored under the header of its first row and, receipts and invoices, under the PO line they name; on accepted invoices headers carry the date and currency of every line |
| Findings.PersistInvoiceFindings | src/reconcile/persistence/findings.py:41-50 | The shared queues pair row by row; a pop fails if and only if some key occurs more often in the report than in the import. Every stored finding names an issue of a row, a stored invoice line equal to that row and used by no other, the stored PO line the engine resolved it to if and only if it did, and no receipt line; every issue of every row has its finding |
| Findings.PairingSound | src/reconcile/persistence/findings.py:47-50 | Every report row is paired with a stored line of equal key and no line serves two rows |
| Findings.PairingComplete | src/reconcile/persistence/findings.py:47-50 | When the report rearranges the import, every stored line is paired |
| Findings.FindingsTellReport | src/reconcile/persistence/findings.py:41-50 | The findings, field by field, tell the whole report and nothing else, on uniquely keyed PO lines |
| Findings.EvidenceAgreesWithEngine | src/reconcile/persistence/findings.py:41-50 | The index knows a PO line if and only if the engine resolved one, and it is the same line |
| Findings.FindingsMatchCounts | src/reconcile/persistence/findings.py:49-50 | The number of findings per code is the number of rows reporting it |
| Findings.ThreeWayIndexable | src/reconcile/persistence/findings.py:41-56 | For every three-way report on imported records: rows are a permutation of the import, so no pop fails, and findings per code equal the issue counts of the summary |
| Findings.InvoicePoIndexable | src/reconcile/persistence/findings.py:41-56 | The same for invoice-PO reports |
| Findings.InvoiceReceiptIndexable | src/reconcile/persistence/findings.py:41-56 | The same for invoice-receipt reports |
| Findings.PersistReceivingFindings | src/reconcile/persistence/findings.py:43-56 | Every over-received row has a finding that names its PO line only, every orphan one that names its receipt line only, and there are no others; it fails if and only if an orphan was not imported |
| Findings.ReceivingIndexable | src/reconcile/persistence/findings.py:51-56 | For every receiving report the orphan lookup succeeds and finds the very receipt line |
| Findings.ReceivingRowsAreLines | src/reconcile/analysis/po_receipt.py:58-70 | Every fulfillment row is about a line of the PO file |
| Findings.OrdersIndexed | src/reconcile/persistence/findings.py:41-45 | The index finds that very line, so the finding of an over-received row names it |
| Inventory.Service.CreateItem | src/reconcile/persistence/inventory.py:137-157 | Equals the atomic ledger step |
| Inventory.Service.UpdateItem | src/reconcile/persistence/inventory.py:159-192 | Equals the atomic step; the base unit is locked once the item has a movement |
| Inventory.Service.SetItemStatus | src/reconcile/persistence/inventory.py:194-215 | Equals the atomic step; archiving tests only the item total |
| Inventory.Service.CreateLocation | src/reconcile/persistence/inventory.py:250-269 | Equals the atomic ledger step |
| Inventory.Service.UpdateLocation | src/reconcile/persistence/inventory.py:271-290 | Equals the atomic ledger step |
| Inventory.Service.SetLocationStatus | src/reconcile/persistence/inventory.py:292-320 | Equals the atomic step; archiving tests only the location total |
| MasterRecords.ItemUpdateExactly | src/reconcile/persistence/inventory.py:159-192 | An item is changed if and only if the version is the expected one and the unit of a moved item is not changed; what is not named stays |
| MasterRecords.ItemStatusExactly | src/reconcile/persistence/inventory.py:194-215 | In a sound ledger an item is archived if and only if the version is the expected one and every position of it is zero |
| MasterRecords.LocationUpdateExactly | src/reconcile/persistence/inventory.py:271-290 | A location is renamed if and only if the version is the expected one |
| MasterRecords.LocationStatusExactly | src/reconcile/persistence/inventory.py:292-320 | In a sound ledger a location is archived if and only if the version is the expected one and every position at it is zero |
| MasterRecords.NoVersionSavedTwice | src/reconcile/persistence/inventory.py:843-846 | In every run, of two saved edits of one item or one location the later expected a higher version |
| Inventory.Service.Idempotency | src/reconcile/persistence/inventory.py:757-780 | A used key answers with its operation for the same actor and intent and a conflict otherwise |
| Inventory.Service.LockedLocations | src/reconcile/persistence/inventory.py:794-811 | Missing locations are reported before inactive ones |
| Inventory.Service.PostMovement | src/reconcile/persistence/inventory.py:462-506 | Equals the atomic posting |
| Inventory.Service.TransferStock | src/reconcile/persistence/inventory.py:508-547 | Equals the atomic posting of a transfer |
| Inventory.Service.PostStock | src/reconcile/persistence/inventory.py:650-754 | The order of refusals and the appended movements of receipts, issues, adjustments, openings and transfers |
| Inventory.Service.Reverse | src/reconcile/persistence/inventory.py:549-647 | Equals the atomic posting of a reversal |
| Postings.MovementMoves | src/reconcile/persistence/inventory.py:739-753 | In every ledger an accepted opening, receipt or upward adjustment of q raises the balance at its item and location by exactly q, an issue or downward adjustment lowers it by exactly q, and every other balance stays |
| Postings.TransferMoves | src/reconcile/persistence/inventory.py:732-753 | An accepted transfer of q lowers the balance at its source and raises the one at its destination by exactly q, and every other balance stays |
| Postings.BalanceIsAsked | src/reconcile/persistence/inventory.py:814-821 | In every reachable ledger every balance is the sum of what the posted intents asked for, a reversal taking back what its original asked for |
| Postings.AcceptedAppendsOne | src/reconcile/persistence/inventory.py:717-731 | An accepted posting appends one operation with its actor, key, intent, kind and times and changes nothing else; any other posting changes nothing |
| Postings.MovementAcceptedExactly | src/reconcile/persistence/inventory.py:650-716 | A single movement is accepted if and only if its key is fresh, its quantity positive, its item active with a unit, its location active, its time not in the future, an opening balance first at its position, and an outbound quantity covered |
| Postings.TransferAcceptedExactly | src/reconcile/persistence/inventory.py:508-547 | The same for transfers between two different active locations |
| Postings.ReversalAcceptedExactly | src/reconcile/persistence/inventory.py:571-647 | A reversal is accepted if and only if its key is fresh and its operation is an unreversed original whose item and locations are active and whose undoing leaves no position negative |
| LedgerInvariants.RunSound | src/reconcile/persistence/inventory.py:650-754 | In every reachable ledger no position is negative, archived items and locations are empty everywhere, an opening balance is first at its position, and reversals match their originals |
| LedgerInvariants.ZeroTotalMeansEmpty | src/reconcile/persistence/inventory.py:202-212 | With no negative position a zero total means every position is zero: testing the total suffices to archive |
| LedgerInvariants.AcceptedIsPostable | src/reconcile/persistence/inventory.py:678-730 | Whatever is posted passed every check, stated on the appended operation |
| Cancellation.ReversalsCancel | src/reconcile/persistence/inventory.py:571-647 | Any sum of movements equals the sum over operations that are neither reversals nor reversed |
| Cancellation.BalanceIsLive | src/reconcile/persistence/inventory.py:814-821 | The same for every balance of every reachable ledger; an operation is reversed at most once, a reversal never |
| Cancellation.TransferConserves | src/reconcile/persistence/inventory.py:732-753 | A transfer, and the reversal of one, leaves every item total unchanged |
| Cancellation.ReversalUndoes | src/reconcile/persistence/inventory.py:594-647 | A reversal restores every sum by exactly the net of its original |
| Cancellation.UnitStable | src/reconcile/persistence/inventory.py:159-192 | Once an item has a movement its unit is non-null and never changes |
| Idempotency.UsedKeyChangesNothing | src/reconcile/persistence/inventory.py:757-780 | A used key never changes the ledger again, and what each reuse is answered |
| Idempotency.RetryReturnsOriginal | src/reconcile/persistence/inventory.py:673-677 | After a posting succeeds and any requests in between, archiving included, the same intent under the key returns that operation |
| Idempotency.RetriesAreInvisible | src/reconcile/persistence/inventory.py:673-677 | Erasing every retry from a run leaves the final ledger identical and every other answer as it was |
| Idempotency.OneOperationPerKey | src/reconcile/persistence/inventory.py:757-780 | In every run a key belongs to at most one operation |
| Triggers.ValidateStockMovement | migrations/versions/0007_inventory_ledger.py:322-362 | The row trigger accepts exactly the allowed movements |
| Triggers.ValidateInventoryOperation | migrations/versions/0007_inventory_ledger.py:367-408 | The deferred trigger accepts exactly single movements, exact transfer pairs and exact inverses |
| Triggers.ProtectItem | migrations/versions/0007_inventory_ledger.py:275-298 | A changed code, a unit change after movements and archiving with stock are rejected, nothing else |
| Triggers.ProtectLocation | migrations/versions/0007_inventory_ledger.py:299-311 | A changed code and archiving with stock are rejected, nothing else |
| Triggers.PostingPassesTriggers | migrations/versions/0007_inventory_ledger.py:322-413 | Every operation the service builds, reversals included, passes the row trigger row by row, the deferred trigger and the table constraints |
| Triggers.MasterChangePassesTriggers | migrations/versions/0007_inventory_ledger.py:265-321 | Every saved item or location change passes the master trigger, and no request updates or deletes ledger rows |
| Triggers.SoundMeetsConstraints | migrations/versions/0007_inventory_ledger.py:121-222 | Sound ledgers meet the unique and check constraints |
| Locking.ProgramIsApply | src/reconcile/persistence/inventory.py:549-754 | Taking the locks, running the checks in order and committing is the atomic step |
| Interleaving.ProgramDisciplined | src/reconcile/persistence/inventory.py:783-811 | Every request takes its locks in ascending order and checks only what its locks guard |
| Linearizability.Linearizable | src/reconcile/persistence/inventory.py:650-754 | Every interleaving of lock, check, commit and abort steps is equivalent to serving the answered requests one at a time in answer order, same ledger and same answers |
| Linearizability.InterleavingsAreSound | src/reconcile/persistence/inventory.py:650-754 | At every moment of every interleaving no position is negative and everything archived is empty |
| Linearizability.PositionFrozen | src/reconcile/persistence/inventory.py:678-730 | In every interleaving: from the moment a posting has passed a check of a balance or a history until it commits, it holds the item lock and no balance and no history of that item changes |
| Linearizability.PassedChecksStand | src/reconcile/persistence/inventory.py:678-730 | At every moment every check a running transaction has passed would still pass |
| Linearizability.NoDeadlock | src/reconcile/persistence/inventory.py:794-811 | No reachable state has a group of transactions waiting for each other |
| Linearizability.SomeoneCanMove | src/reconcile/persistence/inventory.py:650-754 | As long as a transaction runs, some transaction can take its next step |
| AuditTimeline.BeforeCursorMeaning | src/reconcile/auth/governance.py:77-88 | The cursor clause keeps exactly the events strictly after the cursor in (time, rank, id) order |
| AuditTimeline.PageIsSlice | src/reconcile/auth/governance.py:574-658 | A page of the merged, separately truncated sources is the next slice of the whole timeline, with a cursor exactly when more remain |
| AuditTimeline.PagingVisitsEverything | src/reconcile/auth/governance.py:574-689 | Following the cursors terminates and yields every event of the three sources exactly once, strictly descending |
| AuditTimeline.PagingIgnoresArrivals | src/reconcile/auth/governance.py:574-689 | While newer events arrive between any requests, following the cursors still yields exactly the events there were at the first request, once each, strictly descending |
| Throttle.Limiter.Allow | src/reconcile/auth/throttle.py:25-44 | One attempt charges its own row: in a running window it is allowed if and only if the maximum is not reached and a refusal changes nothing; otherwise it opens a window |
| Throttle.Limiter.ClearLogin | src/reconcile/auth/throttle.py:46-53 | Only the count of the login row is reset |
| Throttle.FixedWindowBound | src/reconcile/auth/throttle.py:25-53 | In every run over all buckets and sign-ins, for every bucket, logins included: with non-decreasing clocks any half-open interval of one window length holds at most 2 * maximum - 1 allowed attempts, and maximum more for each clear that finds the row in a window overlapping the interval |
| Throttle.EveryBucketBounded | src/reconcile/auth/throttle.py:25-44 | A bucket that is never cleared in the run, logins included, stays within 2 * maximum - 1 |
| Throttle.BoundIsTight | src/reconcile/auth/throttle.py:36-53 | For every maximum, every window of at least two ticks and every number of clears of a login some run reaches the bound exactly |
| Throttle.ClearedLoginExceedsLimit | src/reconcile/auth/throttle.py:46-53 | For every positive maximum and window a run with a single clear allows more than 2 * maximum - 1 |
| Throttle.NoClearIsExact | src/reconcile/auth/throttle.py:25-53 | All runs with so many felt clears of a login stay within 2 * maximum - 1 if and only if that number, the maximum or the window is zero |
| ThrottleAnswers.AnsweredExactly | src/reconcile/auth/throttle.py:36-53 | In every run an attempt is allowed if and only if it is among the first `maximum` attempts, refused ones counted, since its window was opened or since a later clear |
| ThrottleAnswers.NextWindowAllows | src/reconcile/auth/throttle.py:39-44 | With a positive maximum, an attempt at least one window after the attempt that opened the last window is allowed, whatever was refused in between |
| ThrottleAnswers.RefusalHasCause | src/reconcile/auth/throttle.py:39-53 | With a clock that does not go back a refusal means that since its last clear, within the window length before, the bucket was allowed exactly `maximum` attempts |
| ThrottleAnswers.RefusalChangesNothing | src/reconcile/auth/throttle.py:41-42 | A refused attempt in a running window leaves every row as it was |
| Workflow.Service.Manage | src/reconcile/persistence/workflow.py:375-423 | Equals the step function: the order of refusals, only differing fields count, one version for the call and one event per changed field in name order |
| Workflow.Service.Transition | src/reconcile/persistence/workflow.py:440-502 | Equals the step function: who may transition, the transition table, the note rule, the resolution columns |
| Workflow.Service.Comment | src/reconcile/persistence/workflow.py:504-518 | Only appends an event |
| EventSourcing.LogTellsAll | src/reconcile/persistence/workflow.py:375-518 | After any accepted and rejected calls: replaying the log gives every stored finding, versions leave no gap, every event told the truth when written, and the resolution triple is present exactly on resolved findings |
| EventSourcing.EveryPastStateReplays | src/reconcile/persistence/workflow.py:425-438 | The log is append-only and its prefixes replay to every earlier state of every finding |
| EventSourcing.NoVersionSucceedsTwice | src/reconcile/persistence/workflow.py:203-208 | Of two successful edits of a finding the later expected a higher version |
| WorkflowRules.TransitionExactly | src/reconcile/persistence/workflow.py:440-470 | A transition is accepted if and only if a manager, an administrator or the assignee asks for it at the expected version along OPEN to IN_REVIEW or RESOLVED, IN_REVIEW to RESOLVED or RESOLVED to OPEN, with a note exactly when resolving |
| WorkflowRules.TransitionDoes | src/reconcile/persistence/workflow.py:471-502 | It changes that finding only, to the status asked for and by one version, stores the resolution exactly while resolved, and logs the move |
| WorkflowRules.ManageExactly | src/reconcile/persistence/workflow.py:375-396 | Managing is accepted if and only if a manager or administrator asks at the expected version, names an active member as assignee if any, and changes something |
| WorkflowRules.ManageDoes | src/reconcile/persistence/workflow.py:397-423 | Named fields take the values asked for; the other fields, the status and the resolution stay |
| WorkflowRules.CommentDoes | src/reconcile/persistence/workflow.py:504-518 | A comment leaves every finding as it is and logs its message |
| WorkflowRules.EventsAreEntitled | src/reconcile/persistence/workflow.py:375-502 | In every run each recorded status change followed an allowed move and was made by a manager, an administrator or the assignee of that moment, each field change by a manager or administrator |
| Governance.Service.UpdateMember | src/reconcile/auth/governance.py:244-336 | Equals the step function: role re-read under the lock, version, last-administrator test, events |
| Governance.Service.CreateInvitation | src/reconcile/auth/governance.py:367-436 | Equals the step function |
| Governance.Service.RevokeInvitation | src/reconcile/auth/governance.py:438-483 | Equals the step function |
| Governance.Service.AcceptInvitation | src/reconcile/auth/governance.py:494-531 | Equals the step function |
| Governance.Service.RegisterInvited | src/reconcile/auth/governance.py:533-572 | Equals the step function |
| Governance.Service.Accept | src/reconcile/auth/governance.py:745-767 | A membership in the invited role and a used-up invitation |
| GovernanceAuthority.OnlyAdministratorsAct | src/reconcile/auth/governance.py:153-158 | Whoever changes anything by updating a member, inviting or revoking, or gets it accepted, was an active administrator of the active organization just before |
| GovernanceAuthority.EventsAreByAdministrators | src/reconcile/auth/governance.py:91-116 | In every run each invitation created or revoked and each membership change was logged for a user who was an active administrator when it was written |
| GovernanceAuthority.OthersOnlyJoin | src/reconcile/auth/governance.py:153-158 | A run without an administrator behind its administrative calls changes no existing membership and issues and revokes no invitation; pending ones can only be accepted |
| GovernanceAuthority.UpdateMemberExactly | src/reconcile/auth/governance.py:244-291 | When a membership may be changed, and the cause of each refusal in the order tested |
| GovernanceAuthority.UpdateMemberDoes | src/reconcile/auth/governance.py:292-336 | It takes the role and status asked for, keeps what is not named, every other membership stays, and the changes are logged, nothing else |
| GovernanceAuthority.CreateInvitationExactly | src/reconcile/auth/governance.py:367-436 | An invitation is issued if and only if an administrator asks for an address without membership and without pending invitation; it carries the address, role and expiry asked for |
| GovernanceAuthority.RevokeInvitationExactly | src/reconcile/auth/governance.py:438-483 | An invitation is revoked if and only if an administrator asks, it is pending and has the expected version; no other changes |
| GovernanceAuthority.RedemptionExactly | src/reconcile/auth/governance.py:494-572 | An invitation is redeemed if and only if it is pending, not expired and its address holder, or a new account, redeems it; the membership and the logged acceptance carry its role, and nothing else changes |
| GovernanceSafety.AlwaysGoverned | src/reconcile/auth/governance.py:244-572 | In every run: an active administrator always remains; an address has at most one pending invitation and none while it holds a membership; accepted invitations and later memberships correspond one to one |
| GovernanceSafety.FoundedIsGoverned | src/reconcile/auth/accounts.py:53-74 | A newly registered organization starts that way |
| GovernanceSafety.SettledStays | src/reconcile/auth/governance.py:713-767 | Accepted and revoked invitations never change again |
| GovernanceSafety.RedeemedOnce | src/reconcile/auth/governance.py:713-743 | After a token was redeemed every later use of it is refused |
| GovernanceSafety.AvailableIsRedeemable | src/reconcile/auth/governance.py:494-572 | An available invitation is redeemable by exactly one route: its address holder accepts, or registers if there is no account; the membership test of acceptance never fires |
| GovernanceSafety.LogTellsMemberships | src/reconcile/auth/governance.py:91-116 | Replaying the governance log over the founding memberships gives every present role and status |
| GovernanceSafety.AcceptedOnceInLog | src/reconcile/auth/governance.py:745-767 | The log records each accepted invitation exactly once and no other |

## Left out

- HTTP routes, cookies, CSRF, mail, the frontend, the command line and file writing: input and output.
- Password hashing, HMAC, SHA-256 and token generation: a throttle bucket is its action and identifier, a request fingerprint is the intent itself, with the spelling of its quantity and time, an invitation token is the number of the invitation. Collisions are not modelled, nor are collisions of 64-bit advisory lock keys.
- Sessions and authentication: a call names its actor. The permission test at the start of a transaction is left out; the role re-read after locking is modelled where the service does it (members, invitations, findings). The inventory service trusts the principal, so its methods have no permission test.
- CSV parsing, header checks, scalar parsing and JSON, CSV and terminal rendering: of the loaders only the identity and document-consistency passes are modelled, as row-number issues without their text.
- `Decimal` exponents, trailing zeros and the 28-digit context: quantities and prices are exact reals, money a whole number of quanta. Order independence is numeric equality. Only non-negative amounts are rounded, as in the engine.
- Text, dates, times, currencies and UUIDs: integers, since only equality and order matter. Time-zone awareness and finiteness checks on quantities and times are left out, except that a posting needs a positive quantity.
- Stable sorting of rows with equal keys beyond what the order-independence results state: rows of equal invoice keys are equal; receipt keys are unique after loading.
- Result rows: the fields a row copies from its invoice, PO or receipt line are one embedded record.
- `defaultdict` reads that insert zero entries: absent keys read as zero.
- Movement rows are part of their operation and operations are numbered in commit order; the separate identifiers, request ids and `updated_at` columns are left out. Item and location codes are the row identifiers.
- Locks: the key lock, item locks and location locks are exclusive. Foreign-key row locks and the lock the movement trigger takes are left out, and locking a missing row is modelled as locking its identifier.
- Lists, pages of items, locations, members, invitations and findings, dashboards, member labels, run metadata, archiving of runs and renaming the organization: they would only add easy members.
- `finding_state`, `event_payload` and cursor encoding: projections without further rules. Writes to findings by their constraints on text length are left out.
- The administration of several organizations: governance models one organization, with accounts opened elsewhere as an environment step (its answer does not reveal whether the address was taken).
- The status column of user accounts.
- AuditTimeline.PageIsSlice: with a limit of zero a page is empty and has no cursor; `AuditTimeline.PagingVisitsEverything` therefore asks for a positive limit, which the routes enforce.
- Throttle.FixedWindowBound: stated for a clock that does not go back; two servers with clocks apart are not modelled.
- Findings.ImportSources: the supplier and item masters a line may be resolved to, source file records and generated identifiers are not modelled.
