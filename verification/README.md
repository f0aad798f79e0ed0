# Cedulon: a verified model

This Dafny project models the parts of Cedulon that carry its guarantees and proves what those
guarantees amount to. Cedulon issues signed receipts for agent spending, publishes checkpoints
over them, and audits receipts against the settlement rows of a rail. The model follows the code:
same branches, same constants, same refusals.

Check everything with `dafny verify dfyconfig.toml`.

## What is here

| files | what they model |
|---|---|
| `Bags`, `Octets`, `Records` | bags gathered from sequences, octet strings and sorting, receipts, rows and the amount grammar |
| `Reconcile`, `Classify` | the class of every receipt and row of one window, stated on bags, and the walk that computes it |
| `Audit` | the slice of one audit around it: rail pin, attested receipts, scope sieve, neighbour extracts, clashes, guarantee |
| `Windows`, `Edges`, `Conservation`, `Straddle` | a run of consecutive windows, what "ok, unconditional" means for all of it, and a clean run with a payment across an inner edge |
| `Statements`, `Verdicts`, `RunVerdicts` | what a window, an audit and a run say, finding by finding, of the documents themselves: a reference without classes and bags, which the audit meets exactly |
| `Chain`, `Checkpoint`, `Agreement` | rebuilding the issuer's order, checkpoint totals and coverage, and what their silence says of the receipts one by one |
| `Journal`, `Session`, `SessionSteps`, `SessionSafety`, `SessionObject` | the session: journal, memory image, one step per operation, what every step keeps, and the class with its fields changed in place |
| `RailCalls` | when the rail is called, what its answer, a verified extract and a restart decide |
| `SharedState`, `SessionPolicy`, `Asked` | several sessions on one state file over whole runs; the policy counters they hold over crashes and recoveries; and that every receipt was asked for and permitted |
| `Published`, `SelfAudit`, `Failing` | what a session publishes, as octets; the report of a session on itself and what decides it; two runs that end in a state no report passes |
| `Policy`, `Permits` | the policy engine with its window counters, and exactly what it lets through |
| `Utf8`, `Cbor`, `CborDecoder`, `CborReader`, `CborForm`, `Claims`, `ClaimLabels`, `Sealing`, `Signing` | text as octets, the deterministic CBOR codec, the cursor decoder, claim sets and COSE_Sign1 framing, how many octets claims take, signing and verifying; and all of it against the numbers, labels and words of the formats |
| `Merkle` | the Merkle tree of the transparency log and the append-only log |
| `Json`, `Canonical`, `CanonicalForm` | the duplicate-member scanner over UTF-16 units, and canonical JSON |

A method and the function it is proved against are two forms of one operation: the function says
what is computed, the method is the loop or the field updates of the program, and the lemmas say
what follows.

## How to read the main claims

- **Bags.** A bijection between receipts and rows that preserves ref, amount and currency is stated
  as equality of two bags of (ref, amount, currency). `SettledLine` and `RowLine` hold one bag per
  window; `SumBags` adds them up.
- **Findings.** Everything an audit says is one bag; a report splits it by severity. Checks outside
  the model enter as `others`, so a claim that starts from "ok" holds whatever they say.
- **References.** `AuditSays`, `Says` and `RunSays` state each finding on receipts, rows and extracts by
  quantifiers, with positions in place of counts; `ReportExactly`, `WindowSaysExactly` and
  `RunSaysExactly` prove that nothing else is said and nothing of it is left out.
- **Live nonces.** `OpenCalls` reads off a log of events when the rail was called for a nonce since
  its latest reserve, while neither a failed answer nor proven absence has closed the question. The
  program keeps no such log; it exists to state the claim.
- **Whole and sound.** `Sound` is what every operation keeps whatever the clocks read. `Whole` is
  what they keep besides while no payment is left half recorded. The claims about burned nonces and
  about the file growing need no more than the first; the claims about reports need both.
- **When a payment was made.** `PaidAt` dates the payment of a receipt by its reservation: the latest
  prepared row of its nonce if the journal holds the nonce, and else, of a payment made in process, the
  time on the receipt. The limits on receipts are stated on these times and on nothing hidden.
- **Crashes.** A crash removes a session and its memory at any point. An operation may also stop
  after the prepared or the submitted row, or inside the rail call, with its memory left as it was.
  Dying between the rail's answer and the next write leaves the same file as that write failing.
- **Recording.** Signing a receipt may be refused before anything changes, and cutting the checkpoint
  may fail after receipt and row are in (`HowRecorded`). An in-process spend undoes either; what
  records an external payment undoes neither.

## What is assumed

- SHA-256 is a function passed in; no property of it is used except where a lemma asks that certain
  receipts have different hashes (`HashesDiffer`), or exhibits the colliding pairs. A receipt the
  program refuses to sign has no hash; which those are is left open, and `SignedIsSignable` gives the
  answer for the program's own hash.
- Text is well-formed Unicode, as a Dafny string is; the JSON side works on code units instead.
- A signature is the fact of which key verifies it; an Ed25519 signature over given octets is always
  the same 64 octets (`Signer`). The carried key of an extract and the key its signature verifies
  under are one, as `verifyRailExtract` demands; `isSealed` covers the shape that it checks before.
- Keys joined with NUL characters in the program are pairs or records here.
- The policy clock is positive, because `windowStartMs === 0` is a sentinel for "no window yet"
  (packages/core/src/policy.ts:189), and a window lasts at least one millisecond.
- Opening and reloading a session read the file and its fingerprint outside the lock
  (packages/mcp-server/src/session.ts:295). The model takes each as a single step, and takes the
  fingerprint to be the content.
- Where a JavaScript `Map` keyed by ref is walked, the model walks the rows or receipts whose ref is
  in it: refs that repeat were put aside before, so each occurs once and in the same order.

## Where code and documentation part

- The log is called "RFC 6962-style", but odd levels pair their last node with itself and nodes
  carry no leaf or interior tag, so it is not the tree of section 2.1 of RFC 6962. The model follows
  the code; `OddLogSharesItsHead`, `ShortPathStartsInside` and `LongPathStartsBelow` show what that
  costs, and soundness is stated for paths of full height and logs of equal size.
- "A zero allowance defers nothing" holds of receipts and of rows inside the declared window. A row
  outside it is still deferred when unpaired; `ZeroAllowance` gives the exact condition, and such a
  row is always a scope finding of its own (`OutsideFindings`).
- The counters bound the payments of a counter window, not of every span as long: `SpanIsAtMostTwice`
  gives the bound that holds and `TwiceIsReached` shows it is tight; `ReceiptsKeepWithinLimits` and
  `ReceiptsOfAnySpan` say the same of the receipts themselves, over whole runs of the sessions.
- A refused spend may still roll the counter window: the counters change, nothing else does.
- A signed receipt is read back before it is handed out, a checkpoint is not. A checkpoint whose claims
  take more than 16384 octets is signed, saved and never verifies: `GoodAuditsCleanExactly` gives the
  exact condition, `TwoLongCurrenciesFail` a run that ends there.
- Recording an external payment is not undone when the checkpoint cannot be cut, which happens exactly
  when the receipt's time or the clock is the last safe integer (`RecordingIsWholeExactly`,
  `ResolveIsWholeExactly`). `LateEvidenceFails` is a run in which verified evidence does it, and a
  second receipt for one nonce reaches the file.
- A producer must refuse text with a lone surrogate (spec/draft-dogru-cedulon-core-05.md:814-817). The
  check finds every one but a high surrogate at the very end of a text: `LoneFoundExactly`,
  `TrailingHighIsWritten`.

## Model

| member | source | states |
|---|---|---|
| `RunConservation.CleanRunConserves` | packages/audit/src/windows.ts:113-227 | whenever a run of windows reports ok and unconditional, the settled receipts in scope of all its windows and the rows of all its windows are one and the same bag of (ref, amount, currency), and `resolved` is the number of receipts carried |
| `RunConservation.CurrencyTotalsAgree` | packages/audit/src/windows.ts:113-227 | in such a run the money receipted and the money settled agree, currency by currency |
| `StraddlingPayment.TheRunIsClean` | packages/audit/src/windows.ts:113-227 | two windows, one payment receipted 5 ms before the inner edge and settled 2 ms after it, allowance 10 ms: the run reports ok and unconditional and one deferral resolved, so the two claims above are not empty |
| `StraddlingPayment.FirstAudited` | packages/audit/src/index.ts:885-990 | the window that holds the receipt says nothing and carries it at its closing edge, naming the row next door |
| `StraddlingPayment.SecondAudited` | packages/audit/src/index.ts:885-990 | the window that holds the row warns of one opening-edge deferral, the only thing it says, and is conditional on its own |
| `RunConservation.CleanIsJoined` | packages/audit/src/windows.ts:169-218 | what ok and unconditional give of every window at once: classes, edges, single use of every row |
| `RunConservation.CleanRunIsQuiet` | packages/audit/src/index.ts:2503-2551 | everything one window of such a run said is a scope-only warning or a row deferral that an inner edge settled |
| `RunConservation.QuietIsTidy` | packages/audit/src/index.ts:2095-2306 | a window so silent was compared, repeats no ref, leaves no receipt or row unmatched inside, and every pair agrees on its terms |
| `RunConservation.RepeatedReceiptIsSaid` | packages/audit/src/index.ts:2126-2146 | two receipts in scope on one ref are always said, whatever pin and sieve took away |
| `RunConservation.CarriedNamesRow` | packages/audit/src/index.ts:778-793 | a carried receipt names a row of the very extract beside it, with its ref, amount and currency |
| `RunConservation.DeferralIsResolved` | packages/audit/src/windows.ts:180-206 | in such a run no row deferral is left standing or hardened: every one was carried from the window beside it |
| `RunConservation.CleanUsesOnce` | packages/audit/src/windows.ts:169-187 | and no row of any window is counted for two receipts |
| `EdgeAccounting.DeferredEqualsGiven` | packages/audit/src/windows.ts:178-206 | the rows that wait at a window's edges are exactly, as a bag, what the two windows beside it carry |
| `EdgeAccounting.MatchedPaidAgree` | packages/audit/src/index.ts:897-942 | the matched receipts of a window and its matched rows are one bag of (ref, amount, currency) |
| `EdgeAccounting.UsesCount` | packages/audit/src/windows.ts:158-187 | the run's use count of a row is at least its match here plus its carries from either side |
| `EdgeAccounting.JoinedBalances` | packages/audit/src/windows.ts:178-206 | along the whole run what is carried out of each window and into its neighbours cancels out |
| `EdgeAccounting.ResolvedEqualsCarried` | packages/audit/src/windows.ts:178-206 | as many deferrals are resolved as receipts were carried |
| `EdgeAccounting.JoinedTotals` | packages/audit/src/windows.ts:178-206 | equal bags give equal per-currency totals |
| `Windows.RunWindows` | packages/audit/src/windows.ts:113-227 | the run as executed reports exactly the tile, reuse and hardening findings, the resolved count, ok and the guarantee |
| `Windows.TilingHolds` | packages/audit/src/windows.ts:64-88 | the loop answers whether the windows tile and cover the stated period exactly |
| `Windows.AuditWindows` | packages/audit/src/windows.ts:124-156 | every window is audited once, with its neighbours' extracts and the trust the tiling allows |
| `Windows.CountUses` | packages/audit/src/windows.ts:158-176 | the use map counts every match and every carried entry under the window and ref it names |
| `Windows.FindReuse` | packages/audit/src/windows.ts:169-187 | one duplicate-ref finding for every row used twice or more, and no other |
| `Windows.SettleWindow` | packages/audit/src/windows.ts:189-211 | a deferred row of a window is resolved when the window beside it carried it, hardens when every band it sits in is inner and nobody did, else stays |
| `Windows.SettleEdges` | packages/audit/src/windows.ts:189-211 | all hardened rows of the run, and the number resolved |
| `Windows.GuaranteeHolds` | packages/audit/src/windows.ts:213-224 | the run is unconditional exactly when no doubting finding and no warning but scope-only and settled row deferrals remain |
| `RunVerdicts.RunSaysExactly` | packages/audit/src/windows.ts:113-227 | a run says exactly that its tiling is broken, which rows answered for two receipts or more, counted in their window and from either side, and which rows waited at inner edges where nobody came; it is ok exactly when it says nothing and every window is ok, and resolved is the number of waiting rows a neighbour carried a receipt to |
| `RunVerdicts.GuaranteeExactly` | packages/audit/src/windows.ts:213-224 | unconditional exactly when no finding has a code that leaves a doubt and every warning is an unbound payee or a row deferral that an inner edge settled |
| `RunVerdicts.TiledOnce` | packages/audit/src/windows.ts:64-88 | when the tiling holds and a period is stated, every time of it lies in one window and in no other |
| `RunVerdicts.UsesExactly` | packages/audit/src/windows.ts:158-176 | a row is used as often as it is matched in its window and carried from either side |
| `RunVerdicts.WindowPinned` | packages/audit/src/windows.ts:89-156 | each window is audited on its own records, between its neighbours' extracts, under the keys, account and rail of the run and the period the tiling allows |
| `RunVerdicts.CleanRunIsTheirs` | packages/audit/src/windows.ts:113-156 | under a stated pin a run is ok only when every extract is sealed under a pinned key, of the stated account and rail, and without a row outside its window |
| `RunVerdicts.StrangerInRun` | packages/audit/src/index.ts:1673-1692 | an extract sealed under no pinned key is named in its window, which hands nothing on, and the run is not ok |
| `Audit.AuditDetailed` | packages/audit/src/index.ts:1588-2532 | the report of the modelled slice: exactly what is said, split by severity, ok, guarantee, and the carried, deferred and matched lists; `Verdicts.ReportExactly` and `HandedOnExactly` say what that is of the documents |
| `Verdicts.ReportExactly` | packages/audit/src/index.ts:1588-2532 | a report has exactly the hard findings and the warnings that the reference names from the documents and records, and is ok exactly when it names none of the first |
| `Verdicts.AuditSaysExactly` | packages/audit/src/index.ts:1588-2532 | code by code: whatever an audit says is what the reference says, and the other way round |
| `Verdicts.UnconditionalExactly` | packages/audit/src/index.ts:2537-2551 | unconditional exactly when every warning is an unbound payee and no hard finding leaves a doubt |
| `Verdicts.HandedOnExactly` | packages/audit/src/index.ts:795-1029 | the carried, deferred and matched lists are what the reference hands on |
| `Verdicts.StrangerIsRefused` | packages/audit/src/index.ts:1673-1692 | an extract sealed under none of the pinned keys: said as extract-key-mismatch, comparison skipped, not ok, and nothing matched, carried or deferred |
| `Verdicts.CountedExactly` | packages/audit/src/index.ts:2107-2146 | a receipt is compared exactly when it is in the profile, under a pinned issuer key if keys are pinned, and named by the extract or dated inside its window |
| `Verdicts.NeighbourExactly` | packages/audit/src/index.ts:2147-2260 | an edge is closed exactly by an extract that verifies under the pin, is of the same account and rail, adjoins, and is empty or has a row inside its window; only such rows count |
| `Verdicts.BoundaryExactly` | packages/audit/src/index.ts:2147-2285 | the edges and the allowance of a window: those of its extract, five minutes when it states none |
| `Verdicts.UnansweredIsCharged` | packages/audit/src/index.ts:956-1000 | a settled receipt alone on its ref, unnamed in the window and next door, is receipt-without-settlement and the report not ok, even near an edge, when an edge it is near is closed |
| `Verdicts.WaitingIsDeferred` | packages/audit/src/index.ts:990-1010 | near edges that nothing closes it is deferred instead, and asks for the next extract if it is near the end, else for the previous one |
| `Verdicts.DeferredMayWait` | packages/audit/src/index.ts:990-1010 | and no other receipt is deferred |
| `Audit.ReconcileWindow` | packages/audit/src/index.ts:2107-2285 | attested receipts sieved by ref or window and reconciled, or the comparison skipped for a refused extract; the chain order they arrive in does not matter |
| `Audit.FindClashes` | packages/audit/src/index.ts:2138-2146 | receipts that share a ref: findings under a usable issuer pin, warnings without one |
| `Audit.LoweredDuplicates` | packages/audit/src/index.ts:2138-2146 | the warnings are the findings with their severity lowered, each ref once |
| `Audit.FindReceiptDefects` | packages/audit/src/index.ts:637-649 | one finding for every settled receipt without a ref |
| `Audit.NextDoor` | packages/audit/src/index.ts:2147-2260 | an adjacent extract: scope gaps of account, rail and shared edge, then every row outside its own window |
| `Audit.OutsideFindings` | packages/audit/src/index.ts:1618-1632 | one scope finding for every row outside the declared window |
| `Audit.ZeroAllowanceCarriesNothing` | packages/audit/src/index.ts:890-895 | with a stated clock allowance of zero no receipt in scope is carried or deferred |
| `Reconcile.ReceiptClassesAddUp` | packages/audit/src/index.ts:832-857 | every receipt is in exactly one class: the class counts add up to the receipts |
| `Reconcile.RowClassesAddUp` | packages/audit/src/index.ts:832-857 | every row is in exactly one class |
| `Reconcile.MatchedSidesAgree` | packages/audit/src/index.ts:897-933 | the refs matched among the receipts are the refs matched among the rows, each once |
| `Reconcile.MatchCountsAgree` | packages/audit/src/index.ts:931-933 | equally many receipts and rows are matched |
| `Reconcile.OrderIsIdle` | packages/audit/src/index.ts:795-1029 | shuffling receipts and rows changes no class count, no finding, no carried or deferred entry and no match |
| `Reconcile.AggregatePermuted` | packages/audit/src/profile.ts:91-146 | the comparison under a repeated ref does not depend on order |
| `Reconcile.CarriedIsSeenNextDoor` | packages/audit/src/index.ts:765-793 | with a shared edge and a common allowance the neighbour matches, aggregates or defers at the facing edge the row a carried receipt names; it never reports it as uncovered |
| `Reconcile.ZeroAllowanceStillDefers` | packages/audit/src/index.ts:885-903 | such a row: dated at the end of a window with no allowance and without a receipt, it waits at the closing edge |
| `Reconcile.ZeroAllowance` | packages/audit/src/index.ts:890-895 | with no allowance a receipt inside the window is neither carried nor deferred, and a row is deferred exactly when it is unpaired and outside its declared window |
| `Classify.ClassifySettlementMatches` | packages/audit/src/index.ts:795-1029 | the walk gives exactly the stated findings, counts, carried, deferred and matched lists; `Statements.WindowSaysExactly` says what they are of receipts and rows |
| `Statements.WindowSaysExactly` | packages/audit/src/index.ts:795-1029 | what the reconciliation of a window says is, finding by finding, what the reference says of receipts, rows and the extracts next door: pairs, payees, lone receipts and rows, repeated refs and their sums |
| `Statements.LoneReceiptExactly` | packages/audit/src/index.ts:956-1025 | a receipt without a row: carried where it is named, waiting exactly where nothing stands at any edge it is near, charged otherwise |
| `Statements.ReceiptClassExactly` | packages/audit/src/index.ts:956-1026 | the class of a receipt, read off who shares its ref, whether a row names it and what stands next door |
| `Statements.RowClassExactly` | packages/audit/src/index.ts:897-954 | the class of a row |
| `Statements.CarriedExactly` | packages/audit/src/index.ts:975-980 | the carried list holds exactly the lone receipts an adjacent extract names, at the opening edge first |
| `Statements.DeferredExactly` | packages/audit/src/index.ts:934-954 | the deferred list holds exactly the lone rows near an edge, with the edges they are near |
| `Statements.MatchedExactly` | packages/audit/src/index.ts:897-933 | the matched list holds exactly the refs of one receipt and one row |
| `Statements.ReceiptCountsExactly` | packages/audit/src/index.ts:832-857 | each receipt count is the number of receipts that stand so |
| `Statements.RowCountsExactly` | packages/audit/src/index.ts:832-857 | each row count is the number of rows that stand so |
| `Classify.CountsBalance` | packages/audit/src/index.ts:832-857 | its counts balance: settled is matched, deferred, carried, unmatched and repeated together, likewise the rows, with equal matches on both sides |
| `Classify.WalkRows` | packages/audit/src/index.ts:897-954 | one pass over the rows by class |
| `Classify.WalkReceipts` | packages/audit/src/index.ts:956-1026 | one pass over the settled receipts by class |
| `Classify.AtEdge` | packages/audit/src/index.ts:956-1025 | the edge class of a receipt without a row: carried, hard, or deferred, with the code's precedence; `Statements.LoneReceiptExactly` says on which bands, rows and neighbours each falls |
| `Classify.Search` | packages/audit/src/index.ts:778-793 | whether an adjacent row names the receipt in the facing band on its own terms |
| `Classify.DuplicateRefs` | packages/audit/src/index.ts:600-620 | the repeated refs, one finding each |
| `Classify.SpendAggregate` | packages/audit/src/profile.ts:91-146 | under a repeated ref: every unreadable amount, and every currency whose readable sums differ, in the right direction |
| `Classify.AddUp` | packages/audit/src/profile.ts:94-116 | sums by currency, the currencies with an unreadable amount, and one finding per such amount |
| `IssuerChain.OrderByIssuerChain` | packages/audit/src/index.ts:482-518 | the ordered part is the walk of the bag, whatever the order presented, and with the leftover it is exactly the bag |
| `IssuerChain.WalkIsChain` | packages/audit/src/index.ts:482-518 | what is ordered is a chain from the root |
| `IssuerChain.ChainIsRecovered` | packages/audit/src/index.ts:482-518 | a chain whose links all differ is recovered from end to end |
| `IssuerChain.FullyRecoveredExactlyWhenChain` | packages/audit/src/index.ts:482-518 | a bag is fully recovered if and only if it is such a chain in some order |
| `IssuerChain.DistinctHashesRecover` | packages/audit/src/index.ts:482-518 | distinct hashes, none of them the root, are enough |
| `IssuerChain.CheckOrdered` | packages/audit/src/index.ts:540-588 | over ordered receipts the link re-check never fires |
| `IssuerChain.FindReceiptChainBreak` | packages/audit/src/index.ts:527-589 | silent exactly when every receipt is placed, in profile and verifies; never a link mismatch |
| `Checkpoints.TotalsFromReceipts` | packages/checkpoint/src/checkpoint.ts:70-96 | refuses exactly the unreadable settled amounts, else sums by currency |
| `Checkpoints.FindWindowCoverage` | packages/audit/src/index.ts:1047-1096 | silent exactly when the windows are adjacent by epoch and every receipt lies in one of them |
| `Checkpoints.FindCheckpointChainBreak` | packages/checkpoint/src/checkpoint.ts:257-281 | the first checkpoint that does not verify or link |
| `Checkpoints.CheckOne` | packages/audit/src/index.ts:1122-1186 | one checkpoint is silent exactly when signature, totals, count and chain head agree with its window |
| `Agreement.AgreesExactly` | packages/audit/src/index.ts:1122-1186 | silent exactly when the checkpoint verifies, every amount of its window reads, its totals are the sums of every currency that moved or withheld, it counts the receipts of the window and names the last on the chain there |
| `Agreement.HitsMean` | packages/audit/src/index.ts:1070-1096 | a receipt hits one window exactly when it lies in some and not in two |
| `Checkpoints.FindCheckpointTotalMismatches` | packages/audit/src/index.ts:1109-1200 | silent exactly when every checkpoint agrees and the checkpoints link |
| `Checkpoints.SilenceConserves` | packages/audit/src/index.ts:1047-1200 | when both checks are silent and nothing is redacted, published counts sum to the receipts and published totals to the receipted money, per currency |
| `Records.PrintParses` | packages/core/src/types.ts:50-66 | the printed amount is in the grammar and reads back |
| `Records.ParsePrints` | packages/core/src/types.ts:50-66 | an amount in the grammar is the only spelling of its number |
| `SharedState.LiveNonceStaysBurned` | packages/mcp-server/src/session.ts:955-1290 | over every run of sessions, crashes, failed writes, retries and recoveries: a nonce the rail was called for since its latest reserve is burned and held as out on disk, and in every session in step with it, until the rail says failed or a verified extract proves it absent |
| `SharedState.EveryReleaseHasItsReason` | packages/mcp-server/src/session.ts:1093-1149 | such a nonce is never reserved again, and absence is accepted only from a verified extract without its row whose window covers every call since the reserve |
| `AskedFor.EveryReceiptWasAskedFor` | packages/mcp-server/src/session.ts:302-1055 | whatever receipt a session or the file holds, after whatever crashes and recoveries, some request of the run asked for that nonce, payee, amount and currency and its policy permitted it |
| `AskedFor.EveryReceiptIsPermitted` | packages/core/src/policy.ts:59-86 | so under one policy every receipt is for a readable amount of at most `maxAmount`, in a listed currency and to a listed payee |
| `SharedState.SavedStaysSaved` | packages/mcp-server/src/session.ts:486-545 | receipts and journal on disk only grow by appending: nothing saved is ever lost |
| `SharedState.WritesBuildOnTheFile` | packages/mcp-server/src/session.ts:1437-1467 | every successful write is made by a session that last saw the very file it replaces, or loaded it in the same step, and appends to it |
| `SharedState.RunKeeps` | packages/mcp-server/src/session.ts:302-545 | the invariant of file, memories and log over every run, with every memory and the file whole while no clock and no evidence stands at the last safe integer |
| `SharedState.OutOfStepIsRefused` | packages/mcp-server/src/session.ts:319-331 | a session whose file changed under it does nothing at all |
| `SharedState.BystanderOk` | packages/mcp-server/src/session.ts:1437-1452 | a session that did not act is out of step once the file has grown, and otherwise still holds every live nonce |
| `SelfAudit.EveryReachableStateAuditsClean` | packages/mcp-server/src/session.ts:577-597 | while no clock and no evidence stands at the last safe integer: every memory and every file a run can reach, of at most 4096 receipts no two of which share a hash, gets an ok report of itself exactly when the claims of its checkpoint fit into 16384 octets |
| `SelfAudit.GoodAuditsCleanExactly` | packages/audit/src/index.ts:1588-2532 | any whole state within that bound: its one report, chain, totals, coverage and reconciliation together, is ok if and only if the claims of its checkpoint fit |
| `SelfAudit.AuditItself` | packages/mcp-server/src/session.ts:577-597 | refused beyond 4096 receipts or rows, else a report made of every check, each run |
| `SelfAudit.FindOthers` | packages/audit/src/index.ts:2344-2390 | key, chain, totals and coverage checks gathered: nothing found exactly when all of them pass, and nothing but hard findings |
| `SelfAudit.UnverifiedFails` | packages/audit/src/index.ts:1122-1133 | a checkpoint that does not verify never passes, with or without the issuer key stated |
| `SelfAudit.StrandedIsNotClean` | packages/audit/src/index.ts:1047-1190 | no report of a state with a receipt pushed behind its checkpoint is ok |
| `Published.CutVerifiesExactly` | packages/checkpoint/src/checkpoint.ts:187-234 | the published checkpoint verifies if and only if its claims encode to at most 16384 octets |
| `Published.CutSizeOfAnyListing` | packages/checkpoint/src/checkpoint.ts:118-120 | that size can be computed from currencies, totals and numbers, listed in any order |
| `Published.LongCurrenciesOutgrow` | packages/checkpoint/src/checkpoint.ts:118-120 | the claims take more octets than any two of their currencies together |
| `Published.SignedIsSignable` | packages/receipts/src/index.ts:236-259 | a receipt can be signed exactly when its time is safe and its claims fit into one byte string, and then it verifies |
| `Signing.SignedVerifiesExactly` | packages/cose/src/cose.ts:113-203 | any payload is signed; the message decodes, and verifies, if and only if the payload is at most 16384 octets |
| `Signing.SignedCheckpointVerifiesExactly` | packages/checkpoint/src/checkpoint.ts:187-234 | every checkpoint is signed; it verifies if and only if its claims fit into one byte string and its totals into one map |
| `Signing.SignedReceiptVerifies` | packages/receipts/src/index.ts:236-286 | a receipt is signed if and only if its claims fit, and whatever is signed verifies |
| `Signing.HeaderRoundTrip` | packages/cose/src/cose.ts:82-107 | a protected header survives the codec and is short |
| `Sealing.CheckpointEncodes` | packages/checkpoint/src/checkpoint.ts:141-153 | checkpoint claims always encode, to exactly as many octets as their labels, numbers, texts and totals add up to |
| `Sealing.ReceiptEncodes` | packages/receipts/src/index.ts:100-117 | so do receipt claims |
| `Sealing.ListingIsIdle` | packages/checkpoint/src/checkpoint.ts:118-120 | the octets of the totals do not depend on the order the currencies are listed in |
| `Utf8.TextIsWellFormed` | packages/cose/src/cbor.ts:53-62 | every text has well-formed octets |
| `Utf8.WellFormedExactly` | packages/cose/src/cbor.ts:29-33 | the octets of texts are exactly the well-formed ones, so what the decoder takes for text is the octets of some text |
| `Utf8.TextIsInjective` | packages/cose/src/cbor.ts:53-62 | and different texts have different ones |
| `FailingRuns.TwoLongCurrenciesFail` | packages/checkpoint/src/checkpoint.ts:187-204 | two payments of 1 in two currencies of 9000 octets: paid, receipted and saved, with a checkpoint that does not verify; no report of the state is ok |
| `FailingRuns.LateEvidenceFails` | packages/mcp-server/src/session.ts:1151-1165 | a submit without an answer, then verified evidence dated 2^53-1: resolving leaves a state no report passes, resolving again mints a second receipt for the nonce, and the next payment's prepared row saves both |
| `FailingRuns.ReceiptHashIsOrdinary` | packages/receipts/src/index.ts:236-259 | what these two runs ask of the receipt hash holds of the program's own |
| `SelfAudit.BalancedIsSilent` | packages/audit/src/index.ts:795-1029 | receipts and rows that mirror each other reconcile without a word |
| `SelfAudit.OnlyWarnings` | packages/audit/src/index.ts:1588-2332 | of receipts and rows a session's audit says nothing but warnings, whatever the other checks found |
| `SelfAudit.CheckpointsAgree` | packages/mcp-server/src/session.ts:1292-1303 | the one checkpoint, when it verifies, covers all receipts with the right totals and head |
| `SessionSafety.SpendStepKeeps` | packages/mcp-server/src/session.ts:302-361 | spend keeps the invariant of memory and file, whether or not its record could be written |
| `SessionSafety.SubmitStepKeeps` | packages/mcp-server/src/session.ts:955-1031 | submitExternal keeps it at every point it may stop at |
| `SessionSafety.RetryStepKeeps` | packages/mcp-server/src/session.ts:1057-1091 | retryIndeterminate keeps it |
| `SessionSafety.ResolveStepKeeps` | packages/mcp-server/src/session.ts:1093-1149 | resolveIndeterminate keeps it, also where recording throws half way |
| `SessionSafety.ResolveIsWholeExactly` | packages/mcp-server/src/session.ts:1093-1149 | from a whole state it leaves a whole state except, and always, when the evidence shows the payment settled, its receipt can be signed, and the row's time or the clock is the last safe integer |
| `SessionSafety.StrandedIsMintedAgain` | packages/mcp-server/src/session.ts:1093-1165 | from there the same evidence mints a second receipt for the nonce |
| `SessionSafety.CallKeeps` | packages/mcp-server/src/session.ts:987-1010 | by the time the rail is called the submitted row is on disk, so every call is known to the journal |
| `SessionSafety.RecoverKeeps` | packages/mcp-server/src/session.ts:1259-1290 | recovery keeps every image good and gives back no nonce the rail may still take |
| `SessionSafety.LoadKeeps` | packages/mcp-server/src/session.ts:486-519 | opening or reloading keeps the invariant |
| `SessionSafety.CoveredIsProof` | packages/mcp-server/src/session.ts:1133-1139 | the windows the code asks for cover every open call |
| `SessionSafety.FreshDecision` | packages/core/src/policy.ts:166-185 | the single-use decision just granted is never already consumed |
| `SessionSafety.FreeIsNotLive` | packages/core/src/policy.ts:59-62 | a nonce the engine would grant is not one the rail may still take |
| `Sessions.PersistKeeps` | packages/mcp-server/src/session.ts:1151-1175 | recording a payment, however far it comes, keeps chain, mirror and burned nonces; with receipt time and clock below the last safe integer also distinct nonces and the checkpoint |
| `Sessions.RecordingIsWholeExactly` | packages/mcp-server/src/session.ts:1151-1165 | a signable receipt is recorded in full if and only if its time and the clock are both below the last safe integer |
| `Sessions.CutEncodesExactly` | packages/mcp-server/src/session.ts:1292-1303 | that is exactly when the checkpoint over it can be encoded |
| `Sessions.SpendKeeps` | packages/mcp-server/src/session.ts:547-575 | a payment settled in process and recorded in full keeps all of it, whatever the clock |
| `Sessions.CloseKeeps` | packages/mcp-server/src/session.ts:1003-1008 | giving back the nonce of an open payment takes nothing from any receipt |
| `Sessions.ReserveKeeps` | packages/mcp-server/src/session.ts:971-984 | so does a reserve with its prepared row |
| `Sessions.PushKeeps` | packages/mcp-server/src/session.ts:1156-1163 | the appended receipt links to the one before and its row mirrors it |
| `Sessions.WithReceiptCovers` | packages/mcp-server/src/session.ts:1292-1303 | the checkpoint cut anew covers every receipt |
| `SessionObject.CedulonSession.Spend` | packages/mcp-server/src/session.ts:302-361 | the method is the spend step, undo included |
| `SessionObject.CedulonSession.SubmitExternal` | packages/mcp-server/src/session.ts:372-409 | the method is the submit step |
| `SessionObject.CedulonSession.Answered` | packages/mcp-server/src/session.ts:992-1028 | what follows the rail's answer, or the lack of one |
| `SessionObject.CedulonSession.RetryIndeterminate` | packages/mcp-server/src/session.ts:416-443 | the method is the retry step, of which `RailCalls.RetryCallsExactly` says when it calls the rail and when it refuses |
| `SessionObject.CedulonSession.ResolveIndeterminate` | packages/mcp-server/src/session.ts:450-477 | the method is the resolve step, covering loop included |
| `RailCalls.RetryCallsExactly` | packages/mcp-server/src/session.ts:1057-1074 | a retry calls the rail exactly when the session is in step, the payment is indeterminate, the rail is idempotent and the submitted row is written; without one of the first three nothing changes and the refusal names it |
| `RailCalls.SubmitCallsExactly` | packages/mcp-server/src/session.ts:955-995 | a submit calls the rail exactly when amount and nonce are well formed, the session is in step, the policy allows it and both rows are written |
| `RailCalls.OneCallWithoutThePromise` | packages/mcp-server/src/session.ts:1062-1064 | over every run in which each retry of a nonce is on a rail that is not idempotent, at most one call is open for it |
| `RailCalls.LiveNonceIsCalledOnlyByRetry` | packages/mcp-server/src/session.ts:1057-1074 | a call is added to open calls only by a retry of that nonce on an idempotent rail |
| `RailCalls.AnswerIsFollowed` | packages/mcp-server/src/session.ts:992-1018 | settled: one receipt for the row, nonce kept, journal settled; failed: nonce given back, journal failed; no answer: nonce kept, journal indeterminate |
| `RailCalls.SpendPaysExactly` | packages/mcp-server/src/session.ts:302-361 | an in-process spend pays exactly when it may, its decision is fresh and receipt, checkpoint and file can be written; else no receipt, no row and the file as it was |
| `RailCalls.ResolveRecords` | packages/mcp-server/src/session.ts:1097-1128 | on sealed evidence under the rail key that covers the last submit, whose first row for the payment agrees on amount and currency, the payment is recorded at that row's time |
| `RailCalls.ResolveReleases` | packages/mcp-server/src/session.ts:1129-1148 | on such evidence without a row, over a window that covers every submit since the reserve, the nonce is given back |
| `RailCalls.ResolveIsRefusedOtherwise` | packages/mcp-server/src/session.ts:1093-1148 | in every other case nothing changes |
| `RailCalls.LoadRecoversExactly` | packages/mcp-server/src/session.ts:1259-1290 | after a restart a reserve that never left is failed and its nonce free, a submit without an answer is indeterminate and its nonce kept, and nothing else has changed |
| `RailCalls.ReloadWithoutFile` | packages/mcp-server/src/session.ts:486-519 | a session reloaded without a file keeps its key and its next decision and nothing else |
| `SessionObject.CedulonSession.RecoverJournal` | packages/mcp-server/src/session.ts:1259-1290 | the loop over the folded journal is the recovery function, saved once when it changed anything |
| `SessionObject.CedulonSession.Reload` | packages/mcp-server/src/session.ts:486-519 | the session becomes the file, recovered, or stays exactly as it was |
| `SessionObject.CedulonSession.Open` | packages/mcp-server/src/session.ts:278-300 | a session opened on the file, or none and the file untouched |
| `SessionObject.CedulonSession.SaveState` | packages/mcp-server/src/session.ts:1437-1467 | the file is replaced whole by the memory, only when it is what was last seen |
| `SessionObject.CedulonSession.Restore` | packages/mcp-server/src/session.ts:534-545 | memory is put back to the snapshot in every field |
| `SessionObject.CedulonSession.PersistCutSettled` | packages/mcp-server/src/session.ts:1151-1175 | receipt, row, checkpoint, journal row and save in this order, and nothing undone where it stops |
| `SessionObject.CedulonSession.PushReceipt` | packages/mcp-server/src/session.ts:1156-1164 | unsigned and unchanged, or pushed without a checkpoint, or pushed with it |
| `SessionObject.CedulonSession.RebuildCheckpoint` | packages/mcp-server/src/session.ts:1292-1303 | the checkpoint over all receipts, or the old one when its window cannot be encoded |
| `SessionObject.CedulonSession.CloseFailed` | packages/mcp-server/src/session.ts:1003-1008 | refund, failed row, save |
| `SessionObject.CedulonSession.Bounds` | packages/mcp-server/src/session.ts:1297-1299 | earliest and latest receipt time |
| `SessionObject.CedulonSession.FoldedIntent` | packages/mcp-server/src/session.ts:1192-1194 | the last entry of the nonce |
| `Journal.FoldJournal` | packages/mcp-server/src/journal.ts:32-45 | one row per nonce in order of first appearance |
| `Journal.IntentsAreLast` | packages/mcp-server/src/journal.ts:32-45 | the fold holds exactly the last entry of every nonce, once |
| `Journal.ReservedAtMs` | packages/mcp-server/src/session.ts:1196-1207 | the time of the latest prepared row |
| `Journal.LastSubmittedAtMs` | packages/mcp-server/src/session.ts:1209-1217 | the time of the last submitted row |
| `Journal.SubmittedTimesSinceReserve` | packages/mcp-server/src/session.ts:1219-1232 | the times of every submit since the latest reserve |
| `Journal.FoldIsLatest` | packages/mcp-server/src/journal.ts:32-45 | the fold of a nonce is the entry of it that no other entry of it follows |
| `Journal.ReservedAtIsLatest` | packages/mcp-server/src/session.ts:1196-1207 | the reserve is dated by the prepared entry that no other follows |
| `Journal.LastSubmittedIsLatest` | packages/mcp-server/src/session.ts:1209-1217 | the last submit is the submitted entry that no other follows |
| `Journal.SubmitsSinceStand` | packages/mcp-server/src/session.ts:1219-1232 | the submits since the reserve are those that no prepared entry follows |
| `SessionPolicy.EveryReachableStoreIsTraced` | packages/mcp-server/src/session.ts:955-1290 | with one policy and a positive clock: every session and the file always hold the counters some run of the engine leaves, in which every open payment has a live reservation made when the journal says; and while no clock and no evidence stands at the last safe integer, so has every receipt, for its nonce and amount and made at the time its payment was reserved; and if the clock of the requests never ran backwards, that of the run did not either |
| `SessionPolicy.ReleaseGivesBackExactly` | packages/mcp-server/src/session.ts:1259-1275 | so the release of an open payment gives back exactly what it took, or nothing once its window has rolled; no clamp takes effect |
| `SessionPolicy.LimitsHold` | packages/core/src/policy.ts:88-119 | and the limits of a window hold over crashes, failed writes and recoveries |
| `SessionPolicy.ReceiptsKeepWithinLimits` | packages/core/src/policy.ts:88-119 | in every session and in the file, over crashes and recoveries and whatever the clock does short of the last safe integer: the receipts of payments reserved in the window the counters stand in number at most `allowedCount`, itself at most `maxPayments`, and total at most `allowedSum`, itself at most `maxCumulative`; none was reserved past that window |
| `SessionPolicy.ReceiptsOfAnySpan` | packages/core/src/policy.ts:88-98 | and while the clock of the requests never runs backwards, every span as long as the window, wherever it lies, holds receipts of at most twice `maxPayments` payments and twice `maxCumulative` |
| `SessionPolicy.PaidIsReserved` | packages/core/src/policy.ts:105-107 | receipts of different nonces have different live reservations, so a span holds no more of them, and no more money, than was reserved in it |
| `SessionPolicy.GrantTraced` | packages/mcp-server/src/session.ts:302-361 | a granted in-process spend adds exactly one live reservation to the run, with the nonce, amount and time of its receipt, and changes no other |
| `SessionPolicy.CloseTraced` | packages/core/src/policy.ts:150-164 | releasing an open payment releases its own reservation and no other |
| `SessionPolicy.PrepareTraced` | packages/mcp-server/src/session.ts:971-984 | a reserve with its prepared row adds the reservation the journal will find |
| `Policies.PolicyEngine.Evaluate` | packages/core/src/policy.ts:59-119 | the decision and the new store, check by check; `Permits` says exactly which requests are allowed, what a denial names and what is left |
| `Permits.AllowedExactly` | packages/core/src/policy.ts:59-119 | allowed if and only if the nonce is unused, the amount positive and within the limit of one payment, payee, currency and named tool listed, and the window has room for one more and for that much |
| `Permits.DenialNamesTheFirstFailure` | packages/core/src/policy.ts:59-95 | a denial names the first check, in order, that fails |
| `Permits.EvaluateLeaves` | packages/core/src/policy.ts:88-119 | a grant burns the nonce, takes the next decision and counts the payment; a denial changes nothing but a window that is over |
| `Permits.ConsumedExactly` | packages/core/src/policy.ts:166-185 | a decision is consumed if and only if it is for a positive amount, unconsumed and for its own request, and then never again |
| `Policies.PolicyEngine.Release` | packages/core/src/policy.ts:150-164 | the nonce freed; the counters refunded only within the reservation's window |
| `Policies.PolicyEngine.ConsumeDecision` | packages/core/src/policy.ts:166-185 | single use of a decision |
| `Policies.PolicyEngine.RollWindow` | packages/core/src/policy.ts:187-196 | the window restarts once it has lasted |
| `Policies.RunKeepsInvariant` | packages/core/src/policy.ts:59-164 | over any requests and once-only releases with a positive clock that may run backwards: counters never fall below the live reservations of the window nor exceed the limits |
| `Policies.ReleaseIsExact` | packages/core/src/policy.ts:150-164 | the clamps of release never bind: a live reservation of the current window is refunded exactly, an earlier one not at all |
| `Policies.RunNoncesExact` | packages/core/src/policy.ts:59-152 | the used nonces are exactly those of reservations not given back, each once |
| `Policies.CurrentSpanIsCounted` | packages/core/src/policy.ts:88-119 | however the clock ran, nothing is reserved past the end of the current window, and what is reserved in its span is counted |
| `Policies.SpanIsAtMostTwice` | packages/core/src/policy.ts:88-98 | with a clock that never runs backwards, any span of one window length holds at most twice the payments and twice the sum |
| `Policies.TwiceIsReached` | packages/core/src/policy.ts:88-98 | the factor two is reached |
| `CborDecoder.DecodeAcceptsExactlyCanonical` | packages/cose/src/cbor.ts:153-291 | accepted exactly when the octets are the one spelling of a canonical value within size, depth, element, string and integer limits (section 4.2.1 of RFC 8949) |
| `CborDecoder.AcceptedIsInjective` | packages/cose/src/cbor.ts:153-177 | no two byte strings decode to one value, and every accepted one is its value's encoding |
| `CborDecoder.DecodeOfEncode` | packages/cose/src/cbor.ts:39-136 | for every value within the limits decoding its encoding gives it back with its maps in key order |
| `CborDecoder.EncodingsArePrefixFree` | packages/cose/src/cbor.ts:39-136 | no encoding is a proper prefix of another |
| `CborDecoder.LengthTieBreakIsIdle` | packages/cose/src/cbor.ts:95-103 | the comparator's length tie-break never separates distinct keys |
| `CborDecoder.HeadIsShortest` | packages/cose/src/cbor.ts:112-136 | of all heads the reader takes for an argument the encoder writes the shortest, and only it |
| `CborDecoder.ReadIsEncodable` | packages/cose/src/cbor.ts:178-258 | whatever is read is encodable and within the limits |
| `Cbor.EncodeIsSpelling` | packages/cose/src/cbor.ts:39-93 | the encoder refuses exactly what is not encodable and emits the spelling of the key-ordered value; `CborForm.EncodedAsWritten` says in which octets |
| `CborForm.EncodedAsWritten` | packages/cose/src/cbor.ts:39-136 | whatever is encoded has the major type, argument octets and simple values of sections 3, 3.1 and 3.3 of RFC 8949, its items in order and its pairs ascending by key octets |
| `CborForm.DecodedAsWritten` | packages/cose/src/cbor.ts:153-258 | and so has whatever is decoded: its first octet tells its kind |
| `CborForm.IntegersAreSafe` | packages/cose/src/cbor.ts:46-51 | an integer is encoded if and only if it is within 2^53 - 1 either way |
| `CborForm.DecoderBounds` | packages/cose/src/cbor.ts:138-177 | accepted if and only if the octets are the encoding of a canonical value and number at most 65536, with 16 levels below the first, 4096 items or pairs and 16384 octets of text or bytes |
| `Cbor.CanonIsCanonical` | packages/cose/src/cbor.ts:72-90 | putting every map in key order makes a value canonical |
| `Cbor.CanonOfCanonical` | packages/cose/src/cbor.ts:72-90 | a canonical value is already in order |
| `Octets.CompareEncodedKeys` | packages/cose/src/cbor.ts:95-103 | the comparison loop is bytewise lexicographic order, then length |
| `Octets.AdjacentCheckIsComplete` | packages/cose/src/cbor.ts:77-85 | after sorting, neighbours alone show every repeated key |
| `Octets.SortDistinct` | packages/cose/src/cbor.ts:77-85 | whether keys repeat does not depend on the order of the entries |
| `Octets.BigEndianRoundTrip` | packages/cose/src/cbor.ts:112-136 | big-endian octets read back |
| `CborReader.DecodeCbor` | packages/cose/src/cbor.ts:153-176 | the decoder as executed is the decoding function; `CborForm.DecodedAsWritten` and `DecoderBounds` say what that takes |
| `CborReader.Reader.ReadVal` | packages/cose/src/cbor.ts:178-258 | the cursor reads what the reading function reads and stands where it stands |
| `CborReader.Reader.ReadLength` | packages/cose/src/cbor.ts:260-291 | head argument, with the refusals of indefinite and unsafe lengths |
| `CborReader.Reader.ReadEntries` | packages/cose/src/cbor.ts:239-257 | map entries with the repeated-key refusal |
| `CborReader.Reader.ReadItems` | packages/cose/src/cbor.ts:226-238 | array elements |
| `Claims.ReceiptRoundTrip` | packages/receipts/src/index.ts:100-155 | receipt claims survive encode then decode unchanged |
| `Claims.CheckpointRoundTrip` | packages/checkpoint/src/checkpoint.ts:118-179 | checkpoint claims survive, nested totals and redacted totals included |
| `Claims.ReadTotals` | packages/checkpoint/src/checkpoint.ts:122-139 | the loop over the totals map |
| `Claims.LabelledRoundTrip` | packages/cose/src/cbor.ts:293-298 | under every label of a decoded claim map lies the value written there |
| `Claims.Sign1Exact` | packages/cose/src/cose.ts:141-171 | message octets and message determine each other |
| `Claims.SigStructureInjective` | packages/cose/src/cose.ts:109-111 | equal to-be-signed octets mean equal protected header and payload (section 4.4 of RFC 9052) |
| `ClaimLabels.ReceiptReadExactly` | packages/receipts/src/index.ts:119-155 | octets are read as receipt claims if and only if they decode to a map with the twelve labels -70001 to -70012, each with its own claim |
| `ClaimLabels.ReceiptWritten` | packages/receipts/src/index.ts:100-117 | receipt claims are written as exactly those twelve pairs |
| `ClaimLabels.CheckpointReadExactly` | packages/checkpoint/src/checkpoint.ts:156-179 | octets are read as checkpoint claims if and only if they decode to a map with the labels -70101 to -70107, totals nested or null |
| `ClaimLabels.CheckpointWritten` | packages/checkpoint/src/checkpoint.ts:118-153 | checkpoint claims are written as exactly those seven pairs |
| `ClaimLabels.VerifiedExactly` | packages/cose/src/cose.ts:141-203 | a message verifies if and only if it decodes to header, empty map, payload and signature, the header names algorithm -19, the content type and the key and no critical header, and the signature is the key's over "Signature1", header, empty bytes and payload |
| `ClaimLabels.SignedReceiptSays` | packages/mcp-server/src/session.ts:1033-1055 | a signed receipt of the session decodes to a map that names payer, payee, amount, currency, policy, ref, time, nonce and predecessor under their labels |
| `ClaimLabels.SignedCheckpointSays` | packages/mcp-server/src/session.ts:1292-1303 | its signed checkpoint decodes to a map that names epoch one, the window, the count, the head and the total of every currency |
| `ClaimLabels.CutExactly` | packages/mcp-server/src/session.ts:1292-1303 | the window starts with the first receipt and ends right behind the last one or the clock |
| `Merkle.MerkleRoot` | packages/checkpoint/src/transparency.ts:60-74 | the level loop computes the root |
| `Merkle.BuildInclusionProof` | packages/checkpoint/src/transparency.ts:76-102 | the built siblings are the path |
| `Merkle.ApplyInclusionProof` | packages/checkpoint/src/transparency.ts:120-153 | refuses exactly the paths outside the defined shape, else walks the path |
| `Merkle.PathReproducesRoot` | packages/checkpoint/src/transparency.ts:60-153 | the built path applied to its leaf gives the root, has one sibling per level and an index that fits |
| `Merkle.HeightIsCeilingOfLog` | packages/checkpoint/src/transparency.ts:76-102 | the height is the exact base-2 ceiling of the log size |
| `Merkle.PathIsSound` | packages/checkpoint/src/transparency.ts:142-153 | a path of full height that reproduces the root starts at the leaf of its index, unless two pairs with one hash are exhibited |
| `Merkle.EqualHeadsEqualLogs` | packages/checkpoint/src/transparency.ts:60-74 | logs of one size with one head are equal, or such a collision is exhibited |
| `Merkle.OddLogSharesItsHead` | packages/checkpoint/src/transparency.ts:55-58 | why the sizes must agree: an odd log and the log with its last leaf twice share a head and a path |
| `Merkle.ShortPathStartsInside` | packages/checkpoint/src/transparency.ts:142-153 | why the height must agree: a shorter path starts at an interior node |
| `Merkle.LongPathStartsBelow` | packages/checkpoint/src/transparency.ts:142-153 | and a longer one below a leaf that is itself the hash of a pair |
| `TransparencyLog.MemoryTransparencyService.Register` | packages/checkpoint/src/transparency.ts:167-194 | the statement is appended, and every receipt ever handed out keeps verifying |
| `TransparencyLog.VerifiedReceiptIsMembership` | packages/checkpoint/src/transparency.ts:261-288 | a verified receipt of full height proves membership or exhibits a collision |
| `TransparencyLog.VerifiedIsSigned` | packages/checkpoint/src/transparency.ts:228-288 | a receipt verifies if and only if the expected key signed the candidate's hash, the index and the head, and a well-formed proof with that index leads from the hash to the head |
| `JsonText.JsonDuplicateMemberName` | packages/core/src/canonical.ts:81-128 | the index loop with its stack of name sets is the scanning function |
| `JsonText.ScannerIsExact` | packages/core/src/canonical.ts:81-128 | for every JSON text, however spaced and escaped, the scanner is silent exactly when no object at any depth repeats an unescaped name (section 2.3 of RFC 7493) |
| `CanonicalJson.CanonicalIsAccepted` | packages/core/src/canonical.ts:30-66 | canonical text (section 3.2.3 of RFC 8785) is a JSON text without repeated names, and the scanner accepts it |
| `CanonicalForm.CanonicalAsWritten` | packages/core/src/canonical.ts:30-66 | canonical text is written in the words, punctuation and escapes of section 3.2.2 of RFC 8785, members ascending by the code units of their names |
| `CanonicalForm.GivenOrderIsIdle` | packages/core/src/canonical.ts:55-63 | the order in which properties are given does not show |
| `CanonicalForm.RefusedExactly` | packages/core/src/canonical.ts:1-40 | refused if and only if some name or string at any depth holds a lone surrogate that the check finds |
| `CanonicalForm.GrammarWords` | packages/core/src/canonical.ts:68-135 | the white space, escapes and punctuation of JSON text are those of sections 2 and 7 of RFC 8259 |
| `CanonicalJson.HasLoneSurrogate` | packages/core/src/canonical.ts:1-13 | the walk answers whether some position other than a final high surrogate holds a surrogate that is no half of an adjacent high-low pair |
| `CanonicalJson.LoneFoundExactly` | spec/draft-dogru-cedulon-core-05.md:814-817 | the answer is the one required, lone surrogates anywhere, except exactly when the text ends in a high surrogate behind a text without a lone one |
| `CanonicalJson.TrailingHighIsWritten` | packages/core/src/canonical.ts:30-40 | the text of one lone high surrogate is not refused but written as an escape |

## Left out

- Ed25519, SHA-256, PEM and SPKI parsing, key identifiers: ideal predicates and functions.
- Number printing by the runtime.
- The file system below an atomic write that may fail: symlink walks, mode bits, temporary files, process liveness and stale-lock takeover, key wrapping on Windows. A read of an existing state file never fails in the model.
- A session without a state path, and spending that carries a manifest.
- The decision profile (packages/audit/src/profiles/decision.ts): a carried decision record is matched on ref and band only, so the amount-preserving claims are about spend.
- Manifest terms, countersignatures, witnesses, equivocation, anchor checkpoints, malformed hash claims and the named findings for foreign issuer keys: they enter an audit only as `others`.
- Audit.AuditDetailed: the bounds on one audit (4096 receipts and rows, 256 checkpoints) are not its own, and whatever chain, checkpoint, manifest and witness checks say enters as given; `SelfAudit.AuditItself` adds the bounds and runs key, chain, totals and coverage checks.
- A rebuild of the checkpoint passes all receipt times as arguments of one call, which a runtime may refuse for very many receipts.
- Human-readable detail text of findings, report formatting and summaries.
- Audit.SameSettlements: the caller's rows are compared with the extract's as bags of keys; the program sorts both lists of joined keys and compares them in order.
- Cbor key order: a negative zero is the integer zero here.
- TransparencyLog.MemoryTransparencyService.Register: requires that the log stays below the largest safe integer, as an array length does.
- Privacy and dispute helpers of receipts, decision tokens beyond single use, MCP transport, RPC fetching, demos and scripts: no hard property.
