# Payment backend: a verified model

The backend quotes, creates and tracks payments across chains. This project models its most
intricate logic and proves what that logic guarantees, one module for each component:

- `QuoteSolver`, `SwapRoute`, `InvoiceQuote`: which input amount buys a wanted output. A bounded
  search over quotes, a hop-by-hop pass forward and backward along a swap route, and two such
  inversions chained across a bridge.
- `Stargate`: the reconciler that reads contract storage on two chains and sends a transaction
  wherever storage differs, and the status checker that reads it back; `AdminText`: the texts that
  it compares storage with.
- `Base58`, `SvmInstruction`, `Amounts` (over `Numerals` and `Hex`): the codecs and the decimal
  amounts.
- `QuoteSessions`, `QuoteUpdates`, `QuoteExpiry`, `QuoteTables`: quotes consumed by payment sessions under a row lock while an expiry job
  fetches and updates in separate statements.
- `Webhooks`: delivery rows, their retry schedule, the polling job, manual retries, lost writes.
- `PrivacyLifecycle`, `PaymentIdSearch`: the stage derived from an event log, the recovery
  transactions it admits, and the search for a payment id in nested metadata.
- `ClientFactory`, `QuoteCache`: double-checked locking with any number of threads; the
  per-request cache, whose slices callers may overwrite.
- `Fees`: approval amounts and the bridge fee margin.

Code that computes a value is a function. Code with loops or fields is a method or a class whose
`ensures` ties it to such a function, and the theorems are lemmas about that function. Concurrent
code is a state machine over its atomic steps, and its theorems hold of every run.

Assumptions: a quote engine answers deterministically during one request; a transaction that
locks a row excludes every other update of that row until it ends, and its writes are seen from its
commit on; all times come from one clock; a sent contract transaction
takes effect at once or not at all; ids that the system generates are new; the default JSON text
of a value and JSON decoding are arbitrary functions.

## What turned out not to hold

For each of these one lemma exhibits a case and another says exactly when it happens.

- The search never probes the input below its starting low end, so its answer need not be the
  least one (`SearchCanMissTheLeast`; `SearchLeastIff`).
- The bridge amount crosses chains without rescaling, so a bridge token with more decimals on the
  source chain undercharges (`MoreSourceDecimalsUndercharge`; `CoversForEveryLegIff`).
- Reconfiguring an unchanged setup can send transactions besides registerDelegate, when a sender is
  written without 0x, the options are not canonical hex, or the source sender is zero
  (`UnprefixedSenderIsSentAgain`; `SecondRunQuietForTexts`).
- A successful configuration is not reported ready when the source vault is unknown or a peer is
  the zero word (`ZeroPeerIsNotReady`; `SuccessIsReadyIff`).
- Zero of a token without decimals prints as empty text (`ZeroWithoutDecimals`; `ParsePrint` and
  `PrintParse`).
- A chain id of 2^32 bytes or more cannot be read back (`LongChainIdIsLost`; `ReadBuiltPayment`).
- The expiry job overwrites USED with EXPIRED, though only of a quote whose transaction committed
  after its expiry (`ExpiryCanOverwriteUsed`; `OverwrittenIff`). The used_at column, which is written
  before the commit, does not tell (`UsedAtDecidesNothing`).
- A webhook row stored as Delivering is stranded when its last sender is lost, by a failed final
  write or a crash (`LostFinalWriteStrands`; `StrandedIff`, and `StrandedForGoodIff` for when no poll
  ever picks it up again). If the write that stores Delivering is lost too, the row is fetched again.
- The privacy status report offers recovery of a payment that is already claimed or refunded
  (`ClaimedIsOfferedAgain`; `ResolvedReportIff`).
- `RegisterEVMClient` makes successive calls return different clients (`RegistrationChangesAnswers`;
  `CallsDifferIff`).
- Address texts without 0x share cache entries (`UnprefixedTextsCollide`; `TransparentEverywhereIff`,
  and `TransparentIff` for one given repository).

## Model

| member | source | states |
|---|---|---|
| `QuoteSolver.CeilDivLeast` | internal/usecases/create_payment_usecase.go:935-942 | the interval guess, a quotient rounded up, is the least input that the anchor's price covers |
| `QuoteSolver.SolveRequiredInput` | internal/usecases/create_payment_usecase.go:766-1046 | the anchor probe, doubling loop and bisection compute `Solve`, carrying the route and source of the best probe, with at most 97 probes |
| `QuoteSolver.Narrow` | internal/usecases/create_payment_usecase.go:1013-1046 | the bisection loop returns the amount that `Bisect` defines with the route and source quoted there |
| `QuoteSolver.SearchSound` | internal/usecases/create_payment_usecase.go:906-1046 | for every engine, monotone or not, a returned input is quoted at the target or more, and the returned route and source are those of that quote |
| `QuoteSolver.FindUpperReach` | internal/usecases/create_payment_usecase.go:954-976 | doubling is exhausted exactly when no input up to the last bound suffices |
| `QuoteSolver.SearchComplete` | internal/usecases/create_payment_usecase.go:954-1046 | a monotone engine without errors: the search gives up exactly when no input up to 2^31 times the first upper bound suffices |
| `QuoteSolver.BisectClose` | internal/usecases/create_payment_usecase.go:1013-1033 | every bisection halves the distance to any sufficient input at or above the low end |
| `QuoteSolver.SearchClose` | internal/usecases/create_payment_usecase.go:1013-1046 | the answer exceeds a sufficient input above the starting low end by at most the interval's length over 2^64 |
| `QuoteSolver.BisectEdge` | internal/usecases/create_payment_usecase.go:1013-1033 | an interval shorter than 2^tries is closed: the answer is its low end or lies just above an input that fell short |
| `QuoteSolver.SearchLeastIff` | internal/usecases/create_payment_usecase.go:906-1046 | for a monotone engine and a closing interval the answer is globally least exactly when the low end is 1 or the input below it falls short |
| `QuoteSolver.AnswerAboveLowIsLeast` | internal/usecases/create_payment_usecase.go:1013-1046 | an answer above the starting low end is globally least, whatever errors the engine makes elsewhere |
| `QuoteSolver.SearchLeastWithDiminishingReturns` | internal/usecases/create_payment_usecase.go:913-1046 | with a price that never improves and an anchor that fails or falls short the answer is globally least |
| `QuoteSolver.SearchCanMissTheLeast` | internal/usecases/create_payment_usecase.go:944-951 | a monotone engine and a target for which the search answers 5 where 1 suffices |
| `QuoteSolver.StartIs` | internal/usecases/create_payment_usecase.go:906-951 | the interval by the anchor output a alone: [1, target] for none, the target itself for an exact one, else a low end above exactly the x with a(2x+1) < target^2 and an upper end of twice the least g with target^2 <= a g |
| `QuoteSolver.LeastByAnchorIff` | internal/usecases/create_payment_usecase.go:906-1046 | for a monotone engine without errors the answer is globally least exactly when no input x with a(2x+1) < target^2 suffices |
| `QuoteSolver.ExactAnchorIsTheAnswer` | internal/usecases/create_payment_usecase.go:924-933 | an anchor that gives the target is the answer with its route and source |
| `QuoteSolver.ZeroAnchorIsLeast` | internal/usecases/create_payment_usecase.go:906-1046 | an anchor that gives nothing makes the answer globally least |
| `QuoteSolver.GivesUpIff` | internal/usecases/create_payment_usecase.go:935-1011 | the search gives up exactly when no input up to 2^31 times twice the rounded-up target^2/a suffices |
| `QuoteSolver.ClosesWhenGuessIsSmall` | internal/usecases/create_payment_usecase.go:1013-1033 | the bisections close the interval whenever the guess is below 2^32 |
| `QuoteSolver.DoublingIs` | internal/usecases/create_payment_usecase.go:954-976 | the doubling stops at its first probe that errs or suffices, and says which |
| `QuoteSolver.BisectFails` | internal/usecases/create_payment_usecase.go:1013-1033 | a bisection fails when its middle errs, and only by an error inside its interval |
| `QuoteSolver.PreviewIsTrusted` | internal/usecases/create_payment_usecase.go:776-818 | a positive preview is the answer, otherwise the search, and no target below one is tried |
| `SwapRoute.AccurateQuote` | internal/usecases/payment_usecase.go:3005-3058 | the forward loop over the hops computes `Forward` |
| `SwapRoute.AccurateRequiredInput` | internal/usecases/payment_usecase.go:3060-3112 | the backward loop computes `Backward` |
| `SwapRoute.HopAdjunction` | internal/usecases/payment_usecase.go:3082-3102 | one hop: an input reaches an output exactly when it covers the exact-output quote |
| `SwapRoute.PathAdjunction` | internal/usecases/payment_usecase.go:3027-3047 | the same over any number of hops |
| `SwapRoute.RouteAdjunction` | internal/usecases/payment_usecase.go:3005-3112 | forward(x) >= y exactly when x >= backward(y), for the whole operations with their early exits |
| `SwapRoute.RouteIsMonotone` | internal/usecases/payment_usecase.go:3027-3047 | an engine that quotes such a route is monotone |
| `SwapRoute.SearchMeetsBackward` | internal/usecases/create_payment_usecase.go:906-1046 | a closed search whose low end is safe returns what the backward pass returns |
| `SwapRoute.BackwardPreviewIsSound` | internal/usecases/create_payment_usecase.go:790-821 | a preview answer taken from the backward pass is the least sufficient input |
| `SwapRoute.ForwardIff` | internal/usecases/payment_usecase.go:3005-3058 | the forward quote is v exactly when amounts from x to v chain through active pools and positive exact-input quotes |
| `SwapRoute.BackwardIff` | internal/usecases/payment_usecase.go:3060-3112 | the required input is v exactly when amounts from v to y chain through active pools and positive exact-output quotes |
| `SwapRoute.WithoutPath` | internal/usecases/payment_usecase.go:3005-3026 | equal tokens pass the amount through, an unresolved route gives nothing |
| `InvoiceQuote.RequiredYields` | internal/usecases/create_payment_usecase.go:724-763 | what a leg asks for, directly or by search, yields the target |
| `InvoiceQuote.QuoteCoversInvoice` | internal/usecases/create_payment_usecase.go:670-722 | what the source leg delivers for the quoted amount, moved over the bridge and pushed through the destination leg, yields the invoice, in the direct and the searched branches, when the bridge token has no more decimals on the source chain |
| `InvoiceQuote.MoreSourceDecimalsUndercharge` | internal/usecases/create_payment_usecase.go:670-722 | with more source decimals an invoice of 1 is quoted 1 and delivers 0 |
| `InvoiceQuote.CoversForEveryLegIff` | internal/usecases/create_payment_usecase.go:639-763 | every quote covers its invoice exactly when the source decimals do not exceed the destination's |
| `InvoiceQuote.LegAsks` | internal/usecases/create_payment_usecase.go:724-763 | what a leg asks for: the target itself, a positive preview, the search's answer, or nothing |
| `InvoiceQuote.QuotedIff` | internal/usecases/create_payment_usecase.go:670-722 | an amount is quoted exactly when both legs answer and the bridge token is there for a swapped source leg |
| `InvoiceQuote.QuotedWithinReach` | internal/usecases/create_payment_usecase.go:639-763 | with monotone engines without errors the quote exists exactly when both amounts lie within the reach of the searches |
| `Stargate.AdminOps.ConfigureStargateE2E` | internal/usecases/evm_admin_ops_service.go:570-871 | the procedure's reads, transactions, skipped steps and errors are those of executing the request's plan |
| `Stargate.AdminOps.RegisterAdapter` | internal/usecases/evm_admin_ops_service.go:633-683 | adapter branch: registers, replaces, keeps or refuses as the plan says |
| `Stargate.AdminOps.SetRoute` | internal/usecases/evm_admin_ops_service.go:699-717 | endpoint id and peer are set together unless both are in place |
| `Stargate.AdminOps.ConfigureDestination` | internal/usecases/evm_admin_ops_service.go:778-865 | destination branch: peer, vault spender and gateway adapter, with its input errors |
| `Stargate.AdminOps.GetStargateE2EStatus` | internal/usecases/evm_admin_ops_service.go:873-992 | ready exactly when no issue is listed, and exactly when storage meets `Ready` |
| `Stargate.AdminOps.SourceIssues` | internal/usecases/evm_admin_ops_service.go:894-937 | which source issues are listed, each exactly when its cell is wrong, and none exactly when the source side is in order |
| `Stargate.AdminOps.DestinationIssues` | internal/usecases/evm_admin_ops_service.go:939-988 | which destination issues are listed, each exactly when its cell is wrong, and none exactly when the destination side is in order |
| `Stargate.ExecuteReads` | internal/usecases/evm_admin_ops_service.go:570-871 | storage after a run, stopped or not: wanted cells up to the stop read as wanted, all others as before |
| `Stargate.PlanStable` | internal/usecases/evm_admin_ops_service.go:633-683 | the plan is the same before and after its own writes, whole or partial |
| `Stargate.ResumeReachesSameStorage` | internal/usecases/evm_admin_ops_service.go:570-871 | stopping after any number of transactions and running again leaves storage as one full run does, whatever reads fail |
| `Stargate.AcceptsIff` | internal/usecases/evm_admin_ops_service.go:633-865 | a plan is free of input errors exactly for acceptable requests |
| `Stargate.SuccessRegisters` | internal/usecases/evm_admin_ops_service.go:633-683 | after success the registered adapter is the sender that the run configured, and not zero |
| `Stargate.SuccessIsReadyIff` | internal/usecases/evm_admin_ops_service.go:570-992 | with every flag set, a successful run is reported ready exactly when the source vault is known and neither peer is zero |
| `Stargate.SecondRunSends` | internal/usecases/evm_admin_ops_service.go:570-871 | a run after a success changes no cell and sends exactly the transactions of the stages that cannot compare |
| `Stargate.SecondRunQuietIff` | internal/usecases/evm_admin_ops_service.go:663-865 | the transactions of a run after a success are registerDelegate at most exactly when the sender is written with 0x, the options are canonical and the source sender is not zero |
| `Stargate.SecondRunQuietForTexts` | internal/usecases/evm_admin_ops_service.go:633-738 | the same of the request's texts: a given sender starts with 0x, the options are an even number of hex digits after an optional 0x |
| `AdminText.SenderComparesIff` | internal/usecases/evm_admin_ops_service.go:633-676 | a sender text compares equal with the registered adapter exactly when it starts with 0x and is that address, in any letter case |
| `AdminText.OptionsCompareIff` | internal/usecases/evm_admin_ops_service.go:719-735 | an options text compares equal with the stored options exactly when it is an even number of hex digits that denote them |
| `AdminText.SenderIs` | internal/usecases/evm_admin_ops_service.go:633-636 | what a sender text denotes: nothing, an error, or the address of its 40 hex digits |
| `AdminText.OptionBytes` | internal/usecases/evm_admin_ops_service.go:719-735 | odd digits get a zero in front, reading stops at the first pair that is no hex, only a lower-case 0x is taken off |
| `Stargate.AcceptableSucceeds` | internal/usecases/evm_admin_ops_service.go:570-871 | an acceptable request succeeds as soon as ten transactions go through, whatever other reads fail |
| `Stargate.ZeroPeerIsNotReady` | internal/usecases/evm_admin_ops_service.go:917-923 | a request with a zero peer that succeeds and is not reported ready |
| `Stargate.UnprefixedSenderIsSentAgain` | internal/usecases/evm_admin_ops_service.go:663-676 | a request that succeeds, is reported ready, and registers its adapter again when repeated |
| `Stargate.SuccessStorage` | internal/usecases/evm_admin_ops_service.go:570-871 | the storage of both chains after a success, cell by cell: each cell asked for, under its own flag and at its own address, holds what is asked, every other cell what it held |
| `Stargate.SuccessReport` | internal/usecases/evm_admin_ops_service.go:620-871 | the report of a success lists the stages in the procedure's order, each that the request asks for once |
| `Stargate.StageSkipsIff` | internal/usecases/evm_admin_ops_service.go:690-752 | a stage is skipped exactly when its text compares and each of its cells can be read and holds the wanted value; else one transaction sets all of them |
| `Numerals.RecodeRoundTrip` | internal/usecases/utils.go:139-204 | changing the base of a digit string and back is the identity, leading zeros included |
| `Base58.Base58Encode` | internal/usecases/utils.go:139-166 | division loop, leading ones and in-place reversal compute `Encode` |
| `Base58.AppendDigits` | internal/usecases/utils.go:145-153 | the division loop appends the base 58 digits from the last to the first |
| `Base58.ReverseInPlace` | internal/usecases/utils.go:162-164 | the buffer becomes its reverse |
| `Base58.Base58Decode` | internal/usecases/utils.go:168-204 | the multiply-and-add loop computes `Decode`, nothing for a foreign character |
| `Base58.DecodeEncode` | internal/usecases/utils.go:139-204 | every byte sequence survives encoding and decoding |
| `Base58.EncodeDecode` | internal/usecases/utils.go:139-204 | every text over the alphabet survives decoding and encoding |
| `Base58.DecodeEmptyIff` | internal/usecases/utils.go:168-204 | an empty result means empty text or a foreign character |
| `Base58.AlphabetText` | internal/usecases/utils.go:144 | the alphabet is the source's string |
| `Base58.EncodeKeepsValue` | internal/usecases/utils.go:139-166 | the text's base 58 number is the bytes' base 256 number, and leading ones count leading zero bytes |
| `Base58.DecodeKeepsValue` | internal/usecases/utils.go:168-204 | the same of decoding |
| `Base58.KnownText` | internal/usecases/utils.go:139-166 | bytes 0, 1, 0 are written 15R |
| `SvmInstruction.LittleEndianRoundTrip` | internal/usecases/utils.go:223-227 | reading a little-endian field back gives the number modulo its width |
| `SvmInstruction.SolanaAddress` | internal/usecases/utils.go:256-262 | a 32-byte key written in base 58 comes back as itself |
| `SvmInstruction.HexAddress` | internal/usecases/utils.go:246-254 | up to 32 bytes written in hex after 0x, in any letter case, come back right-aligned |
| `SvmInstruction.LayoutSlices` | internal/usecases/payment_usecase.go:1616-1635 | where every field of the instruction lies |
| `SvmInstruction.ReadBuiltPayment` | internal/usecases/payment_usecase.go:1616-1635 | a reader recovers payment id, chain id, token, saturated amount and receiver exactly when the chain id is shorter than 2^32 bytes |
| `SvmInstruction.LongChainIdIsLost` | internal/usecases/utils.go:216-221 | a chain id of exactly 2^32 bytes wraps its length field and is not read back |
| `SvmInstruction.LeastSignificantFirst` | internal/usecases/utils.go:223-227 | the least significant byte comes first |
| `SvmInstruction.AmountFieldIs` | internal/usecases/utils.go:229-238 | amounts up to 2^64 - 1 as they are, larger ones saturated, negative and unreadable ones zero |
| `SvmInstruction.RawAddress` | internal/usecases/utils.go:264-270 | a text that is neither hex nor base 58 stands for its own bytes, the last 32 of them |
| `Hex.DecodeEncode` | internal/usecases/payment_usecase.go:2242-2246 | bytes survive hex encoding and decoding |
| `Hex.EncodeDecode` | internal/usecases/payment_usecase.go:2242-2246 | lower-case hex text survives decoding and encoding |
| `Hex.DigitsWrittenOut` | internal/usecases/payment_usecase.go:2242-2246 | the sixteen digits, in both letter cases |
| `Hex.HighDigitFirst` | internal/usecases/payment_usecase.go:2242-2246 | the high digit of a byte comes first, an odd length is an error |
| `Amounts.ParseIff` | internal/usecases/utils.go:53-106 | parsing yields given digits exactly when the text spells an amount with that many smallest units and no surplus fraction digits |
| `Amounts.ParseDenotes` | internal/usecases/utils.go:53-106 | a parsed amount is value times 10^decimals |
| `Amounts.ParsePrint` | internal/usecases/create_payment_usecase.go:1175-1201 | parsing a printed amount gives it without leading zeros, exactly when there are decimals or it is empty or not zero |
| `Amounts.PrintParse` | internal/usecases/create_payment_usecase.go:1175-1201 | printing a parsed amount gives the canonical text of the same number, exactly when there are decimals or it is not zero |
| `Amounts.ZeroWithoutDecimals` | internal/usecases/create_payment_usecase.go:1184-1186 | zero parses, prints as empty text with no decimals, and that does not parse |
| `Amounts.PrintIsCanonical` | internal/usecases/create_payment_usecase.go:1175-1201 | a printed amount has no superfluous zero and no bare point |
| `Amounts.PrintOtherTexts` | internal/usecases/create_payment_usecase.go:1175-1184 | blank text prints as zero, text that is no digits as itself |
| `Amounts.TrimSpaceIs` | internal/usecases/utils.go:53-60 | trimming takes the spaces of both ends and nothing else |
| `QuoteTables.Tables.CreateSession` | internal/usecases/partner_payment_session_usecase.go:234-510 | succeeds exactly for the merchant's own active, unexpired quote when every later stage does, and then is Begin, Mark and Commit; a refusal names its cause and leaves every row |
| `QuoteTables.Tables.Persist` | internal/usecases/partner_payment_session_usecase.go:260-510 | the stages after the checks in their order: the first that fails is reported and everything written is rolled back |
| `QuoteTables.Tables.GetExpiredActive` | internal/infrastructure/repositories/partner_payment_session_repo_impl.go:88-101 | fetched rows are active and past expiry, and none is missed below the limit |
| `QuoteTables.Tables.ExpireQuotes` | internal/infrastructure/repositories/partner_payment_session_repo_impl.go:103-113 | the listed rows become EXPIRED whatever they were, the others stay |
| `QuoteSessions.StepKeepsInv` | internal/infrastructure/repositories/partner_payment_session_repo_impl.go:58-113 | every step of every transaction, cancellation and job keeps the invariant on sessions, open transactions and used_at |
| `QuoteSessions.SingleUse` | internal/usecases/partner_payment_session_usecase.go:405-510 | in every reachable state a quote has at most one session, whose merchant, amount and expiry are the quote's and its request's |
| `QuoteSessions.UsedIffConsumed` | internal/infrastructure/repositories/partner_payment_session_repo_impl.go:72-86 | used_at is set exactly when a session consumed the quote |
| `QuoteSessions.ActiveNeverReentered` | internal/infrastructure/repositories/partner_payment_session_repo_impl.go:58-113 | over every further run ACTIVE is not re-entered, used_at does not move and the quote's terms do not change |
| `QuoteSessions.SessionsStay` | internal/usecases/partner_payment_session_usecase.go:405-510 | a committed session stays as it is but for its status |
| `QuoteUpdates.CancelledForGood` | internal/infrastructure/repositories/partner_payment_session_repo_impl.go:58-70 | a cancelled quote is CANCELLED at once, and over every further run never active, never used and never consumed |
| `QuoteUpdates.RetiredStays` | internal/infrastructure/repositories/partner_payment_session_repo_impl.go:58-113 | a quote that is not active is never consumed over any further run |
| `QuoteUpdates.LockedRowWaits` | internal/usecases/partner_payment_session_usecase.go:234-258 | updates of a row that a transaction holds wait for it |
| `QuoteUpdates.ExpiryAchieves` | internal/infrastructure/jobs/partner_payment_session_expiry.go:53-69 | a fetch that nothing interferes with expires the rows it lists and no other |
| `QuoteUpdates.FetchableIff` | internal/infrastructure/repositories/partner_payment_session_repo_impl.go:88-101 | a job lists at most a hundred rows, each active and past its expiry |
| `QuoteUpdates.BeginsIff` | internal/usecases/partner_payment_session_usecase.go:235-258 | a session begins exactly on a free row of the merchant's own, active and not past its expiry, where the end of the year 9999 means none |
| `QuoteUpdates.RollbackFrees` | internal/usecases/partner_payment_session_usecase.go:234-510 | a rollback leaves no trace but the free row, which can be begun again |
| `QuoteSessions.BeginMarkCommit` | internal/usecases/partner_payment_session_usecase.go:405-510 | the rows after a session, whatever other transactions are open |
| `QuoteUpdates.CommitUsesTheMark` | internal/infrastructure/repositories/partner_payment_session_repo_impl.go:72-86 | used_at is the time of the one mark, however late the commit |
| `QuoteUpdates.SessionStatusIs` | internal/infrastructure/repositories/partner_payment_session_repo_impl.go:215-227 | a session's status update sets that status and nothing else |
| `QuoteExpiry.ExpiryCanOverwriteUsed` | internal/infrastructure/jobs/partner_payment_session_expiry.go:53-69 | for every expiry, every later commit and every time of use up to it, an interleaving that ends EXPIRED with a session and used_at set |
| `QuoteExpiry.StepKeepsTimes` | internal/infrastructure/jobs/partner_payment_session_expiry.go:53-69 | every step keeps: fetched rows are past their expiry; a used row that is fetched or reads EXPIRED was committed after its expiry; used_at is never after the commit |
| `QuoteExpiry.OverwrittenIff` | internal/infrastructure/repositories/partner_payment_session_repo_impl.go:72-113 | over all runs from an empty database, a quote with a given expiry, time of use and commit time can end up EXPIRED exactly when it was committed after its expiry, and used no later than that |
| `QuoteExpiry.UsedAtDecidesNothing` | internal/infrastructure/repositories/partner_payment_session_repo_impl.go:72-86 | whatever used_at says, the quote may be overwritten, also one marked used at 0 that expires at 10 |
| `QuoteExpiry.PromptUseStays` | internal/infrastructure/repositories/partner_payment_session_repo_impl.go:58-113 | a quote whose use committed no later than its expiry stays exactly as it is over every further run that does not cancel it |
| `Webhooks.Row.Enqueue` | internal/usecases/webhook_usecase.go:230-255 | a new row is pending with no retry and no due time |
| `Webhooks.Row.SetNextRetryAt` | internal/usecases/webhook_dispatcher.go:138-157 | the next due time by the schedule, or Failed at ten retries |
| `Webhooks.Row.Dispatch` | internal/usecases/webhook_dispatcher.go:61-136 | the row after a lookup error, an inactive merchant, an accepted and a refused request |
| `Webhooks.Row.Handle` | internal/infrastructure/jobs/webhook_delivery.go:66-83 | one fetched row: given up, not due, or dispatched |
| `Webhooks.ProcessPending` | internal/infrastructure/jobs/webhook_delivery.go:45-85 | each row of the batch is handled once and by itself, up to a cancellation |
| `Webhooks.StepKeepsInv` | internal/usecases/webhook_dispatcher.go:61-157 | every fetch, guard, start, finish, crash and lost write keeps the row and every copy good |
| `Webhooks.ReachableRowsAreGood` | internal/infrastructure/jobs/webhook_delivery.go:59-84 | in every reachable state Retrying means 1 to 9 retries and a due time, Failed means at least 10 and none, a due time means Retrying or Dropped; the job's guard never fires |
| `Webhooks.BecomesStrandedIff` | internal/usecases/webhook_dispatcher.go:101-136 | a step strands a row exactly when the row is stored as Delivering and the step loses its last sender |
| `Webhooks.StrandedIff` | internal/usecases/webhook_dispatcher.go:101-136 | over every run: the row is stranded at some point exactly when some step loses the last sender of a row stored as Delivering |
| `Webhooks.NothingLostNothingStranded` | internal/usecases/webhook_dispatcher.go:101-136 | a run that loses no final write and no sender never strands the row |
| `Webhooks.JobNeverRevives` | internal/infrastructure/jobs/webhook_delivery.go:45-85 | a row that is neither pending nor retrying, with no copy out, stays as it is in every run without a fetch by hand |
| `Webhooks.StrandedForGoodIff` | internal/infrastructure/jobs/webhook_delivery.go:45-85 | no run without a fetch by hand changes a stranded row, exactly when no worker holds a copy of it |
| `Webhooks.LostFinalWriteStrands` | internal/usecases/webhook_dispatcher.go:101-136 | a run that stores Delivering and loses the final write: stranded for good with no retry counted |
| `Webhooks.PollIsOneWorker` | internal/infrastructure/jobs/webhook_delivery.go:45-85 | a poll, whatever the row, the lookup and the response, is one worker's turn in the state machine with nothing lost |
| `Webhooks.JobBacksOffAndStops` | internal/usecases/webhook_dispatcher.go:22-33 | in every job-only run at most ten attempts, each later than the schedule's pause after the failure before, the tenth at least 483 minutes after the first failure; Failed exactly after ten failures |
| `Webhooks.PausesInMinutes` | internal/usecases/webhook_dispatcher.go:22-33 | the pause after each failure: 1, 2, 5, 10, 15, 30, 60, 120, 240 and 480 minutes |
| `Webhooks.OutcomeOf` | internal/usecases/webhook_dispatcher.go:61-157 | the row after each way a dispatch can end |
| `Webhooks.HandledIs` | internal/infrastructure/jobs/webhook_delivery.go:66-83 | ten retries are given up, a retry not due is left, the rest dispatched |
| `Webhooks.PollSends` | internal/infrastructure/jobs/webhook_delivery.go:45-85 | a poll sends every waiting row of a sendable merchant, once, with the outcome of that request |
| `Webhooks.PollLeavesAlone` | internal/infrastructure/repositories/webhook_log_repo_impl.go:85-101 | a row that is closed, out or due later is left alone |
| `Webhooks.PollWithoutMerchant` | internal/usecases/webhook_dispatcher.go:61-83 | an inactive merchant drops the row, an unreadable one leaves it |
| `Webhooks.TenRefusalsFail` | internal/infrastructure/jobs/webhook_delivery.go:45-85 | polls after each due time that are all refused send ten times and end Failed |
| `Webhooks.ManualRetrySends` | internal/usecases/webhook_usecase.go:258-266 | a retry by hand sends any row at once, whatever its status and due time |
| `Webhooks.JobRunIsTurns` | internal/infrastructure/jobs/webhook_delivery.go:45-85 | a whole run of polls is the run of that worker's turns in the state machine with nothing lost |
| `Webhooks.TenRequestsAlone` | internal/infrastructure/jobs/webhook_delivery.go:45-85 | over every run of the state machine without overlapping workers, retries by hand or a lost first write at most ten requests are sent, whatever final writes and workers are lost |
| `Webhooks.OverlapIsUnbounded` | internal/infrastructure/jobs/webhook_delivery.go:45-85 | workers that fetch the row before one of them stores Delivering all send it, any number of them |
| `PrivacyLifecycle.DerivePaymentPrivacyLifecycle` | internal/usecases/payment_usecase.go:1766-1891 | the loop over the log computes `Derive`, and the signals are exactly those with evidence, each once |
| `PrivacyLifecycle.DedupeSignals` | internal/usecases/payment_usecase.go:2341-2358 | the first occurrence of each signal, in order |
| `PrivacyLifecycle.OrderAndRepetitionAreIrrelevant` | internal/usecases/payment_usecase.go:1792-1834 | logs with the same set of events have the same stage, privacy flag and reason |
| `PrivacyLifecycle.IsPrivacyIff` | internal/usecases/payment_usecase.go:1766-1891 | in the privacy flow exactly when PRIVACY occurs in the failure reason or an event, and exactly when the stage is neither unknown nor not-privacy |
| `PrivacyLifecycle.StageOnlyAdvances` | internal/usecases/payment_usecase.go:1836-1891 | for a fixed payment row new events never move the stage back |
| `PrivacyLifecycle.StageIff` | internal/usecases/payment_usecase.go:1766-1891 | each of the nine stages exactly when the texts of the payment and its events say so, every text written out |
| `PrivacyLifecycle.ReasonIff` | internal/usecases/payment_usecase.go:1836-1891 | the reason given with each stage |
| `PrivacyLifecycle.RowSignalsIff` | internal/usecases/payment_usecase.go:1767-1790 | which signals the payment row gives |
| `PrivacyLifecycle.LogSignalsIff` | internal/usecases/payment_usecase.go:1792-1834 | which signals the log gives, each exactly when its texts are logged |
| `PrivacyLifecycle.DedupeGrows` | internal/usecases/payment_usecase.go:2341-2358 | signals keep the order of their first occurrence |
| `PrivacyLifecycle.ContainsIff` | internal/usecases/payment_usecase.go:1797-1834 | containing a text is being that text with something before and after |
| `PrivacyLifecycle.BlobIs` | internal/usecases/payment_usecase.go:1793-1795 | an event is searched in its type and its metadata, trimmed and in upper case |
| `PrivacyLifecycle.RecoveryIff` | internal/usecases/payment_usecase.go:1707-1764 | a recovery transaction is built exactly when the evidence opens the action and the id, gateway and chain are found |
| `PrivacyLifecycle.RecoveryIs` | internal/usecases/payment_usecase.go:1707-1764 | what a request for a recovery transaction gets, in terms of the texts: the first thing that is missing, or the transaction |
| `PrivacyLifecycle.ResolvedForGood` | internal/usecases/payment_usecase.go:1836-1838 | after a logged claim or refund every extension of the log is resolved, for any payment row, and no action yields a transaction |
| `PrivacyLifecycle.RecoveryNeedsFailure` | internal/usecases/payment_usecase.go:2208-2231 | retry and refund are built only with a forward failure or a retry request on record |
| `PrivacyLifecycle.ResolvedReportIff` | internal/usecases/payment_usecase.go:1902-1990 | when the report of a resolved payment offers an action that is never built |
| `PrivacyLifecycle.ClaimedIsOfferedAgain` | internal/usecases/payment_usecase.go:1966-1990 | a claimed payment whose gateway still shows the settlement is offered a claim that is never built |
| `PrivacyLifecycle.ReportOffersIff` | internal/usecases/payment_usecase.go:1966-1990 | of a private payment with a readable gateway the report admits an action exactly when the gateway state, the failure text and the payment status open it |
| `PrivacyLifecycle.StatusStageIff` | internal/usecases/payment_usecase.go:1966-1990 | the reported stage for each state of a readable gateway |
| `PrivacyLifecycle.StatusStageFallsBack` | internal/usecases/payment_usecase.go:1909-1951 | without a readable gateway, or where neither side shows privacy, the log's stage is reported |
| `PrivacyLifecycle.StatusPrivateIff` | internal/usecases/payment_usecase.go:1654-1681 | the report calls a payment private exactly when the log does or a readable gateway shows it |
| `PaymentIdSearch.ParsesIffLooksLikeId` | internal/usecases/payment_usecase.go:2318-2326 | the search's test and the parser accept the same texts |
| `PaymentIdSearch.ParsedIdIsNormal` | internal/usecases/payment_usecase.go:2233-2247 | 32 bytes, lower-case text, and the text parses to the same id |
| `PaymentIdSearch.ExtractSound` | internal/usecases/payment_usecase.go:2270-2316 | what is found is the text of an id at the end of a path of at most the remaining moves |
| `PaymentIdSearch.ExtractComplete` | internal/usecases/payment_usecase.go:2270-2316 | an id within the remaining moves makes the search find something |
| `PaymentIdSearch.ExtractIff` | internal/usecases/payment_usecase.go:2270-2316 | non-empty exactly when a 32-byte hex leaf exists within the depth, for any decoder, and what is found parses |
| `PaymentIdSearch.NamedKeysFirst` | internal/usecases/payment_usecase.go:2290-2302 | an id under one of the eight named keys comes before any other field |
| `PaymentIdSearch.NamedKeyOrder` | internal/usecases/payment_usecase.go:2290-2302 | of several named keys that lead to ids the first of the eight decides, the keys written out |
| `PaymentIdSearch.OtherFieldOrder` | internal/usecases/payment_usecase.go:2303-2307 | without one, the first field that leads to an id decides |
| `PaymentIdSearch.ArrayOrder` | internal/usecases/payment_usecase.go:2308-2313 | of an array the first item that leads to an id decides |
| `PaymentIdSearch.TextAnswer` | internal/usecases/payment_usecase.go:2275-2288 | an id is its own answer, other text gives what its JSON gives one level down |
| `PaymentIdSearch.FourMoves` | internal/usecases/payment_usecase.go:2270-2273 | an id four moves down is found, one five moves down is not |
| `PaymentIdSearch.MapOrderIsIrrelevant` | internal/usecases/payment_usecase.go:2303-2307 | whether something is found does not depend on the order of any map, at any level and in decoded text |
| `PaymentIdSearch.ResolveOnchainPaymentId` | internal/usecases/payment_usecase.go:2249-2268 | the loop from the newest event computes `Resolve` |
| `PaymentIdSearch.CallerWins` | internal/usecases/payment_usecase.go:2250-2253 | a supplied id is used whatever the events hold, and is accepted exactly when it is 32-byte hex; a blank one means the events are searched |
| `PaymentIdSearch.FoundIffHeld` | internal/usecases/payment_usecase.go:2255-2268 | the events yield an id exactly when some event holds one |
| `PaymentIdSearch.NewestWins` | internal/usecases/payment_usecase.go:2255-2268 | the id that is found is one that the newest event with any holds |
| `ClientFactory.StepKeepsLocked` | internal/infrastructure/blockchain/client_factory.go:27-53 | the write lock's holder is alone past it |
| `ClientFactory.StepKeepsSingle` | internal/infrastructure/blockchain/client_factory.go:38-52 | every operation keeps: made clients have distinct URLs, and none is dialled for a URL that has an entry |
| `ClientFactory.AtMostOneClientPerUrl` | internal/infrastructure/blockchain/client_factory.go:27-61 | over every interleaving, registrations included, no URL gets two dialled clients |
| `ClientFactory.EveryCallReturnsTheOneClient` | internal/infrastructure/blockchain/client_factory.go:27-53 | over every interleaving without a registration of the URL all successful calls return its one client |
| `ClientFactory.NeverStuck` | internal/infrastructure/blockchain/client_factory.go:27-53 | while any thread is inside a call, some thread can move, also where a waiting writer holds new readers back |
| `ClientFactory.LoneDial` | internal/infrastructure/blockchain/client_factory.go:27-53 | a call alone on a URL without an entry dials: it returns and stores the new client, or an error that leaves no entry |
| `ClientFactory.RegisteredIsReturned` | internal/infrastructure/blockchain/client_factory.go:55-61 | over every interleaving, once a registration takes effect every call on the URL that begins afterwards returns that client and no error, until the URL is registered again |
| `ClientFactory.TakesTheEntry` | internal/infrastructure/blockchain/client_factory.go:27-52 | the answer a call takes is the entry of its URL at that moment |
| `ClientFactory.EntryAfter` | internal/infrastructure/blockchain/client_factory.go:27-61 | over every run an entry changes by registration only, and is the last one that took effect |
| `ClientFactory.CallsDifferIff` | internal/infrastructure/blockchain/client_factory.go:27-61 | two successful calls return different clients exactly when between the moments they take their answers the URL was registered, and last with another client than the first call's |
| `ClientFactory.EverySuccessTakes` | internal/infrastructure/blockchain/client_factory.go:27-53 | every call that returns a client took it at some step |
| `ClientFactory.RegistrationChangesAnswers` | internal/infrastructure/blockchain/client_factory.go:55-61 | registrations of two different clients make two calls return different clients |
| `QuoteCache.SlotsAreDistinct` | internal/usecases/quote_request_cache.go:69-112 | well-formed lookups with the same key are the same lookup |
| `QuoteCache.TransparentIff` | internal/usecases/quote_request_cache.go:69-112 | over every sequence of calls cached answers are the uncached ones, exactly when calls that share a key agree |
| `QuoteCache.CacheIsTransparent` | internal/usecases/payment_quote_cache_helpers.go:15-170 | on 0x hex addresses that holds for every chain, token, contract, path, quoter, pool and route support lookup |
| `QuoteCache.WrittenAddressesAreWellFormed` | internal/usecases/payment_quote_cache_helpers.go:132-136 | every written address is a well-formed text |
| `QuoteCache.QuoterIsKnown` | internal/usecases/payment_quote_cache_helpers.go:119-130 | the quoter is the contract's own, or where that is zero the known one |
| `QuoteCache.LookupsAreRead` | internal/usecases/payment_quote_cache_helpers.go:15-170 | the other lookups pass on what the repository or the contract answers |
| `QuoteCache.SupportAnswersIff` | internal/usecases/payment_usecase.go:3139-3215 | when the route support check answers at all |
| `QuoteCache.StatusIs` | internal/usecases/payment_usecase.go:3217-3268 | when a route is executable, and each flaw exactly when it is there |
| `QuoteCache.SameTokenRoute` | internal/usecases/payment_usecase.go:3145-3152 | a token reaches itself directly without a look at the chain |
| `QuoteCache.KeptIff` | internal/usecases/payment_usecase.go:3222-3276 | errors and missing routes are not kept, every other answer is |
| `QuoteCache.UnprefixedTextsCollide` | internal/usecases/utils.go:206-214 | it fails as soon as a text without 0x and the native token differ |
| `QuoteCache.TransparentEverywhereIff` | internal/usecases/quote_request_cache.go:69-112 | a set of calls is answered transparently whatever the repositories and contracts hold, exactly when no two different calls in it share a key |
| `QuoteCache.ParallelLookupsAreTransparent` | internal/usecases/payment_usecase.go:2973-2983 | any number of well-formed lookups in parallel, each look and each store a step of its own: every answer is the uncached one |
| `QuoteCache.Cache.GetCachedActiveContract` | internal/usecases/payment_quote_cache_helpers.go:15-41 | answer and entries after the call, a missing contract cached like any other |
| `QuoteCache.Cache.GetCachedRoutePath` | internal/usecases/payment_quote_cache_helpers.go:71-100 | answer and entries after the call; the caller's slice is never one that the cache holds |
| `QuoteCache.Cache.GetCachedQuoterV3` | internal/usecases/payment_quote_cache_helpers.go:102-138 | answer and entries after the call, through the text that is stored |
| `QuoteCache.Cache.GetCachedV3PoolConfig` | internal/usecases/payment_quote_cache_helpers.go:140-170 | answer and entries after the call |
| `QuoteCache.Cache.GetCachedChainById` | internal/usecases/partner_quote_usecase.go:612-634 | answer and entries after the call |
| `QuoteCache.Cache.GetCachedTokenByAddress` | internal/usecases/partner_quote_usecase.go:636-658 | answer and entries after the call |
| `QuoteCache.Cache.CheckRouteSupport` | internal/usecases/payment_usecase.go:3139-3277 | answer and entries after the check and its nested contract lookup; the status and its slices are the caller's own, a missing route is not kept |
| `QuoteCache.AddressTextRoundTrip` | internal/usecases/payment_quote_cache_helpers.go:112-136 | a stored quoter reads back as the address it was, whatever letters its checksum writes in upper case |
| `QuoteCache.CloneStrings` | internal/usecases/quote_request_cache.go:118-125 | a new slice with the same contents |
| `QuoteCache.RouteStatus.Clone` | internal/usecases/quote_request_cache.go:127-140 | a new status with new slices and the same value |
| `QuoteCache.OverwriteAndLookAgain` | internal/usecases/payment_quote_cache_helpers.go:71-100 | overwriting a returned path does not change the next lookup |
| `QuoteCache.SpoilAndCheckAgain` | internal/usecases/payment_usecase.go:3153-3161 | spoiling a returned status does not change the next check |
| `Fees.ApprovalAmount` | internal/usecases/payment_usecase.go:999-1117 | never below the total charged on any path, and its exact value or error on each |
| `Fees.FallbackCovers` | internal/usecases/payment_usecase.go:1097-1116 | the fallback leaves at least one per cent and 1000 units above both the capped on-chain total and the charge |
| `Fees.FallbackGrows` | internal/usecases/payment_usecase.go:1097-1116 | it never falls when the amount grows |
| `Fees.FallbackIs` | internal/usecases/payment_usecase.go:1097-1116 | the fee is the rate's share, at most the cap; the buffer is one per cent, at least 1000 |
| `Fees.BridgeValue` | internal/usecases/payment_usecase.go:652-657 | at least the fee, at most 1.2 times it and within one unit of that, so the lower-bound guard never acts |

## Left out

- Floating-point amounts (CalculateFees, formatAmount): not exact integers.
- Contract ABI resolution, packing and unpacking, selectors, RPC, JWE, HMAC and hashing: foreign libraries. The instruction's discriminator is a parameter.
- HTTP handlers, configuration, logging, metrics, tracing, error texts and the plain repositories: they would only add easy members.
- Contract config audit and crosschain preflight: messages around remote reads.
- Texts are sequences of characters: non-ASCII digits, non-ASCII letter case and Unicode spaces above U+00FF are not modelled, and chain ids and addresses in the Solana instruction are given as bytes or ASCII text.
- How the invoice quote recognises a direct leg (equal contract addresses on the destination chain, equal symbols on the source chain): a leg is given as direct or swapped.
- The same-chain branch of the invoice quote, which hands over to the partner quote use case (internal/usecases/create_payment_usecase.go:653-668).
- Stargate requests give the addresses of the destination side, peers and source senders as parsed values; the contract getters isRouteConfigured and getPathState are taken to answer from the same storage cells that the setters write.
- Session expiry and ResolvePaymentCode: the same two-step job on another table, and checks without state.
- QuoteTables.Tables.CreateSession: what the stages between the quote checks and the commit compute (chain, token, calldata, approval, payment code) is reduced to whether each succeeds.
- Webhook HTTP exchange, signature and response body: a request is accepted or refused.
- Cached chains, tokens and contracts are shared references in the source; a caller that writes through one changes the cached row. Only slices and route statuses are cloned there, and only their sharing is modelled.
- The cache with its slices is modelled for one goroutine at a time; lookups in parallel are modelled on values. Both take a context that carries a cache; without one every lookup is the direct one.
- The cached ABI and token-by-symbol lookups repeat the pattern of the others.
- The gateway reads behind the privacy status report are one reading that succeeds or fails as a whole.
