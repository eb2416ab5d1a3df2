# A verified model of the Acta maker SDK

The Acta maker SDK quotes, signs, funds and settles options on a Solana venue, and runs the capital of vaults that
trade there. This project models the parts of the SDK whose correctness does not follow from reading one function,
and proves what each part is for. The main results are for-all statements: over all inputs, all message orders, all
thread interleavings, all servers, or all sequences of calls. A few lemmas are witnesses instead: an input on which a
promise fails, or one that meets a theorem's hypotheses.

| part of the SDK | modules |
|---|---|
| spread and premium money math | `Arith`, `FixedPoint`, `Spreads`, `Amounts` |
| lock-free nonce generator | `Nonce` |
| signature confirmation over a socket, then reconciliation | `Confirmation`, `Chunks`, `Reconciliation` |
| staged two-transaction swap and its restarts | `Curator` |
| vault capital crank and withdrawal planning | `Crank`, `Withdrawals`, `Drain` |
| price-route account codec | `Bytes`, `ItemLists`, `PriceBricks`, `PriceReader`, `PriceRoute` |
| signed order layouts and the quote binding that feeds them | `Terms`, `Writes`, `Orders`, `Quote` |
| authentication challenges | `Auth` |
| batched account reads and paged lists | `Batch`, `Chunks`, `Paging` |
| native SOL budget of a funding transaction | `Wsol` |

Code that updates things in place keeps that form: the message loop fills an array, the nonce generator, the window
tracker, the byte reader, the page continuation and the swap driver are classes, and the order buffers are filled by
copies at offsets. Each such method is proved against a specification function, and the theorems are about that
function. Code that only computes is a function. Machine integers are explicit: a `u64` that saturates, wraps, is
checked or is cast is written as that operation.

## What is assumed of the world

- A remote read is a function from keys to answers, of any length or an error. Only the theorems that compare with
  per-key lookups suppose that every chunk saw one state (`Chunks.Faithful`).
- A well-behaved confirmation server watches each index under its own subscription and tells each subscription once
  (`Confirmation.WellBehaved`). `Confirmation.ListenAttributes` supposes nothing about the server.
- A sent transaction lands or is lost when it is sent; confirmation may fail either way (`Curator.Fate`). A process
  that dies inside a call is a call whose next driver operation failed.
- The on-chain effect of each capital step is the relation `Drain.Effect`; the effect of each funding instruction is
  `Wsol.Exec`.
- Entropy draws of the nonce generator are any set of values. The code does not reject a draw of zero, so uniqueness is
  proved for draws without zero, and the exact condition for all draws is `Nonce.CollisionFreeExactlyWhenUnmixed`.
- Base58, SHA-256 and address derivation are parameters. Of base58 only `Auth.Sound` is relied on; nothing is relied on
  of the address derivation, and a result that a collision would break exhibits the collision.

## Where a promise does not hold as stated

- Call and put payoffs of one spread add up to the collateral or one atom more. `Spreads.SpreadParity` says exactly
  when the extra atom appears; `Spreads.ParityCanExceedCollateral` shows that it does.
- A partial withdrawal plan stays below the supply exactly when all requests but the largest do
  (`Withdrawals.PartialNeverDrains`); for requests within the supply it always does. `Withdrawals.PartialCanDrain` is
  an input above the supply on which it does not.
- The pre-check of the SOL budget lets one uncovered balance through, the largest `u64`; the final check refuses it
  (`Wsol.DecideWrapIsExact`, `Wsol.UncoveredWrapPasses`, `Wsol.ChecksAreExact`).
- A funding transaction whose SOL budget validates can still fail: when no accounts are created, the position's token
  account is never read. `Wsol.BudgetDecidesExecution` states exactly when it succeeds; `Wsol.ValidatedDepositCanFail`
  is an input on which it does not.
- The order layouts alone would confuse a cash put with a zero-lower put spread (`Quote.UnnormalizedCollides`); the
  binding refuses the latter (`Quote.ZeroLowerRefused`).
- Section 5.6 of RFC 3339 allows a leap second; the challenge validator does not (`Auth.LeapSecondRefused`), and the
  model follows the code.

## Model

| member | source | states |
|---|---|---|
| FixedPoint.ExactRounds | src/spreads.rs:70-92 | the exact floor and ceiling are the whole amounts just below and just above price·quantity·10^q / 10^(9+u) |
| Spreads.QuoteAmountIsExact | src/spreads.rs:70-92 | the amount is the exact floor or ceiling of price·quantity·10^q / 10^(9+u) over unbounded integers, and fails exactly when a decimal exceeds 18 or that amount exceeds u64; no unchecked u128 operation overflows |
| Spreads.FeeAtMostAmount | src/spreads.rs:174-210 | a rate of at most 100% gives a fee within the amount |
| Spreads.ValidatePremiumExactly | src/spreads.rs:41-68 | which strikes, quantities and prices are accepted, and which complaint is made of the others |
| Spreads.SpreadTerms.QuotesWithinCollateral | src/spreads.rs:94-108 | once collateral is computable, every price up to the width quotes without error, exactly, and within the collateral |
| Spreads.SpreadTerms.PayoffWithinCollateral | src/spreads.rs:146-154 | solvency: once collateral is computable, the payoff at every settlement price succeeds and is at most the collateral |
| Spreads.SpreadTerms.SettleConserves | src/spreads.rs:156-172 | settling succeeds exactly with at least the collateral; holder payoff and writer return then make up the actual collateral; the second shortage branch is unreachable |
| Spreads.SpreadTerms.PremiumFeeNearExact | src/spreads.rs:174-210 | the fee taken as a difference of two rounded quotes is within one atom of the exact fee |
| Spreads.SpreadTerms.PremiumRefusals | src/spreads.rs:174-210 | when a premium exists, in exact amounts, which reason is reported when it does not, and overflow happens only when the collateral overflows |
| Spreads.SpreadTerms.PremiumSplits | src/spreads.rs:174-210 | net + fee = gross, prefunded + net = collateral, 0 < gross < collateral, the fee is exactly the smaller of the two fee caps, and no subtraction underflows |
| Spreads.CollateralExactly | src/spreads.rs:94-108 | collateral is the exact ceiling of the width, refused for unordered strikes and overflowing exactly when it does not fit |
| Spreads.PayoffIsExact | src/spreads.rs:146-154 | payoff is the exact ceiling of the distance from the settlement price, clamped between the strikes, to the strike where the spread pays nothing; collateral is that of the width |
| Spreads.PayoffBetween | src/spreads.rs:146-154 | between the strikes a call pays on price minus lower and a put on upper minus price, rounded up |
| Spreads.PayoffMonotone | src/spreads.rs:146-154 | call payoff never falls and put payoff never rises with the settlement price |
| Spreads.PayoffAtBounds | src/spreads.rs:146-154 | beyond the strikes a spread pays nothing on one side and the whole collateral on the other |
| Spreads.SpreadParity | src/spreads.rs:94-108 | call and put payoff add up to the collateral, plus one atom exactly when both roundings split an atom |
| Spreads.MultiplyingBranchIsExact | src/spreads.rs:70-92 | in the multiplying branch no atom is split, so parity is exact |
| Spreads.ParityCanExceedCollateral | src/spreads.rs:94-108 | an input on which the extra atom occurs |
| Amounts.ScaledQuoteAmountIsExact | src/types/amounts.rs:100-118 | the physical amount is the exact floor and agrees with the floor form of the spread amount on every input, failures included |
| Amounts.Fill.LowerPriceQuotes | src/types/amounts.rs:66-96 | lowering the unit price keeps a quote computable and costs the exact fee within rounding |
| Amounts.Fill.PremiumSplits | src/types/amounts.rs:66-96 | when a premium exists, net + fee = gross, the fee is exactly the smaller of the two fee caps, and no subtraction underflows |
| Nonce.WrappingAddExactly | src/nonce.rs:67-78 | the sum issued wraps at 2^64 |
| Nonce.StepKeepsInvariant | src/nonce.rs:52-78 | every atomic step of every thread keeps one base and consecutive counts |
| Nonce.RunKeepsInvariant | src/nonce.rs:52-78 | the invariant holds after every interleaving of any number of threads, stale first loads included |
| Nonce.NoncesUnique | src/nonce.rs:52-78 | with nonzero draws and fewer than 2^64 calls, all nonces of any interleaving are distinct and use one nonzero base |
| Nonce.BaseSetOnce | src/nonce.rs:52-64 | over a run the base is zero or its final value |
| Nonce.LargestDrawCollides | src/nonce.rs:52-78 | a reachable collision when the draws contain zero and the largest value |
| Nonce.SmallerDrawCollides | src/nonce.rs:52-78 | a reachable collision when the draws contain zero and any other value |
| Nonce.CollisionFreeExactlyWhenUnmixed | src/nonce.rs:52-78 | runs are free of collisions if and only if the entropy source never mixes zero and nonzero draws |
| Nonce.SoloOutcome | src/nonce.rs:67-78 | what one uninterrupted call of the concurrent machine does, failure of the entropy source included |
| Nonce.AtomicNonceGenerator.constructor | src/nonce.rs:45-50 | a new generator is the machine's start state |
| Nonce.AtomicNonceGenerator.Init | src/nonce.rs:52-64 | initialising sets the base once and fails only without entropy |
| Nonce.AtomicNonceGenerator.NextU64 | src/nonce.rs:67-78 | an undisturbed call returns what the machine issues and leaves its state |
| Confirmation.SubscribeSignatures | src/chain/confirmation.rs:76-149 | the loop leaves in the caller's results what the specification says of the messages read, wherever it stops |
| Confirmation.Resolved | src/chain/confirmation.rs:141-146 | the all-resolved test |
| Confirmation.ListenAttributes | src/chain/confirmation.rs:76-149 | for any server at all: a resolved index was acknowledged under a subscription that was notified of exactly that status |
| Confirmation.AnyStreamReports | src/chain/confirmation.rs:120-140 | for any server at all: an index is confirmed only after a notification without an error and failed only after one with that error |
| Confirmation.StreamEnds | src/chain/confirmation.rs:94-149 | what every other message does, whatever came before: which stop the loop, which fail it and with what error, which change nothing |
| Confirmation.RoomForNotification | src/chain/confirmation.rs:120-140 | for a well-behaved server the bound on early notifications never fires, whenever the notification arrives |
| Confirmation.EarlyBound | src/chain/confirmation.rs:120-140 | of notifications before any acknowledgement exactly as many are held as there are signatures, and one more is an error |
| Confirmation.ListenJoins | src/chain/confirmation.rs:76-149 | for a well-behaved server and any arrival order cut at any point, each index has its subscription's status if both messages arrived and is pending otherwise, and the loop does not fail |
| Confirmation.StreamReports | src/chain/confirmation.rs:76-149 | for a well-behaved server, stated on the messages: confirmed exactly when acknowledged and notified without an error, failed exactly with the notified error, pending otherwise |
| Confirmation.OrderIndependent | src/chain/confirmation.rs:76-149 | any two arrival orders of the same messages give the same results |
| Chunks.ReadChunks | src/chain/batch.rs:151-168 | reads in chunks of bounded size cover the keys in order, and a short or long answer is an error |
| Chunks.ChunkingInvisible | src/chain/batch.rs:151-168 | against one state a chunked read is the per-key lookup, in order |
| Reconciliation.SignatureStatuses | src/chain/confirmation.rs:15-40 | statuses are read in chunks of at most 256 that cover the signatures in order |
| Reconciliation.StatusesReport | src/chain/confirmation.rs:15-40 | against one state each signature gets the one status its lookup says: confirmed at the commitment without an error, failed with its error, pending when absent or below the commitment |
| Reconciliation.ConfirmSignatures | src/chain/confirmation.rs:45-73 | after the socket pass only pending slots are re-read and rewritten |
| Reconciliation.Fill | src/chain/confirmation.rs:60-73 | the k-th unresolved slot takes the k-th status and nothing else changes |
| Reconciliation.ReconciledByOwnSignature | src/chain/confirmation.rs:45-73 | each slot keeps its socket status, or takes what the lookup of its own signature says |
| Curator.AnyDriver | src/chain/vault/curator.rs:146-203 | for every driver: at most two sends, the second an unstage of the same asset and generation; a failure after a confirmed stage carries its signature and every other failure is the driver's own |
| Curator.ChainDriver.constructor | src/chain/vault/curator.rs:119-126 | a driver starts in the given world |
| Curator.SendRecords | src/chain/vault/curator.rs:119-126 | every send adds one record: the slot moves only if it landed, by the program's rule, and only a landed send is confirmed |
| Curator.ExecuteDecides | src/chain/vault/curator.rs:146-203 | one call decides as the driver's answers say, so what holds for every driver holds for it |
| Curator.ExecuteSends | src/chain/vault/curator.rs:146-203 | one call sends exactly what the driver's answers name, in order, its log only growing |
| Curator.RunExecute | src/chain/vault/curator.rs:146-203 | the imperative call does to its driver what one call does in the world |
| Curator.PlanTable | src/chain/vault/router.rs:224-395 | which plan is made from which slot, intent, snapshot and fit, and exactly when there is one |
| Curator.PlanShape | src/chain/vault/router.rs:238-395 | a plan from an open slot is its full unstage; a plan from a closed slot never unstages |
| Curator.PlanAccepted | src/chain/vault/router.rs:238-395 | by the program's rule a plan is accepted in the state it was made from, and its unstage once its stage has landed |
| Curator.FinishIsSafe | src/chain/vault/curator.rs:165-203 | after a confirmed stage the second half unstages that slot or reports the stage's signature |
| Curator.ExecuteIsSafe | src/chain/vault/curator.rs:146-203 | one call with any reads and any fates: no stage against an open slot, success leaves the slot closed, the checks on the second plan never fire |
| Curator.CallsKeepHistory | src/chain/vault/curator.rs:146-203 | any sequence of calls extends the log by proper sends that account for every move of the slot |
| Curator.SlotsBalance | src/chain/vault/account.rs:92-107 | slots opened and not closed are the one still open, and the generation counts the openings |
| Curator.GenerationsIncrease | src/chain/vault/account.rs:92-107 | of two landed stages the later has the larger generation |
| Curator.RestartsAreSafe | src/chain/vault/curator.rs:118-203 | over every sequence of calls and restarts: no stage against an open slot, at most two sends per call, slots balance, no generation twice |
| Curator.FitWithQuotes | src/chain/vault/curator.rs:97-116 | budgets are tried in falling order and only a plan that does not fit leads to the next; the answer is that of the last budget tried |
| Crank.StepsExactly | src/chain/vault/crank.rs:84-142 | for each step, exactly the states, windows and policies in which it is asked for |
| Crank.StepGates | src/chain/vault/crank.rs:84-142 | withdrawals outside withdraw-only are priced and follow all deposits; a cycle is finalized only drained, priced and unstaged |
| Crank.WithdrawalsServedExactlyIn | src/chain/vault/crank.rs:84-142 | the modes in which withdrawals are ever served |
| Crank.StuckExactly | src/chain/vault/crank.rs:84-142 | when a vault with pending requests is left without a step |
| Crank.WindowTracker.constructor | src/chain/vault/crank.rs:23-26 | a new tracker has seen nothing |
| Crank.WindowTracker.Observe | src/chain/vault/crank.rs:28-50 | one observation updates the remembered run and reports its length |
| Crank.TrackRemembersRun | src/chain/vault/crank.rs:28-50 | over any trace the tracker remembers the first observation of the current unbroken run |
| Crank.ClockReachesExactly | src/chain/vault/crank.rs:28-50 | with a nondecreasing clock the reported duration reaches d exactly when the state was held for d |
| Crank.WindowCadence | src/chain/vault/crank.rs:115-124 | a drained normal idle vault is told to close or open deposits exactly when every observation back to one a window ago saw the same state |
| Withdrawals.SaturationHarmless | src/chain/vault/crank.rs:153-171 | the saturating sum compares with the supply as the exact sum does |
| Withdrawals.SortIsStable | src/chain/vault/crank.rs:153-171 | the sort orders, keeps every request and keeps queue order among equals |
| Withdrawals.PlanWithdrawals | src/chain/vault/crank.rs:153-171 | the planner computes the specified plan |
| Withdrawals.RedemptionConserves | src/chain/vault/crank.rs:153-171 | shares burned and shares still queued make up the queue |
| Withdrawals.PartialNeverDrains | src/chain/vault/crank.rs:153-171 | redeeming the partial list burns less than the supply if and only if all requests but the largest do, so always when requests are within a positive supply |
| Withdrawals.PartialCanDrain | src/chain/vault/crank.rs:153-171 | two requests above the supply whose partial list burns all of it |
| Withdrawals.OnlyLargestHeldBack | src/chain/vault/crank.rs:153-171 | everyone is listed, or all but one largest request |
| Withdrawals.HeldBackExactly | src/chain/vault/crank.rs:153-171 | the first largest request is held back and every other one is listed exactly once, largest first, equal requests in queue order |
| Withdrawals.FinalExactly | src/chain/vault/crank.rs:153-171 | a final user is named exactly for a lone request of the whole supply |
| Withdrawals.DrainingQueueConverges | src/chain/vault/crank.rs:153-171 | when requests equal the supply, redeeming the partial list and planning again names exactly the held-back user as final |
| Withdrawals.PlanProgresses | src/chain/vault/crank.rs:153-171 | a plan names nobody exactly for an empty queue or a lone request above the supply |
| Drain.PassKeepsSound | src/chain/vault/crank.rs:84-171 | every pass keeps one request per user and requests within the supply |
| Drain.PassDescends | src/chain/vault/crank.rs:84-171 | every pass of a ready vault with pending requests lowers the measure |
| Drain.PassExists | examples/vault_capital.rs:72-143 | such a vault always has a pass to take |
| Drain.CrankDrains | examples/vault_capital.rs:72-143 | every run of a ready vault empties both queues within its measure of passes, or is still shorter than that with requests pending |
| Drain.StoppedRunDrained | examples/vault_capital.rs:72-143 | a run that cannot go on under some clock reading has emptied both queues |
| Drain.DrainingRun | examples/vault_capital.rs:72-143 | from every ready vault and under every clock some run of at most its measure of passes ends drained |
| Drain.SupplyDrainedOnlyByFinal | src/chain/vault/crank.rs:144-171 | a pass that takes the supply to zero is the final redemption of a lone request for all of it |
| Drain.RunDrainsSupplyOnlyByFinal | src/chain/vault/crank.rs:144-171 | the same over whole runs |
| Bytes.LeByte | src/orders/mod.rs:159-182 | byte i of a number laid down in little-endian order is its base-256 digit of weight 256^i |
| PriceBricks.DecodeForward | src/chain/vault/price_route.rs:110-174 | decoding the encoding of any well-formed brick returns it and the rest of the bytes |
| PriceBricks.DecodeBack | src/chain/vault/price_route.rs:110-174 | what a decode accepted is well formed and re-encodes to exactly the bytes consumed |
| PriceBricks.BrickCodec | src/chain/vault/price_route.rs:110-174 | bytes decode to a brick if and only if they are its encoding |
| PriceReader.Reader.constructor | src/chain/vault/price_route.rs:289-293 | a reader starts on its region |
| PriceReader.Reader.TakeBytes | src/chain/vault/price_route.rs:294-301 | takes exactly the bytes asked for, or nothing |
| PriceReader.Reader.DecodeBrick | src/chain/vault/price_route.rs:110-174 | field by field, consumes exactly one brick's encoding or reports the first error; what is left is always a suffix of the region |
| PriceRoute.ParseBricks | src/chain/vault/price_route.rs:229-238 | the loop over the reader decodes the region to its bricks or the first error |
| PriceRoute.RegionForward | src/chain/vault/price_route.rs:212-257 | the encodings of up to six bricks decode to those bricks |
| PriceRoute.RegionBack | src/chain/vault/price_route.rs:212-257 | an accepted region is exactly the encodings of its bricks |
| PriceRoute.Parse | src/chain/vault/price_route.rs:212-257 | header checks, then the bricks of the declared region, give the specified route or error |
| PriceRoute.RouteCodec | src/chain/vault/price_route.rs:212-257 | an account parses to a route if and only if it holds that route |
| PriceRoute.EveryRouteFits | src/chain/vault/price_route.rs:212-257 | every well-formed route has an account that parses back to it |
| PriceRoute.PaddingIgnored | src/chain/vault/price_route.rs:212-257 | parsing, route or error alike, depends on nothing outside the named bytes and the declared region |
| PriceRoute.Accounts | src/chain/vault/price_route.rs:261-279 | the route's address, then each brick's accounts in order |
| PriceRoute.AccountsExactly | src/chain/vault/price_route.rs:261-279 | each brick lists a feed address, or an account followed by its program data, or nothing, and those parts follow one another in brick order |
| PriceRoute.SectionLengthStored | src/chain/vault/price_route.rs:177-183 | a parsed route lists exactly as many brick accounts as the account stores |
| Terms.ProductTable | src/types/ids.rs:197-342 | the chain code, strikes, spread flag and put flag of every product |
| Terms.ChainRoundTrip | src/types/ids.rs:290-342 | public and chain terms convert back and forth except on a zero-lower put spread, the only shape with a second name |
| Terms.PartsRoundTrip | src/types/ids.rs:418-446 | parts of chain terms read back exactly when their strikes are admissible |
| Terms.PartsExactly | src/types/ids.rs:418-446 | parts are accepted exactly as the code and strikes of some chain terms with admissible strikes, and give those terms |
| Orders.BuildPhysicalPreimage | src/orders/mod.rs:159-182 | the buffer filled by copies is the specified preimage |
| Orders.BuildOrderPreimage | src/orders/mod.rs:147-157 | spread products are refused, others get the physical preimage of their put flag |
| Orders.BuildSpreadPreimage | src/orders/spreads.rs:27-57 | premium validation errors are returned, else the buffer is the specified spread preimage |
| Orders.PhysicalLayout | src/orders/mod.rs:33-48 | the filled buffer is the documented fields end to end, with no gap or overlap |
| Orders.SpreadLayout | src/orders/spreads.rs:7-8 | the spread buffer is the physical layout of the lower strike followed by the upper strike |
| Orders.PhysicalHeader | src/orders/mod.rs:159-182 | the four tag bytes, the side byte and the put byte, as literal values |
| Orders.SpreadHeader | src/orders/spreads.rs:27-57 | the four tag bytes, the side byte and the spread code, as literal values |
| Orders.PhysicalInjective | src/orders/mod.rs:159-182 | physical preimages are equal if and only if every field is |
| Orders.SpreadInjective | src/orders/spreads.rs:27-57 | spread preimages are equal if and only if every argument is |
| Quote.FromBroadcast | src/quote.rs:97-150 | the binding or the first refusal, with the offered terms collected in order |
| Quote.BindExactly | src/quote.rs:97-150 | a request is bound if and only if its terms and its market are acceptable, and then to its own values |
| Quote.BindRefusesTruly | src/quote.rs:97-150 | every refusal names a fault the request really has |
| Quote.AlternativesMeans | src/quote.rs:129-136 | the alternatives are all options but the requested terms, with duplicates |
| Quote.OfferedIsSound | src/quote.rs:97-150 | everything offered was sent, has the requested product and the market's side, and is normalized |
| Quote.ZeroLowerRefused | src/quote.rs:103-109 | a zero-lower put spread is refused |
| Quote.BoundMarket | src/quote.rs:206-255 | what acceptance says of chain, program, mints, expiry and market address |
| Quote.PreimageOf | src/quote.rs:517-525 | resolving and building the preimage compute the signed bytes or the first error |
| Quote.SomeQuoteSigned | src/quote.rs:517-525 | some quote on an accepted binding is signed, so the theorems about such quotes are not empty |
| Quote.SignedExactly | src/quote.rs:489-525 | a quote is signed if and only if it resolves and, for a spread, its strikes are in order and its price is positive and below the width; otherwise with which error |
| Quote.SignedUnambiguous | src/quote.rs:370-426 | two quotes on accepted bindings sign equal bytes if and only if they agree on side, full terms, chain, program, market, quantity, price, expiry, maker, taker and nonce |
| Quote.MarketFixesDescriptor | src/quote.rs:206-255 | bindings to one market and product have one descriptor exactly when the address inputs agree; otherwise those inputs are a collision of the derivation |
| Quote.SignedFixesMarket | src/quote.rs:489-525 | equal signed bytes mean the same program and the same whole market descriptor, or two different markets that derive one address |
| Quote.UnnormalizedCollides | src/quote.rs:489-515 | the layouts alone would confuse a cash put with a zero-lower put spread |
| Quote.SignedIsLaid | src/quote.rs:411-426 | the signed bytes are the documented layout of what the quote commits to |
| Quote.SignedHeader | src/quote.rs:411-426 | the tag and the side of the signed bytes, as literal values |
| Quote.ResolveExactly | src/quote.rs:370-409 | a quote resolves if and only if it is complete, on offered terms and inside the venue's window, and then to the values it was given |
| Quote.ResolveRefusesTruly | src/quote.rs:370-409 | every reason a quote does not resolve is so, with the values it names |
| Quote.ResolvedInWindow | src/quote.rs:370-409 | a resolved quote on an accepted binding is on terms the request sent and expires by the market's expiry |
| Quote.ServerRebuilds | src/quote.rs:527-543 | a server rebuilds the signed bytes and the order id from its own request, the maker's owner and the message |
| Batch.DistinctSortedMeans | src/chain/batch.rs:211-212 | sorting and deduplicating keeps exactly the keys, once, in increasing order |
| Batch.FetchAccounts | src/chain/batch.rs:151-168 | the chunked read of increasing keys in requests of at most 100, and what it shows of the chain |
| Batch.Index | src/chain/batch.rs:213-217 | the map of zipped keys and values has exactly those keys and values |
| Batch.DecodePositions | src/chain/batch.rs:218-231 | the loop splits keys into decoded and missing ones in order, or reports the first error |
| Batch.DecodeMarkets | src/chain/batch.rs:235-243 | every market key is decoded into the map, or the first failing key is reported |
| Batch.DecodeBalances | src/chain/batch.rs:244-262 | every token's balance in order, or the first error |
| Batch.AttachMarkets | src/chain/batch.rs:263-272 | every position with its own market, every lookup in domain |
| Batch.SortedReportsLeast | src/chain/batch.rs:232-243 | reading sorted distinct keys reports the least failing key of the original list |
| Batch.NaiveSucceedsExactly | src/chain/batch.rs:193-276 | the per-key snapshot succeeds exactly when each position is absent or the owner's with a readable market, and each premium is of one of the two token programs with an absent or readable account |
| Batch.NaiveRefusesTruly | src/chain/batch.rs:193-276 | the error reported is the error of one of the positions, their markets or the premiums |
| Batch.NaiveShows | src/chain/batch.rs:193-276 | every position shown is decoded from its own address, belongs to the owner and has its own market; balances follow the tokens; present and missing keys are in input order |
| Batch.Snapshot | src/chain/batch.rs:193-276 | whatever the node answers: an unsupported token is refused, else a round fails as a whole with its error, or the batched snapshot equals one read per key of exactly what the two rounds read: order, duplicates, missing keys and errors; against one chain state both rounds read it |
| Paging.Continuation.constructor | src/paging.rs:5-8 | no id has been seen |
| Paging.Continuation.Advance | src/paging.rs:10-16 | empty and repeated ids are refused, others are remembered |
| Paging.StepKeeps | src/paging.rs:34-38 | every turn keeps the request chain and never repeats a cursor |
| Paging.RunKeeps | src/paging.rs:23-40 | for any server at any point: Start first, no cursor twice, each request continues the pages so far, and a list is returned only whole |
| Paging.LoadsBounded | src/paging.rs:23-40 | if what the server answers continues only in a set of n ids, at most n + 1 loads are made and the collection ends |
| Paging.FetchAll | src/paging.rs:23-40 | the loop returns the end of that run and made exactly its requests |
| Paging.PageIdsFrom | src/http/mod.rs:115-129 | for row pages it is enough that each page answered continues in the set |
| Paging.RowsBounded | src/http/mod.rs:115-129 | a server of row pages with n ids is asked at most n + 1 times |
| Paging.FetchRows | src/http/mod.rs:115-129 | a list call returns all rows of all pages in request order or the error, never some of the rows |
| Paging.CollectedWhole | src/http/mod.rs:294-306 | a collected list is the rows of all pages in request order, ending at a page without continuation |
| Auth.SplitJoined | src/ws/auth.rs:54-60 | splitting at the first separator undoes printing |
| Auth.MonthLengths | src/ws/auth.rs:83-89 | the month table is the Gregorian calendar's, stated by its rule |
| Auth.LeapSecondRefused | src/ws/auth.rs:90-90 | a leap second is refused |
| Auth.UtcSecondsExactly | src/ws/auth.rs:68-91 | accepted timestamps are exactly the printed valid moments, each of one moment |
| Auth.NonceExactly | src/ws/auth.rs:54-66 | accepted nonces are exactly 32 bytes printed in lower-case hexadecimal |
| Auth.BodyExactly | src/ws/auth.rs:54-66 | accepted bodies are exactly the printed nonce and moment |
| Auth.PrintedTexts | src/ws/auth.rs:3-66 | the fixed texts of the three challenges, written out |
| Auth.MakerExactly | src/ws/auth.rs:6-15 | the maker validator accepts exactly the printed maker challenges |
| Auth.WalletExactly | src/ws/auth.rs:18-29 | the wallet validator accepts exactly the printed challenges of a decodable wallet |
| Auth.VaultExactly | src/ws/auth.rs:32-52 | the vault validator accepts exactly the printed challenges of its operator and vault |
| Auth.MakerApart | src/ws/auth.rs:6-52 | no maker challenge is a wallet or vault challenge |
| Auth.WalletVaultApart | src/ws/auth.rs:18-52 | no wallet challenge is a vault challenge |
| Auth.WalletUnique | src/ws/auth.rs:18-29 | a challenge validates for at most one wallet |
| Auth.VaultUnique | src/ws/auth.rs:32-52 | a challenge validates for at most one operator and vault |
| Wsol.Budget.ValidateIsExact | src/chain/wsol.rs:96-117 | the checked sum decides as the unbounded one, and overflow is reported exactly when it exceeds u64 |
| Wsol.DecideWrapIsExact | src/chain/wsol.rs:126-147 | the saturating pre-check never refuses a covering balance, wraps exactly the shortfall, and is wrong only for the largest balance |
| Wsol.UncoveredWrapPasses | src/chain/wsol.rs:126-147 | a balance that passes the pre-check without covering the sum, and that the final check refuses |
| Wsol.ParseBalanceExactly | src/chain/wsol.rs:223-237 | a balance is read if and only if the account is a wrapped-SOL token account of that owner and program that holds it |
| Wsol.FundingStateExactly | src/chain/wsol.rs:165-181 | the funding account is read as what it holds, and only a missing one the holder creates costs rent |
| Wsol.PlanIsExact | src/chain/wsol.rs:150-213 | from an account that holds some wrapped SOL: that plus the wrap is the settlement, rent is charged once per missing account the holder pays for, and when a plan exists, or with which error there is none |
| Wsol.NoWrapExactly | src/chain/wsol.rs:150-213 | nothing is wrapped exactly when the holder already has the settlement wrapped |
| Wsol.ChecksAreExact | src/chain/wsol.rs:104-147 | pre-check and final check accept exactly a balance that covers wrap, rent, fee and reserve |
| Wsol.SettlementIsExact | src/chain/settlement.rs:6-24 | a call settles for the exact strike amount rounded down, or overflows exactly when it does not fit |
| Wsol.PrepareFundPosition | src/chain/rpc.rs:268-371 | without wrapping or for another mint nothing is budgeted; otherwise refusals first; the instructions are the creations asked for, the wrap pair if budgeted, then the deposit, each with its accounts |
| Wsol.ExecPrepared | src/chain/rpc.rs:354-371 | what running the prepared instructions leaves |
| Wsol.SettledExactly | src/chain/rpc.rs:354-371 | on the ledger: the end is settled and leaves the reserve exactly for a validated budget and a position account |
| Wsol.BudgetDecidesExecution | src/chain/rpc.rs:552-560 | the transaction succeeds on a balance and leaves the reserve if and only if the budget validates against it and the position's token account exists or is created; it then settles the position in full |
| Wsol.ValidatedDepositCanFail | src/chain/rpc.rs:330-338 | a validated budget whose deposit fails, because nothing is created and the position's token account was never read |

## Left out

- Sockets, HTTP, RPC transport, timeouts, retries, signing keys and serialization of messages: only the answers they
  deliver are modelled. A transport error of a planning read in the funding path is not modelled.
- The managed WebSocket session, the await tracker and the vault sale client: not modelled.
- SHA-256, Ed25519, base58 and address derivation: parameters; order-id claims are about the bytes that are hashed.
- Floating-point pricing and display code: no exact arithmetic to state.
- Account and instruction builders that only list accounts, and fixed-offset account and event decoders: flat code. The
  snapshot takes the decoders as parameters.
- Clock reads of the quote window and of the window tracker: instants are inputs.
- Curator.RestartsAreSafe: a transaction that lands long after a later call has begun is not modelled, because each
  send lands or is lost when it is sent.
- Curator.PlanShape: instruction contents, lookup tables and price accounts of a plan are not modelled, only its kind.
- Drain.CrankDrains: the effects of confirmed steps are assumed as stated in `Drain.Effect`, with no new requests.
- Reconciliation.ReconciledByOwnSignature: supposes that all status chunks saw one state.
- Paging.FetchAll: called only for servers whose answers continue in a finite set of ids, because the code does not end
  on an endless supply of fresh ids; `Paging.RunKeeps` covers every server.
- Wsol.PrepareFundPosition: covers the two physical products; the account checks before the instructions are built,
  which refuse every other product, are not modelled.
