# AugurLite escrow, verified

This project models the escrow protocol of AugurLite and proves that it is solvent. A market holds
denomination tokens against one share token per outcome. `CompleteSets` mints and burns whole
baskets at `numTicks` each, the oracle resolves the market once, and `ClaimTradingProceeds` redeems
shares outcome by outcome; redemptions pay a floored fee to the market creator's mailbox. The
guarantee is one about the system: in every state that any sequence of calls can reach, with calls
of the denomination token back into the protocol nested to any depth and reverted at any point, every
market holds exactly what it should and can pay what it owes.

`dafny verify dfyconfig.toml` checks the whole project.

## How the model is built

- **Values.** `TokenModel`, `MarketModel` and `Trading` say what one external call does to the state of
  a token and a market: the new state, or a revert. `SafeMathUint256` and `SafeMathInt256` are the
  source's guards over wrap-around words. A mapping keeps no zero entries, as the EVM does not, so
  that two mappings that read the same are equal.
- **The machine.** `Protocol` is the whole system: any number of markets over one denomination token.
  A trading call is a frame that stops wherever it hands control to the token; until it is resumed
  anybody may call anything. A frame remembers the world it was entered in, to which a revert goes back.
  `Outside` frames are calls to contracts that are not part of the protocol, so that a nested failure can be
  caught or passed on. A run is any list of actions, and a theorem about `Run` is one about every run.
- **History.** `Ledger` counts what has happened to a market: sets bought and sold, shares claimed, tokens
  donated (everything that came in other than as the price of sets), gross redemptions, fees, payments
  and fee computations. The contracts keep none of this; the theorems tie it to the balances they do keep.
- **The invariant.** `Accounts.Balanced` are the books of one market, pending payments included, and
  `Invariant.Consistent` those of a world with its stack. The books are exact: with
  `d = numTicks - sum(payoutNumerators)`, escrow = sum of supply times payout, plus `d` for every set
  outstanding, plus donations, plus payments under way, plus the price of sets not minted yet. Solvency alone
  would not be inductive, as sets can still be traded after claims have made the supplies differ.
- **Witnesses.** Where a property one might expect fails, `Witnesses` has a run of the machine, from the creation of a
  market on, that ends in such a state; the theorems beside it say exactly when it holds.
- **Objects.** `Tokens`, `Controllers`, `Contracts`, `TradingContracts` and `AccountManagers` hold the
  contracts as classes whose methods change their fields step by step. Each method is proved to do what the value
  model says, `TradingContracts` against `Trading`; `Uninterrupted` proves that a call of the machine during
  which nothing else happens does the same, `Completion` what becomes of a call that was interrupted, and `EntryPoints`
  what every other action of the machine does.

Addresses, timestamps, the answers of the node and the addresses that new contracts get are parameters.

## Assumptions about the environment

- Only `CompleteSets` and `ClaimTradingProceeds` mint and burn shares. The deployer, whitelisted as well
  (`source/contracts/Controller.sol:29`), does not.
- The denomination token moves balances like the repository's own `StandardToken`; it may call back at every
  `transferFrom`, and may be minted to anybody and burned by any holder but a market.
- A market, having no code for it, never transfers or approves its tokens other than by `approveSpenders`.
- The registry is set up at deployment. A factory's new contract has an address that has approved nobody and is
  no part of the protocol yet; tokens may have been sent to it before.

## Where the code is not what one might expect

- The repository's README says that whatever the outcome, the values of a complete set add up to its price.
  In an invalid categorical market they do not when the ticks do not divide by the outcomes: a claim
  pays `numTicks mod numOutcomes` per set less than a sale, and that stays in the escrow
  (`MarketModel.AcceptedShortfall`, `SetTrading.ClaimAgainstSale`, `Solvency.ClaimsDrainTheMarket`; a set that costs
  10000 and claims 9999 is in `Witnesses.InvalidSetClaimsLess`).
- Claims cannot fail for any holder but one: a market that was sent shares of itself, whose payout is added in the log
  to a balance it is still part of. So the order of claims is not quite irrelevant: the market's own may go through
  only after others' (`Witnesses.MarketClaimCanFail`, `Witnesses.MarketCanClaimTooEarly`). `Redemption.ClaimExact` and
  `Confluence.MarketTurn` give the exact condition, `Confluence.MarketMayWait` says that the market had better be the
  last, and whatever goes through ends in the same state in any order.
- After resolution the supply of an outcome that pays nothing is not bounded by the escrow, so a purchase may in
  the end fail on its overflow guard (`Witnesses.PurchaseCanFail`); before resolution it cannot
  (`SetTrading.BuyExact`, `SetTrading.SetsFitBeforeResolution`).
- `SafeMathInt256.mul` accepts one product that does not fit, -1 times the least integer
  (`SafeMathInt256.MulExactExceptMinusOneMin`).

## Model

| member | source | states |
|---|---|---|
| Solvency.EscrowLedger | source/contracts/CompleteSets.sol:27-70 | in every reachable state of every market: each supply is bought − sold − claimed, and the escrow balance is exactly the ledger's, in the history form and in the obligation form, with pending payments and unminted sets |
| Solvency.AssertBalancesNeverFails | source/contracts/Market.sol:196-210 | the assertion holds in every reachable state even with all pending payments set aside, and its sums and products stay below 2^256 |
| Solvency.SuspendedCallGoesOn | source/contracts/CompleteSets.sol:34-39 | wherever a call was suspended, it goes on if and only if a stated condition on the state holds; payments out of a market and final assertions have none |
| Solvency.InterruptedRedemptionCompletes | source/contracts/ClaimTradingProceeds.sol:24-47 | in any reachable state a suspended sale, and a suspended claim on a resolved market for anybody but the market, runs to its end once the token stops calling back; it then has paid all it still owed holder and mailbox, to the token, and burned the shares it had left to burn; a claim for the market does so if and only if its logs fit, and else falls back to the world it was entered in |
| Solvency.InterruptedPurchaseCompletes | source/contracts/CompleteSets.sol:34-38 | a suspended purchase runs to its end if and only if the price is or can be paid and no supply overflows, which before resolution none can; it then has moved the price and minted the sets |
| Solvency.CallsAreRuns | source/contracts/libraries/ReentrancyGuard.sol:19-24 | from any reachable state, a call on its own is a run of the machine that ends as `Alone` says, or with everything as before |
| Solvency.SetsCanAlwaysBeSold | source/contracts/CompleteSets.sol:43-70 | in every reachable state a sale succeeds if and only if there is no stop, no other call in CompleteSets, and the seller exists and has the sets; it pays the price less the fee and the fee to the mailbox |
| Solvency.WhoCanBuySets | source/contracts/CompleteSets.sol:20-41 | in every reachable state a purchase succeeds if and only if there is no stop, no other call in CompleteSets, the buyer exists, has the positive price and has approved it, and no supply overflows; it moves the price and mints the sets |
| Solvency.SharesCanAlwaysBeClaimed | source/contracts/ClaimTradingProceeds.sol:18-48 | in every reachable state with the market resolved a claim succeeds if and only if there is no stop, no other call in ClaimTradingProceeds, the time of the resolution is past and, for the market as the holder, the logged balances fit; it burns all shares and pays their worth less fees, and the fees to the mailbox |
| Solvency.UnresolvedClaimsRevert | source/contracts/ClaimTradingProceeds.sol:19-30 | in no reachable state can a claim on an unresolved market succeed |
| Solvency.BuyThenSell | source/contracts/CompleteSets.sol:27-70 | from every reachable state, buying and selling the same sets restores all share tokens and the escrow and moves just the fee |
| Solvency.ClaimsDrainTheMarket | source/contracts/ClaimTradingProceeds.sol:24-45 | in every reachable state with the market resolved: if all holders claim, the market among them or not, no share is left and the escrow is the shortfall of the sets outstanding plus donations, pending payments and what the market paid itself; no shortfall if the market is valid or its ticks divide; any two orders that go through end alike; they go through if and only if the market's own claim fits at its turn, and without one always |
| Solvency.ClaimsAreRuns | source/contracts/ClaimTradingProceeds.sol:18-48 | claims that go through one after another are a run of the machine to the state they lead to |
| Solvency.FeesOverAnyRun | source/contracts/Market.sol:101-106 | over any run, with what is pending counted in: gross redemptions are fees plus payments, and f·F ≤ G ≤ f·F + (f − 1)·k |
| Solvency.LocksOpenWhenIdle | source/contracts/libraries/ReentrancyGuard.sol:13-24 | a lock is held exactly while one call to its contract is suspended, never two, and none is left held |
| Solvency.OnlyTradersMaySpendEscrow | source/contracts/Market.sol:77-81 | in every reachable state the two traders' allowances on an escrow are everlasting and all others are zero |
| Solvency.PhaseEncodingsAgree | source/contracts/Market.sol:119-143 | in every reachable state a market has a resolution time if and only if it has a payout vector, and that passed verification |
| Solvency.ResolutionIsFinal | source/contracts/Market.sol:83-95 | nothing after a transaction changes a market's terms, its resolution, or lifts an emergency stop |
| Solvency.OnlyTheOracleResolves | source/contracts/Market.sol:83-95 | no step, revert or callback but the oracle's call after the end time turns an unresolved market into a resolved one |
| Completion.ResumeExact | source/contracts/CompleteSets.sol:34-67 | the exact condition under which each kind of suspended call goes on |
| Completion.RedemptionExact | source/contracts/CompleteSets.sol:59-67 | exactly when a redemption under way in a consistent world runs to its end, what it has paid to whom and burned by then, and that it leaves a consistent world |
| Completion.PurchaseExact | source/contracts/CompleteSets.sol:34-38 | the same for a purchase under way; on an unresolved market one that is paid for always completes |
| Uninterrupted.DriveIsRun | source/contracts/libraries/ReentrancyGuard.sol:19-24 | resuming a call to its end is a run of the machine that removes its frame and no other |
| Uninterrupted.DriveFailsInRun | source/contracts/libraries/ReentrancyGuard.sol:19-24 | a call that cannot be resumed to its end reverts to the world it was entered in |
| Uninterrupted.AloneIsRun | source/contracts/CompleteSets.sol:20-25 | a whole call on its own is a run of the machine, whether it succeeds or reverts |
| Uninterrupted.BuyAlone | source/contracts/CompleteSets.sol:20-41 | without callbacks the machine's purchase succeeds if and only if the market exists, there is no stop, the lock is free and the value model's purchase succeeds, and ends exactly as that |
| Uninterrupted.SellAlone | source/contracts/CompleteSets.sol:43-70 | the same of a sale |
| Uninterrupted.ClaimAlone | source/contracts/ClaimTradingProceeds.sol:18-48 | the same of a claim |
| EntryPoints.ShutGatesChangeNothing | source/contracts/Controller.sol:42-45 | a purchase, sale or claim for what is no market, after a stop, into a busy contract, or as a claim no later than the resolution, leaves any state as it was |
| EntryPoints.NothingTradesAfterAStop | source/contracts/Controller.sol:86-90 | after a stop no purchase, sale or claim does anything in any later state, whatever is suspended there |
| EntryPoints.ControlIsHandedOver | source/contracts/CompleteSets.sol:35-38 | every call is suspended before it moves a token and after every transfer, and remembers the world it was called in |
| EntryPoints.RevertsRestore | source/contracts/libraries/ReentrancyGuard.sol:19-24 | a revert restores the world the innermost call was entered in, its lock included, and ends only that call |
| EntryPoints.ResolveMarketExact | source/contracts/Market.sol:83-95 | in the machine, for any terms, exactly the oracle's call after the end, without a stop, on an unresolved market, with the right length and sum resolves, and sets time, vector and validity and nothing else |
| EntryPoints.CreateMarketExact | source/contracts/Market.sol:45-70 | exactly acceptable terms at unused addresses make a market: 2 to 8 outcomes, no shares, no resolution, both traders approved, all else as before |
| EntryPoints.ApproveSpendersExact | source/contracts/Market.sol:77-81 | exactly without a stop the two traders' allowances become 2^256 − 1, and no other changes |
| EntryPoints.DenominationCallExact | source/contracts/libraries/token/StandardToken.sol:28-36 | anybody but markets and the trusted contracts may call the token at any time; of the markets only the record of donations changes |
| EntryPoints.ShareCallExact | source/contracts/ShareToken.sol:49-52 | anybody may transfer and approve shares of one outcome; nothing else changes, and nobody mints or burns |
| EntryPoints.EntryRecorded | source/contracts/CompleteSets.sol:50-62 | the history counts the sets of a sale, their price and one fee computation as the sets are burned |
| EntryPoints.CreationRecorded | source/contracts/Market.sol:45-70 | a new market's history starts empty, but for what its address was sent before |
| EntryPoints.StretchRecorded | source/contracts/ClaimTradingProceeds.sol:24-43 | it counts sets bought as they are minted, shares claimed at their worth as they are burned, fees and payments as they are made |
| EntryPoints.InflowRecorded | source/contracts/libraries/token/BasicToken.sol:31-37 | it counts as donated exactly the tokens that other calls of the token bring a market |
| Invariant.ReachableInv | source/contracts/libraries/ReentrancyGuard.sol:19-24 | consistency, of the current world and of all worlds suspended calls would fall back to, is kept over every run |
| Invariant.BeginKeepsConsistent | source/contracts/CompleteSets.sol:50-62 | entering a trading call keeps the books, the locks and everything final |
| Invariant.ResumeKeepsConsistent | source/contracts/ClaimTradingProceeds.sol:24-45 | every stretch of a trading call between two hand-overs of control keeps the books, the locks and everything final |
| Invariant.ElsewhereKeepsConsistent | source/contracts/Universe.sol:72-77 | so does every other call: token and share transfers, approvals, new markets, resolutions, stops |
| Accounts.MintSets | source/contracts/CompleteSets.sol:36-38 | minting sets that are paid for keeps the books balanced |
| Accounts.BurnSets | source/contracts/CompleteSets.sol:55-62 | burning sets turns their price into what is owed to seller and mailbox, to the token |
| Accounts.SettleShares | source/contracts/ClaimTradingProceeds.sol:25-36 | burning one outcome's shares turns their worth into what is owed to holder and mailbox, to the token |
| Accounts.ResolveBooks | source/contracts/Market.sol:90-92 | resolving a market keeps its books balanced, whatever is suspended |
| Accounts.EscrowCoversShares | source/contracts/Market.sol:198-208 | balanced books put the escrow at outstanding shares at their payouts plus the shortfall plus donations plus debts |
| Accounts.EscrowCoversSets | source/contracts/CompleteSets.sol:55-67 | the escrow is worth the full price of as many sets as the scarcest outcome could make up |
| Accounts.SolventBeyondDebts | source/contracts/Market.sol:196-210 | after paying all debts the escrow still covers what the assertion asks for |
| Redemption.ClaimExact | source/contracts/ClaimTradingProceeds.sol:18-48 | a claim succeeds if and only if the time of the resolution is past and the holder is not the market or the logged balances fit; what it burns and pays |
| Redemption.ClaimTooEarly | source/contracts/ClaimTradingProceeds.sol:20 | no claim succeeds up to the very time of the resolution, in whatever state the market is |
| Redemption.ClaimFromExact | source/contracts/ClaimTradingProceeds.sol:24-45 | the same of the loop from any outcome on |
| Redemption.SettleExact | source/contracts/ClaimTradingProceeds.sol:50-65 | settling an outcome can only fail on the logged balance, and not for anybody but the market; how winnings are divided |
| Redemption.ClaimNeedsResolution | source/contracts/ClaimTradingProceeds.sol:19-20 | an unresolved market's claim reverts although the time check passes |
| Witnesses.MarketClaimCanFail | source/contracts/ClaimTradingProceeds.sol:50-53 | a run from creation on after which the claim of a resolved market that holds its own shares reverts |
| Witnesses.MarketCanClaimTooEarly | source/contracts/ClaimTradingProceeds.sol:50-53 | a run after which the market's claim fails before Alice's and goes through after it |
| Witnesses.InvalidSetClaimsLess | source/contracts/Market.sol:189 | a run after which a set of an invalid market of three outcomes sells for its price of 10000 and claims 9999 |
| Witnesses.PurchaseCanFail | source/contracts/libraries/token/VariableSupplyToken.sol:17-24 | a run after which a purchase that could be paid reverts because the losing outcome's supply overflows |
| Confluence.ClaimAllExact | source/contracts/ClaimTradingProceeds.sol:24-45 | claims for any list of holders go through if and only if it is late enough and the market's own, at its first turn, can be logged; what they pay and burn in all |
| Confluence.MarketTurn | source/contracts/ClaimTradingProceeds.sol:50-53 | that condition in terms of the balance before: the logs fit once what was redeemed before the market's turn has left the escrow |
| Confluence.MarketMayWait | source/contracts/ClaimTradingProceeds.sol:50-53 | claims that go through also do with the market's own moved to the end, and end in the same state |
| Confluence.ClaimsCommute | source/contracts/ClaimTradingProceeds.sol:24-45 | for any two holders, if both orders go through they lead to the same state; for others than the market both do |
| Confluence.SecondClaimChangesNothing | source/contracts/ClaimTradingProceeds.sol:24-45 | after a claim that went through, a second one for the same holder, the market included, succeeds and changes nothing |
| Confluence.ClaimOrderIrrelevant | source/contracts/ClaimTradingProceeds.sol:24-45 | any two orders of the same claims that go through, the market's among them or not, end in the same state; without the market's they all go through |
| Confluence.ClaimsDrain | source/contracts/ClaimTradingProceeds.sol:24-45 | once all holders, the market among them or not, have claimed all supplies are zero and the escrow has paid exactly the obligation, less what the market paid itself |
| SetTrading.SellExact | source/contracts/CompleteSets.sol:50-70 | a sale succeeds if and only if the seller has the sets; what it burns and pays |
| SetTrading.BuyExact | source/contracts/CompleteSets.sol:27-41 | a purchase succeeds if and only if the buyer can pay and no supply overflows, never for a market; what it moves and mints |
| SetTrading.SetsFitBeforeResolution | source/contracts/libraries/token/VariableSupplyToken.sol:17-24 | before resolution a paid purchase cannot overflow a supply |
| SetTrading.SellUndoesBuy | source/contracts/CompleteSets.sol:27-70 | selling restores the market a purchase started from |
| Trading.TradesEndCovered | source/contracts/CompleteSets.sol:20-25 | no purchase, sale or claim succeeds that leaves the escrow short of what the shares may still be worth |
| SetTrading.ClaimAgainstSale | source/contracts/ClaimTradingProceeds.sol:55-65 | for any holder of s of every outcome, market and mailbox included: a claim grosses exactly s·(numTicks mod numOutcomes) less than a sale in an invalid market and the same in a valid one, where it nets 0 to numOutcomes − 1 more for anybody but the mailbox; for the mailbox the two differ by the gross alone |
| MarketModel.AcceptedShortfall | source/contracts/Market.sol:178-194 | an accepted vector sums to numTicks, or in an invalid market falls short by numTicks mod numOutcomes |
| MarketModel.EveryOutcomeCanWin | source/contracts/Market.sol:178-194 | for every outcome of every market the vector that gives it all ticks is accepted, and so is the even split that declares the market invalid |
| MarketModel.AcceptableExact | source/contracts/Market.sol:178-194 | accepted are exactly the vectors of the right length that sum to numTicks, or, as invalid, whose entries all are numTicks / numOutcomes |
| MarketModel.TermsExact | source/contracts/Market.sol:47-53 | accepted are exactly 2 to 8 outcomes, a tick for each, a fee divisor of 0 or at least 2, an existing oracle and creator, and an end to come |
| MarketModel.ResolveExact | source/contracts/Market.sol:83-95 | exactly who resolves a market, when and to what, and the market it leaves |
| MarketModel.FeeBounds | source/contracts/Market.sol:101-106 | the fee is the divisor's share rounded down, and never more than the amount |
| TokenModel.TransferExact | source/contracts/libraries/token/BasicToken.sol:31-37 | a transfer, self-transfers included, succeeds if and only if the balance covers it, and moves just that |
| TokenModel.TransferFromExact | source/contracts/libraries/token/StandardToken.sol:28-36 | so does transferFrom with an allowance, which it lowers unless it is the everlasting one |
| TokenModel.MintExact | source/contracts/libraries/token/VariableSupplyToken.sol:17-24 | a mint succeeds if and only if the supply fits |
| TokenModel.BurnExact | source/contracts/libraries/token/VariableSupplyToken.sol:31-38 | a burn succeeds if and only if the balance covers it |
| TokenModel.BurnUndoesMint | source/contracts/libraries/token/VariableSupplyToken.sol:17-38 | burning what was minted gives the same token back |
| TokenModel.DecreaseUndoesIncrease | source/contracts/libraries/token/StandardToken.sol:65-85 | an increase that fits is undone by the same decrease; a decrease stops at zero |
| TokenModel.SupplyIsSumOfBalances | source/contracts/libraries/token/BasicToken.sol:14-15 | after any run of token calls the balances add up to the supply |
| TokenModel.FiniteAllowanceBoundsSpending | source/contracts/libraries/token/StandardToken.sol:28-36 | over any run a spender with finite allowances moves no more than it was granted |
| TokenModel.PerformExact | source/contracts/libraries/token/StandardToken.sol:28-85 | what each token call comes to for every balance, every allowance and the supply, and when it comes to nothing |
| SafeMathUint256.Mul | source/contracts/libraries/math/SafeMathUint256.sol:9-13 | succeeds if and only if the product fits, and returns it |
| SafeMathUint256.Add | source/contracts/libraries/math/SafeMathUint256.sol:28-32 | succeeds if and only if the sum fits, and returns it |
| SafeMathUint256.Sub | source/contracts/libraries/math/SafeMathUint256.sol:23-26 | succeeds if and only if the difference is not negative, and returns it |
| SafeMathInt256.Add | source/contracts/libraries/math/SafeMathInt256.sol:31-34 | succeeds if and only if the sum fits, and returns it |
| SafeMathInt256.Sub | source/contracts/libraries/math/SafeMathInt256.sol:26-29 | succeeds if and only if the difference fits, and returns it |
| SafeMathInt256.MulExactExceptMinusOneMin | source/contracts/libraries/math/SafeMathInt256.sol:13-17 | succeeds if and only if the product fits or is that of −1 and the least integer; returns every product that fits |
| SafeMathInt256.MulFalseAccept | source/contracts/libraries/math/SafeMathInt256.sol:13-17 | the wrapped product of −1 and the least integer is accepted |
| Tokens.VariableSupplyToken.InternalTransfer | source/contracts/libraries/token/BasicToken.sol:31-37 | two updates in place do what the value model says, aliasing included; a failure leaves no trace |
| Tokens.VariableSupplyToken.TransferFrom | source/contracts/libraries/token/StandardToken.sol:28-36 | does what the value model says; a failure restores the allowance |
| Tokens.VariableSupplyToken.Approve | source/contracts/libraries/token/StandardToken.sol:43-46 | does what the value model says |
| Tokens.VariableSupplyToken.IncreaseApproval | source/contracts/libraries/token/StandardToken.sol:65-68 | does what the value model says |
| Tokens.VariableSupplyToken.DecreaseApproval | source/contracts/libraries/token/StandardToken.sol:77-85 | does what the value model says |
| Tokens.VariableSupplyToken.Mint | source/contracts/libraries/token/VariableSupplyToken.sol:17-24 | does what the value model says |
| Tokens.VariableSupplyToken.Burn | source/contracts/libraries/token/VariableSupplyToken.sol:31-38 | does what the value model says |
| Contracts.ShareToken.CreateShares | source/contracts/ShareToken.sol:27-30 | mints if and only if the caller is whitelisted, the log hook passes and the mint fits |
| Contracts.ShareToken.DestroyShares | source/contracts/ShareToken.sol:32-35 | burns if and only if the caller is whitelisted, the log hook passes and the balance covers it |
| Contracts.ShareToken.TransferShares | source/contracts/ShareToken.sol:49-52 | transfers if and only if the log hook passes and the balance covers it |
| Contracts.Market.constructor | source/contracts/Market.sol:45-70 | a new market has one fresh token an outcome, wired to it and to its outcome, and gives 2^256 − 1 to the registry's CompleteSets and ClaimTradingProceeds and nothing to anybody else |
| Contracts.Market.ApproveSpenders | source/contracts/Market.sol:77-81 | if and only if not stopped: the allowances of the registry's CompleteSets and ClaimTradingProceeds become 2^256 − 1, and no other changes |
| Contracts.Market.VerifyResolutionInformation | source/contracts/Market.sol:178-194 | accepts exactly the right lengths with the true sum numTicks, or all entries numTicks / numOutcomes; wrap-around never makes it accept |
| Contracts.Market.Resolve | source/contracts/Market.sol:83-95 | resolves in place if and only if not stopped, registered with a known universe, not resolved, after the end, by the oracle, with a vector of the right length and sum; then time, vector and validity are those given |
| Contracts.Market.OutstandingPayout | source/contracts/Market.sol:200-203 | the guarded loop gives the exact obligation, or reverts if and only if it is no 256-bit number |
| Contracts.Market.AssertBalances | source/contracts/Market.sol:196-210 | holds if and only if the escrow covers the obligation in exact arithmetic |
| Contracts.Market.IsContainerForShareToken | source/contracts/Market.sol:169-171 | accepts only the genuine token of the claimed outcome |
| Contracts.Universe.IsContainerForShareToken | source/contracts/Universe.sol:33-43 | accepts an address if and only if a registered market lists it at the claimed outcome and it is that market's genuine token, whatever it reports |
| Contracts.Universe.CreateMarketInternal | source/contracts/Universe.sol:72-77 | creates and registers a fresh, wired market if and only if not stopped, the token is the universe's, and there are 2 to 8 outcomes, a tick for each, a fee divisor of 0 or at least 2, an oracle, a creator and an end to come; every known universe and market stays well wired |
| Contracts.Universe.CreateYesNoMarket | source/contracts/Universe.sol:49-54 | exactly when it succeeds; two outcomes, 10000 ticks, which divide evenly |
| Contracts.Universe.CreateCategoricalMarket | source/contracts/Universe.sol:56-61 | exactly when it succeeds, for 2 to 8 names; one outcome a name, 10000 ticks |
| Contracts.Universe.CreateScalarMarket | source/contracts/Universe.sol:63-70 | exactly when it succeeds; two outcomes, an even number of ticks, which divide evenly |
| Contracts.AugurLite.CreateUniverse | source/contracts/AugurLite.sol:40-46 | adds one empty universe that belongs to it, if and only if not stopped, and keeps all others well wired |
| Contracts.AugurLite.TrustedTransfer | source/contracts/AugurLite.sol:56-60 | moves tokens if and only if the caller is whitelisted, the amount is positive and the transfer goes through |
| Contracts.Mailbox.WithdrawTokens | source/contracts/Mailbox.sol:21-25 | exactly the owner can take the whole balance, and with balances that add up it cannot fail |
| TradingContracts.RegisteredMarketsAreLegit | source/contracts/AugurLite.sol:105-127 | a market registered with a known universe is legit and no mint, burn or transfer log of its tokens ever reverts |
| TradingContracts.OnlyRegisteredMarketsAreLegit | source/contracts/Universe.sol:29-31 | marketIsLegit lets through exactly the markets registered with a known universe |
| TradingContracts.OnlyGenuineTokensPassTheHook | source/contracts/Universe.sol:33-43 | a log hook passes if and only if a registered market of a known universe lists that very token under its outcome |
| TradingContracts.CompleteSets.PublicBuyCompleteSets | source/contracts/CompleteSets.sol:20-25 | succeeds if and only if the gates are open and the value model's purchase does, with its state; otherwise changes nothing |
| TradingContracts.CompleteSets.BuyCompleteSets | source/contracts/CompleteSets.sol:27-41 | the mint loop over the outcomes' tokens does what the value model says, the lock is free again |
| TradingContracts.CompleteSets.PublicSellCompleteSets | source/contracts/CompleteSets.sol:43-48 | succeeds if and only if the gates are open and the value model's sale does, with its state; otherwise changes nothing |
| TradingContracts.CompleteSets.SellCompleteSets | source/contracts/CompleteSets.sol:50-70 | the burn loop and both payments do what the value model says, the lock is free again |
| TradingContracts.ClaimTradingProceeds.Claim | source/contracts/ClaimTradingProceeds.sol:18-48 | succeeds if and only if the gates are open, the time of the resolution is past and the value model's claim succeeds, with its state; otherwise changes nothing |
| TradingContracts.ClaimTradingProceeds.ApprovedEscrowPays | source/contracts/Market.sol:77-81 | with the approvals a market gives at its creation, and its escrow covering its shares, the claims contract the registry names cannot be refused for anything but the time, for anybody but the market |
| TradingContracts.ClaimTradingProceeds.constructor | source/contracts/Controller.sol:77-79 | the contract works with the addresses the registry has for both traders |
| TradingContracts.ClaimTradingProceeds.WinningsExact | source/contracts/ClaimTradingProceeds.sol:55-65 | dividing up reverts if and only if the market is not resolved, the outcome is out of range or the product overflows; the proceeds are shares times payout, the creator's part the fee, the holder's the rest |
| Controllers.RegistryIsWriteOnce | source/contracts/Controller.sol:51-90 | over any run of calls a registered address and a stop are final, and without the owner nothing changes |
| Controllers.AdministerExact | source/contracts/Controller.sol:51-90 | each administrative call succeeds exactly for the owner, with a free key or a first stop that can be announced, and changes the field it is for and no other |
| Controllers.Controller.RegisterContract | source/contracts/Controller.sol:66-70 | registers in place if and only if the owner calls and the key is free |
| Controllers.Controller.EmergencyStop | source/contracts/Controller.sol:86-90 | sets `stopped` if and only if the owner calls, it is not set, and AugurLite is registered to announce it |
| Controllers.Controller.AddToWhitelist | source/contracts/Controller.sol:51-54 | the owner, and nobody else, adds just that address |
| Controllers.Controller.RemoveFromWhitelist | source/contracts/Controller.sol:56-59 | the owner, and nobody else, removes just that address |
| AccountManagers.NoncesAreConsecutive | source/libraries/AccountManager.ts:30-49 | under every interleaving the nonces of an address are distinct and a gap-free run from the count the first resumed call was given |
| AccountManagers.EveryCallHasANonceOrWaits | source/libraries/AccountManager.ts:30-49 | every call for a managed account has one nonce of its own or still waits |
| AccountManagers.FirstNonceIsTheCount | source/libraries/AccountManager.ts:41-48 | the first call answered for an address is given the very count the node reported |
| AccountManagers.UnmanagedAddressesGetNothing | source/libraries/AccountManager.ts:31-34 | an address that is not managed is never given a nonce and no call for it ever waits |
| AccountManagers.AccountManager.BeginGetNonce | source/libraries/AccountManager.ts:31-41 | the part before the await does what the event loop model says |
| AccountManagers.AccountManager.ResumeGetNonce | source/libraries/AccountManager.ts:41-48 | the part after the await does what the event loop model says |

## Left out

- Callbacks in the classes: a method of a class is one uninterrupted call. Callbacks are modelled in `Protocol`, on values; `Uninterrupted` and the contracts in `TradingContracts` tie the two to the same functions.
- Callbacks at other points than `transferFrom`: the token's `approve` and `balanceOf` do not call back. The machine also lets others act right after a claim has started and after an outcome with nothing to pay, where the source does not hand over control; that only adds runs.
- More than one denomination token in one world: markets over different tokens share no state but the two locks.
- The log hooks and `marketIsLegit` in the machine: every market of the machine is taken to be legit, as `TradingContracts.RegisteredMarketsAreLegit` shows of every market registered with a known universe.
- Delegators, storage layout and the code of the factories: a factory is the allocation of a fresh object, whose address is a parameter. What `initialize` requires is checked where the factory is called.
- Fee-on-transfer, rebasing or dishonest denomination tokens, and minting by the whitelisted deployer.
- Ownership transfer of markets and mailboxes, type names, topics, descriptions beyond their being non-empty, events beyond the checks that can revert a call.
- Gas, ether, `withdrawInEmergency`, and the ether behind `TestNetDenominationToken`.
- `Time` and `TimeControlled`: the time is a parameter and need not even advance.
- Adding accounts, signing and sending in `AccountManager.ts`; a node that never answers leaves its call waiting. Nonces are unbounded, as they are there.
- Deployment, compilation, generated interfaces and test code.
