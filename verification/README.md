# DreamLens ledger, authority and indexing model

DreamLens is a Django application around an on-chain exchange for binary markets. Under its ORM calls lies a
bookkeeping and authority core that decides what a user owns, who may trade for them, how much, and which bytes are
sent to the chain. This project models that core in Dafny and proves what it promises.

Conventions of the model:

- A database table is a map or sequence held by a class; a service function is one atomic step on it. A function under
  `@transaction.atomic` restores its snapshot when it raises.
- A `Decimal` is a `real`; every explicit `quantize` is written out and rounds half to even (`Money`).
- Time is an integer number of seconds, passed in. Addresses, pools and market ids are already stripped and lower-cased.
- Results of HTTP, RPC, signing, receipts and scoring are parameters: any value may come back.
- The ORM's aggregate, filter and unique constraint are `Sums.Sum`, `Sums.Filter` and distinctness of sequences.

The modules, by component:

| component | modules |
|---|---|
| Position ledger | `Markets`, `FillImport`, `MarketStats`, `MockAdapter`, `LedgerAgreement`, `Positions`, `Portfolio`, `Claims`, `Reconciliation` |
| Authority and spending | `Authority`, `Spending`, `CopyService`, `Runs` |
| Delegation bytes | `Bytes`, `Abi`, `Delegation`, `DelegationDecoding`, `TradeExecution`, `Selectors` |
| Indexers | `Upserts`, `EventIndex`, `EventSync`, `TraderIndex`, `SyncLock` |
| Orders, trades, linking | `OrderSizing`, `TradeLifecycle`, `TelegramLink` |
| Shared | `Wrappers`, `Money`, `Sums` |

Standards followed: the "Formal Specification of the Encoding" section of the Solidity Contract ABI Specification, the
"Execution Behavior" section of ERC-7579, and the `redeemDelegations` interface in the Specification section of
ERC-7710.

## Where the code does less than it seems to

Each of these is a property that fails of the code in general. The model keeps the code as it is, shows the failure,
and states exactly when the property does hold.

- **Recycled pools.** The portfolio books a fill on the event that has its pool now, the market page on the event that
  has its market id. They agree exactly when the pool was not recycled (`Markets.AttributionAgreesIff`,
  `Markets.RecycledPoolMisattributes`).
- **Self-trades.** An account on both sides of one fill is counted on both sides by the participant table only; the import
  agrees with it exactly when that does not happen, the adapter exactly when it does not happen on one outcome
  (`LedgerAgreement.ImportAgreesWithParticipantsIff`, `LedgerAgreement.AdapterAgreesWithParticipantsIff`).
- **Several holders.** A claim redeems one account's tokens and then marks the whole position claimed; everything is
  redeemed exactly when no other account of the user held tokens (`Claims.ClaimWon`). A void is offered again for as
  long as it is void (`Claims.ClosedIsClaimableIffVoid`).
- **Daily maximum.** The documentation presents it as the agent's limit for the day. On the copy path the code sums per
  followed trader. A copy leaves the agent within the maximum if and only if the agent's whole day had room for it, a
  test only manual trades have to pass (`CopyService.Service.ExecuteTrade`, `Spending.CopyKeepsMaximumIff`). Over any run
  an agent records at most one maximum for each trader it copies plus one if it trades by hand, so the maximum does hold
  for an agent with a single such source (`Runs.Run`), and for every k some run reaches k + 1 maxima
  (`Runs.ReachesEveryMultiple`).
- **A follower's own limit.** A copy is sized by the smaller of the follower's limit and the grant's maximum
  (`CopyService.CopySize`, `CopyService.FollowerHandled`), but the agent then writes the grant's limits over the
  follower's. The own limit therefore holds for one trade only; every later copy is sized at the grant's maximum
  (`CopyService.OwnLimitLastsOneTrade`).
- **Unconfirmed transactions.** Both daily totals count what was recorded, and neither a copy nor a manual trade that was
  sent to the chain and then raised is recorded, although it may still be mined. What an agent sends in a day is exactly
  what it records plus what was not confirmed; each single send is within a stored grant's size, and the bound above
  holds of everything sent on a day without an unconfirmed send (`Runs.Run`, `Spending.SentDailyBound`). With them it
  fails: for every n some run sends n full maxima for one copied trade on one day and has recorded nothing
  (`Runs.UnconfirmedSendsHaveNoBound`).
- **Lost copies.** A copy leaves no row exactly when it passes every gate and is not confirmed
  (`CopyService.CopyIsLostIff`), so the next detection sends it again if it still passes (`CopyService.CopyIsSentIff`);
  an already confirmed pair is never sent again (`Runs.ConfirmedIsNeverResent`).
- **Rolled-back marks.** `prepare_copy_trade` marks a refused row SKIPPED and `confirm_trade` marks a reverted trade
  FAILED, and both then raise inside their transaction, so neither mark is ever stored
  (`CopyService.Service.PrepareCopyTrade`, `TradeLifecycle.TradeBook.Confirm`). A waiting copy is also counted once in
  the total it is then added to (`CopyService.PendingCountsItself`).
- **Unrestricted grants.** A trade grant signed while no methods enforcer is configured restricts no function, and a
  withdraw grant then allows the pieces of the token's address instead of transfer, or everything when no token is
  pinned (`Selectors.TradeGrantAllows`, `Selectors.WithdrawGrantAllows`).
- **Lost sync lock.** When the background thread cannot be started the lock is never released again, and no thread of
  the process refreshes markets for a page any more (`SyncLock.FailedStartIsForever`, `SyncLock.StartCanFail`). The lock
  only orders threads that enter through the two refresh functions: the Celery tasks (workers/event_sync.py:17 and 42)
  and the sync_dreamdex command (apps/core/management/commands/sync_dreamdex.py:21) call `sync_events` in other
  processes and without it.
- **Resting orders.** When a market order cannot fill, the same price is sent as a resting order. A NO buyer pays the
  displayed price only at one half, because the book reads the NO price as a YES price, and a YES buyer only on the tick
  grid (`OrderSizing.FallbackPaysDisplayedPriceIff`). The approval computed for the market order covers the resting YES
  buy for every amount, in collateral or in shares, if and only if its grid price is not above the market limit
  (`OrderSizing.FallbackCoveredIff`), which a tick that divides the unit price ensures (`OrderSizing.DividingTickIsEnough`)
  and an odd one need not: at a tick of 7 one share at 0.999999 is approved with 0.999993
  (`OrderSizing.OddTickLeavesApprovalShort`).
- **Answers about another market.** A row open after a synchronisation was reported open in that very run, provided
  the exchange answers about the market it is asked for (`EventSync.OpenMeansReported`). The query asks for exactly one
  id (integrations/dreamdex/client.py:445-458) but the answer's id is not compared, so an indexer that ignores the
  filter leaves the picked market open without having read it (`EventSync.StaysOpenUnreportedIff`,
  `EventSync.AnotherAnswerLeavesMarketOpen`).
- **Unreadable balances.** Confirming a redeem that names no amount while the wallet's balance cannot be read closes the
  position and takes nothing off the books (`Claims.ConfirmPositionRedeem`).
- **Unknown market status.** A status text the index does not know counts as trading, even past the expiry
  (`EventIndex.StatusOfReport`).

## Model

| member | source | states |
|---|---|---|
| Money.RoundHalfEvenUnique | services/portfolio_service.py:714-718 | nearest-integer, ties-to-even is the only value the rounding contract allows |
| Money.QuantizeUnique | services/portfolio_service.py:714-718 | each quantize gives the nearest number of its places, the even one of two that are equally near |
| Markets.EventMaps | services/portfolio_service.py:56-71 | the two lookup dictionaries hold exactly the usable keys of events with a pool; the last event of a pool owns it |
| Markets.MarketIdsMean | services/market_stats.py:25-34 | which texts name a market on the chain and in the portfolio, and that a fill belongs to the event whose external or metadata id it names |
| Markets.AttributionAgreesIff | services/portfolio_service.py:74-81 | pool-first lookup attributes a fill as the market-id rule does if and only if its pool was not recycled |
| Markets.RecycledPoolMisattributes | services/market_stats.py:25-34 | a fill of a closed window is booked on the window that reuses its pool |
| FillImport.FreshIsExactlyOnce | services/portfolio_service.py:156-229 | every appended row books a wanted fill: its size, price, time and transaction, on the side the account took, on the event the fill was attributed to; every wanted fill is present afterwards, external ids stay unique |
| FillImport.WantedIff | services/portfolio_service.py:177-204 | what a fill needs to be imported: a known event, a side of the account the event has, some size, and no trade the user placed here with the same transaction |
| FillImport.RepeatedSyncAddsNothing | services/portfolio_service.py:156-229 | syncing again on data already synced imports nothing |
| FillImport.ExtIdInjective | services/portfolio_service.py:179-182 | equal external ids mean the same fill and the same account |
| FillImport.IdsUniqueOverRuns | services/portfolio_service.py:156-229 | over any number of syncs, UI trades and status changes no two non-empty external ids coincide |
| MarketStats.ListEventParticipants | services/market_stats.py:139-171 | one row for each on-chain wallet that traded the market, with its net YES, net NO, quote and fill sums over the market's own fills |
| MarketStats.OnchainWalletIff | services/trader_service.py:67-74 | exactly which wallets count as on-chain traders |
| MockAdapter.Adapter.GetOutcomeBalances | integrations/dreamdex/mock.py:387-408 | the balance of each side is the clamped signed fill sum less what was redeemed and sold |
| MockAdapter.Adapter.RecordRedeem | integrations/dreamdex/mock.py:477-492 | lowers one wallet's one side by the raw amount, never below zero, and moves no other balance |
| MockAdapter.Adapter.RecordSell | integrations/dreamdex/mock.py:494-505 | lowers one wallet's one side by the amount sold and moves nothing else |
| LedgerAgreement.ImportAgreesWithParticipantsIff | services/portfolio_service.py:84-99 | what a fill imports for an account equals its participant quantity on both sides if and only if it is not a self-trade |
| LedgerAgreement.AdapterAgreesWithParticipantsIff | integrations/dreamdex/mock.py:55-62 | the adapter's signed quantity equals the participant quantity if and only if the account is not maker and taker on the same outcome |
| LedgerAgreement.SyncImportsEverything | services/portfolio_service.py:177-229 | after a sync over all accounts the table is a permutation of one row per importable (account, fill) pair, whatever order fills were found in |
| LedgerAgreement.ThreeLedgersAgree | services/portfolio_service.py:280-284 | net holding after a sync equals the per-fill sums of the participants' page and of the adapter, per outcome, over the user's accounts |
| LedgerAgreement.MoneyConserved | services/portfolio_service.py:204-221 | what the trades of an outcome cost after a sync, less what they brought in, is what the accounts paid in the market's fills, quantity times price, buys less sells |
| Reconciliation.Reconcile | services/portfolio_service.py:112-243 | after a sync the net holding equals the page's net size over the user's accounts, and the balances the adapter reports for them exactly when no account is short |
| Reconciliation.ProfitFromFills | services/portfolio_service.py:177-359 | after importing the fills and rebuilding the positions, the stored profit is what the accounts hold, at its worth, less what they paid in the fills, up to the rounding bound |
| LedgerAgreement.PageEqualsAdapter | services/market_stats.py:155-171 | participant quantities and adapter quantities agree for any market whose ids are consistent |
| LedgerAgreement.ParticipantRow | services/market_stats.py:155-171 | a participant's YES and NO are the sums the agreement is about |
| LedgerAgreement.UnspentBalance | integrations/dreamdex/mock.py:387-408 | before any redeem or sell the adapter's balance is its signed fill sum when that is not negative, and zero otherwise |
| Positions.CompleteSetPaysOne | services/portfolio_service.py:446-458 | a settled or voided market pays YES and NO one unit in total, and both sides settle together |
| Positions.WinnerTakesAll | services/portfolio_service.py:446-458 | the side the posted winner names is paid one a share and the other nothing, a void pays one half, and nobody is paid before a winner is posted |
| Positions.StoredRow | services/portfolio_service.py:263-362 | what a sync stores for what is held: its quantity as value when the side won, nothing when it lost, half in a void, the rounded market value before; the rounded average cost as entry price, and the time of the first trade |
| Positions.PnlRoundingBound | services/portfolio_service.py:279-359 | stored PnL is within 0.00005 per bought share plus 0.0001 (open) or 0.00015 (settled) of the exact value, and within 0.00005 when fully sold |
| Positions.StoredPnlWithinBound | services/portfolio_service.py:263-362 | the profit a sync stores in the row of any group of positive trades is within that bound of the exact profit of the group |
| Positions.PnlErrorGrowsWithQuantity | services/portfolio_service.py:286-300 | the per-share part of that error is really reached |
| Positions.StatusAfterSync | services/portfolio_service.py:302-359 | which of OPEN, SETTLED and CLOSED a sync assigns, in both directions, and that the first time a position stops being open is kept as its settlement time |
| Positions.SyncIdempotent | services/portfolio_service.py:263-362 | a second sync on the same data, at any later time, changes nothing |
| Positions.SyncOrderIndependent | services/portfolio_service.py:263-362 | the order in which trades come back does not matter |
| Positions.ClosedSurvivesResync | services/portfolio_service.py:344-359 | a redeemed position stays CLOSED through every later sync while its market stays resolved or voided |
| Positions.RemainingIsNetHolding | services/portfolio_service.py:461-474 | the quantity a position is built from is buys minus sells of its confirmed trades |
| Positions.TotalsWellFormed | services/portfolio_service.py:279-290 | grouped totals of positive trades are non-negative, with no proceeds where nothing was sold |
| Portfolio.UserPortfolio.SyncTradesFromFills | services/portfolio_service.py:112-243 | imports exactly the fresh rows, imported plus skipped is the number of fills found, ids stay unique, and the freshness mark is set only when every account could be read |
| Portfolio.UserPortfolio.ImportFills | services/portfolio_service.py:156-229 | the import loop appends exactly the fresh rows and counts them |
| Portfolio.UserPortfolio.SyncPositions | services/portfolio_service.py:263-362 | the grouping and upsert loops leave exactly the positions the trades determine, and created plus updated is the number of groups |
| Portfolio.UserPortfolio.UpsertPosition | services/portfolio_service.py:302-359 | the row written for one group, field by field, from the stored row if there is one |
| Portfolio.GroupTrades | services/portfolio_service.py:270-278 | groups hold the confirmed trades of each event and outcome, in order, and nothing else |
| Claims.ResolveClaim | services/portfolio_service.py:596-637 | the account, amount and signer: the Smart Account, then the newest trade's wallet, then the first holder, and the assumed account with the stored amount only when no account could be read |
| Claims.ResultMeans | services/portfolio_service.py:477-503 | for each result of a position, exactly which trades, status, winner and expiry lead to it |
| Claims.PreparePositionRedeem | services/portfolio_service.py:721-888 | succeeds if and only if the market is void or the posted winner is this side and it was not claimed yet, the position was not sold off, the transaction can be built, and the resolved claim is a positive raw amount the connected wallet or the session key signs |
| Claims.ConfirmPositionRedeem | services/portfolio_service.py:1087-1129 | marks the position CLOSED and takes the recorded amount off one account's side balance, whoever holds the tokens, and off nothing else; nothing at all when the claim names no amount and the balance cannot be read |
| Claims.ClaimWon | services/portfolio_service.py:1087-1129 | prepare then confirm goes through if and only if the claim can be signed, takes the chosen holder to zero, changes no other balance, makes the next prepare fail, and leaves readable tokens behind if and only if another account held some |
| Claims.ClosedIsClaimableIffVoid | services/portfolio_service.py:477-503 | a CLOSED position with tokens is offered again if and only if the market is void |
| Claims.RedeemLeavesNothingIff | services/portfolio_service.py:714-718 | redeeming a balance leaves nothing if and only if its fraction of a raw unit is zero, above one half, or one half after an odd number of units |
| Bytes.HexRoundTrip | integrations/metamask/delegation.py:67-71 | reading the hex of any bytes gives those bytes |
| Bytes.HexToBytesMeans | integrations/metamask/delegation.py:67-71 | a text is read if and only if it is hex after an optional 0x, and the hex of what is read is that text in lower case, with a leading zero for an odd length |
| Bytes.BytesRoundTrip | integrations/metamask/delegation.py:407-410 | big-endian bytes of a number read back as that number |
| Abi.DecodeEncode | integrations/metamask/delegation.py:453-504 | decoding an encoded value of any nesting of words, blobs, tuples and arrays gives the value back, wherever it stands in the data |
| Abi.DecodeEncodeAll | integrations/metamask/delegation.py:489-504 | the same for a whole head-and-tail argument list |
| Abi.EncodingAligned | integrations/metamask/delegation.py:453-504 | every encoding fills a multiple of 32 bytes |
| Abi.BlobPaddedWithZeros | integrations/metamask/delegation.py:453-504 | a byte string is its length, its bytes, and zeros up to the next word |
| Delegation.PackRoundTrip | integrations/metamask/delegation.py:407-410 | unpacking a packed single execution gives target, value and bytes |
| Delegation.UnpackRoundTrip | integrations/metamask/delegation.py:407-410 | packing what was unpacked gives the same bytes |
| Delegation.EncodeRedeemDelegationsCalldata | integrations/metamask/delegation.py:418-504 | the loops build exactly pre, main, extra as three parallel arrays under one delegation, and fail if and only if a field is not hex or out of range |
| Delegation.EncodesIff | integrations/metamask/delegation.py:418-504 | calldata exists if and only if every field of the delegation and of the calls is hex and in range |
| DelegationDecoding.RedeemCalldataRoundTrip | integrations/metamask/delegation.py:418-504 | the calldata decodes to one redemption for each call, in order, with that call's target, value and the bytes its text stands for, the signed delegation's parties, authority, caveats, salt and signature, and the all-zero mode |
| DelegationDecoding.PlainCaveatsKept | integrations/metamask/delegation.py:432-460 | every caveat keeps its place, enforcer, terms and arguments |
| TradeExecution.BuildDelegatedTradeExecution | integrations/metamask/execution.py:75-129 | an approval with data comes first, then the trade; without a manager address nothing is built, and with one the build succeeds if and only if every field is hex and in range |
| TradeExecution.WithGasReimbursement | integrations/metamask/execution.py:55-72 | leaves mock, unsigned and non-positive cases alone and otherwise re-encodes with one transfer more |
| TradeExecution.ReimbursementAppendsOneTransfer | integrations/metamask/execution.py:55-72 | the new calldata decodes to the old list plus one trailing native transfer |
| TradeExecution.ComputeGasReimbursementWei | integrations/metamask/execution.py:37-52 | never above the balance or a positive cap, zero without balance, gas or price, and otherwise the buffered quote within both |
| Selectors.AllowedMethodSelectors | integrations/metamask/delegation.py:111-138 | the first methods-enforcer caveat decides, failing that the first that looks like selectors, failing that nothing is restricted |
| Selectors.SelectorsRoundTrip | integrations/metamask/delegation.py:111-138 | one methods-enforcer caveat packed from S restricts the grant to exactly S, whatever caveats surround it |
| Selectors.TradeGrantAllows | integrations/metamask/delegation.py:166-208 | a trade grant allows exactly its seven selectors when the methods enforcer is configured, and everything when it is not |
| Selectors.WithdrawGrantAllows | integrations/metamask/delegation.py:211-259 | a withdraw grant allows only transfer with the methods enforcer; without it, the four-byte pieces of a pinned token's address, or everything |
| Selectors.GrantsCarry | integrations/metamask/delegation.py:166-259 | both grants carry one caveat for each configured enforcer, in order, with the selectors, the token, a zero value and the expiry as terms, and are refused if and only if the expiry does not fit |
| Selectors.TimestampRoundTrip | integrations/metamask/delegation.py:198-207 | timestamp terms are two 16-byte numbers, zero and the expiry (zero when negative) |
| Selectors.CalldataDecidedBySelector | integrations/metamask/delegation.py:141-156 | a grant decides on the first four bytes alone |
| Selectors.TransferOnlyByWithdrawGrant | integrations/metamask/delegation.py:262-269 | an ERC-20 transfer passes the withdraw grant and never the trade grant |
| Authority.RunsOnlyOnceAuthorized | apps/agents/models.py:239-256 | along any path of allowed transitions an agent runs, pauses or expires only after being AUTHORIZED, and REVOKED is final |
| Authority.TransitionTable | apps/agents/models.py:239-256 | exactly which status may follow which |
| Authority.Registry.MarkFunded | services/smart_account_service.py:115-134 | moves only agents that may become FUNDED and keeps the authority invariant |
| Authority.Registry.EnsureAgent | services/smart_account_service.py:137-165 | returns the account's one agent that is not revoked, creating it when there is none |
| Authority.Registry.GrantAgent | services/smart_account_service.py:168-263 | all older permissions of the agent are retired and one ACTIVE one appended, or nothing changes |
| Authority.Registry.RevokeAgent | services/smart_account_service.py:266-285 | succeeds if and only if the user has a matching live agent; the first of them is REVOKED and has no ACTIVE permission left |
| Authority.Registry.SetAgentStatus | services/smart_account_service.py:288-302 | moves the first matching live agent if and only if the transition table allows it |
| Authority.Registry.ActivePermission | services/dream_agent_service.py:78-94 | returns the one ACTIVE unexpired permission and expires one that ran out |
| Authority.Registry.GetRunningAgent | services/dream_agent_service.py:32-39 | the first RUNNING agent of the user in the order the query returns them, if any |
| Authority.Registry.AgentWithPermission | services/dream_agent_service.py:42-51 | the first agent of the asked statuses whose permission is in force, with that permission, or none |
| Authority.HolderMeans | services/dream_agent_service.py:42-51 | that agent is the first in query order of the user, in the statuses, with a permission in force; none is found if and only if there is none |
| Authority.Registry.GetTradableAgent | services/dream_agent_service.py:54-63 | manual trading uses a RUNNING or AUTHORIZED agent with a permission in force |
| Authority.Registry.GetSessionKeyAgent | services/dream_agent_service.py:66-75 | session-key claims use an agent that is not revoked, with a permission in force |
| Authority.Registry.IncludeTrader | services/copy_service.py:166-187 | adds a followed trader to the user's active allowlists and touches no other field |
| Spending.RelationshipDailyCap | services/copy_service.py:37-50 | a relationship's executed total of a day stays within the daily maxima of its follower's stored grants |
| Spending.WhatTotalsCount | services/copy_service.py:37-50 | what a new row, evaluation or send adds to each daily total: its amount for its own relationship or agent, on its own day, in the counted states, and nothing otherwise |
| Spending.ManualDailyCap | services/dream_agent_service.py:528-538 | the manual volume of an agent's day stays within the daily maxima of the agent's stored grants |
| Spending.CopiedDailyCap | services/dream_agent_service.py:267-302 | so does what the agent copies of one relationship in a day |
| Spending.CopyKeepsMaximumIff | services/dream_agent_service.py:469-478 | a copy leaves the agent within its maximum if and only if the agent's whole day had room for it |
| Spending.AgentDailyBound | services/dream_agent_service.py:267-302 | in a day an agent records at most one daily maximum of its stored grants for each relationship it copies, plus one if it trades by hand |
| Spending.SentDailyBound | services/dream_agent_service.py:449-478 | what an agent sends in a day is within those maxima plus what was not confirmed, and within the maxima alone when everything sent that day was confirmed |
| CopyService.EvaluatePolicy | services/policy_service.py:43-99 | the list of reasons is empty if and only if agent, grant, caps, score, allowlist, outcome and expiry all pass, each guard written out |
| CopyService.CopySize | services/dream_agent_service.py:267-278 | at most the follower's own limit and the grant's, and one of the two; the grant's when there is no limit or it is zero |
| CopyService.FollowerHandled | services/copy_service.py:205-305 | everything handling one follower writes, on the tables and signals: the row and its size and status, the evaluation, the transaction, and the limits that are replaced |
| CopyService.OwnLimitLastsOneTrade | services/dream_agent_service.py:267-293 | a follower's own limit sizes the first trade the agent handles and is then replaced, so every later one is sized at the grant's maximum |
| CopyService.Service.GateCopy | services/dream_agent_service.py:267-337 | the grant's limits replace the relationship's, and the gate opens if and only if policy, score, risk and signature pass |
| CopyService.Service.ExecuteTrade | services/dream_agent_service.py:258-466 | row, evaluation and broadcast of each outcome; no row is left if and only if the gates pass and the transaction is not confirmed; the agent stays within its daily maximum if and only if its day had room |
| CopyService.Service.AgentCopy | services/dream_agent_service.py:204-255 | a running agent's copy, exactly: under the grant in force, or one SKIPPED row when there is none |
| CopyService.Service.ReviewCopy | services/copy_service.py:240-305 | the one row of a follower the agent does not handle, and its status |
| CopyService.Service.ProcessFollow | services/copy_service.py:205-318 | exactly what handling one follower writes; only agents of that follower are touched |
| CopyService.Service.DetectAndProcessCopy | services/copy_service.py:190-318 | all tables after a detection: each follower without a row is handled as the tables stood before the call, and every executed row was made by a running agent of its follower under a grant in force, at the follower's own limit or the grant's maximum, whichever is less |
| CopyService.CopyIsLostIff | services/dream_agent_service.py:338-455 | a copy leaves no row if and only if the follower is active and without a row, its running agent holds a grant in force, every guard holds, and the transaction is not confirmed |
| CopyService.CopyIsSentIff | services/dream_agent_service.py:338-455 | an active follower without a row has its copy sent, again or for the first time, if and only if every guard holds, the size is positive and sending succeeds; what is sent is that agent's transaction of that size |
| CopyService.ExecutedUnderGrant | services/dream_agent_service.py:204-255 | an executed row has a running agent of the follower, a grant in force, and a positive size within that grant |
| CopyService.Service.DetectTwice | services/copy_service.py:205-225 | detection after a run that lost nothing adds no row, whatever order agents are then returned in |
| CopyService.Service.SkipCopyExecution | services/copy_service.py:321-340 | only the owner's PENDING row becomes SKIPPED |
| CopyService.Service.PrepareCopyTrade | services/copy_service.py:343-407 | succeeds if and only if the owner's waiting row passes the limits; a refusal stores nothing |
| CopyService.PendingCountsItself | services/copy_service.py:377-392 | a waiting copy can be confirmed on its own day if and only if the other copies plus twice its size fit |
| CopyService.Service.ExecuteAgentManualTrade | services/dream_agent_service.py:481-633 | recorded if and only if the first holder of a grant in force passes every check, within both caps for the agent's whole day; a refusal or failure writes exactly its evaluation, plus the transaction if one was sent, and adds no volume |
| CopyService.Service.UpsertFollow | services/copy_service.py:66-111 | one relationship per user and trader, whatever its status, and the user's active grants learn the trader |
| CopyService.Service.UpdateFollow | services/copy_service.py:135-157 | replaces settings of one relationship; the grants learn the trader if and only if it is then active |
| CopyService.Service.StopFollow | services/copy_service.py:160-163 | only that relationship becomes STOPPED |
| Runs.Perform | services/dream_agent_service.py:258-633 | every request keeps the authority and spending invariants, and settled rows, caps and revoked agents never change; what opening an account, grants, follows, manual trades and detections do, refused or repeated ones included, is exact |
| Runs.Run | services/dream_agent_service.py:267-302 | after any sequence of requests from the empty database: at most one ACTIVE permission per agent and one live agent per account, one row per relationship and source trade, every executed copy and manual trade within a stored grant of that follower or agent, an agent's day within its maxima counted by source, and within one maximum when it has a single source; what was sent is what was recorded plus what was not confirmed, each send within a stored grant's size |
| Runs.Continue | services/smart_account_service.py:115-302 | from any reachable state on, revoked agents stay revoked and settled rows stay settled |
| Runs.ReachesEveryMultiple | services/dream_agent_service.py:279-284 | for every k there is a run of requests in which an agent with one stored grant copies k traders, trades once by hand, and records k + 1 daily maxima in one day |
| Runs.UnconfirmedSendsHaveNoBound | services/dream_agent_service.py:449-478 | for every n there is a run in which an agent with one stored grant sends n full daily maxima for one copied trade on one day, with no row and no recorded volume |
| Runs.ConfirmedIsNeverResent | services/dream_agent_service.py:338-455 | once a copy of a pair was confirmed, no later transaction is for that pair |
| Upserts.FoldIsBulk | services/event_service.py:191-262 | writing each key once from its last datum leaves the table that writing every datum in order leaves |
| Upserts.CollectWrites | services/event_service.py:205-218 | splits the data into rows to create and rows to update that together write what the bulk form writes, and counts both |
| EventIndex.StatusOfReport | services/event_service.py:121-133 | for each stored status, exactly which reports get it |
| EventIndex.FieldsOfReport | services/event_service.py:136-171 | what is written for a report is its asset, expiry, token ids, pool and winner, and the status of the report |
| EventIndex.LastReportWins | services/event_service.py:182-188 | the last report of a market is what its event row and both outcome rows carry afterwards: asset, expiry, tokens, pool, winner, prices and status; fields that are not synced stay, and a new row is dated now |
| EventIndex.BulkRefinesSimple | services/event_service.py:191-262 | the bulk write leaves exactly the events and outcomes of upserting every report in order |
| EventIndex.EventIndex.UpsertEvent | services/event_service.py:182-188 | one event row created or overwritten and its two outcome rows, all carrying the report |
| EventIndex.EventIndex.UpsertEventsBulk | services/event_service.py:191-262 | the loops, inserts and updates leave what the simple fold leaves, so each market carries its last report; created counts the new market ids, updated the known ones, together the distinct ids |
| EventSync.AfterSync | services/event_service.py:306-345 | what every row is after a synchronisation, whatever the exchange answers: its finalized report, or the latest word on it, locked if it could not be read or is open and neither listed nor picked |
| EventSync.OpenOnlyIfReportedOpen | services/event_service.py:437-460 | no row is lost, and a row still open was reported or re-read as trading in this very run unless its request was answered with another market |
| EventSync.OpenMeansReported | integrations/dreamdex/client.py:445-458 | when answers are about the market asked for, a row still open was reported or re-read as trading in this very run |
| EventSync.StaysOpenUnreportedIff | services/event_service.py:437-460 | exactly when a row nobody reported stays open |
| EventSync.AnotherAnswerLeavesMarketOpen | services/event_service.py:443-446 | an answer about another market leaves the picked one open |
| EventSync.RefreshDroppedLiveMarkets | services/event_service.py:437-460 | re-reads at most forty stale rows and locks exactly the unreadable and the left-over ones |
| EventSync.SyncEvents | services/event_service.py:306-345 | the whole run on the stored rows with its counts, every finalized market carrying its last report; a failing list leaves everything as it was |
| TraderIndex.ExtIdInjective | services/trader_service.py:431-435 | an external id determines the fill and the on-chain wallet |
| TraderIndex.Collect | services/trader_service.py:409-466 | the loops list each seen pair once, in the order met, all of them when fill ids identify fills, with count and quote sum per wallet |
| TraderIndex.FlatLists | services/trader_service.py:409-424 | a batch is read market by market and fill by fill, each once and in order |
| TraderIndex.IndexedPairs | services/trader_service.py:504-530 | after a run the index holds exactly what it held and one trade for each pair of a fill and an on-chain wallet in the batch |
| TraderIndex.CountsEachFillOnce | services/trader_service.py:424-453 | a wallet's count is the number of distinct fills it took part in, a self-trade counted once |
| TraderIndex.VolumeIsQuotes | services/trader_service.py:437-449 | a wallet's volume is the quote sum over those distinct fills |
| TraderIndex.WriteKeepsIdsUnique | services/trader_service.py:504-530 | a run keeps external ids unique |
| TraderIndex.TraderIndex.WriteIndexedFills | services/trader_service.py:409-604 | appends exactly the unstored trades, and overwrites the figures of exactly the wallets in the batch with their distinct fills and the quote sum over them |
| TraderIndex.FiguresOfProfile | services/trader_service.py:532-572 | what a run writes to each field of a profile |
| TraderIndex.TraderIndex.WriteTwice | services/trader_service.py:504-530 | indexing the same batch again adds no trade |
| SyncLock.AlwaysInv | services/event_service.py:355-434 | after every interleaving of any number of threads the lock has at most one owner and earlier acquisitions were released in order |
| SyncLock.MutualExclusion | services/event_service.py:355-434 | two threads that entered through the refresh functions are never inside `sync_events` together |
| SyncLock.HeldIffOwned | services/event_service.py:355-434 | the lock is held if and only if it has an owner or a thread start failed, never both, and a free lock is never released |
| SyncLock.ReleasedExactlyOnce | services/event_service.py:355-434 | each acquisition was released exactly once, or is held by the one owner, or was lost by a failed start |
| SyncLock.OwnersProgress | services/event_service.py:355-434 | every step of an owner releases the lock or brings its release closer, also through the hand-over to the job |
| SyncLock.FailedStartIsForever | services/event_service.py:377-393 | after a failed thread start the lock stays held and no thread enters `sync_events` through the refresh functions again |
| SyncLock.StartCanFail | services/event_service.py:387-393 | one page view is enough to get there |
| OrderSizing.AlignedIsLargest | integrations/dreamdex/client.py:175-184 | an accepted size is the largest lot multiple within the asked size; a refusal means none of at least the minimum fits |
| OrderSizing.MarketLimitIsTheWorstPrice | integrations/dreamdex/client.py:162-172 | a market order accepts every price on the book and its limit costs the most of them; the limit is a book price if and only if the tick is at most half the unit price |
| OrderSizing.PreparePlaceOrder | integrations/dreamdex/client.py:764-808 | the size is the largest lot multiple within the asked one and at least the minimum, the price lies on the grid, and the order is refused if and only if no size fits or the price is below the grid |
| OrderSizing.PrepareTrade | services/trading_service.py:163-240 | the order is sized and priced so, the stored quantity is its raw size, the approval covers every fill no worse than the limit, and the refusals are exact |
| OrderSizing.SizeSpendsTheAmount | services/trading_service.py:97-103 | the size is a lot multiple of at least the minimum and spends the amount within half a raw unit above and, below, one lot less half a unit |
| OrderSizing.StoredSizeIsSignedSize | services/trading_service.py:213-218 | the stored quantity is the signed raw size |
| OrderSizing.ApprovalCoversEveryFill | services/trading_service.py:220-240 | the approval covers the floored cost at every YES price no worse than the limit, for YES and NO buys |
| OrderSizing.ApprovalIsTight | services/trading_service.py:220-240 | and the approval is no more than the cost at the limit itself, or one raw unit |
| OrderSizing.AllowanceSuffices | integrations/dreamdex/client.py:870-914 | with or without an approve transaction the allowance pays for every such fill |
| OrderSizing.FallbackPaysDisplayedPriceIff | services/trading_service.py:139-150 | exactly when the resting order pays the displayed price: six decimals and, for YES, on the tick grid, for NO, one half of the unit on the grid |
| OrderSizing.ApprovalCoversFallback | services/trading_service.py:245-262 | the approval computed for the market order also covers the resting one, for NO always and for YES up to the market limit |
| OrderSizing.FallbackCoveredIff | services/trading_service.py:245-262 | the approval prepared for a YES buy covers its resting order for every amount, in collateral or in shares, if and only if the grid price is not above the market limit or the tick leaves no order to place |
| OrderSizing.DividingTickIsEnough | services/trading_service.py:245-262 | a tick that divides the unit price keeps every displayed price below one within the market limit |
| OrderSizing.OddTickLeavesApprovalShort | services/trading_service.py:245-262 | at a tick of 7 one share prepared at 0.999999 is approved with 999993 raw units and its resting order costs 999999 |
| TradeLifecycle.TradeBook.Confirm | services/trading_service.py:438-498 | succeeds if and only if the caller's waiting trade has a hash, a tradable market and a good receipt; any failure stores nothing |
| TradeLifecycle.TradeBook.ExpireStaleTrades | services/trading_service.py:501-508 | exactly the old waiting trades expire, and their number is returned |
| TradeLifecycle.Serve | services/trading_service.py:438-508 | over any run no trade is left PREPARED, SUBMITTED or FAILED, final statuses never change, and each trade is confirmed at most once |
| TelegramLink.LinkService.StartLink | services/telegram_link_service.py:97-153 | goes through if and only if neither side has an active link elsewhere and the message is delivered; never displaces an active link; a failure changes nothing |
| TelegramLink.LinkService.ConfirmLink | services/telegram_link_service.py:156-186 | activates a link if and only if this chat has a pending one with this token that has not expired |
| TelegramLink.LinkService.CancelPendingLink | services/telegram_link_service.py:189-195 | removes exactly the pending link of this chat and token |
| TelegramLink.LinkService.Unlink | services/telegram_link_service.py:198-200 | removes the user's link |
| TelegramLink.Serve | services/telegram_link_service.py:97-200 | after any requests chats and users are unique, and an active link was confirmed by its chat, with the token of the user's newest start, within fifteen minutes |

## Left out

- HTTP, GraphQL and RPC calls, receipts, gas estimation, signing, language models and news: any result is a parameter.
- keccak, sha256 and CREATE2: selectors are constants and hashes are opaque.
- Copy Score, consensus, radar, trader score and DreamLens Score: the gates take any score.
- RiskEngine.evaluate beyond the relationship limits: the remaining checks are one arbitrary answer.
- The order in which the database returns rows by update time: a parameter of the operations that depend on it.
- claim_agent_positions: a loop over the claims modelled here.
- Decimal's 28-digit context, address casing and stripping, whitespace inside hex strings.
- Reading caveats from a typed_data wrapper: caveats are already a list.
- The pool filter and time sort of get_user_fills, and the display fields of participants.
- Races between processes, and the IntegrityError fallbacks of the bulk inserts: a service call is one atomic step, except in SyncLock.
- Titles, descriptions, volumes and metadata of events: derived display fields that are copied or formatted.
- Several clock readings within one synchronisation are one reading.
- How fills reach the trader index from the exchange (sync_traders_from_fills): the batch is any list of markets with fills.
- Selling (prepare_sell_trade, prepare_position_close) and the order encoders: the same grid and ABI arithmetic.
- What a sent order really spends: an amount is counted as asked for, up to the grid (OrderSizing.SizeSpendsTheAmount).
- Collateral with other than six decimals.
- TraderIndex.Collect: that every pair is listed assumes that a fill id names one fill of a market; without it the contract still says which pairs are.
- Claims.ClaimWon: for balances of six decimals, as on-chain amounts are; what other balances leave is in RedeemLeavesNothingIff.
- Authority.Registry.GrantAgent: the session key and the signature check are arbitrary answers.
