# Proof-of-Agent, verified in Dafny

Proof-of-Agent lets a trader hand SOL to a trading agent under published terms. The agent's operator posts a bond; an
on-chain program locks a share of it for every position, pays performance fees, slashes the bond when a position loses
more than was tolerated, and pays the whole locked bond when the agent does not come back in time. Around the program
sit an agent runner that draws positions, swaps and settles; an SDK runner and client for other agents; a devnet
faucet, a waitlist and a rate limiter in the web app; and a simulator whose results the app ships as a packed table.

This project models the parts of that system whose correctness spans several functions, several runs or several
processes, and proves what they promise. `dafny verify dfyconfig.toml` checks all of it.

## How the project is laid out

- **The escrow.** `Numbers`, `Settlement` and `SimulationPort` hold the integer arithmetic and its comparison with the
  real-valued simulator; `AppCapacity` is the one formula the web app computes in doubles. `Accounts` and `Ledger` specify every instruction as a function from ledger to ledger;
  `Program` is the program itself, a class whose methods update its fields step by step and are proved to do what
  `Ledger` says, on success and on every error. `Sums` and `Tally` are sums over all positions and all balances.
  `LedgerInvariant` proves the invariant of every reachable ledger; `LedgerFrame`, `LedgerOutcomes`, `LedgerLiveness`
  and `LedgerTheorems` draw the consequences, and `LedgerAdmission` says who may do what, exactly when it succeeds and
  why it is refused. Any keys may sign anything, in any order; the same key may be operator,
  executor and trader at once; anyone may donate lamports to any account at any time.
- **The agent runner's swap booking.** `Swaps` is what the runner does with its books; `SwapProtocol` puts chain, disk
  and memory side by side, with crashes and landings between any two steps. `StateFile` is the file a save writes.
- **One tick of the runner.** `Ticks` is `tickAll` with its reads, settle pass, trading pass, draws and adoptions. A reply
  is had only by asking for it, and everything asked is kept: the n-th call gets the n-th reply of an arbitrary
  sequence. `Turns` says what the calls and replies of a book's turn and of a pass have to do with the books.
- **Confirmation.** `Confirmation` is the SDK's send loop against a cluster that may drop, delay or land anything.
- **The SDK runner's clock.** `RunnerTiming`.
- **The web app.** `Faucet`, `Waitlist`, `WaitlistStore`, `RateLimiter` and `PackedTable`.

Code that updates fields or loops is a method or a class here, proved against a function or against the property
itself; protocols between processes are state machines whose runs are sequences of enabled steps.

## Where code and comments differ

The model follows the code. Most of these differences are lemmas.

- `agent/src/orca.ts:187` says any error but `SwapInFlight` means nothing was sent. A throw from the meta lookup at
  line 234 is such an error, after the swap has landed; the caller then clears it (`SwapProtocol.LostSwap`). A failed
  last lookup at line 266 does the same (`SwapProtocol.LostAtTheLastLook`). A landed swap is lost if and only if one of
  these lookups of it fails and the next save completes with no crash in between (`SwapProtocol.LostExactly`), and then
  for good (`SwapProtocol.LostForever`).
- `sdk/src/client.ts:138` says a fresh blockhash is signed once the old one expires. Running out of polls signs a fresh
  one too, and so does an expiry after which the history search went unanswered. After exactly these two ends both
  signings can land (`Confirmation.CarelessEndsLandTwice`).
- `app/app/api/faucet/route.ts:182` says concurrent requests back out when the day is over its cap. With any number of
  drops a day any number of payouts whose marker and recount fall on different days can slip through
  (`Faucet.MidnightSlipsThrough`), and so can one if a single release deletes the wallet's marker before the day's
  (`Faucet.WalletFirstSlipsThrough`). Without such a release no day exceeds its cap by more than the payouts that
  straddle a midnight (`Faucet.OverCapIsStraddling`).
- `app/lib/program.ts:179` computes the largest principal an agent can back in double precision. With 1199880009998
  lamports free at 99.99% it says 1200000009999, for which the program would lock one lamport more than is free
  (`AppCapacity.OffersTooMuch`). `AppCapacity.OfferIsBackedExactly` says when this happens, and it never does for a
  capacity below 2^40 lamports (`AppCapacity.SmallCapacitiesAreRight`).
- `app/lib/rateLimit.ts:6` says the map never holds more than `maxKeys` entries; with `maxKeys` below one it holds one
  after any call (`RateLimiter.WithinMaxKeysExactly`).
- `sdk/src/runner.ts:122` says the hook's grace ends `SETTLE_TX_SECS` before the deadline; one that is cut is cut in
  whole seconds and may end up to a second later (`RunnerTiming.GraceEnds`).
- `agent/src/agent.ts:506` says due books settle across all agents first. A save that fails
  (`agent/src/agent.ts:252` is outside the `try`) ends that agent's settle pass. Its due books are offered their settle
  if and only if they were added no later than the one whose save failed (`Turns.DueExactly`); in
  `Ticks.SecondWaits` the second of two due books is not.
- Withdrawing exactly 2^63 lamports panics when the event negates the amount as an `i64`
  (`programs/proof_of_agent/src/instructions/withdraw_collateral.rs:46`), so that one amount is excepted in
  `LedgerAdmission.WithdrawSucceedsExactly`.

## Model

| member | source | states |
|---|---|---|
| Settlement.ShareIsPartOf | programs/proof_of_agent/src/instructions/settle_position.rs:77-83 | A share of at most 100% is the exact floor, never exceeds its base and never overflows. |
| Settlement.LockIsCeiling | programs/proof_of_agent/src/instructions/open_position.rs:38-47 | The bond locked is the exact ceiling of principal times ratio, at most the principal, and positive for any principal. |
| Settlement.CapacityIsLargestPrincipal | app/lib/program.ts:177-181 | In exact integers, the capacity is the largest principal the on-chain lock check admits: a principal fits if and only if it is at most the capacity. |
| AppCapacity.QuotientExactly | app/lib/program.ts:180 | Any quotient of at least one, rounded to the nearest double and then down, is the last multiple of the doubles' step there that it reaches, or the next: below 2^52 if and only if it lies within half of a double's fraction of the next whole number, above if and only if it is nearer to the next, ties going to the even one. |
| AppCapacity.AppCapacityExactly | app/lib/program.ts:178-181 | For every free collateral that converts to a number and any valid ratio, the app offers that rounding of the rounded product over the ratio; below 2^53 / 625 lamports, where the product is exact, that is the exact capacity or one more. |
| AppCapacity.OfferIsBackedExactly | app/lib/program.ts:177-181 | Over the same range the program can lock for the capacity the app offers if and only if rounding took product and quotient up by no more than the division's remainder. |
| AppCapacity.SmallCapacitiesAreRight | app/lib/program.ts:177-181 | A capacity below 2^40 lamports is always exact. |
| AppCapacity.OffersTooMuch | app/lib/program.ts:177-181 | Free collateral and a ratio for which the app offers a principal whose lock is one lamport more than is free. |
| Settlement.SettlementNeverOverflows | programs/proof_of_agent/src/instructions/settle_position.rs:70-99 | For all amounts and validated terms the settlement succeeds, with a fee within the profit and a slash within the bond. |
| Settlement.PayoutIsMonotone | programs/proof_of_agent/src/instructions/settle_position.rs:70-99 | Returning more never pays the trader less, across the profit, tolerated-loss and breach branches. |
| Settlement.LockFitsUnderFloor | programs/proof_of_agent/src/state.rs:31-37 | The ratio plus drawdown bound keeps the bond within what a total loss slashes. |
| Settlement.PayoutCoversLock | programs/proof_of_agent/src/state.rs:31-37 | Under the bound, whatever is returned, the trader receives at least the locked bond. |
| Settlement.WithoutTheBoundWalkingAwayIsCheaper | programs/proof_of_agent/src/state.rs:31-34 | Terms just over the bound for which settling nothing costs the operator less than defaulting. |
| SimulationPort.ShareTracksReal | sim/protocol.py:52-64 | An integer share is within one lamport below the real one. |
| SimulationPort.LockTracksReal | sim/protocol.py:24-26 | The locked bond is within one lamport above the simulator's. |
| SimulationPort.ProgramTracksPort | sim/protocol.py:52-64 | Against the exact real settlement the program's fee lies in (f-1, f], its slash in [s, s+1), and it slashes exactly when the simulator says breached. |
| Program.ProofOfAgent.CreateAgent | programs/proof_of_agent/src/instructions/create_agent.rs:43-91 | The handler does exactly what the ledger specifies: same state on success, no change and the same error otherwise. |
| Program.ProofOfAgent.UpdateAgent | programs/proof_of_agent/src/instructions/update_agent.rs:22-36 | As specified; only a draft's terms change. |
| Program.ProofOfAgent.PublishAgent | programs/proof_of_agent/src/instructions/publish_agent.rs:24-40 | As specified, with both guards. |
| Program.ProofOfAgent.SetExecutor | programs/proof_of_agent/src/instructions/set_executor.rs:19-27 | As specified. |
| Program.ProofOfAgent.SetAccepting | programs/proof_of_agent/src/instructions/set_accepting.rs:23-33 | As specified; never back to a draft. |
| Program.ProofOfAgent.DepositCollateral | programs/proof_of_agent/src/instructions/deposit_collateral.rs:25-44 | As specified, transfer before the checked addition. |
| Program.ProofOfAgent.WithdrawCollateral | programs/proof_of_agent/src/instructions/withdraw_collateral.rs:25-50 | As specified, unchecked subtraction and all. |
| Program.ProofOfAgent.OpenPosition | programs/proof_of_agent/src/instructions/open_position.rs:49-130 | As specified: admission, lock, counters, transfer, snapshot of the terms. |
| Program.ProofOfAgent.CancelPosition | programs/proof_of_agent/src/instructions/cancel_position.rs:38-75 | As specified. |
| Program.ProofOfAgent.DrawFunds | programs/proof_of_agent/src/instructions/draw_funds.rs:43-71 | As specified. |
| Program.ProofOfAgent.SettlePosition | programs/proof_of_agent/src/instructions/settle_position.rs:101-248 | As specified: decline or return, the fee withheld when it would strand the operator's wallet, slash, drain, books. |
| Program.ProofOfAgent.BookSettle | programs/proof_of_agent/src/instructions/settle_position.rs:173-225 | The settle's bookkeeping alone, assignment by assignment, is the specified update or the specified error. |
| Program.ProofOfAgent.ClaimDefault | programs/proof_of_agent/src/instructions/claim_default.rs:45-112 | As specified. |
| Tally.Rewrite | programs/proof_of_agent/src/instructions/settle_position.rs:190-213 | If an agent's counters move by exactly what one of its positions changes, they stay equal to the folds over all its positions ever opened. |
| Tally.TransferConserves | programs/proof_of_agent/src/instructions/mod.rs:30-70 | A transfer conserves the sum of all balances, whatever accounts coincide. |
| LedgerInvariant.OpenKeepsInv | programs/proof_of_agent/src/instructions/open_position.rs:49-130 | An open keeps the ledger invariant: counters equal folds, locked within total, vaults funded, terms respected. |
| LedgerInvariant.CancelKeepsInv | programs/proof_of_agent/src/instructions/cancel_position.rs:38-75 | So does a cancel. |
| LedgerInvariant.DrawKeepsInv | programs/proof_of_agent/src/instructions/draw_funds.rs:43-71 | So does a draw. |
| LedgerInvariant.SettleKeepsInv | programs/proof_of_agent/src/instructions/settle_position.rs:101-225 | So does a settle of any amount, on time or late, or a decline. |
| LedgerInvariant.ClaimKeepsInv | programs/proof_of_agent/src/instructions/claim_default.rs:45-92 | So does a claimed default. |
| LedgerInvariant.StepKeepsInv | programs/proof_of_agent/src/instructions/settle_position.rs:173-193 | Every instruction, successful or not, by any signer, and every clock advance and donation keeps the invariant. |
| LedgerInvariant.RunKeepsInv | programs/proof_of_agent/src/instructions/settle_position.rs:173-193 | So does every run. |
| LedgerInvariant.ReachableSatisfiesInv | programs/proof_of_agent/src/instructions/create_agent.rs:43-91 | Hence every ledger reachable from an empty one satisfies it. |
| LedgerFrame.StepFrame | programs/proof_of_agent/src/state.rs:87-123 | What a step leaves alone: closed positions, other agents' collateral, published terms; and collateral and vault move by exactly deposits, withdrawals, slashes and gifts. |
| LedgerOutcomes.StepConserves | programs/proof_of_agent/src/instructions/mod.rs:30-70 | Every instruction conserves the sum of all balances, with any sharing of keys. |
| LedgerOutcomes.RunConserves | programs/proof_of_agent/src/instructions/mod.rs:30-70 | So does every run. |
| LedgerOutcomes.SettlePaysExactly | programs/proof_of_agent/src/instructions/settle_position.rs:118-188 | For every wallet at once: a settle pays the trader the recorded payout plus rent floor and donations, the operator the recorded fee, and takes from the executor what it returned, even when these are one key. |
| LedgerOutcomes.ClaimPaysExactly | programs/proof_of_agent/src/instructions/claim_default.rs:52-76 | A default pays the trader exactly the bond plus the vault's surplus, and nobody else anything. |
| LedgerOutcomes.CancelPaysExactly | programs/proof_of_agent/src/instructions/cancel_position.rs:38-75 | A cancel pays back exactly the principal plus the vault's surplus, and leaves the bond where it was. |
| LedgerLiveness.CancelAlwaysSucceeds | programs/proof_of_agent/src/instructions/cancel_position.rs:38-75 | The trader's cancel succeeds if and only if the position is open, whatever came before. |
| LedgerLiveness.ClaimAlwaysSucceeds | programs/proof_of_agent/src/instructions/claim_default.rs:45-92 | The trader's claim succeeds if and only if the position is trading, past its deadline, and the counters have room. |
| LedgerLiveness.SettleSucceedsExactly | programs/proof_of_agent/src/instructions/settle_position.rs:101-225 | A settle succeeds if and only if the key may execute, the position is live, the executor can afford it and keeps a rent-exempt wallet, and the counters have room; no dust fee can block it. |
| LedgerTheorems.NeverUnderflows | programs/proof_of_agent/src/instructions/settle_position.rs:173-193 | In every reachable ledger no unchecked subtraction underflows and no payment out of a vault lacks funds. |
| LedgerTheorems.RunKeepsClosed | programs/proof_of_agent/src/state.rs:139-154 | Closed positions stay exactly as they were closed, in every run. |
| LedgerTheorems.ClosesAtMostOnce | programs/proof_of_agent/src/instructions/settle_position.rs:104-107 | In any run, however often settles, cancels and claims of a position are sent, at most one takes effect. |
| LedgerTheorems.TraderFloor | programs/proof_of_agent/src/state.rs:31-37 | Every position that ever closed, by any path, records a payout of at least the bond, itself at least the published ratio of the principal. |
| LedgerTheorems.CloseRaisesTheWallet | programs/proof_of_agent/src/state.rs:31-37 | The instruction that closes a position raises its trader's wallet by at least the bond and the rent floor, on top of what the trader returned itself if it was the executor. |
| LedgerTheorems.EveryCloseWasPaid | programs/proof_of_agent/src/state.rs:31-37 | Behind every closed position of a run from the start there is the step that closed it, which paid its trader that much. |
| LedgerTheorems.WalkingAwayCostsTheSame | programs/proof_of_agent/src/instructions/settle_position.rs:19-22 | Past the deadline, settling nothing and a claimed default leave equal collateral, counters, slashes and balances; only the settled and defaulted counters and the status differ. |
| LedgerTheorems.CapitalIsBacked | programs/proof_of_agent/src/instructions/open_position.rs:74-88 | In every reachable ledger capital times ratio is at most 10000 times the locked bond, and at least that less 9999 per open position. |
| LedgerTheorems.PublishedTermsArePermanent | programs/proof_of_agent/src/instructions/update_agent.rs:22-36 | Once published, terms never change and the agent never returns to a draft. |
| LedgerTheorems.CollateralHistory | programs/proof_of_agent/src/instructions/settle_position.rs:190-225 | Along every run total collateral is deposits less withdrawals less slashes, and the vault holds it plus rent floor and gifts to the lamport. |
| LedgerTheorems.TradersCanCloseEverything | programs/proof_of_agent/src/instructions/claim_default.rs:45-92 | From every reachable ledger with room in its counters, a plan of trader steps and clock advances alone closes all positions. |
| LedgerAdmission.ValidExactly | programs/proof_of_agent/src/state.rs:35-59 | Terms are valid exactly if the ratio is 10% to 100%, the fee at most half the ratio, the drawdown at most half the principal and, with the ratio, at most all of it, and the window between a minute and 90 days. |
| LedgerAdmission.TermsRefusals | programs/proof_of_agent/src/state.rs:39-59 | Each error of the check means its own bound is the first one broken. |
| LedgerAdmission.CreateSucceedsExactly | programs/proof_of_agent/src/instructions/create_agent.rs:43-91 | A creation succeeds if and only if the id is new, the terms are valid and the operator can pay the vault's rent and stay rent-exempt; it adds a draft of the operator's with empty books. |
| LedgerAdmission.SettingsSucceedExactly | programs/proof_of_agent/src/instructions/update_agent.rs:22-36 | Updating, publishing, binding a trading key and pausing succeed if and only if the agent's operator signs and the agent is a draft, a funded draft, anything, or published; each changes its one field (publishing also the time) and nothing else. |
| LedgerAdmission.DepositSucceedsExactly | programs/proof_of_agent/src/instructions/deposit_collateral.rs:9-44 | A deposit succeeds if and only if the operator signs, the amount is positive and fits, and the wallet stays rent-exempt; it moves exactly that amount between the operator's wallet, the vault and the books. |
| LedgerAdmission.WithdrawSucceedsExactly | programs/proof_of_agent/src/instructions/withdraw_collateral.rs:9-50 | A withdrawal, whoever signs, succeeds if and only if the operator signs, the amount is positive, within the free collateral and not exactly 2^63, and the wallet ends rent-exempt; exactly that amount goes from the vault to the operator's wallet. |
| LedgerAdmission.OpenSucceedsExactly | programs/proof_of_agent/src/instructions/open_position.rs:49-130 | An open succeeds if and only if the agent is active, the nonce new, the amount positive and at most what the free collateral backs, the duration within the agent's window, the counters and the clock have room, and the trader can pay amount and rent and stays rent-exempt. |
| LedgerAdmission.OpenOpens | programs/proof_of_agent/src/instructions/open_position.rs:74-130 | It opens a position of the agent's terms as they are, with the least bond that covers the ratio and the deadline that many seconds off; moves amount and rent from trader to vault; and counts bond, capital and position on the agent. |
| LedgerAdmission.DrawSucceedsExactly | programs/proof_of_agent/src/instructions/draw_funds.rs:43-71 | A draw succeeds if and only if the trading key or the operator signs, the position is open and before its deadline, and the wallet ends rent-exempt. |
| LedgerAdmission.DrawDraws | programs/proof_of_agent/src/instructions/draw_funds.rs:43-71 | It moves exactly the principal to the signer, and marks the position trading with the time. |
| LedgerAdmission.TraderSucceedsExactly | programs/proof_of_agent/src/instructions/claim_default.rs:45-92 | Whoever signs, a cancel succeeds if and only if the trader signs for an open position, and a claim if and only if the trader signs for a trading one past its deadline and the counters have room. |
| LedgerAdmission.NothingWithoutASignature | programs/proof_of_agent/src/instructions/withdraw_collateral.rs:9-22 | Over all instructions: an agent's settings and its collateral, but for slashes, change only by its operator's signature; a position is cancelled or claimed only by its trader's, and drawn or settled only by its agent's trading key's or operator's; and no wallet pays for anything it did not sign. |
| LedgerAdmission.OperatorRefusals | programs/proof_of_agent/src/instructions/publish_agent.rs:24-40 | Each error of the operator's instructions has exactly one reason, a stranger's signature first. |
| LedgerAdmission.OpenRefusals | programs/proof_of_agent/src/instructions/open_position.rs:49-90 | So has each error of an open: missing agent, used nonce, zero amount, not accepting, outside the window, too little free collateral, in that order. |
| LedgerAdmission.TraderRefusals | programs/proof_of_agent/src/instructions/claim_default.rs:45-60 | And of a cancel and a claim. |
| LedgerAdmission.DrawRefusals | programs/proof_of_agent/src/instructions/draw_funds.rs:43-60 | And of a draw. |
| LedgerAdmission.SettleRefusals | programs/proof_of_agent/src/instructions/settle_position.rs:101-117 | And of a settle: a key that may not trade, then a position that is not live. |
| LedgerTheorems.NoStuckFunds | programs/proof_of_agent/src/instructions/withdraw_collateral.rs:25-50 | After one such plan every operator, of every agent, can withdraw its whole collateral in one step, exactly if there is any, it is not 2^63, and it leaves the wallet rent-exempt. |
| Swaps.AgentRunner.Record | agent/src/agent.ts:321-341 | A landed swap changes exactly its book, amounts clamped at zero, one trade appended. |
| Swaps.AgentRunner.OnSigned | agent/src/agent.ts:382-385 | Before the send, the swap is pending in memory and on disk. |
| Swaps.AgentRunner.FinishSwap | agent/src/agent.ts:388-398 | After the send, memory and disk agree and hold the outcome's effect and nothing else. |
| Swaps.AgentRunner.ResolvePending | agent/src/agent.ts:343-359 | True exactly when the book has no pending swap left, memory and disk agreeing. |
| SwapProtocol.StepKeepsInv | agent/src/agent.ts:344-399 | Every step of runner, disk and chain, and every crash, keeps the booking invariant. |
| SwapProtocol.ExactlyOnce | agent/src/agent.ts:344-399 | In every run whose lookups work, every swap ever saved for a book still on disk is exactly one of pending, booked once and landed, or dropped and unable ever to land. |
| SwapProtocol.Classified | agent/src/orca.ts:227-269 | Without that proviso the one further possibility is a landed swap cleared by one of the two lookups. |
| SwapProtocol.RunLosesNothing | agent/src/agent.ts:344-399 | While the lookups work no landed swap is cleared, nor about to be. |
| SwapProtocol.LostExactly | agent/src/orca.ts:227-269 | Over every run, with any steps of the chain in between, a swap is cleared though it landed if and only if one of the two lookups of it failed and the next save completed with no crash before it. |
| SwapProtocol.ExactlyOnceUnlessLost | agent/src/agent.ts:344-399 | So a swap saved for a book still on disk is pending, booked once or unable to land if and only if it was not lost that way. |
| SwapProtocol.LostForever | agent/src/agent.ts:388-393 | Whatever happens after, a lost swap has landed and its book neither books it nor has it pending. |
| SwapProtocol.LostSwap | agent/src/orca.ts:227-236 | A run in which the chain sold part of a book and the book never hears of it, the meta lookup having thrown. |
| SwapProtocol.LostAtTheLastLook | agent/src/orca.ts:260-269 | Another, in which the send went unanswered, a lagging node had not seen the landed swap when it expired, and the last lookup threw. |
| SwapProtocol.AtMostOneInFlight | agent/src/agent.ts:365-367 | Of a book's swaps at most one can still land, the one the state file calls pending. |
| SwapProtocol.BooksMatchChain | agent/src/agent.ts:321-341 | A saved book's SOL is the running sum, never below zero, of its principal and its landed swaps' changes to the wallet's SOL; its USDC that of nothing and their changes to the USDC; its cycles are the swaps that end one; and each trade says what was signed and what the chain added in the currency bought. |
| SwapProtocol.RunningIsSum | agent/src/agent.ts:323-326 | While no partial sum is negative, that is the plain sum. |
| SwapProtocol.PrincipalIsAsOpened | agent/src/agent.ts:288-297 | A book's principal is the one it was opened with. |
| SwapProtocol.LookedUpIsBooked | agent/src/orca.ts:241-269 | A pending swap that is looked up is booked once by the next save if it looks landed, dropped unbooked if it looks dead, and otherwise nothing changes. |
| SwapProtocol.SentIsBooked | agent/src/orca.ts:219-236 | A swap on its way is dropped by the next save if the node refused it or it failed on-chain, booked once if it was confirmed and found, and stays pending whenever an answer did not come. |
| SwapProtocol.StepsFollowTheCode | agent/src/orca.ts:189-269 | The protocol's steps change memory as the runner's own methods do. |
| StateFile.StateDir.WriteAtomic | agent/src/state.ts:87-99 | A save that dies anywhere leaves the files as specified for that point. |
| StateFile.StateDir.LoadStateFrom | agent/src/state.ts:63-85 | Loading gives the specified state and moves a file that does not parse aside. |
| StateFile.LoadsExactly | agent/src/state.ts:63-85 | That is the state file's if it parses, its backup's if only that does, and empty otherwise, or with no state file whatever the backup holds. |
| StateFile.LoadsTheLastFinishedSave | agent/src/state.ts:87-99 | However many saves die and wherever, the state file loads as the last save that finished, never from the backup. |
| StateFile.BackupIsOneSaveBehind | agent/src/state.ts:57-62 | If the state file is damaged after a finished save, the backup is what it held one save before. |
| StateFile.DamageLosesBothExactly | agent/src/state.ts:97-98 | After any saves, dead or finished, damage to the state file loses file and backup both if and only if the last save that reached the copy died in it, or nothing was copied and there was no backup to begin with. |
| Turns.SettleAmountIsMost | agent/src/agent.ts:74-85 | What a settle can return is the most of what is owed that leaves the wallet rent-exempt and able to pay the fee. |
| Turns.OrphanKeepsItsSchedule | agent/src/agent.ts:312-313 | An adopted book keeps its schedule if that is a minute off, else settles within a minute, never in the past, and by the settle buffer exactly if that has not begun. |
| Turns.DueIsOffered | agent/src/agent.ts:221-253 | A book whose position trades and that is due when the settle pass starts is offered its settle in its turn, unless a swap is pending before the last call; past the last call only a failed call or an unwind in flight keeps the settle from being acknowledged. |
| Turns.DueExactly | agent/src/agent.ts:219-254 | In every settle pass such a book is offered its settle if and only if its turn came, which is so of the books added no later than the one whose save failed. |
| Turns.SecondIsHeldUp | agent/src/agent.ts:252 | If no call of the pass is answered, the first of two due books is offered its settle, its save fails, and the second is not offered. |
| Turns.TurnAsksRightly | agent/src/agent.ts:221-253 | Whatever is asked in a turn has its reason: a book is traded only in a trading pass before it is due; it is unwound, the wallet read and a settle sent only once it is due, and with its swap unresolved only in the last two minutes; a settle is sent after the wallet was read, for all the book holds by the replies if the wallet keeps its reserve then, and otherwise, in those two minutes, for what is over the reserve. |
| Ticks.Scan.Find | agent/src/agent.ts:222 | The first position with the key, or none. |
| Ticks.Runner.Settle | agent/src/agent.ts:447-497 | A settle that is acknowledged was sent, to the fallback only if the primary could not be reached, after the wallet was read, for as much of the book's SOL (as the unwind's reply left it) as the wallet allows, less than all only past the last call; the book goes and the position is marked where both passes see it. One that is not ended in flight, in a failed call, or may retry because the last call has not come. |
| Ticks.Runner.BookPass | agent/src/agent.ts:221-253 | A book's turn is one of five, each with the calls and replies behind it: dropped, its position in the list missing or not trading; not due, in a settle pass; put off, its swap looked up and unresolved before the last call; offered its settle, due then, with how that ended; or traded, not due. Nothing else is asked but the clock, what is left of the book follows from the replies, and a turn that did more than look ends with the one save. |
| Ticks.Runner.RunBooks | agent/src/agent.ts:219-254 | The books have their turns one after the other in the order they were added: all of them, or, if a state could not be saved, those up to that book; nothing is asked about the rest, which are as they were; a settle pass asks for no trade and no draw. |
| Ticks.Runner.MaybeDraw | agent/src/agent.ts:274-301 | The draw is asked for exactly outside the settle buffer plus two minutes; if it is answered the book of the principal opens, settling by the buffer, the position is marked and the state saved, and otherwise nothing changes. |
| Ticks.Runner.AdoptOrphan | agent/src/agent.ts:303-319 | The adopted book holds the position's principal and is scheduled between the two readings of the clock as specified. |
| Ticks.Runner.Tick | agent/src/agent.ts:193-212 | A tick is a pass over the books and then draws and adoptions; it fails exactly if a book's turn could not be saved; on a failure or a partial list nothing is asked or opened after the pass, and otherwise no trading position in the list is left without a book. |
| Ticks.TickAll | agent/src/agent.ts:510-564 | Over any number of runners and any replies: each runner's positions are scanned, else fetched; in the settle pass its due books are offered their settle exactly as far as its saves allow, and no trade or draw is asked for before all settle passes are over; then the books that are left have their turns, and no draw is asked for on a fetched list; nothing is ever asked of a position after its settle was acknowledged, and its book is gone; exactly the runners that were read and could save are reported. |
| Ticks.SecondWaits | agent/src/agent.ts:252 | A tick of two due books in which the first one's save fails and the second is not offered its settle. |
| Confirmation.SendUntilConfirmed | sdk/src/client.ts:144-182 | The nested loops compute the specified run, for every cluster and all options. |
| Confirmation.ConfirmedExactly | sdk/src/client.ts:150-154 | A signature is returned if and only if some status asked for in the call was answered as landed, and a failure reported if and only if one was answered with an error; that answer ends the call, is about its latest signing, and is true of the chain. |
| Confirmation.CallDecides | sdk/src/client.ts:155-181 | The outcome is that of the first answer that decides anything: a status that is in, a blockhash that could not be had, or a first send that threw; with none, all builds are used up. |
| Confirmation.AttemptDecides | sdk/src/client.ts:156-179 | An attempt that comes to nothing asked for a blockhash, sent once, polled the status as often as it may unless a height past the blockhash's was answered, looked at the height after each status that was not in and resent after each height that was not past, and looked through the history once. |
| Confirmation.PromptlyConfirms | sdk/src/client.ts:165 | For every budget, against a cluster whose first status says the signing is in, the call ends with it, or with its failure. |
| Confirmation.ReturnsOnlyLanded | sdk/src/client.ts:150-154 | A returned signature is one of the call's own and landed without an error. |
| Confirmation.SendsAreBounded | sdk/src/client.ts:155-172 | At most maxBuilds signings and maxBuilds times (maxPolls + 1) sends, whatever the cluster does. |
| Confirmation.AtMostOneLands | sdk/src/client.ts:173-179 | If every re-sign followed an observed expiry and an answered history search, at most one of the call's transactions lands, then or ever. |
| Confirmation.GivingUpIsFinal | sdk/src/client.ts:173-181 | If all attempts ended so and the call gave up, nothing it signed ever lands. |
| Confirmation.CarelessEndsLandTwice | sdk/src/client.ts:161-179 | For every way an attempt can end short of a result, and all budgets of at least two builds, with a poll where the end needs one: some cluster makes the first attempt end so and lands both its signing and the next, if and only if the end is careless: out of polls, or expired with the history search unanswered. |
| RunnerTiming.AcceptedExactly | sdk/src/args.ts:41-57 | Options are accepted if and only if they are numbers, not negative, the poll is at least a second, and the buffer, to the nearest second, covers a poll and the settle time; they come to the nearest whole seconds. |
| RunnerTiming.SleepsAPoll | sdk/src/runner.ts:107-111 | The loop sleeps a whole poll with no book or one not due within a poll, and otherwise until it is due. |
| RunnerTiming.RetryFitsExactly | sdk/src/args.ts:37-48 | A retry one poll after the buffer starts fits before the deadline exactly if the buffer is as long as the options demand. |
| RunnerTiming.LoopUntilDue | sdk/src/runner.ts:302-311 | The loop's first tick that finds the book due comes in the second of its settle time, or one second after the draw if that is later. |
| RunnerTiming.GraceEnds | sdk/src/runner.ts:544-552 | A hook that stays gets exactly its grace, and one that goes no more; waiting for a hook that stays ends by the settle time before the deadline exactly if the grace was not cut or the signal went out on the second. |
| RunnerTiming.DrawThenSettle | sdk/src/runner.ts:302-321 | From any draw under accepted options the first settle attempt starts in the second the hold time is over or the next, or if that is in the buffer before the deadline, in the buffer's first second or the next; that leaves the settle time; and the hook's time is over less than a second after the last moment that leaves the settle time. |
| Faucet.EntersBy | app/app/api/faucet/route.ts:165-215 | A request gets into each phase one way only: it claims once the faucet is funded and fewer drops than the day's are listed, marks the day once its wallet's marker is its own, sends only after a recount within the day's drops, has paid only if the send went out, and backs out only after a recount over them or a send that certainly moved nothing. |
| Faucet.Goes | app/app/api/faucet/route.ts:165-215 | And it always goes on so: nothing is refused but for those reasons. |
| Faucet.ReleaseUndoes | app/app/api/faucet/route.ts:184-190 | Backing out undoes both markers, in either order, so the wallet can claim again. |
| Faucet.PaidOncePerWallet | app/app/api/faucet/route.ts:175-180 | However requests interleave, fail or die, no wallet is paid twice. |
| Faucet.DailyCap | app/app/api/faucet/route.ts:182-191 | Payouts whose marker and recount fall on one day never exceed the daily number, if no release deletes the wallet's marker first. |
| Faucet.OverCapIsStraddling | app/app/api/faucet/route.ts:182-191 | So the payouts marked for a day are at most the daily number and those of them whose recount fell on another day. |
| Faucet.CountToday | app/app/api/faucet/route.ts:82-91 | The paged count is exactly the number of blobs listed, which is at least that of the markers present throughout. |
| Faucet.MidnightSlipsThrough | app/app/api/faucet/route.ts:183-188 | For every positive number of drops and every number of straddlers, a run that pays as many requests as both together for a day, with exactly those straddling a midnight and no release that deletes a wallet's marker first: the bound is reached. |
| Faucet.WalletFirstSlipsThrough | app/app/api/faucet/route.ts:184 | For every positive number of drops, a run that pays one more than that for a day, no payout straddling a midnight, with exactly one release that deletes a wallet's marker first. |
| Waitlist.NothingChangedExactly | app/lib/waitlistExport.ts:14-17 | No field is listed as changed exactly if all fields read the same. |
| Waitlist.SortedAscends | app/lib/waitlistExport.ts:24 | Sorting orders by time and loses or invents nothing. |
| Waitlist.GroupByEmail | app/lib/waitlistExport.ts:23-33 | The loop computes the specified groups. |
| Waitlist.AlikeExactly | app/lib/waitlistExport.ts:10-17 | Two submissions count as alike exactly if they are of one email, or are one submission without any, and answer all twelve fields the same, a missing answer being empty. |
| Waitlist.OneRowEach | app/lib/waitlistExport.ts:19-33 | Of any list the export is: two submissions in one row exactly if they are one person's; a row for each person, headed by their earliest submission and saying whatever they submitted; and nothing in a row twice, or that was not submitted. |
| Waitlist.SortIsStable | app/lib/waitlistExport.ts:24 | Submissions of one time keep the order they were listed in. |
| Waitlist.HoldsExactlyTheNews | app/lib/waitlistExport.ts:19-31 | The export holds exactly the submissions that say something no earlier one of the same person said. |
| Waitlist.GroupsOldestFirst | app/lib/waitlistExport.ts:19-32 | Rows and what they hold come oldest first, so each entry is the earliest with its email. |
| Waitlist.ExportIgnoresOrder | app/lib/waitlistExport.ts:23-33 | Two lists of the same submissions, in any order and with any repeats, are exported alike, if no two submissions share a time. |
| Waitlist.OrderShowsExactly | app/lib/waitlistExport.ts:24 | Of two submissions the order shows exactly when they differ and share a time. |
| WaitlistStore.NeverOverwritten | app/lib/waitlistStore.ts:62-76 | However saves interleave, no blob ever changes. |
| WaitlistStore.NothingLostNothingInvented | app/lib/waitlistStore.ts:62-76 | Every acknowledged submission is stored, every blob is a submission, under one of its two paths. |
| WaitlistStore.TakenGoesAside | app/lib/waitlistStore.ts:62-76 | A save takes its email's first path if that is free, goes beside it under its own time and id if it is taken, and throws exactly if that put fails too or no blob is found there after all. |
| WaitlistStore.StoredTwice | app/lib/waitlistStore.ts:68-75 | A put that wrote but reported failure stores the submission under both paths. |
| WaitlistStore.MapLimit | app/lib/waitlistStore.ts:89-101 | However the workers interleave, the results are those of the items, in their order. |
| WaitlistStore.LoadEntries | app/lib/waitlistStore.ts:119-147 | All readable entries, sorted, or nothing exactly if some download failed. |
| WaitlistStore.ExportsTheSet | app/lib/waitlistStore.ts:124-147 | In whatever order the store lists its blobs, the export is that of the set of submissions it holds. |
| WaitlistStore.SavedIsExported | app/lib/waitlistStore.ts:62-76 | Whoever was told their submission is saved has a submission of their own email in the export that answers all twelve fields the same. |
| RateLimiter.Limiter.Sweep | app/lib/rateLimit.ts:13-18 | Drops exactly the stale keys and records the time. |
| RateLimiter.Limiter.RecentFor | app/lib/rateLimit.ts:31 | The key's times still in the window, in order. |
| RateLimiter.Limiter.Limited | app/lib/rateLimit.ts:21-36 | A call's answer and new state are those specified. |
| RateLimiter.NeverMoreThanMaxKeys | app/lib/rateLimit.ts:24-34 | After any calls the map holds at most maxKeys keys, or one if that is less. |
| RateLimiter.WithinMaxKeysExactly | app/lib/rateLimit.ts:6 | It is within maxKeys if and only if that is at least one, or zero with no call made. |
| RateLimiter.SweepsChangeNothing | app/lib/rateLimit.ts:13-18 | A sweep changes no key's recent times, now or later. |
| RateLimiter.IdealCounts | app/lib/rateLimit.ts:31-35 | The limiter that forgets nothing turns a call away exactly if its key has `max` earlier calls or more within the window. |
| RateLimiter.NeverStricterThanIdeal | app/lib/rateLimit.ts:20-36 | With time not going back, whoever is turned away would be by a limiter that forgets nothing. |
| RateLimiter.ExactUnlessCrowded | app/lib/rateLimit.ts:20-36 | If no window sees more than maxKeys distinct keys, every answer is that of the limiter that forgets nothing. |
| RateLimiter.CrowdedForgets | app/lib/rateLimit.ts:24-30 | In a map of one, a second key makes the limiter admit a call it should not. |
| PackedTable.BuildOrder | sim/export_web.py:57-64 | The four nested loops number the cells as specified, and count all of them. |
| PackedTable.FillCells | sim/export_web.py:65-78 | Each numbered cell holds its last row in all four arrays, zeros if it has none. |
| PackedTable.EncodeIsOneToOne | app/lib/simulation.ts:49 | The reader's index is a bijection onto the cells. |
| PackedTable.OrderIsLastPlace | sim/export_web.py:57-64 | The exporter's place for a key is the last one the loops pass. |
| PackedTable.SameKeys | app/lib/simulation.ts:43-50 | The page finds a key exactly when the exporter has a place for it. |
| PackedTable.PlacesAgreeExactly | app/lib/simulation.ts:43-50 | The page looks where the exporter wrote exactly if no axis lists its part of the key twice. |
| PackedTable.ExportedIsLast | sim/export_web.py:65-78 | A cell holds, measure by measure, what the sweep lists last for it, with its rate if it has one, and zeros if nothing is listed. |
| PackedTable.ExportThenLookup | app/lib/simulation.ts:52-66 | Exporting a sweep and looking a key up gives nothing exactly if the key is off the axes, and otherwise, with no repeats, the key's own cell. |

## Left out

- Anchor's account decoding, address derivation, signatures and seeds: accounts are distinct abstract identities, and which key signed and which account belongs to which are guards of a step.
- Rent of agent and position accounts, and transaction fees: only the vaults' rent floor is modelled. Operator wallets are taken to hold no data, so one rent floor serves all accounts.
- Names, descriptions, rules and asset lists: `create_agent` and `update_agent` check their lengths and repeats; the model checks the numeric terms.
- The encoding of events, beyond the one negation that can panic.
- Agents published before the ratio plus drawdown bound existed: every run starts from an empty ledger.
- LedgerTheorems.TradersCanCloseEverything: assumes the counters a claim increments and the clock stay below their type limits.
- Pools, quotes, swap instructions and the strategies' signals: a swap's amounts come from the chain, and what a strategy decides is an arbitrary choice.
- SwapProtocol.ExactlyOnce: assumes truthful RPC answers and the state file's own contents after a restart, not its backup; an emergency settle and a manual edit of the state drop books as `CloseBook` does; book ids are taken to be new for each draw; a save either completes or the process dies (`StateFile` shows why that suffices).
- RunnerTiming.GraceEnds: timers fire exactly when they are due; a late one would add its lateness.
- Ticks.TickAll: a trade's swaps are one call with one arbitrary change of the book, and `resolvePending` and an unwind one call each, with the saves inside them; the clock does not run backwards within a tick; a position list has no key twice; alerts and logs are left out.
- Confirmation.AtMostOneLands: a confirmed transaction is not rolled back, nor one whose status carries an error, and each signing is a transaction of its own.
- RunnerTiming.DrawThenSettle: timers fire exactly when they are due, ticks take no time apart from stopping the hook, position reads succeed, and the measured clock offset does not change.
- Faucet.DailyCap: blob operations are atomic, a recount sees at least the markers there throughout, and a refused or failed transfer moved nothing; balance checks, IP limits and responses are left out.
- WaitlistStore.SavedIsExported: encryption is left out, so every stored blob decrypts; the older date-path files and the snapshots are not modelled.
- Waitlist.HoldsExactlyTheNews: emails are already trimmed and lower-cased, and a blank email's own id never equals another's email.
- RateLimiter.ExactUnlessCrowded: time does not go backwards between calls.
- PackedTable.ExportThenLookup: values are already rounded, and the safe-drawdown table is left out.
- `agent/src/lock.ts`: two starters that both read the lock as stale can both hold it; no mutual exclusion is claimed or used.
- The SDK runner's process groups and signals, beyond whether a group is gone; its settle amount and token checks.
- The React pages, charts, CSV formatting, setup scripts, and the simulator's strategies and reports.
