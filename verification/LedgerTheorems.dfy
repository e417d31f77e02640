// Safety and accounting over whole runs of the escrow.
module LedgerTheorems {
  import opened Numbers
  import opened Accounts
  import opened Ledger
  import opened LedgerInvariant
  import opened LedgerFrame
  import opened LedgerLiveness
  import LedgerAdmission
  import LedgerOutcomes
  import Settlement
  import Sums
  import Tally

  // ---------- no unchecked subtraction can underflow ----------

  lemma WithdrawNeverUnderflows(s: State, signer: Wallet, a: AgentKey, amount: u64)
    requires Inv(s)
    ensures HandleWithdrawCollateral(s, signer, a, amount) != Failure(Underflow)
    ensures HandleWithdrawCollateral(s, signer, a, amount) != Failure(InsufficientLamports)
  {
    assert a in s.agents ==> AgentOk(s, a);
  }

  lemma CancelNeverUnderflows(s: State, trader: Wallet, k: PositionKey)
    requires Inv(s)
    ensures HandleCancelPosition(s, trader, k) != Failure(Underflow)
    ensures HandleCancelPosition(s, trader, k) != Failure(InsufficientLamports)
  {
    if k in s.positions && k.agent in s.agents && s.positions[k].Live() {
      BondIsInTheVault(s, k, 0);
    }
  }

  lemma DrawNeverUnderflows(s: State, executor: Wallet, k: PositionKey)
    requires Inv(s)
    ensures HandleDrawFunds(s, executor, k) != Failure(Underflow)
    ensures HandleDrawFunds(s, executor, k) != Failure(InsufficientLamports)
  {
    assert k in s.positions ==> PositionOk(s, k);
  }

  // Only the executor's own wallet can be short in a settle.
  lemma SettleNeverUnderflows(s: State, executor: Wallet, k: PositionKey, returned: u64)
    requires Inv(s)
    ensures HandleSettlePosition(s, executor, k, returned) != Failure(Underflow)
    ensures HandleSettlePosition(s, executor, k, returned) == Failure(InsufficientLamports) ==>
      k in s.positions && s.positions[k].status.Trading? && Balance(s.lamports, WalletOf(executor)) < returned
  {
    hide Inv;
    if k in s.positions && k.agent in s.agents && s.positions[k].Live() && Rest(s, executor, s.positions[k], returned) >= 0 {
      var c := SettleIsFunded(s, executor, k, returned);
      BondIsInTheVault(s, k, c.split.slash);
    }
  }

  lemma ClaimNeverUnderflows(s: State, trader: Wallet, k: PositionKey)
    requires Inv(s)
    ensures HandleClaimDefault(s, trader, k) != Failure(Underflow)
    ensures HandleClaimDefault(s, trader, k) != Failure(InsufficientLamports)
  {
    if k in s.positions && k.agent in s.agents && s.positions[k].Live() {
      BondIsInTheVault(s, k, s.positions[k].lockedCollateral);
    }
  }

  lemma OthersNeverUnderflow(s: State, i: Instruction)
    requires !i.WithdrawCollateral? && !i.CancelPosition? && !i.DrawFunds? && !i.SettlePosition? && !i.ClaimDefault?
    ensures Step(s, i) != Failure(Underflow)
  {
  }

  // In every reachable ledger, no instruction's unchecked subtractions can underflow, and no payment out of a
  // vault lacks funds.
  lemma NeverUnderflows(s: State, i: Instruction)
    requires Reachable(s)
    ensures Step(s, i) != Failure(Underflow)
    ensures i.WithdrawCollateral? || i.CancelPosition? || i.DrawFunds? || i.ClaimDefault?
      ==> Step(s, i) != Failure(InsufficientLamports)
  {
    ReachableSatisfiesInv(s);
    hide Inv, Reachable, HandleCreateAgent, HandleUpdateAgent, HandlePublishAgent, HandleSetAccepting, HandleSetExecutor,
      HandleDepositCollateral, HandleWithdrawCollateral, HandleOpenPosition, HandleCancelPosition, HandleDrawFunds,
      HandleSettlePosition, HandleClaimDefault;
    match i
    case WithdrawCollateral(signer, a, amount) => WithdrawNeverUnderflows(s, signer, a, amount);
    case CancelPosition(trader, k) => CancelNeverUnderflows(s, trader, k);
    case DrawFunds(executor, k) => DrawNeverUnderflows(s, executor, k);
    case SettlePosition(executor, k, returned) => SettleNeverUnderflows(s, executor, k, returned);
    case ClaimDefault(trader, k) => ClaimNeverUnderflows(s, trader, k);
    case _ => OthersNeverUnderflow(s, i);
  }

  // ---------- every position closes once ----------

  ghost predicate Closed(s: State, k: PositionKey) {
    k in s.positions && !s.positions[k].Live()
  }

  lemma StepKeepsClosed(s: State, i: Instruction, k: PositionKey)
    requires k in s.positions
    ensures k in After(s, i).positions
    ensures Closed(s, k) ==> After(s, i).positions[k] == s.positions[k]
  {
    if Step(s, i).Success? {
      StepFrame(s, i);
    }
  }

  lemma {:induction false} RunKeepsClosed(s: State, run: seq<Instruction>, k: PositionKey)
    requires Closed(s, k)
    ensures k in Run(s, run).positions && Run(s, run).positions[k] == s.positions[k]
  {
    if run != [] {
      RunKeepsClosed(s, run[..|run| - 1], k);
      StepKeepsClosed(Run(s, run[..|run| - 1]), run[|run| - 1], k);
    }
  }

  // An instruction that would close this position.
  predicate Closes(i: Instruction, k: PositionKey) {
    match i
    case CancelPosition(_, p) => p == k
    case SettlePosition(_, p, _) => p == k
    case ClaimDefault(_, p) => p == k
    case _ => false
  }

  // How many of a run's instructions took effect as a close of this position.
  ghost function Closings(s: State, run: seq<Instruction>, k: PositionKey): nat {
    if run == [] then 0
    else
      var before := Run(s, run[..|run| - 1]);
      var last := run[|run| - 1];
      Closings(s, run[..|run| - 1], k) + (if Closes(last, k) && Step(before, last).Success? then 1 else 0)
  }

  lemma CloseNeedsLive(s: State, i: Instruction, k: PositionKey)
    requires Closes(i, k) && Step(s, i).Success?
    ensures k in s.positions && s.positions[k].Live()
    ensures Closed(After(s, i), k)
  {
    match i
    case CancelPosition(trader, _) => var agent, lamports := CancelTakesApart(s, trader, k);
    case SettlePosition(executor, _, returned) => var c := SettleTakesApart(s, executor, k, returned);
    case ClaimDefault(trader, _) => var c := ClaimTakesApart(s, trader, k);
  }

  // However often cancels, settles and claims of one position are sent or resent, at most one takes effect.
  lemma {:induction false} ClosesAtMostOnce(s: State, run: seq<Instruction>, k: PositionKey)
    ensures Closings(s, run, k) <= 1
    ensures Closings(s, run, k) == 1 ==> Closed(Run(s, run), k)
  {
    if run != [] {
      var before, last := Run(s, run[..|run| - 1]), run[|run| - 1];
      ClosesAtMostOnce(s, run[..|run| - 1], k);
      if Closes(last, k) && Step(before, last).Success? {
        CloseNeedsLive(before, last, k);
      } else if Closed(before, k) {
        StepKeepsClosed(before, last, k);
      }
    }
  }

  // ---------- the trader's floor ----------

  // Every position that ever closed, by any path, records a payout of at least the bond locked for it, a bond of at
  // least the published ratio of the principal.
  lemma TraderFloor(s: State, k: PositionKey)
    requires Reachable(s)
    requires Closed(s, k)
    ensures k.agent in s.agents
    ensures
      var p := s.positions[k];
      && p.Payout() >= p.lockedCollateral
      && p.lockedCollateral * Settlement.BPS_DENOMINATOR >= p.principal * s.agents[k.agent].terms.collateralRatioBps
      && p.lockedCollateral <= p.principal
  {
    ReachableSatisfiesInv(s);
    assert PositionOk(s, k) && AgentOk(s, k.agent);
    Settlement.LockIsCeiling(s.positions[k].principal, s.agents[k.agent].terms.collateralRatioBps);
  }

  // What the trader itself put into the close: only a trader that is the executor and returns something.
  function OwnReturn(s: State, i: Instruction, k: PositionKey): nat
    requires k in s.positions
  {
    if i.SettlePosition? && i.executor == k.trader && s.positions[k].status.Trading? then i.returned else 0
  }

  // The payout is not only recorded: the instruction that closes a position raises its trader's wallet, whatever other
  // roles that wallet plays, by at least the recorded bond, on top of the vault's rent and what it returned itself.
  lemma CloseRaisesTheWallet(s: State, i: Instruction, k: PositionKey)
    requires Inv(s) && Closes(i, k) && Step(s, i).Success?
    ensures k in s.positions && k in After(s, i).positions
    ensures Balance(After(s, i).lamports, WalletOf(k.trader)) + OwnReturn(s, i, k) >=
      Balance(s.lamports, WalletOf(k.trader)) + After(s, i).positions[k].lockedCollateral + s.rentFloor
  {
    CloseNeedsLive(s, i, k);
    StepKeepsInv(s, i);
    assert PositionOk(After(s, i), k);
    RecordedFloor(After(s, i), k);
    hide Inv, HandleSettlePosition, HandleCancelPosition, HandleClaimDefault, Balance, Closed;
    match i
    case CancelPosition(trader, _) => LedgerOutcomes.CancelPaysExactly(s, trader, k, k.trader);
    case SettlePosition(executor, _, returned) =>
      LedgerOutcomes.SettlePaysExactly(s, executor, k, returned, k.trader);
    case ClaimDefault(trader, _) => LedgerOutcomes.ClaimPaysExactly(s, trader, k, k.trader);
  }

  lemma RecordedFloor(s: State, k: PositionKey)
    requires Inv(s) && Closed(s, k)
    ensures s.positions[k].Payout() >= s.positions[k].lockedCollateral
    ensures s.positions[k].trader == k.trader
  {
    assert PositionOk(s, k) && AgentOk(s, k.agent);
    Settlement.LockIsCeiling(s.positions[k].principal, s.agents[k.agent].terms.collateralRatioBps);
  }

  lemma OnlyClosesClose(s: State, i: Instruction, k: PositionKey)
    requires !Closed(s, k) && Closed(After(s, i), k)
    ensures Closes(i, k) && Step(s, i).Success?
  {
    match i
    case CancelPosition(trader, p) => var agent, lamports := CancelTakesApart(s, trader, p);
    case SettlePosition(executor, p, returned) => var c := SettleTakesApart(s, executor, p, returned);
    case ClaimDefault(trader, p) => var c := ClaimTakesApart(s, trader, p);
    case _ =>
  }

  // The n-th step of a run closed the position, for good, and paid its trader that much.
  ghost predicate PaidAt(start: State, run: seq<Instruction>, k: PositionKey, n: nat)
    requires n < |run|
  {
    var before, after := Run(start, run[..n]), Run(start, run[..n + 1]);
    && Closes(run[n], k) && Step(before, run[n]) == Success(after) && k in before.positions
    && Closed(after, k) && k in Run(start, run).positions && after.positions[k] == Run(start, run).positions[k]
    && Balance(after.lamports, WalletOf(k.trader)) + OwnReturn(before, run[n], k) >=
         Balance(before.lamports, WalletOf(k.trader)) + after.positions[k].lockedCollateral + before.rentFloor
  }

  lemma RunOfPrefix(start: State, init: seq<Instruction>, last: Instruction, n: nat)
    requires n <= |init|
    ensures (init + [last])[..n] == init[..n] && Run(start, init + [last]) == After(Run(start, init), last)
  {
    assert (init + [last])[..|init|] == init;
  }

  lemma PaidStays(start: State, init: seq<Instruction>, last: Instruction, k: PositionKey, n: nat)
    requires n < |init| && PaidAt(start, init, k, n) && Closed(Run(start, init), k)
    ensures PaidAt(start, init + [last], k, n)
  {
    RunOfPrefix(start, init, last, n);
    RunOfPrefix(start, init, last, n + 1);
    StepKeepsClosed(Run(start, init), last, k);
    hide Run, After, Step, Balance, OwnReturn, Closes;
  }

  lemma PaidNow(start: State, init: seq<Instruction>, last: Instruction, k: PositionKey)
    requires Genesis(start) && !Closed(Run(start, init), k) && Closed(After(Run(start, init), last), k)
    ensures PaidAt(start, init + [last], k, |init|)
  {
    var before := Run(start, init);
    GenesisSatisfiesInv(start);
    RunKeepsInv(start, init);
    OnlyClosesClose(before, last, k);
    CloseRaisesTheWallet(before, last, k);
    RunOfPrefix(start, init, last, |init|);
    assert (init + [last])[..|init| + 1] == init + [last];
    hide Run, Inv, Genesis, Step, Balance, OwnReturn, Closes;
  }

  // So behind every closed position of a run is the step that closed it.
  lemma {:induction false} EveryCloseWasPaid(start: State, run: seq<Instruction>, k: PositionKey) returns (n: nat)
    requires Genesis(start) && Closed(Run(start, run), k)
    ensures n < |run| && PaidAt(start, run, k, n)
  {
    hide PaidAt, Step;
    if run != [] {
      var init, last := run[..|run| - 1], run[|run| - 1];
      assert run == init + [last];
      if Closed(Run(start, init), k) {
        n := EveryCloseWasPaid(start, init, k);
        PaidStays(start, init, last, k, n);
      } else {
        n := |init|;
        PaidNow(start, init, last, k);
      }
    }
  }

  // ---------- walking away costs the same either way ----------

  // Returning nothing for a drawn position costs exactly the bond.
  lemma SettleNothing(s: State, k: PositionKey, split: Settlement.Settled)
    requires Inv(s)
    requires k in s.positions && s.positions[k].status.Trading?
    requires var p := s.positions[k];
      Settlement.ComputeSettlement(p.principal, 0, p.feeBps, p.maxDrawdownBps, p.lockedCollateral) == Success(split)
    ensures split == Settlement.Settled(0, s.positions[k].lockedCollateral)
    ensures s.positions[k].trader == k.trader
    ensures s.positions[k].returned == s.positions[k].feePaid == 0
  {
    assert PositionOk(s, k) && AgentOk(s, k.agent);
    var p := s.positions[k];
    Settlement.PayoutCoversLock(
      p.principal, 0, p.feeBps, p.maxDrawdownBps, s.agents[k.agent].terms.collateralRatioBps, p.lockedCollateral);
  }

  // Settling with nothing moves the same lamports, in the same order, as a claimed default.
  lemma SameFlows(s: State, executor: Wallet, k: PositionKey, c: SettleParts, d: ClaimParts)
    requires k in s.positions && k.agent in s.agents && s.positions[k].status.Trading?
    requires s.positions[k].trader == k.trader
    requires SettleAmounts(s, executor, k, 0, c)
    requires c.split == Settlement.Settled(0, s.positions[k].lockedCollateral)
    requires ClaimFlows(s, k, d)
    ensures c.fee == 0 && c.lamports == d.lamports
  {
  }

  // And books the same, but for the status and the counter that records it.
  lemma SameBooks(agent: Agent, p: Position, now: i64, c: SettleParts, d: ClaimParts)
    requires p.status.Trading? && now >= p.deadline && p.returned == p.feePaid == 0
    requires c.effective == c.fee == 0 && c.split == Settlement.Settled(0, p.lockedCollateral)
    requires SettleBooks(agent, p, now, c)
    requires ClaimBooks(agent, p, now, d)
    ensures d.position == c.position.(status := Defaulted)
    ensures d.agent == c.agent.(settledPositions := agent.settledPositions, defaultedPositions := d.agent.defaultedPositions)
    ensures c.agent.settledPositions == agent.settledPositions + 1
    ensures d.agent.defaultedPositions == agent.defaultedPositions + 1
  {
  }

  // Past the deadline, settling with nothing and being claimed against leave the same ledger, but for the status
  // and for which of the two counters records it.
  lemma WalkingAwayCostsTheSame(s: State, executor: Wallet, k: PositionKey, settled: State, claimed: State)
    requires Inv(s)
    requires HandleSettlePosition(s, executor, k, 0) == Success(settled)
    requires HandleClaimDefault(s, k.trader, k) == Success(claimed)
    ensures k in s.positions && k.agent in s.agents
    ensures k in settled.positions && k.agent in settled.agents && k.agent in claimed.agents
    ensures claimed == settled.(
      positions := settled.positions[k := settled.positions[k].(status := Defaulted)],
      agents := settled.agents[k.agent := settled.agents[k.agent].(
        settledPositions := s.agents[k.agent].settledPositions,
        defaultedPositions := claimed.agents[k.agent].defaultedPositions)])
    ensures claimed.agents[k.agent].defaultedPositions == s.agents[k.agent].defaultedPositions + 1
    ensures settled.agents[k.agent].settledPositions == s.agents[k.agent].settledPositions + 1
  {
    hide Inv, HandleSettlePosition, HandleClaimDefault;
    var c := SettleTakesApart(s, executor, k, 0);
    var d := ClaimTakesApart(s, k.trader, k);
    SettleNothing(s, k, c.split);
    SameFlows(s, executor, k, c, d);
    SameBooks(s.agents[k.agent], s.positions[k], s.now, c, d);
  }

  // ---------- capital is backed, and not over-backed ----------

  // One more open position keeps the bounds.
  lemma CapitalStep(principal: u64, lock: u64, ratioBps: u16, capital: int, locked: int, open: int)
    requires 0 < ratioBps <= Settlement.BPS_DENOMINATOR
    requires Settlement.RequiredCollateral(principal, ratioBps) == Success(lock)
    requires capital * ratioBps <= 10_000 * locked <= capital * ratioBps + 9_999 * open
    ensures (principal + capital) * ratioBps <= 10_000 * (lock + locked)
         <= (principal + capital) * ratioBps + 9_999 * (1 + open)
  {
  }

  ghost predicate CapitalBounded(positions: map<PositionKey, Position>, a: AgentKey, ratioBps: u16) {
    var capital, locked := Tally.Of(positions, a, Tally.Capital), Tally.Of(positions, a, Tally.Locked);
    capital * ratioBps <= 10_000 * locked <= capital * ratioBps + 9_999 * Tally.Of(positions, a, Tally.OpenCount)
  }

  lemma {:induction false} CapitalBounds(positions: map<PositionKey, Position>, a: AgentKey, ratioBps: u16)
    requires 0 < ratioBps <= Settlement.BPS_DENOMINATOR
    requires forall k | k in positions && positions[k].agent == a ::
      Settlement.RequiredCollateral(positions[k].principal, ratioBps) == Success(positions[k].lockedCollateral)
    ensures CapitalBounded(positions, a, ratioBps)
    decreases |positions.Keys|
  {
    if positions != map[] {
      var k :| k in positions;
      var rest := positions - {k};
      assert rest.Keys == positions.Keys - {k};
      CapitalBounds(rest, a, ratioBps);
      CapitalTakeOut(positions, a, k);
      hide Tally.Of;
      var p := positions[k];
      if p.agent == a && p.Live() {
        CapitalStep(p.principal, p.lockedCollateral, ratioBps, Tally.Of(rest, a, Tally.Capital),
                    Tally.Of(rest, a, Tally.Locked), Tally.Of(rest, a, Tally.OpenCount));
      }
    }
  }

  lemma CapitalTakeOut(positions: map<PositionKey, Position>, a: AgentKey, k: PositionKey)
    requires k in positions
    ensures
      var p, rest := positions[k], positions - {k};
      var counts := p.agent == a && p.Live();
      && Tally.Of(positions, a, Tally.Capital) == (if counts then p.principal else 0) + Tally.Of(rest, a, Tally.Capital)
      && Tally.Of(positions, a, Tally.Locked)
         == (if counts then p.lockedCollateral else 0) + Tally.Of(rest, a, Tally.Locked)
      && Tally.Of(positions, a, Tally.OpenCount) == (if counts then 1 else 0) + Tally.Of(rest, a, Tally.OpenCount)
  {
    Sums.TakeOut(positions, Tally.Weight(a, Tally.Capital), k);
    Sums.TakeOut(positions, Tally.Weight(a, Tally.Locked), k);
    Sums.TakeOut(positions, Tally.Weight(a, Tally.OpenCount), k);
  }

  // At all times the locked bond is the published share of the capital under management, rounded up by less than a
  // lamport per open position; so capital never exceeds what the whole bond can back.
  lemma CapitalIsBacked(s: State, a: AgentKey)
    requires Reachable(s)
    requires a in s.agents
    ensures
      var agent := s.agents[a];
      var ratio := agent.terms.collateralRatioBps;
      && agent.capitalManaged * ratio <= 10_000 * agent.lockedCollateral
      && 10_000 * agent.lockedCollateral <= agent.capitalManaged * ratio + 9_999 * agent.openPositions
      && agent.capitalManaged * ratio <= 10_000 * agent.totalCollateral
  {
    ReachableSatisfiesInv(s);
    assert AgentOk(s, a);
    var agent := s.agents[a];
    forall k | k in s.positions && s.positions[k].agent == a
      ensures Settlement.RequiredCollateral(s.positions[k].principal, agent.terms.collateralRatioBps)
           == Success(s.positions[k].lockedCollateral)
    {
      assert PositionOk(s, k);
    }
    CapitalBounds(s.positions, a, agent.terms.collateralRatioBps);
    assert Tally.Recorded(agent, Tally.Capital) == Tally.Of(s.positions, a, Tally.Capital);
    assert Tally.Recorded(agent, Tally.Locked) == Tally.Of(s.positions, a, Tally.Locked);
    assert Tally.Recorded(agent, Tally.OpenCount) == Tally.Of(s.positions, a, Tally.OpenCount);
  }

  // ---------- published terms are permanent ----------

  lemma StepKeepsTerms(s: State, i: Instruction, a: AgentKey)
    requires a in s.agents
    ensures a in After(s, i).agents
    ensures !s.agents[a].status.Draft? ==>
      !After(s, i).agents[a].status.Draft? && After(s, i).agents[a].terms == s.agents[a].terms
  {
    if Step(s, i).Success? {
      StepFrame(s, i);
    }
  }

  lemma {:induction false} PublishedTermsArePermanent(s: State, run: seq<Instruction>, a: AgentKey)
    requires a in s.agents && !s.agents[a].status.Draft?
    ensures a in Run(s, run).agents
    ensures Run(s, run).agents[a].terms == s.agents[a].terms && !Run(s, run).agents[a].status.Draft?
  {
    if run != [] {
      PublishedTermsArePermanent(s, run[..|run| - 1], a);
      StepKeepsTerms(Run(s, run[..|run| - 1]), run[|run| - 1], a);
    }
  }

  // ---------- where every lamport of collateral came from and went ----------

  ghost function NetDeposits(s: State, run: seq<Instruction>, a: AgentKey): int {
    if run == [] then 0
    else
      var before, last := Run(s, run[..|run| - 1]), run[|run| - 1];
      NetDeposits(s, run[..|run| - 1], a) + (if Step(before, last).Success? then Flow(last, a) else 0)
  }

  ghost function Gifts(s: State, run: seq<Instruction>, a: AgentKey): nat {
    if run == [] then 0
    else
      var before, last := Run(s, run[..|run| - 1]), run[|run| - 1];
      Gifts(s, run[..|run| - 1], a) + (if Step(before, last).Success? then Gift(last, a) else 0)
  }

  // Over any run: collateral is deposits less withdrawals less everything slashed, and each agent's vault holds
  // exactly its collateral, its rent floor and the donations it received.
  lemma {:induction false} CollateralHistory(s: State, run: seq<Instruction>, a: AgentKey)
    requires Genesis(s)
    ensures Committed(Run(s, run), a) == NetDeposits(s, run, a)
    ensures Balance(Run(s, run).lamports, AgentVault(a))
         == Owed(Run(s, run), a) + Gifts(s, run, a) + Balance(s.lamports, AgentVault(a))
  {
    if run != [] {
      CollateralHistory(s, run[..|run| - 1], a);
      var before, last := Run(s, run[..|run| - 1]), run[|run| - 1];
      if Step(before, last).Success? {
        StepFrame(before, last);
        assert AgentVault(a).AgentVault?;
      }
    }
  }

  // ---------- traders can close everything ----------

  function LivePositions(s: State): set<PositionKey> {
    set k | k in s.positions && s.positions[k].Live()
  }

  // The counters have room for every open position to default.
  ghost predicate RoomForAll(s: State) {
    forall a :: a in s.agents ==>
      var agent := s.agents[a];
      && agent.defaultedPositions + agent.openPositions <= U32_MAX
      && agent.breachCount + agent.openPositions <= U32_MAX
      && agent.slashedTotal + agent.lockedCollateral <= U64_MAX
  }

  // A step that needs nobody but a position's own trader, or no one at all.
  predicate ByTraderOrClock(i: Instruction) {
    match i
    case CancelPosition(trader, k) => trader == k.trader
    case ClaimDefault(trader, k) => trader == k.trader
    case AdvanceClock(_) => true
    case _ => false
  }

  lemma {:induction false} RunAppends(s: State, first: seq<Instruction>, second: seq<Instruction>)
    ensures Run(s, first + second) == Run(Run(s, first), second)
    decreases |second|
  {
    if second == [] {
      assert first + second == first;
    } else {
      assert (first + second)[..|first + second| - 1] == first + second[..|second| - 1];
      RunAppends(s, first, second[..|second| - 1]);
    }
  }

  lemma CancelOne(s: State, k: PositionKey)
    requires Inv(s) && RoomForAll(s)
    requires k in s.positions && s.positions[k].status.Open?
    ensures var t := After(s, CancelPosition(k.trader, k));
      && Inv(t) && RoomForAll(t)
      && LivePositions(t) == LivePositions(s) - {k}
      && t.agents.Keys == s.agents.Keys
  {
    hide Inv, RoomForAll, LivePositions, HandleCancelPosition, WithPosition;
    CancelAlwaysSucceeds(s, k);
    StepKeepsInv(s, CancelPosition(k.trader, k));
    var agent, lamports := CancelTakesApart(s, k.trader, k);
    StillRoom(s, k, agent, s.positions[k].(status := Cancelled, returned := s.positions[k].principal, closedAt := s.now),
              lamports);
  }

  lemma ClaimOne(s: State, k: PositionKey)
    requires Inv(s) && RoomForAll(s)
    requires k in s.positions && s.positions[k].status.Trading? && s.now >= s.positions[k].deadline
    ensures var t := After(s, ClaimDefault(k.trader, k));
      && Inv(t) && RoomForAll(t)
      && LivePositions(t) == LivePositions(s) - {k}
      && t.agents.Keys == s.agents.Keys
  {
    hide Inv, RoomForAll, LivePositions, HandleClaimDefault, WithPosition, ClaimFlows;
    CoversBond(s, k);
    ClaimAlwaysSucceeds(s, k);
    StepKeepsInv(s, ClaimDefault(k.trader, k));
    var c := ClaimTakesApart(s, k.trader, k);
    StillRoom(s, k, c.agent, c.position, c.lamports);
  }

  // Closing a position never needs more counter room than it frees.
  lemma StillRoom(s: State, k: PositionKey, agent: Agent, position: Position, lamports: Lamports)
    requires RoomForAll(s) && k in s.positions && k.agent in s.agents && !position.Live()
    requires agent.defaultedPositions as int + agent.openPositions
          <= s.agents[k.agent].defaultedPositions as int + s.agents[k.agent].openPositions
    requires agent.breachCount as int + agent.openPositions
          <= s.agents[k.agent].breachCount as int + s.agents[k.agent].openPositions
    requires agent.slashedTotal as int + agent.lockedCollateral
          <= s.agents[k.agent].slashedTotal as int + s.agents[k.agent].lockedCollateral
    ensures var t := WithPosition(s, k, agent, position, lamports);
      && RoomForAll(t)
      && LivePositions(t) == LivePositions(s) - {k}
      && t.agents.Keys == s.agents.Keys
  {
  }

  lemma ClockKeepsRoom(s: State, later: State)
    requires RoomForAll(s) && later.agents == s.agents
    ensures RoomForAll(later)
  {
  }

  lemma RunOne(s: State, i: Instruction)
    ensures Run(s, [i]) == After(s, i)
  {
  }

  // One live position can always be closed: at once if undrawn, else once the clock reaches its deadline.
  lemma CloseOne(s: State, k: PositionKey) returns (plan: seq<Instruction>)
    requires Inv(s) && RoomForAll(s)
    requires k in LivePositions(s)
    ensures |plan| <= 2 && forall i | i in plan :: ByTraderOrClock(i)
    ensures Inv(Run(s, plan)) && RoomForAll(Run(s, plan))
    ensures LivePositions(Run(s, plan)) == LivePositions(s) - {k}
    ensures Run(s, plan).agents.Keys == s.agents.Keys
  {
    hide Inv, RoomForAll, HandleCancelPosition, HandleClaimDefault;
    if s.positions[k].status.Open? {
      CancelOne(s, k);
      plan := [CancelPosition(k.trader, k)];
      RunOne(s, plan[0]);
    } else {
      var wait := if s.now >= s.positions[k].deadline then 0 else s.positions[k].deadline - s.now;
      var later := s.(now := s.now + wait);
      ClockKeepsInv(s, wait);
      ClockKeepsRoom(s, later);
      ClaimOne(later, k);
      plan := [AdvanceClock(wait)] + [ClaimDefault(k.trader, k)];
      RunAppends(s, [AdvanceClock(wait)], [ClaimDefault(k.trader, k)]);
      RunOne(s, AdvanceClock(wait));
      RunOne(later, ClaimDefault(k.trader, k));
    }
  }

  lemma CoversBond(s: State, k: PositionKey)
    requires Inv(s) && RoomForAll(s)
    requires k in s.positions && s.positions[k].Live()
    ensures k.agent in s.agents && RoomToDefault(s.agents[k.agent], s.positions[k].lockedCollateral)
  {
    assert PositionOk(s, k) && AgentOk(s, k.agent);
    LockWithin(s, k, 0);
  }

  // From any sound ledger, cancels, claims and waiting close every position, without any operator or trading key.
  lemma {:induction false} TradersCanCloseEverything(s: State) returns (plan: seq<Instruction>)
    requires Inv(s) && RoomForAll(s)
    ensures |plan| <= 2 * |LivePositions(s)|
    ensures forall i | i in plan :: ByTraderOrClock(i)
    ensures Inv(Run(s, plan)) && LivePositions(Run(s, plan)) == {}
    ensures Run(s, plan).agents.Keys == s.agents.Keys
    decreases |LivePositions(s)|
  {
    hide Inv, RoomForAll;
    if LivePositions(s) == {} {
      plan := [];
    } else {
      var k :| k in LivePositions(s);
      var first := CloseOne(s, k);
      var rest := TradersCanCloseEverything(Run(s, first));
      plan := first + rest;
      RunAppends(s, first, rest);
    }
  }

  // When an operator can take the agent's whole collateral out at once.
  ghost predicate CanWithdrawAll(s: State, a: AgentKey)
    requires a in s.agents
  {
    HandleWithdrawCollateral(s, a.operator, a, s.agents[a].totalCollateral).Success?
  }

  // Nothing is stranded: after one such plan every operator, of whatever agent, can take its whole remaining
  // collateral out.
  lemma NoStuckFunds(s: State) returns (plan: seq<Instruction>)
    requires Reachable(s) && RoomForAll(s)
    ensures forall i | i in plan :: ByTraderOrClock(i)
    ensures LivePositions(Run(s, plan)) == {}
    ensures s.agents.Keys <= Run(s, plan).agents.Keys
    ensures
      var t := Run(s, plan);
      forall a :: a in t.agents ==>
        var whole := t.agents[a].totalCollateral;
        CanWithdrawAll(t, a) <==>
          && whole > 0 && whole != UNNEGATABLE
          && Balance(t.lamports, WalletOf(a.operator)) + whole >= t.rentFloor
  {
    ReachableSatisfiesInv(s);
    plan := TradersCanCloseEverything(s);
    var t := Run(s, plan);
    forall k | k in t.positions ensures !t.positions[k].Live() {
      assert k !in LivePositions(t);
    }
    forall a | a in t.agents
      ensures
        var whole := t.agents[a].totalCollateral;
        CanWithdrawAll(t, a) <==>
          && whole > 0 && whole != UNNEGATABLE
          && Balance(t.lamports, WalletOf(a.operator)) + whole >= t.rentFloor
    {
      assert AgentOk(t, a);
      Tally.NothingLive(t.positions, a, t.agents[a]);
      LedgerAdmission.WithdrawSucceedsExactly(t, a.operator, a, t.agents[a].totalCollateral);
    }
  }
}
