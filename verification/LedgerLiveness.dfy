// No stuck funds: exactly when each way out of the escrow works, and a way for traders to close everything.
module LedgerLiveness {
  import opened Numbers
  import opened Accounts
  import opened Ledger
  import opened LedgerInvariant
  import opened LedgerOutcomes
  import Settlement

  predicate Exempt(balance: int, rentFloor: u64) {
    balance == 0 || balance >= rentFloor
  }

  // ---------- the rent check after each way out ----------

  lemma RentAfterTransfer(lamports: Lamports, rentFloor: u64, from: Account, to: Account, amount: nat, after: Lamports)
    requires Transfer(lamports, from, to, amount) == Success(after)
    requires RentExempt(lamports, rentFloor)
    ensures RentExempt(after, rentFloor) <==>
      Exempt(Balance(after, from), rentFloor) && Exempt(Balance(after, to), rentFloor)
  {
  }

  lemma CancelIsRentExempt(s: State, k: PositionKey, lamports: Lamports)
    requires Inv(s) && k in s.positions && s.positions[k].status.Open?
    requires Transfer(s.lamports, PositionVault(k), WalletOf(k.trader), Balance(s.lamports, PositionVault(k)))
          == Success(lamports)
    ensures RentExempt(lamports, s.rentFloor)
  {
    assert PositionOk(s, k);
    var all := Balance(s.lamports, PositionVault(k));
    TransferMoves(s.lamports, PositionVault(k), WalletOf(k.trader), all, PositionVault(k));
    TransferMoves(s.lamports, PositionVault(k), WalletOf(k.trader), all, WalletOf(k.trader));
    RentAfterTransfer(s.lamports, s.rentFloor, PositionVault(k), WalletOf(k.trader), all, lamports);
  }

  // A trader can always take an undrawn position back, before or after its deadline, whatever the operator did.
  lemma CancelAlwaysSucceeds(s: State, k: PositionKey)
    requires Inv(s) && k in s.positions
    ensures HandleCancelPosition(s, k.trader, k).Success? <==> s.positions[k].status.Open?
  {
    assert PositionOk(s, k) && AgentOk(s, k.agent);
    if s.positions[k].status.Open? {
      LockWithin(s, k, 0);
      var lamports := Transfer(
        s.lamports, PositionVault(k), WalletOf(k.trader), Balance(s.lamports, PositionVault(k))).value;
      CancelIsRentExempt(s, k, lamports);
    }
  }

  // The counters a default increments have room.
  predicate RoomToDefault(agent: Agent, bond: u64) {
    agent.defaultedPositions < U32_MAX && agent.breachCount < U32_MAX && agent.slashedTotal + bond <= U64_MAX
  }

  lemma ClaimIsRentExempt(s: State, k: PositionKey, bonded: Lamports, lamports: Lamports)
    requires Inv(s) && k in s.positions && k.agent in s.agents && s.positions[k].status.Trading?
    requires Transfer(s.lamports, AgentVault(k.agent), WalletOf(k.trader), s.positions[k].lockedCollateral)
          == Success(bonded)
    requires Transfer(bonded, PositionVault(k), WalletOf(k.trader), Balance(bonded, PositionVault(k)))
          == Success(lamports)
    ensures RentExempt(lamports, s.rentFloor)
  {
    assert PositionOk(s, k) && AgentOk(s, k.agent);
    var bond := s.positions[k].lockedCollateral;
    LockWithin(s, k, bond);
    forall x | x in lamports ensures lamports[x] == 0 || lamports[x] >= s.rentFloor {
      TransferMoves(s.lamports, AgentVault(k.agent), WalletOf(k.trader), bond, x);
      TransferMoves(s.lamports, AgentVault(k.agent), WalletOf(k.trader), bond, PositionVault(k));
      TransferMoves(bonded, PositionVault(k), WalletOf(k.trader), Balance(bonded, PositionVault(k)), x);
    }
  }

  lemma BondIsInTheVault(s: State, k: PositionKey, slash: u64)
    requires Inv(s) && k in s.positions && k.agent in s.agents && s.positions[k].Live()
    requires slash <= s.positions[k].lockedCollateral
    ensures Balance(s.lamports, AgentVault(k.agent)) >= s.agents[k.agent].totalCollateral + s.rentFloor
    ensures slash <= s.agents[k.agent].totalCollateral
    ensures Release(s.agents[k.agent].(totalCollateral := s.agents[k.agent].totalCollateral - slash), s.positions[k]).Success?
  {
    assert PositionOk(s, k) && AgentOk(s, k.agent);
    LockWithin(s, k, slash);
  }

  // A default can be claimed exactly when the position was drawn and its deadline is past, counters permitting:
  // the bond is still there whatever was withdrawn, paused, rebound or slashed in the meantime.
  lemma ClaimAlwaysSucceeds(s: State, k: PositionKey)
    requires Inv(s) && k in s.positions
    ensures k.agent in s.agents
    ensures HandleClaimDefault(s, k.trader, k).Success? <==>
      && s.positions[k].status.Trading? && s.now >= s.positions[k].deadline
      && RoomToDefault(s.agents[k.agent], s.positions[k].lockedCollateral)
  {
    assert PositionOk(s, k) && AgentOk(s, k.agent);
    var p := s.positions[k];
    if p.status.Trading? && s.now >= p.deadline {
      BondIsInTheVault(s, k, p.lockedCollateral);
      var bonded := Transfer(s.lamports, AgentVault(k.agent), WalletOf(k.trader), p.lockedCollateral).value;
      var lamports := Transfer(bonded, PositionVault(k), WalletOf(k.trader), Balance(bonded, PositionVault(k))).value;
      ClaimIsRentExempt(s, k, bonded, lamports);
    }
  }

  // ---------- settling ----------

  // What a settle of `returned` would come to.
  function SettleSplit(p: Position, returned: u64): Settlement.Settled {
    match Settlement.ComputeSettlement(
      p.principal, if p.status.Open? then p.principal else returned, p.feeBps, p.maxDrawdownBps, p.lockedCollateral)
    case Success(split) => split
    case Failure(_) => Settlement.Settled(0, 0)
  }

  // The executor's balance once it has sent what it returns.
  function Rest(s: State, executor: Wallet, p: Position, returned: u64): int {
    Balance(s.lamports, WalletOf(executor)) - (if p.status.Open? then 0 else returned)
  }

  // The fee the operator would receive, dust withheld.
  function FeeDue(s: State, executor: Wallet, operator: Wallet, p: Position, returned: u64): u64 {
    var holds := if executor == operator then Rest(s, executor, p, returned) else Balance(s.lamports, WalletOf(operator));
    var fee := SettleSplit(p, returned).fee;
    if operator == p.trader || holds + fee >= s.rentFloor then fee else 0
  }

  // The executor can send what it returns without stranding its own wallet below the rent floor. A trader's wallet
  // never strands, and an operator's is rescued by its fee.
  predicate ExecutorCanAfford(s: State, executor: Wallet, operator: Wallet, p: Position, returned: u64) {
    var rest := Rest(s, executor, p, returned);
    && rest >= 0
    && (executor == p.trader || Exempt(rest, s.rentFloor)
        || (executor == operator && rest + SettleSplit(p, returned).fee >= s.rentFloor))
  }

  // The counters a settle increments have room.
  predicate RoomToSettle(agent: Agent, p: Position, now: i64, split: Settlement.Settled, fee: u64) {
    && (p.status.Trading? ==> agent.settledPositions < U32_MAX)
    && agent.slashedTotal + split.slash <= U64_MAX
    && agent.feesEarned + fee <= U64_MAX
    && (p.status.Trading? && (now >= p.deadline || split.slash > 0) ==> agent.breachCount < U32_MAX)
  }

  // Once the executor's transfer is in, no later transfer of a settle can lack funds.
  lemma SettleIsFunded(s: State, executor: Wallet, k: PositionKey, returned: u64) returns (c: SettleParts)
    requires Inv(s) && k in s.positions && k.agent in s.agents && s.positions[k].Live()
    requires s.positions[k].status.Trading? ==> Balance(s.lamports, WalletOf(executor)) >= returned
    ensures SettleAmounts(s, executor, k, returned, c)
    ensures c.split.slash <= s.positions[k].lockedCollateral
    ensures c.fee <= c.split.fee <= c.effective
    ensures s.positions[k].status.Open? ==> c.split == Settlement.Settled(0, 0)
    ensures c.split == SettleSplit(s.positions[k], returned)
    ensures c.fee == FeeDue(s, executor, s.agents[k.agent].operator, s.positions[k], returned)
  {
    assert PositionOk(s, k) && AgentOk(s, k.agent);
    var p := s.positions[k];
    var sent := if p.status.Open? then 0 else returned;
    var effective := if p.status.Open? then p.principal else returned;
    Settlement.SettlementNeverOverflows(p.principal, effective, p.feeBps, p.maxDrawdownBps, p.lockedCollateral);
    var split := Settlement.ComputeSettlement(
      p.principal, effective, p.feeBps, p.maxDrawdownBps, p.lockedCollateral).value;
    BondIsInTheVault(s, k, split.slash);
    var operator := s.agents[k.agent].operator;
    var funded := Transfer(s.lamports, WalletOf(executor), PositionVault(k), sent).value;
    TransferMoves(s.lamports, WalletOf(executor), PositionVault(k), sent, PositionVault(k));
    TransferMoves(s.lamports, WalletOf(executor), PositionVault(k), sent, AgentVault(k.agent));
    TransferMoves(s.lamports, WalletOf(executor), PositionVault(k), sent, WalletOf(operator));
    var fee := PaidFee(funded, s.rentFloor, operator, p.trader, split.fee);
    var charged := Transfer(funded, PositionVault(k), WalletOf(operator), fee).value;
    TransferMoves(funded, PositionVault(k), WalletOf(operator), fee, AgentVault(k.agent));
    var bonded := Transfer(charged, AgentVault(k.agent), WalletOf(p.trader), split.slash).value;
    var lamports := Transfer(bonded, PositionVault(k), WalletOf(p.trader), Balance(bonded, PositionVault(k))).value;
    c := SettleParts(effective, split, fee, NoBreach, funded, charged, bonded, lamports, s.agents[k.agent], p);
  }

  // After a settle, only the executor's wallet can be below the rent floor.
  lemma SettleRent(s: State, executor: Wallet, k: PositionKey, returned: u64, c: SettleParts)
    requires Inv(s) && k in s.positions && k.agent in s.agents && s.positions[k].Live()
    requires SettleAmounts(s, executor, k, returned, c)
    requires c.split.slash <= s.positions[k].lockedCollateral
    requires c.fee <= c.split.fee <= c.effective
    requires s.positions[k].status.Open? ==> c.split == Settlement.Settled(0, 0)
    requires c.split == SettleSplit(s.positions[k], returned)
    requires c.fee == FeeDue(s, executor, s.agents[k.agent].operator, s.positions[k], returned)
    requires Rest(s, executor, s.positions[k], returned) >= 0
    ensures RentExempt(c.lamports, s.rentFloor) <==>
      ExecutorCanAfford(s, executor, s.agents[k.agent].operator, s.positions[k], returned)
  {
    var p, operator := s.positions[k], s.agents[k.agent].operator;
    var sent := if p.status.Open? then 0 else returned;
    assert PositionOk(s, k) && AgentOk(s, k.agent);
    SettlePays(s, executor, k, returned, c, executor);
    WalletRent(s.lamports, s.rentFloor, executor);
    hide SettleAmounts, SettleSplit, FeeDue, PositionOk, AgentOk;
    if ExecutorCanAfford(s, executor, operator, p, returned) {
      forall x | x in c.lamports ensures c.lamports[x] == 0 || c.lamports[x] >= s.rentFloor {
        match x
        case WalletOf(w) =>
          SettlePays(s, executor, k, returned, c, w);
          WalletRent(s.lamports, s.rentFloor, w);
        case AgentVault(a) =>
          SettleVaultRent(s, executor, k, returned, c, x);
        case PositionVault(j) =>
          SettleVaultRent(s, executor, k, returned, c, x);
      }
    }
  }

  lemma WalletRent(lamports: Lamports, rentFloor: u64, w: Wallet)
    requires RentExempt(lamports, rentFloor)
    ensures Exempt(Balance(lamports, WalletOf(w)), rentFloor)
  {
  }

  lemma SettleVaultRent(s: State, executor: Wallet, k: PositionKey, returned: u64, c: SettleParts, x: Account)
    requires Inv(s) && k in s.positions && k.agent in s.agents && s.positions[k].Live()
    requires SettleAmounts(s, executor, k, returned, c)
    requires c.split.slash <= s.positions[k].lockedCollateral
    requires !x.WalletOf?
    ensures Exempt(Balance(c.lamports, x), s.rentFloor)
  {
    var p, operator := s.positions[k], s.agents[k.agent].operator;
    BondIsInTheVault(s, k, c.split.slash);
    TransferMoves(s.lamports, WalletOf(executor), PositionVault(k), if p.status.Open? then 0 else returned, x);
    TransferMoves(c.funded, PositionVault(k), WalletOf(operator), c.fee, x);
    TransferMoves(c.charged, AgentVault(k.agent), WalletOf(p.trader), c.split.slash, x);
    TransferMoves(c.bonded, PositionVault(k), WalletOf(p.trader), Balance(c.bonded, PositionVault(k)), x);
  }

  // A settle succeeds exactly when the trading key or operator signs for a live position, can afford what it
  // returns, and the counters have room. Nothing about the trader's, the operator's or any vault's balance,
  // and nothing about the deadline, can block it.
  lemma SettleSucceedsExactly(s: State, executor: Wallet, k: PositionKey, returned: u64)
    requires Inv(s) && k in s.positions
    ensures k.agent in s.agents
    ensures
      var p, agent := s.positions[k], s.agents[k.agent];
      HandleSettlePosition(s, executor, k, returned).Success? <==>
        && (executor == agent.executor || executor == agent.operator)
        && (p.status == PositionStatus.Open || p.status == Trading)
        && ExecutorCanAfford(s, executor, agent.operator, p, returned)
        && RoomToSettle(agent, p, s.now, SettleSplit(p, returned), FeeDue(s, executor, agent.operator, p, returned))
  {
    assert PositionOk(s, k);
    var p, agent := s.positions[k], s.agents[k.agent];
    if p.Live() && Rest(s, executor, p, returned) >= 0 {
      var c := SettleIsFunded(s, executor, k, returned);
      SettleRent(s, executor, k, returned, c);
      BondIsInTheVault(s, k, c.split.slash);
    }
  }
}
