// What every instruction does to the lamports: none appear or vanish, and each close pays out exactly.
module LedgerOutcomes {
  import opened Numbers
  import opened Accounts
  import opened Ledger
  import opened LedgerInvariant
  import Tally

  // ---------- lamports are conserved ----------

  lemma SettleConserves(s: State, executor: Wallet, k: PositionKey, returned: u64)
    requires HandleSettlePosition(s, executor, k, returned).Success?
    ensures Tally.Supply(HandleSettlePosition(s, executor, k, returned).value.lamports) == Tally.Supply(s.lamports)
  {
    var c := SettleTakesApart(s, executor, k, returned);
    var p := s.positions[k];
    Tally.TransferConserves(s.lamports, WalletOf(executor), PositionVault(k), if p.status.Open? then 0 else returned);
    Tally.TransferConserves(c.funded, PositionVault(k), WalletOf(s.agents[k.agent].operator), c.fee);
    Tally.TransferConserves(c.charged, AgentVault(k.agent), WalletOf(p.trader), c.split.slash);
    Tally.TransferConserves(c.bonded, PositionVault(k), WalletOf(p.trader), Balance(c.bonded, PositionVault(k)));
  }

  lemma ClaimConserves(s: State, trader: Wallet, k: PositionKey)
    requires HandleClaimDefault(s, trader, k).Success?
    ensures Tally.Supply(HandleClaimDefault(s, trader, k).value.lamports) == Tally.Supply(s.lamports)
  {
    var c := ClaimTakesApart(s, trader, k);
    Tally.TransferConserves(s.lamports, AgentVault(k.agent), WalletOf(trader), s.positions[k].lockedCollateral);
    Tally.TransferConserves(c.bonded, PositionVault(k), WalletOf(trader), Balance(c.bonded, PositionVault(k)));
  }

  // Whoever signs, and whichever of executor, operator and trader share a key.
  lemma StepConserves(s: State, i: Instruction)
    ensures Tally.Supply(After(s, i).lamports) == Tally.Supply(s.lamports)
  {
    hide HandleSettlePosition, HandleClaimDefault, Tally.Supply;
    if Step(s, i).Success? {
      match i
      case CreateAgent(operator, id, _) =>
        Tally.TransferConserves(s.lamports, WalletOf(operator), AgentVault(AgentKey(operator, id)), s.rentFloor);
      case DepositCollateral(signer, a, amount) =>
        Tally.TransferConserves(s.lamports, WalletOf(signer), AgentVault(a), amount);
      case WithdrawCollateral(signer, a, amount) =>
        Tally.TransferConserves(s.lamports, AgentVault(a), WalletOf(signer), amount);
      case OpenPosition(trader, a, nonce, amount, secs) =>
        var agent, lamports, lock := OpenTakesApart(s, trader, a, nonce, amount, secs);
        Tally.TransferConserves(
          s.lamports, WalletOf(trader), PositionVault(PositionKey(a, trader, nonce)), amount + s.rentFloor);
      case CancelPosition(trader, k) =>
        Tally.TransferConserves(s.lamports, PositionVault(k), WalletOf(trader), Balance(s.lamports, PositionVault(k)));
      case DrawFunds(executor, k) =>
        Tally.TransferConserves(s.lamports, PositionVault(k), WalletOf(executor), s.positions[k].principal);
      case SettlePosition(executor, k, returned) => SettleConserves(s, executor, k, returned);
      case ClaimDefault(trader, k) => ClaimConserves(s, trader, k);
      case Donate(from, to, amount) => Tally.TransferConserves(s.lamports, WalletOf(from), to, amount);
      case _ =>
    }
  }

  lemma {:induction false} RunConserves(s: State, run: seq<Instruction>)
    ensures Tally.Supply(Run(s, run).lamports) == Tally.Supply(s.lamports)
  {
    if run != [] {
      RunConserves(s, run[..|run| - 1]);
      StepConserves(Run(s, run[..|run| - 1]), run[|run| - 1]);
    }
  }

  // ---------- exact payouts, under any sharing of keys ----------

  // Where every wallet ends after a settle.
  lemma SettlePays(s: State, executor: Wallet, k: PositionKey, returned: u64, c: SettleParts, w: Wallet)
    requires k in s.positions && k.agent in s.agents && s.positions[k].Live()
    requires SettleAmounts(s, executor, k, returned, c)
    ensures
      var p := s.positions[k];
      var sent := if p.status.Open? then 0 else returned;
      Balance(c.lamports, WalletOf(w)) == Balance(s.lamports, WalletOf(w))
        - (if w == executor then sent else 0)
        + (if w == s.agents[k.agent].operator then c.fee else 0)
        + (if w == p.trader then Balance(s.lamports, PositionVault(k)) + sent - c.fee + c.split.slash else 0)
  {
    SettleMoves(s, executor, k, returned, c, WalletOf(w));
    SettleMoves(s, executor, k, returned, c, PositionVault(k));
  }

  // The four payments of a settle, as one account sees them.
  lemma SettleMoves(s: State, executor: Wallet, k: PositionKey, returned: u64, c: SettleParts, x: Account)
    requires k in s.positions && k.agent in s.agents && s.positions[k].Live()
    requires SettleAmounts(s, executor, k, returned, c)
    requires x != AgentVault(k.agent)
    ensures
      var p := s.positions[k];
      var sent := if p.status.Open? then 0 else returned;
      && Balance(c.bonded, x) == Balance(s.lamports, x)
          - (if x == WalletOf(executor) then sent else 0) + (if x == PositionVault(k) then sent - c.fee else 0)
          + (if x == WalletOf(s.agents[k.agent].operator) then c.fee else 0)
          + (if x == WalletOf(p.trader) then c.split.slash else 0)
      && Balance(c.lamports, x) == Balance(c.bonded, x)
          + (if x == WalletOf(p.trader) then Balance(c.bonded, PositionVault(k)) else 0)
          - (if x == PositionVault(k) then Balance(c.bonded, PositionVault(k)) else 0)
  {
    var p := s.positions[k];
    var sent := if p.status.Open? then 0 else returned;
    TransferMoves(s.lamports, WalletOf(executor), PositionVault(k), sent, x);
    TransferMoves(c.funded, PositionVault(k), WalletOf(s.agents[k.agent].operator), c.fee, x);
    TransferMoves(c.charged, AgentVault(k.agent), WalletOf(p.trader), c.split.slash, x);
    TransferMoves(c.bonded, PositionVault(k), WalletOf(p.trader), Balance(c.bonded, PositionVault(k)), x);
    hide Balance;
  }

  // What a live position's vault holds beyond an undrawn principal: its rent floor plus anything donated.
  function Surplus(s: State, k: PositionKey): int
    requires k in s.positions
  {
    Balance(s.lamports, PositionVault(k)) - (if s.positions[k].status.Open? then s.positions[k].principal else 0)
  }

  // A settle pays the trader exactly the recorded payout plus the vault's surplus, which covers the rent floor; the
  // operator exactly the recorded fee; and takes from the executor exactly what it returned. All three sums apply at
  // once to a key that plays several roles. A dust fee that was withheld is in the payout.
  lemma SettlePaysExactly(s: State, executor: Wallet, k: PositionKey, returned: u64, w: Wallet)
    requires Inv(s)
    requires HandleSettlePosition(s, executor, k, returned).Success?
    ensures k in s.positions && k.agent in s.agents
    ensures
      var s' := HandleSettlePosition(s, executor, k, returned).value;
      var before, closed := s.positions[k], s'.positions[k];
      && closed.status.Settled?
      && closed.closedAt == s.now
      && Surplus(s, k) >= s.rentFloor
      && Balance(s'.lamports, PositionVault(k)) == 0
      && Balance(s.lamports, AgentVault(k.agent)) - Balance(s'.lamports, AgentVault(k.agent)) == closed.slashed
      && Balance(s'.lamports, WalletOf(w)) - Balance(s.lamports, WalletOf(w))
         == (if w == closed.trader then closed.Payout() + Surplus(s, k) else 0)
          + (if w == k.agent.operator then closed.feePaid else 0)
          - (if w == executor && before.status.Trading? then returned else 0)
  {
    var c := SettleTakesApart(s, executor, k, returned);
    assert AgentOk(s, k.agent) && PositionOk(s, k);
    SettlePays(s, executor, k, returned, c, w);
    SettleVaults(s, executor, k, returned, c);
  }

  lemma ClaimPays(s: State, k: PositionKey, c: ClaimParts, w: Wallet)
    requires k in s.positions && k.agent in s.agents
    requires ClaimFlows(s, k, c)
    ensures Balance(c.lamports, WalletOf(w)) == Balance(s.lamports, WalletOf(w))
      + (if w == k.trader then Balance(s.lamports, PositionVault(k)) + s.positions[k].lockedCollateral else 0)
  {
  }

  lemma ClaimPaysExactly(s: State, trader: Wallet, k: PositionKey, w: Wallet)
    requires Inv(s)
    requires HandleClaimDefault(s, trader, k).Success?
    ensures k in s.positions
    ensures
      var s' := HandleClaimDefault(s, trader, k).value;
      var closed := s'.positions[k];
      && closed.status.Defaulted?
      && Surplus(s, k) >= s.rentFloor
      && Balance(s'.lamports, PositionVault(k)) == 0
      && Balance(s.lamports, AgentVault(k.agent)) - Balance(s'.lamports, AgentVault(k.agent)) == closed.slashed
      && Balance(s'.lamports, WalletOf(w)) - Balance(s.lamports, WalletOf(w))
         == (if w == closed.trader then closed.Payout() + Surplus(s, k) else 0)
  {
    var c := ClaimTakesApart(s, trader, k);
    assert PositionOk(s, k);
    hide Inv;
    ClaimPays(s, k, c, w);
    ClaimVaults(s, k, c);
  }

  lemma CancelPaysExactly(s: State, trader: Wallet, k: PositionKey, w: Wallet)
    requires Inv(s)
    requires HandleCancelPosition(s, trader, k).Success?
    ensures k in s.positions
    ensures
      var s' := HandleCancelPosition(s, trader, k).value;
      var closed := s'.positions[k];
      && closed.status.Cancelled?
      && Surplus(s, k) >= s.rentFloor
      && Balance(s'.lamports, PositionVault(k)) == 0
      && Balance(s'.lamports, AgentVault(k.agent)) == Balance(s.lamports, AgentVault(k.agent))
      && Balance(s'.lamports, WalletOf(w)) - Balance(s.lamports, WalletOf(w))
         == (if w == closed.trader then closed.Payout() + Surplus(s, k) else 0)
  {
    var agent, lamports := CancelTakesApart(s, trader, k);
    assert PositionOk(s, k);
    var all := Balance(s.lamports, PositionVault(k));
    TransferMoves(s.lamports, PositionVault(k), WalletOf(trader), all, WalletOf(w));
    TransferMoves(s.lamports, PositionVault(k), WalletOf(trader), all, PositionVault(k));
    TransferMoves(s.lamports, PositionVault(k), WalletOf(trader), all, AgentVault(k.agent));
  }
}
