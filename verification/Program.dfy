// The instruction handlers as they run: each loads its accounts, changes the copies step by step, moves lamports
// as it goes, and has everything written back only if the whole transaction succeeds.
module Program {
  import opened Numbers
  import opened Accounts
  import Settlement
  import Ledger

  // How a transaction ended: no error and the specified ledger, or the specified error and the ledger it found.
  ghost predicate Matches(outcome: Option<Error>, before: Ledger.State, after: Ledger.State, spec: Result<Ledger.State>) {
    match spec
    case Success(s) => outcome.None? && after == s
    case Failure(e) => outcome == Some(e) && after == before
  }

  class ProofOfAgent {
    var now: i64
    const rentFloor: u64
    var agents: map<AgentKey, Agent>
    var positions: map<PositionKey, Position>
    var lamports: Lamports

    constructor (now: i64, rentFloor: u64, lamports: Lamports)
      ensures State() == Ledger.State(now, rentFloor, map[], map[], lamports)
    {
      this.now := now;
      this.rentFloor := rentFloor;
      this.agents := map[];
      this.positions := map[];
      this.lamports := lamports;
    }

    function State(): Ledger.State
      reads this
    {
      Ledger.State(now, rentFloor, agents, positions, lamports)
    }

    // ---------- operator ----------

    method CreateAgent(operator: Wallet, id: u64, terms: Settlement.AgentTerms) returns (outcome: Option<Error>)
      modifies this
      ensures Matches(outcome, old(State()), State(), Ledger.HandleCreateAgent(old(State()), operator, id, terms))
    {
      var key := AgentKey(operator, id);
      if key in agents { return Some(AccountInUse); }
      var valid := Settlement.Validate(terms);
      if valid.Failure? { return Some(valid.error); }
      // The operator pays the rent of the new vault, which is to outlive its last collateral.
      var moved := Transfer(lamports, WalletOf(operator), AgentVault(key), rentFloor);
      if moved.Failure? { return Some(moved.error); }
      if !RentExempt(moved.value, rentFloor) { return Some(BelowRentExemption); }
      agents := agents[key := Agent(operator, operator, Draft, terms, now, 0, 0, 0, 0, 0, 0, 0, 0, 0, 0)];
      lamports := moved.value;
      outcome := None;
    }

    method UpdateAgent(signer: Wallet, key: AgentKey, terms: Settlement.AgentTerms) returns (outcome: Option<Error>)
      modifies this
      ensures Matches(outcome, old(State()), State(), Ledger.HandleUpdateAgent(old(State()), signer, key, terms))
    {
      if key !in agents { return Some(AccountMissing); }
      var agent := agents[key];
      if agent.operator != signer { return Some(UnauthorizedOperator); }
      if !agent.status.Draft? { return Some(TermsLocked); }
      var valid := Settlement.Validate(terms);
      if valid.Failure? { return Some(valid.error); }
      agent := agent.(terms := terms);
      if !RentExempt(lamports, rentFloor) { return Some(BelowRentExemption); }
      agents := agents[key := agent];
      outcome := None;
    }

    method PublishAgent(signer: Wallet, key: AgentKey) returns (outcome: Option<Error>)
      modifies this
      ensures Matches(outcome, old(State()), State(), Ledger.HandlePublishAgent(old(State()), signer, key))
    {
      if key !in agents { return Some(AccountMissing); }
      var agent := agents[key];
      if agent.operator != signer { return Some(UnauthorizedOperator); }
      if !agent.status.Draft? { return Some(AlreadyPublished); }
      if agent.totalCollateral == 0 { return Some(NoCollateral); }
      var valid := Settlement.Validate(agent.terms);
      if valid.Failure? { return Some(valid.error); }
      agent := agent.(status := Active);
      agent := agent.(publishedAt := now);
      if !RentExempt(lamports, rentFloor) { return Some(BelowRentExemption); }
      agents := agents[key := agent];
      outcome := None;
    }

    method SetExecutor(signer: Wallet, key: AgentKey, executor: Wallet) returns (outcome: Option<Error>)
      modifies this
      ensures Matches(outcome, old(State()), State(), Ledger.HandleSetExecutor(old(State()), signer, key, executor))
    {
      if key !in agents { return Some(AccountMissing); }
      if agents[key].operator != signer { return Some(UnauthorizedOperator); }
      if !RentExempt(lamports, rentFloor) { return Some(BelowRentExemption); }
      agents := agents[key := agents[key].(executor := executor)];
      outcome := None;
    }

    method SetAccepting(signer: Wallet, key: AgentKey, accepting: bool) returns (outcome: Option<Error>)
      modifies this
      ensures Matches(outcome, old(State()), State(), Ledger.HandleSetAccepting(old(State()), signer, key, accepting))
    {
      if key !in agents { return Some(AccountMissing); }
      var agent := agents[key];
      if agent.operator != signer { return Some(UnauthorizedOperator); }
      if agent.status.Draft? { return Some(NotPublished); }
      agent := agent.(status := if accepting then Active else Paused);
      if !RentExempt(lamports, rentFloor) { return Some(BelowRentExemption); }
      agents := agents[key := agent];
      outcome := None;
    }

    method DepositCollateral(signer: Wallet, key: AgentKey, amount: u64) returns (outcome: Option<Error>)
      modifies this
      ensures Matches(outcome, old(State()), State(), Ledger.HandleDepositCollateral(old(State()), signer, key, amount))
    {
      if key !in agents { return Some(AccountMissing); }
      var agent := agents[key];
      if agent.operator != signer { return Some(UnauthorizedOperator); }
      if amount == 0 { return Some(ZeroAmount); }
      var moved := Transfer(lamports, WalletOf(signer), AgentVault(key), amount);
      if moved.Failure? { return Some(moved.error); }
      if agent.totalCollateral + amount > U64_MAX { return Some(Overflow); }
      agent := agent.(totalCollateral := agent.totalCollateral + amount);
      if !RentExempt(moved.value, rentFloor) { return Some(BelowRentExemption); }
      agents := agents[key := agent];
      lamports := moved.value;
      outcome := None;
    }

    method WithdrawCollateral(signer: Wallet, key: AgentKey, amount: u64) returns (outcome: Option<Error>)
      modifies this
      ensures Matches(outcome, old(State()), State(), Ledger.HandleWithdrawCollateral(old(State()), signer, key, amount))
    {
      if key !in agents { return Some(AccountMissing); }
      var agent := agents[key];
      if agent.operator != signer { return Some(UnauthorizedOperator); }
      if amount == 0 { return Some(ZeroAmount); }
      if amount > agent.FreeCollateral() { return Some(InsufficientFreeCollateral); }
      if amount > agent.totalCollateral { return Some(Underflow); }
      agent := agent.(totalCollateral := agent.totalCollateral - amount);
      var moved := Transfer(lamports, AgentVault(key), WalletOf(signer), amount);
      if moved.Failure? { return Some(moved.error); }
      if amount == Ledger.UNNEGATABLE { return Some(ArithmeticPanic); }
      if !RentExempt(moved.value, rentFloor) { return Some(BelowRentExemption); }
      agents := agents[key := agent];
      lamports := moved.value;
      outcome := None;
    }

    // ---------- trader and trading key ----------

    method OpenPosition(trader: Wallet, key: AgentKey, nonce: u64, amount: u64, durationSecs: i64)
      returns (outcome: Option<Error>)
      modifies this
      ensures Matches(outcome, old(State()), State(),
                      Ledger.HandleOpenPosition(old(State()), trader, key, nonce, amount, durationSecs))
    {
      var k := PositionKey(key, trader, nonce);
      if key !in agents { return Some(AccountMissing); }
      if k in positions { return Some(AccountInUse); }
      var agent := agents[key];
      if amount == 0 { return Some(ZeroAmount); }
      if !agent.status.Active? { return Some(AgentNotAccepting); }
      if !(agent.terms.minDurationSecs <= durationSecs <= agent.terms.maxDurationSecs) { return Some(InvalidDuration); }
      if !Settlement.RatioAndDrawdownFit(agent.terms.collateralRatioBps, agent.terms.maxDrawdownBps) {
        return Some(RatioPlusDrawdownTooHigh);
      }
      var required := Settlement.RequiredCollateral(amount, agent.terms.collateralRatioBps);
      if required.Failure? { return Some(required.error); }
      var lock := required.value;
      if lock > agent.FreeCollateral() { return Some(InsufficientFreeCollateral); }
      if agent.lockedCollateral + lock > U64_MAX { return Some(Overflow); }
      agent := agent.(lockedCollateral := agent.lockedCollateral + lock);
      if agent.capitalManaged + amount > U64_MAX { return Some(Overflow); }
      agent := agent.(capitalManaged := agent.capitalManaged + amount);
      if agent.openPositions == U32_MAX { return Some(CounterFull); }
      agent := agent.(openPositions := agent.openPositions + 1);
      if amount + rentFloor > U64_MAX { return Some(Overflow); }
      var moved := Transfer(lamports, WalletOf(trader), PositionVault(k), amount + rentFloor);
      if moved.Failure? { return Some(moved.error); }
      if !(I64_MIN <= now + durationSecs <= I64_MAX) { return Some(ArithmeticPanic); }
      var position := Position(
        trader, key, amount, lock, agent.terms.feeBps, agent.terms.maxDrawdownBps, PositionStatus.Open, NoBreach,
        now, now + durationSecs, 0, 0, 0, 0, 0);
      if !RentExempt(moved.value, rentFloor) { return Some(BelowRentExemption); }
      agents := agents[key := agent];
      positions := positions[k := position];
      lamports := moved.value;
      outcome := None;
    }

    method CancelPosition(trader: Wallet, k: PositionKey) returns (outcome: Option<Error>)
      modifies this
      ensures Matches(outcome, old(State()), State(), Ledger.HandleCancelPosition(old(State()), trader, k))
    {
      if k.agent !in agents || k !in positions || k.trader != trader { return Some(AccountMissing); }
      var agent, position := agents[k.agent], positions[k];
      if !position.status.Open? { return Some(InvalidStatus); }
      var moved := Drain(lamports, PositionVault(k), WalletOf(trader));
      if position.lockedCollateral > agent.lockedCollateral { return Some(Underflow); }
      agent := agent.(lockedCollateral := agent.lockedCollateral - position.lockedCollateral);
      if position.principal > agent.capitalManaged { return Some(Underflow); }
      agent := agent.(capitalManaged := agent.capitalManaged - position.principal);
      if agent.openPositions == 0 { return Some(Underflow); }
      agent := agent.(openPositions := agent.openPositions - 1);
      position := position.(status := Cancelled);
      position := position.(returned := position.principal);
      position := position.(closedAt := now);
      if !RentExempt(moved, rentFloor) { return Some(BelowRentExemption); }
      agents := agents[k.agent := agent];
      positions := positions[k := position];
      lamports := moved;
      outcome := None;
    }

    method DrawFunds(executor: Wallet, k: PositionKey) returns (outcome: Option<Error>)
      modifies this
      ensures Matches(outcome, old(State()), State(), Ledger.HandleDrawFunds(old(State()), executor, k))
    {
      if k.agent !in agents || k !in positions { return Some(AccountMissing); }
      var position := positions[k];
      if !agents[k.agent].CanExecute(executor) { return Some(UnauthorizedExecutor); }
      if !position.status.Open? { return Some(InvalidStatus); }
      if now >= position.deadline { return Some(DeadlinePassed); }
      position := position.(status := Trading);
      position := position.(drawnAt := now);
      var moved := Transfer(lamports, PositionVault(k), WalletOf(executor), position.principal);
      if moved.Failure? { return Some(moved.error); }
      if !RentExempt(moved.value, rentFloor) { return Some(BelowRentExemption); }
      positions := positions[k := position];
      lamports := moved.value;
      outcome := None;
      assert agents == agents[k.agent := agents[k.agent]];
    }

    method SettlePosition(executor: Wallet, k: PositionKey, returned: u64) returns (outcome: Option<Error>)
      modifies this
      ensures Matches(outcome, old(State()), State(), Ledger.HandleSettlePosition(old(State()), executor, k, returned))
    {
      if k.agent !in agents || k !in positions { return Some(AccountMissing); }
      var agent, position := agents[k.agent], positions[k];
      if !agent.CanExecute(executor) { return Some(UnauthorizedExecutor); }
      if !position.Live() { return Some(InvalidStatus); }
      var declined := position.status.Open?;
      var balances := lamports;

      // An undrawn principal never left the vault: declining it sends nothing and gives all of it back.
      var effective := position.principal;
      if !declined {
        var sent := Transfer(balances, WalletOf(executor), PositionVault(k), returned);
        if sent.Failure? { return Some(sent.error); }
        balances := sent.value;
        effective := returned;
      }
      var computed := Settlement.ComputeSettlement(
        position.principal, effective, position.feeBps, position.maxDrawdownBps, position.lockedCollateral);
      if computed.Failure? { return Some(computed.error); }
      var split := computed.value;

      // The operator's fee, withheld if its wallet could not exist with it.
      var fee: u64 := 0;
      if agent.operator == position.trader || Balance(balances, WalletOf(agent.operator)) + split.fee >= rentFloor {
        fee := split.fee;
      }
      var paid := Transfer(balances, PositionVault(k), WalletOf(agent.operator), fee);
      if paid.Failure? { return Some(paid.error); }
      balances := paid.value;

      // What the loss exceeds the drawdown by comes out of the bond.
      var bonded := Transfer(balances, AgentVault(k.agent), WalletOf(position.trader), split.slash);
      if bonded.Failure? { return Some(bonded.error); }
      balances := bonded.value;

      // Everything the vault still holds goes to the trader.
      balances := Drain(balances, PositionVault(k), WalletOf(position.trader));

      var booked := BookSettle(agent, position, effective, split, fee);
      if booked.Failure? { return Some(booked.error); }
      if !RentExempt(balances, rentFloor) { return Some(BelowRentExemption); }
      agents := agents[k.agent := booked.value.0];
      positions := positions[k := booked.value.1];
      lamports := balances;
      outcome := None;
    }

    // The bookkeeping half of a settle, on the loaded copies of the two accounts.
    method BookSettle(agent0: Agent, position0: Position, effective: u64, split: Settlement.Settled, fee: u64)
      returns (booked: Result<(Agent, Position)>)
      ensures booked == Ledger.BookSettle(agent0, position0, effective, split, fee, now)
    {
      var agent, position := agent0, position0;
      var declined := position.status.Open?;
      var late := !declined && now >= position.deadline;
      if split.slash > 0 {
        if split.slash > agent.totalCollateral { return Failure(Underflow); }
        agent := agent.(totalCollateral := agent.totalCollateral - split.slash);
        if agent.slashedTotal + split.slash > U64_MAX { return Failure(Overflow); }
        agent := agent.(slashedTotal := agent.slashedTotal + split.slash);
      }

      // The bond no longer backs this position.
      if position.lockedCollateral > agent.lockedCollateral { return Failure(Underflow); }
      agent := agent.(lockedCollateral := agent.lockedCollateral - position.lockedCollateral);
      if position.principal > agent.capitalManaged { return Failure(Underflow); }
      agent := agent.(capitalManaged := agent.capitalManaged - position.principal);
      if agent.openPositions == 0 { return Failure(Underflow); }
      agent := agent.(openPositions := agent.openPositions - 1);
      // An undrawn position does not count towards those settled.
      if !declined {
        if agent.settledPositions == U32_MAX { return Failure(CounterFull); }
        agent := agent.(settledPositions := agent.settledPositions + 1);
      }
      if agent.feesEarned + fee > U64_MAX { return Failure(Overflow); }
      agent := agent.(feesEarned := agent.feesEarned + fee);

      var breach := NoBreach;
      if late {
        breach := MissedDeadline;
      } else if split.slash > 0 {
        breach := Drawdown;
      }
      if !breach.NoBreach? {
        if agent.breachCount == U32_MAX { return Failure(CounterFull); }
        agent := agent.(breachCount := agent.breachCount + 1);
      }

      position := position.(status := Settled);
      position := position.(breach := breach);
      position := position.(returned := effective);
      position := position.(slashed := split.slash);
      position := position.(feePaid := fee);
      position := position.(closedAt := now);
      booked := Success((agent, position));
    }

    method ClaimDefault(trader: Wallet, k: PositionKey) returns (outcome: Option<Error>)
      modifies this
      ensures Matches(outcome, old(State()), State(), Ledger.HandleClaimDefault(old(State()), trader, k))
    {
      if k.agent !in agents || k !in positions || k.trader != trader { return Some(AccountMissing); }
      var agent, position := agents[k.agent], positions[k];
      if !position.status.Trading? { return Some(InvalidStatus); }
      if now < position.deadline { return Some(DeadlineNotReached); }
      var slash := position.lockedCollateral;
      var bonded := Transfer(lamports, AgentVault(k.agent), WalletOf(trader), slash);
      if bonded.Failure? { return Some(bonded.error); }
      // The trader also gets the vault's rent back, with whatever was donated to it.
      var drained := Drain(bonded.value, PositionVault(k), WalletOf(trader));
      if slash > agent.totalCollateral { return Some(Underflow); }
      agent := agent.(totalCollateral := agent.totalCollateral - slash);
      if slash > agent.lockedCollateral { return Some(Underflow); }
      agent := agent.(lockedCollateral := agent.lockedCollateral - slash);
      if position.principal > agent.capitalManaged { return Some(Underflow); }
      agent := agent.(capitalManaged := agent.capitalManaged - position.principal);
      if agent.openPositions == 0 { return Some(Underflow); }
      agent := agent.(openPositions := agent.openPositions - 1);
      if agent.defaultedPositions == U32_MAX { return Some(CounterFull); }
      agent := agent.(defaultedPositions := agent.defaultedPositions + 1);
      if agent.breachCount == U32_MAX { return Some(CounterFull); }
      agent := agent.(breachCount := agent.breachCount + 1);
      if agent.slashedTotal + slash > U64_MAX { return Some(Overflow); }
      agent := agent.(slashedTotal := agent.slashedTotal + slash);
      position := position.(status := Defaulted, breach := MissedDeadline, slashed := slash, closedAt := now);
      if !RentExempt(drained, rentFloor) { return Some(BelowRentExemption); }
      agents := agents[k.agent := agent];
      positions := positions[k := position];
      lamports := drained;
      outcome := None;
    }
  }
}
