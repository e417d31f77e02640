// The escrow program as a transaction language: what each instruction does to the whole ledger,
// or the error that leaves the ledger as it was.
module Ledger {
  import opened Numbers
  import opened Accounts
  import Settlement

  datatype State = State(
    now: i64,
    rentFloor: u64,
    agents: map<AgentKey, Agent>,
    positions: map<PositionKey, Position>,
    lamports: Lamports)

  datatype Instruction =
    | CreateAgent(operator: Wallet, id: u64, terms: Settlement.AgentTerms)
    | UpdateAgent(signer: Wallet, agent: AgentKey, terms: Settlement.AgentTerms)
    | PublishAgent(signer: Wallet, agent: AgentKey)
    | SetExecutor(signer: Wallet, agent: AgentKey, executor: Wallet)
    | SetAccepting(signer: Wallet, agent: AgentKey, accepting: bool)
    | DepositCollateral(signer: Wallet, agent: AgentKey, amount: u64)
    | WithdrawCollateral(signer: Wallet, agent: AgentKey, amount: u64)
    | OpenPosition(trader: Wallet, agent: AgentKey, nonce: u64, amount: u64, durationSecs: i64)
    | CancelPosition(trader: Wallet, position: PositionKey)
    | DrawFunds(executor: Wallet, position: PositionKey)
    | SettlePosition(executor: Wallet, position: PositionKey, returned: u64)
    | ClaimDefault(trader: Wallet, position: PositionKey)
    | AdvanceClock(secs: nat)                                   // the cluster's clock, not the program
    | Donate(from: Wallet, to: Account, amount: u64)            // any system transfer by anyone

  // ---------- pieces the instructions share ----------

  // `checked_add` into a u64 field.
  function CheckedAdd(x: u64, y: u64): Result<u64> {
    if x + y <= U64_MAX then Success(x + y) else Failure(Overflow)
  }

  // `+= 1` on a u32 counter, in a build with overflow checks.
  function Increment(x: u32): Result<u32> {
    if x < U32_MAX then Success(x + 1) else Failure(CounterFull)
  }

  // `-=` in a build with overflow checks.
  function Subtract(x: u64, y: u64): Result<u64> {
    if y <= x then Success(x - y) else Failure(Underflow)
  }

  function Decrement(x: u32): Result<u32> {
    if x > 0 then Success(x - 1) else Failure(Underflow)
  }

  // The transaction commits: the accounts are written back if the runtime's rent check passes.
  function Commit(s: State): Result<State> {
    if RentExempt(s.lamports, s.rentFloor) then Success(s) else Failure(BelowRentExemption)
  }

  function WithAgent(s: State, a: AgentKey, agent: Agent): State {
    s.(agents := s.agents[a := agent])
  }

  function WithPosition(s: State, p: PositionKey, agent: Agent, position: Position, lamports: Lamports): State {
    s.(agents := s.agents[p.agent := agent], positions := s.positions[p := position], lamports := lamports)
  }

  // `has_one = operator`.
  function OperatedBy(s: State, signer: Wallet, a: AgentKey): Result<Agent> {
    if a !in s.agents then Failure(AccountMissing)
    else if s.agents[a].operator != signer then Failure(UnauthorizedOperator)
    else Success(s.agents[a])
  }

  function Accountable(s: State, p: PositionKey): Result<Agent> {
    if p.agent in s.agents && p in s.positions then Success(s.agents[p.agent]) else Failure(AccountMissing)
  }

  // The guarantee a live position held on its agent is let go.
  function Release(agent: Agent, position: Position): Result<Agent> {
    var locked :- Subtract(agent.lockedCollateral, position.lockedCollateral);
    var capital :- Subtract(agent.capitalManaged, position.principal);
    var open :- Decrement(agent.openPositions);
    Success(agent.(lockedCollateral := locked, capitalManaged := capital, openPositions := open))
  }

  // Bond paid out of an agent's books.
  function Slash(agent: Agent, amount: u64): Result<Agent> {
    var total :- Subtract(agent.totalCollateral, amount);
    var slashed :- CheckedAdd(agent.slashedTotal, amount);
    Success(agent.(totalCollateral := total, slashedTotal := slashed))
  }

  // ---------- operator instructions ----------

  function HandleCreateAgent(s: State, operator: Wallet, id: u64, terms: Settlement.AgentTerms): Result<State> {
    var a := AgentKey(operator, id);
    :- Require(a !in s.agents, AccountInUse);
    var _ :- Settlement.Validate(terms);
    var lamports :- Transfer(s.lamports, WalletOf(operator), AgentVault(a), s.rentFloor);
    var agent := Agent(operator, operator, Draft, terms, s.now, 0, 0, 0, 0, 0, 0, 0, 0, 0, 0);
    Commit(WithAgent(s, a, agent).(lamports := lamports))
  }

  function HandleUpdateAgent(s: State, signer: Wallet, a: AgentKey, terms: Settlement.AgentTerms): Result<State> {
    var agent :- OperatedBy(s, signer, a);
    :- Require(agent.status.Draft?, TermsLocked);
    var _ :- Settlement.Validate(terms);
    Commit(WithAgent(s, a, agent.(terms := terms)))
  }

  function HandlePublishAgent(s: State, signer: Wallet, a: AgentKey): Result<State> {
    var agent :- OperatedBy(s, signer, a);
    :- Require(agent.status.Draft?, AlreadyPublished);
    :- Require(agent.totalCollateral > 0, NoCollateral);
    var _ :- Settlement.Validate(agent.terms);
    Commit(WithAgent(s, a, agent.(status := Active, publishedAt := s.now)))
  }

  function HandleSetExecutor(s: State, signer: Wallet, a: AgentKey, executor: Wallet): Result<State> {
    var agent :- OperatedBy(s, signer, a);
    Commit(WithAgent(s, a, agent.(executor := executor)))
  }

  function HandleSetAccepting(s: State, signer: Wallet, a: AgentKey, accepting: bool): Result<State> {
    var agent :- OperatedBy(s, signer, a);
    :- Require(!agent.status.Draft?, NotPublished);
    Commit(WithAgent(s, a, agent.(status := if accepting then Active else Paused)))
  }

  function HandleDepositCollateral(s: State, signer: Wallet, a: AgentKey, amount: u64): Result<State> {
    var agent :- OperatedBy(s, signer, a);
    :- Require(amount > 0, ZeroAmount);
    var lamports :- Transfer(s.lamports, WalletOf(signer), AgentVault(a), amount);
    var total :- CheckedAdd(agent.totalCollateral, amount);
    Commit(WithAgent(s, a, agent.(totalCollateral := total)).(lamports := lamports))
  }

  // Negating `amount as i64` for the event panics at 2^63.
  const UNNEGATABLE: int := 0x8000_0000_0000_0000

  function HandleWithdrawCollateral(s: State, signer: Wallet, a: AgentKey, amount: u64): Result<State> {
    var agent :- OperatedBy(s, signer, a);
    :- Require(amount > 0, ZeroAmount);
    :- Require(amount <= agent.FreeCollateral(), InsufficientFreeCollateral);
    var total :- Subtract(agent.totalCollateral, amount);
    var lamports :- Transfer(s.lamports, AgentVault(a), WalletOf(signer), amount);
    :- Require(amount != UNNEGATABLE, ArithmeticPanic);
    Commit(WithAgent(s, a, agent.(totalCollateral := total)).(lamports := lamports))
  }

  // ---------- trader and trading-key instructions ----------

  function HandleOpenPosition(s: State, trader: Wallet, a: AgentKey, nonce: u64, amount: u64, durationSecs: i64)
    : Result<State>
  {
    var p := PositionKey(a, trader, nonce);
    :- Require(a in s.agents, AccountMissing);
    :- Require(p !in s.positions, AccountInUse);
    var agent := s.agents[a];
    :- Require(amount > 0, ZeroAmount);
    :- Require(agent.status.Active?, AgentNotAccepting);
    :- Require(agent.terms.minDurationSecs <= durationSecs <= agent.terms.maxDurationSecs, InvalidDuration);
    :- Require(Settlement.RatioAndDrawdownFit(agent.terms.collateralRatioBps, agent.terms.maxDrawdownBps),
               RatioPlusDrawdownTooHigh);
    var lock :- Settlement.RequiredCollateral(amount, agent.terms.collateralRatioBps);
    :- Require(lock <= agent.FreeCollateral(), InsufficientFreeCollateral);
    var locked :- CheckedAdd(agent.lockedCollateral, lock);
    var capital :- CheckedAdd(agent.capitalManaged, amount);
    var open :- Increment(agent.openPositions);
    var deposit :- CheckedAdd(amount, s.rentFloor);
    var lamports :- Transfer(s.lamports, WalletOf(trader), PositionVault(p), deposit);
    :- Require(I64_MIN <= s.now + durationSecs <= I64_MAX, ArithmeticPanic);
    var position := Position(
      trader, a, amount, lock, agent.terms.feeBps, agent.terms.maxDrawdownBps, PositionStatus.Open, NoBreach,
      s.now, s.now + durationSecs, 0, 0, 0, 0, 0);
    Commit(WithPosition(
      s, p, agent.(lockedCollateral := locked, capitalManaged := capital, openPositions := open), position, lamports))
  }

  function HandleCancelPosition(s: State, trader: Wallet, p: PositionKey): Result<State> {
    var agent :- Accountable(s, p);
    var position := s.positions[p];
    :- Require(p.trader == trader, AccountMissing);
    :- Require(position.status.Open?, InvalidStatus);
    var lamports := Drain(s.lamports, PositionVault(p), WalletOf(trader));
    var released :- Release(agent, position);
    Commit(WithPosition(
      s, p, released,
      position.(status := Cancelled, returned := position.principal, closedAt := s.now), lamports))
  }

  function HandleDrawFunds(s: State, executor: Wallet, p: PositionKey): Result<State> {
    var agent :- Accountable(s, p);
    var position := s.positions[p];
    :- Require(agent.CanExecute(executor), UnauthorizedExecutor);
    :- Require(position.status.Open?, InvalidStatus);
    :- Require(s.now < position.deadline, DeadlinePassed);
    var lamports :- Transfer(s.lamports, PositionVault(p), WalletOf(executor), position.principal);
    Commit(WithPosition(s, p, agent, position.(status := Trading, drawnAt := s.now), lamports))
  }

  // The performance fee, withheld when paying it would strand an empty operator wallet below the rent floor.
  function PaidFee(lamports: Lamports, rentFloor: u64, operator: Wallet, trader: Wallet, fee: u64): u64 {
    if operator == trader || Balance(lamports, WalletOf(operator)) + fee >= rentFloor then fee else 0
  }

  // The agent's and the position's books after a settle of a drawn or (declined) undrawn position.
  function BookSettle(agent: Agent, position: Position, effective: u64, split: Settlement.Settled, fee: u64, now: i64)
    : Result<(Agent, Position)>
  {
    var declined := position.status.Open?;
    var slashed :- Slash(agent, split.slash);
    var released :- Release(slashed, position);
    var settledPositions :- if declined then Success(released.settledPositions) else Increment(released.settledPositions);
    var feesEarned :- CheckedAdd(released.feesEarned, fee);
    var breach :=
      if !declined && now >= position.deadline then MissedDeadline
      else if split.slash > 0 then Drawdown else NoBreach;
    var breachCount :- if breach.NoBreach? then Success(released.breachCount) else Increment(released.breachCount);
    Success((
      released.(settledPositions := settledPositions, feesEarned := feesEarned, breachCount := breachCount),
      position.(status := Settled, breach := breach, returned := effective, slashed := split.slash,
                feePaid := fee, closedAt := now)))
  }

  function HandleSettlePosition(s: State, executor: Wallet, p: PositionKey, returned: u64): Result<State> {
    var agent :- Accountable(s, p);
    var position := s.positions[p];
    :- Require(agent.CanExecute(executor), UnauthorizedExecutor);
    :- Require(position.Live(), InvalidStatus);
    var declined := position.status.Open?;
    var effective := if declined then position.principal else returned;
    var funded :- Transfer(s.lamports, WalletOf(executor), PositionVault(p), if declined then 0 else returned);
    var split :- Settlement.ComputeSettlement(
      position.principal, effective, position.feeBps, position.maxDrawdownBps, position.lockedCollateral);
    var fee := PaidFee(funded, s.rentFloor, agent.operator, position.trader, split.fee);
    var charged :- Transfer(funded, PositionVault(p), WalletOf(agent.operator), fee);
    var bonded :- Transfer(charged, AgentVault(p.agent), WalletOf(position.trader), split.slash);
    var lamports := Drain(bonded, PositionVault(p), WalletOf(position.trader));
    var books :- BookSettle(agent, position, effective, split, fee, s.now);
    Commit(WithPosition(s, p, books.0, books.1, lamports))
  }

  function HandleClaimDefault(s: State, trader: Wallet, p: PositionKey): Result<State> {
    var agent :- Accountable(s, p);
    var position := s.positions[p];
    :- Require(p.trader == trader, AccountMissing);
    :- Require(position.status.Trading?, InvalidStatus);
    :- Require(s.now >= position.deadline, DeadlineNotReached);
    var bond := position.lockedCollateral;
    var bonded :- Transfer(s.lamports, AgentVault(p.agent), WalletOf(trader), bond);
    var lamports := Drain(bonded, PositionVault(p), WalletOf(trader));
    var total :- Subtract(agent.totalCollateral, bond);
    var released :- Release(agent.(totalCollateral := total), position);
    var defaulted :- Increment(released.defaultedPositions);
    var breaches :- Increment(released.breachCount);
    var slashedTotal :- CheckedAdd(released.slashedTotal, bond);
    Commit(WithPosition(
      s, p, released.(defaultedPositions := defaulted, breachCount := breaches, slashedTotal := slashedTotal),
      position.(status := Defaulted, breach := MissedDeadline, slashed := bond, closedAt := s.now),
      lamports))
  }

  // ---------- the environment ----------

  function HandleAdvanceClock(s: State, secs: nat): Result<State> {
    if s.now + secs <= I64_MAX then Success(s.(now := s.now + secs)) else Failure(Overflow)
  }

  function HandleDonate(s: State, from: Wallet, to: Account, amount: u64): Result<State> {
    var lamports :- Transfer(s.lamports, WalletOf(from), to, amount);
    Commit(s.(lamports := lamports))
  }

  // ---------- steps and runs ----------

  function Step(s: State, i: Instruction): Result<State> {
    match i
    case CreateAgent(operator, id, terms) => HandleCreateAgent(s, operator, id, terms)
    case UpdateAgent(signer, agent, terms) => HandleUpdateAgent(s, signer, agent, terms)
    case PublishAgent(signer, agent) => HandlePublishAgent(s, signer, agent)
    case SetExecutor(signer, agent, executor) => HandleSetExecutor(s, signer, agent, executor)
    case SetAccepting(signer, agent, accepting) => HandleSetAccepting(s, signer, agent, accepting)
    case DepositCollateral(signer, agent, amount) => HandleDepositCollateral(s, signer, agent, amount)
    case WithdrawCollateral(signer, agent, amount) => HandleWithdrawCollateral(s, signer, agent, amount)
    case OpenPosition(trader, agent, nonce, amount, secs) => HandleOpenPosition(s, trader, agent, nonce, amount, secs)
    case CancelPosition(trader, position) => HandleCancelPosition(s, trader, position)
    case DrawFunds(executor, position) => HandleDrawFunds(s, executor, position)
    case SettlePosition(executor, position, returned) => HandleSettlePosition(s, executor, position, returned)
    case ClaimDefault(trader, position) => HandleClaimDefault(s, trader, position)
    case AdvanceClock(secs) => HandleAdvanceClock(s, secs)
    case Donate(from, to, amount) => HandleDonate(s, from, to, amount)
  }

  // A failed transaction leaves the ledger unchanged.
  function After(s: State, i: Instruction): State {
    match Step(s, i)
    case Success(s') => s'
    case Failure(_) => s
  }

  function Run(s: State, run: seq<Instruction>): State {
    if run == [] then s else After(Run(s, run[..|run| - 1]), run[|run| - 1])
  }

  // No agents yet, wallets funded or empty, and a clock that has started.
  predicate Genesis(s: State) {
    && s.now > 0
    && s.rentFloor > 0
    && s.agents == map[]
    && s.positions == map[]
    && RentExempt(s.lamports, s.rentFloor)
  }
}
