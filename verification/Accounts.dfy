// The program's accounts. Program-derived addresses are distinct by construction: an agent is named by its
// operator and id, a position by its agent, trader and nonce, and each owns its own vault.
module Accounts {
  import opened Numbers
  import opened Settlement

  type Wallet = nat

  datatype AgentKey = AgentKey(operator: Wallet, id: u64)
  datatype PositionKey = PositionKey(agent: AgentKey, trader: Wallet, nonce: u64)

  // Everything that can hold lamports in the model.
  datatype Account =
    | WalletOf(wallet: Wallet)
    | AgentVault(agent: AgentKey)
    | PositionVault(position: PositionKey)

  datatype AgentStatus = Draft | Active | Paused

  datatype Agent = Agent(
    operator: Wallet,
    executor: Wallet,
    status: AgentStatus,
    terms: AgentTerms,
    createdAt: i64,
    publishedAt: i64,
    totalCollateral: u64,
    lockedCollateral: u64,
    capitalManaged: u64,
    openPositions: u32,
    settledPositions: u32,
    defaultedPositions: u32,
    breachCount: u32,
    slashedTotal: u64,
    feesEarned: u64)
  {
    // Saturating, as in the source.
    function FreeCollateral(): u64 {
      if totalCollateral >= lockedCollateral then totalCollateral - lockedCollateral else 0
    }

    predicate CanExecute(key: Wallet) {
      key == executor || key == operator
    }
  }

  datatype PositionStatus = Open | Trading | Settled | Defaulted | Cancelled
  datatype Breach = NoBreach | Drawdown | MissedDeadline

  datatype Position = Position(
    trader: Wallet,
    agent: AgentKey,
    principal: u64,
    lockedCollateral: u64,
    feeBps: u16,
    maxDrawdownBps: u16,
    status: PositionStatus,
    breach: Breach,
    openedAt: i64,
    deadline: i64,
    drawnAt: i64,
    closedAt: i64,
    returned: u64,
    slashed: u64,
    feePaid: u64)
  {
    predicate Live() {
      status.Open? || status.Trading?
    }

    // `trader_payout` of the closing event: what the close paid the trader, the vault's rent floor apart.
    function Payout(): int
    {
      if status.Settled? then returned - feePaid + slashed
      else if status.Cancelled? then returned
      else slashed
    }
  }

  type Lamports = map<Account, nat>

  function Balance(lamports: Lamports, account: Account): nat {
    if account in lamports then lamports[account] else 0
  }

  // The two transfer helpers: nothing happens for zero, and the payer must hold the amount.
  function Transfer(lamports: Lamports, from: Account, to: Account, amount: nat): Result<Lamports> {
    if amount == 0 then Success(lamports)
    else if Balance(lamports, from) < amount then Failure(InsufficientLamports)
    else
      var debited := lamports[from := Balance(lamports, from) - amount];
      Success(debited[to := Balance(debited, to) + amount])
  }

  // Everything an account holds, transferred out. This cannot lack funds.
  function Drain(lamports: Lamports, from: Account, to: Account): Lamports {
    Transfer(lamports, from, to, Balance(lamports, from)).value
  }

  // What the runtime checks of every account after a transaction: empty, or rent-exempt.
  predicate RentExempt(lamports: Lamports, rentFloor: u64) {
    forall account :: account in lamports ==> lamports[account] == 0 || lamports[account] >= rentFloor
  }
}
