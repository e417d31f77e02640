// What an instruction can and cannot touch: closed positions, published terms, other agents' collateral.
module LedgerFrame {
  import opened Numbers
  import opened Accounts
  import opened Ledger
  import opened LedgerInvariant
  import Settlement

  // Collateral the agent still has or has paid out as bond.
  function Committed(s: State, a: AgentKey): int {
    if a in s.agents then s.agents[a].totalCollateral as int + s.agents[a].slashedTotal else 0
  }

  // What the agent's vault owes: the collateral and the rent floor.
  function Owed(s: State, a: AgentKey): int {
    if a in s.agents then s.agents[a].totalCollateral as int + s.rentFloor else 0
  }

  // What a successful instruction deposits into or withdraws from an agent's collateral.
  function Flow(i: Instruction, a: AgentKey): int {
    match i
    case DepositCollateral(_, b, amount) => if a == b then amount else 0
    case WithdrawCollateral(_, b, amount) => if a == b then -(amount as int) else 0
    case _ => 0
  }

  // What it donates to the agent's vault.
  function Gift(i: Instruction, a: AgentKey): nat {
    if i.Donate? && i.to == AgentVault(a) then i.amount else 0
  }

  predicate Permanent(before: Agent, after: Agent) {
    !before.status.Draft? ==> !after.status.Draft? && after.terms == before.terms
  }

  ghost predicate Frame(s: State, i: Instruction, t: State) {
    && t.rentFloor == s.rentFloor
    && (forall k :: k in s.positions ==> k in t.positions && (s.positions[k].Live() || t.positions[k] == s.positions[k]))
    && (forall a :: a in s.agents ==> a in t.agents && Permanent(s.agents[a], t.agents[a]))
    && (forall a :: Committed(t, a) == Committed(s, a) + Flow(i, a))
    && (forall a {:trigger AgentVault(a)} ::
          Balance(t.lamports, AgentVault(a)) - Owed(t, a)
          == Balance(s.lamports, AgentVault(a)) - Owed(s, a) + Gift(i, a))
  }

  // Rewriting or creating one agent, with `flow` moving in or out of its books and its vault alike.
  lemma AgentFrame(s: State, i: Instruction, a: AgentKey, agent: Agent, lamports: Lamports, flow: int)
    requires !i.Donate?
    requires forall b :: Flow(i, b) == if b == a then flow else 0
    requires a in s.agents ==> Permanent(s.agents[a], agent)
    requires agent.totalCollateral as int + agent.slashedTotal == Committed(s, a) + flow
    requires Balance(lamports, AgentVault(a)) - agent.totalCollateral - s.rentFloor
          == Balance(s.lamports, AgentVault(a)) - Owed(s, a)
    requires forall b {:trigger AgentVault(b)} ::
      b != a ==> Balance(lamports, AgentVault(b)) == Balance(s.lamports, AgentVault(b))
    ensures Frame(s, i, WithAgent(s, a, agent).(lamports := lamports))
  {
    var t := WithAgent(s, a, agent).(lamports := lamports);
    forall b ensures Committed(t, b) == Committed(s, b) + Flow(i, b) {
      assert b != a ==> Flow(i, b) == 0;
    }
    forall b {:trigger AgentVault(b)}
      ensures Balance(lamports, AgentVault(b)) - Owed(t, b) == Balance(s.lamports, AgentVault(b)) - Owed(s, b) + Gift(i, b)
    {
      assert b != a ==> Owed(t, b) == Owed(s, b);
    }
  }

  lemma SettingFrame(s: State, i: Instruction, a: AgentKey, agent: Agent)
    requires i.UpdateAgent? || i.PublishAgent? || i.SetExecutor? || i.SetAccepting?
    requires a in s.agents
    requires Permanent(s.agents[a], agent)
    requires agent.totalCollateral == s.agents[a].totalCollateral && agent.slashedTotal == s.agents[a].slashedTotal
    ensures Frame(s, i, WithAgent(s, a, agent))
  {
    AgentFrame(s, i, a, agent, s.lamports, 0);
    assert WithAgent(s, a, agent) == WithAgent(s, a, agent).(lamports := s.lamports);
  }

  lemma CreateFrame(s: State, operator: Wallet, id: u64, terms: Settlement.AgentTerms)
    requires HandleCreateAgent(s, operator, id, terms).Success?
    ensures Frame(s, CreateAgent(operator, id, terms), HandleCreateAgent(s, operator, id, terms).value)
  {
    var t := HandleCreateAgent(s, operator, id, terms).value;
    var a := AgentKey(operator, id);
    AgentFrame(s, CreateAgent(operator, id, terms), a, t.agents[a], t.lamports, 0);
  }

  lemma DepositFrame(s: State, signer: Wallet, a: AgentKey, amount: u64)
    requires HandleDepositCollateral(s, signer, a, amount).Success?
    ensures Frame(s, DepositCollateral(signer, a, amount), HandleDepositCollateral(s, signer, a, amount).value)
  {
    var t := HandleDepositCollateral(s, signer, a, amount).value;
    AgentFrame(s, DepositCollateral(signer, a, amount), a, t.agents[a], t.lamports, amount);
  }

  lemma WithdrawFrame(s: State, signer: Wallet, a: AgentKey, amount: u64)
    requires HandleWithdrawCollateral(s, signer, a, amount).Success?
    ensures Frame(s, WithdrawCollateral(signer, a, amount), HandleWithdrawCollateral(s, signer, a, amount).value)
  {
    var t := HandleWithdrawCollateral(s, signer, a, amount).value;
    AgentFrame(s, WithdrawCollateral(signer, a, amount), a, t.agents[a], t.lamports, -(amount as int));
  }

  lemma ClockFrame(s: State, secs: nat)
    requires HandleAdvanceClock(s, secs).Success?
    ensures Frame(s, AdvanceClock(secs), HandleAdvanceClock(s, secs).value)
  {
  }

  lemma DonateFrame(s: State, from: Wallet, to: Account, amount: u64)
    requires HandleDonate(s, from, to, amount).Success?
    ensures Frame(s, Donate(from, to, amount), HandleDonate(s, from, to, amount).value)
  {
  }

  // Rewriting one live or new position and its agent, with the collateral books moving by what left the vault.
  lemma PositionFrame(
    s: State, i: Instruction, k: PositionKey, agent: Agent, position: Position, lamports: Lamports, slash: nat)
    requires !i.DepositCollateral? && !i.WithdrawCollateral? && !i.Donate?
    requires k.agent in s.agents
    requires k in s.positions ==> s.positions[k].Live()
    requires agent.status == s.agents[k.agent].status && agent.terms == s.agents[k.agent].terms
    requires agent.totalCollateral as int + slash == s.agents[k.agent].totalCollateral
    requires agent.slashedTotal as int - slash == s.agents[k.agent].slashedTotal
    requires forall a {:trigger AgentVault(a)} ::
      Balance(lamports, AgentVault(a)) == Balance(s.lamports, AgentVault(a)) - (if a == k.agent then slash else 0)
    ensures Frame(s, i, WithPosition(s, k, agent, position, lamports))
  {
  }

  lemma OpenFrame(s: State, trader: Wallet, a: AgentKey, nonce: u64, amount: u64, secs: i64)
    requires HandleOpenPosition(s, trader, a, nonce, amount, secs).Success?
    ensures Frame(s, OpenPosition(trader, a, nonce, amount, secs),
                  HandleOpenPosition(s, trader, a, nonce, amount, secs).value)
  {
    var agent, lamports, lock := OpenTakesApart(s, trader, a, nonce, amount, secs);
    var k := PositionKey(a, trader, nonce);
    PositionFrame(s, OpenPosition(trader, a, nonce, amount, secs), k, agent, Opened(s, k, amount, secs, lock), lamports, 0);
  }

  lemma CancelFrame(s: State, trader: Wallet, k: PositionKey)
    requires HandleCancelPosition(s, trader, k).Success?
    ensures Frame(s, CancelPosition(trader, k), HandleCancelPosition(s, trader, k).value)
  {
    var agent, lamports := CancelTakesApart(s, trader, k);
    var p := s.positions[k];
    PositionFrame(s, CancelPosition(trader, k), k, agent,
                  p.(status := Cancelled, returned := p.principal, closedAt := s.now), lamports, 0);
  }

  lemma DrawFrame(s: State, executor: Wallet, k: PositionKey)
    requires HandleDrawFunds(s, executor, k).Success?
    ensures Frame(s, DrawFunds(executor, k), HandleDrawFunds(s, executor, k).value)
  {
    var lamports := DrawTakesApart(s, executor, k);
    PositionFrame(s, DrawFunds(executor, k), k, s.agents[k.agent],
                  s.positions[k].(status := Trading, drawnAt := s.now), lamports, 0);
  }

  lemma SettleAgentVaults(s: State, executor: Wallet, k: PositionKey, returned: u64, c: SettleParts, a: AgentKey)
    requires k in s.positions && k.agent in s.agents
    requires SettleAmounts(s, executor, k, returned, c)
    ensures Balance(c.lamports, AgentVault(a))
         == Balance(s.lamports, AgentVault(a)) - (if a == k.agent then c.split.slash else 0)
  {
    var p, x := s.positions[k], AgentVault(a);
    TransferMoves(s.lamports, WalletOf(executor), PositionVault(k), if p.status.Open? then 0 else returned, x);
    TransferMoves(c.funded, PositionVault(k), WalletOf(s.agents[k.agent].operator), c.fee, x);
    TransferMoves(c.charged, AgentVault(k.agent), WalletOf(p.trader), c.split.slash, x);
    TransferMoves(c.bonded, PositionVault(k), WalletOf(p.trader), Balance(c.bonded, PositionVault(k)), x);
  }

  lemma SettleFrame(s: State, executor: Wallet, k: PositionKey, returned: u64)
    requires HandleSettlePosition(s, executor, k, returned).Success?
    ensures Frame(s, SettlePosition(executor, k, returned), HandleSettlePosition(s, executor, k, returned).value)
  {
    var c := SettleTakesApart(s, executor, k, returned);
    forall a {:trigger AgentVault(a)}
      ensures Balance(c.lamports, AgentVault(a))
           == Balance(s.lamports, AgentVault(a)) - (if a == k.agent then c.split.slash else 0)
    {
      SettleAgentVaults(s, executor, k, returned, c, a);
    }
    PositionFrame(s, SettlePosition(executor, k, returned), k, c.agent, c.position, c.lamports, c.split.slash);
  }

  lemma ClaimFrame(s: State, trader: Wallet, k: PositionKey)
    requires HandleClaimDefault(s, trader, k).Success?
    ensures Frame(s, ClaimDefault(trader, k), HandleClaimDefault(s, trader, k).value)
  {
    var c := ClaimTakesApart(s, trader, k);
    var bond := s.positions[k].lockedCollateral;
    forall a {:trigger AgentVault(a)}
      ensures Balance(c.lamports, AgentVault(a))
           == Balance(s.lamports, AgentVault(a)) - (if a == k.agent then bond else 0)
    {
      TransferMoves(s.lamports, AgentVault(k.agent), WalletOf(trader), bond, AgentVault(a));
      TransferMoves(c.bonded, PositionVault(k), WalletOf(trader), Balance(c.bonded, PositionVault(k)), AgentVault(a));
    }
    PositionFrame(s, ClaimDefault(trader, k), k, c.agent, c.position, c.lamports, bond);
  }

  lemma StepFrame(s: State, i: Instruction)
    requires Step(s, i).Success?
    ensures Frame(s, i, Step(s, i).value)
  {
    match i
    case OpenPosition(trader, a, nonce, amount, secs) => OpenFrame(s, trader, a, nonce, amount, secs);
    case CancelPosition(trader, k) => CancelFrame(s, trader, k);
    case DrawFunds(executor, k) => DrawFrame(s, executor, k);
    case SettlePosition(executor, k, returned) => SettleFrame(s, executor, k, returned);
    case ClaimDefault(trader, k) => ClaimFrame(s, trader, k);
    case AdvanceClock(secs) => ClockFrame(s, secs);
    case Donate(from, to, amount) => DonateFrame(s, from, to, amount);
    case CreateAgent(operator, id, terms) => CreateFrame(s, operator, id, terms);
    case DepositCollateral(signer, a, amount) => DepositFrame(s, signer, a, amount);
    case WithdrawCollateral(signer, a, amount) => WithdrawFrame(s, signer, a, amount);
    case UpdateAgent(_, a, _) => SettingFrame(s, i, a, Step(s, i).value.agents[a]);
    case PublishAgent(_, a) => SettingFrame(s, i, a, Step(s, i).value.agents[a]);
    case SetExecutor(_, a, _) => SettingFrame(s, i, a, Step(s, i).value.agents[a]);
    case SetAccepting(_, a, _) => SettingFrame(s, i, a, Step(s, i).value.agents[a]);
  }
}
