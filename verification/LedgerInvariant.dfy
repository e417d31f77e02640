// What every reachable ledger satisfies, whoever interleaves whichever instructions.
module LedgerInvariant {
  import opened Numbers
  import opened Accounts
  import opened Ledger
  import Settlement
  import Tally

  // What each status says about the fields of a position.
  predicate Lifecycle(p: Position) {
    match p.status
    case Open =>
      p.breach.NoBreach? && p.drawnAt == p.closedAt == 0 && p.returned == p.slashed == p.feePaid == 0
    case Trading =>
      && p.breach.NoBreach? && 0 < p.drawnAt < p.deadline && p.closedAt == 0
      && p.returned == p.slashed == p.feePaid == 0
    case Settled =>
      && p.closedAt > 0 && p.drawnAt >= 0
      && (p.drawnAt == 0 ==> p.returned == p.principal && p.slashed == p.feePaid == 0)
      && (p.breach.MissedDeadline? <==> p.drawnAt > 0 && p.closedAt >= p.deadline)
      && (p.breach.Drawdown? <==> p.slashed > 0 && !p.breach.MissedDeadline?)
      && p.slashed <= p.lockedCollateral
      && (p.feePaid > 0 ==> p.returned > p.principal)
      && (p.slashed > 0 ==> p.returned < p.principal)
      && p.Payout() >= p.lockedCollateral
    case Defaulted =>
      && p.breach.MissedDeadline? && p.drawnAt > 0 && p.closedAt >= p.deadline
      && p.slashed == p.lockedCollateral && p.returned == p.feePaid == 0
    case Cancelled =>
      && p.breach.NoBreach? && p.drawnAt == 0 && p.closedAt > 0
      && p.returned == p.principal && p.slashed == p.feePaid == 0
  }

  // A position, its agent's terms, and what its vault must hold.
  predicate Sound(k: PositionKey, p: Position, terms: Settlement.AgentTerms, rentFloor: u64, vault: nat) {
    && p.trader == k.trader && p.agent == k.agent
    && p.principal > 0
    && Settlement.RequiredCollateral(p.principal, terms.collateralRatioBps) == Success(p.lockedCollateral)
    && p.feeBps == terms.feeBps && p.maxDrawdownBps == terms.maxDrawdownBps
    && Lifecycle(p)
    && (p.status.Open? ==> vault >= p.principal + rentFloor)
    && (p.status.Trading? ==> vault >= rentFloor)
  }

  predicate Solvent(a: AgentKey, agent: Agent, rentFloor: u64, vault: nat) {
    && agent.operator == a.operator
    && Settlement.Valid(agent.terms)
    && agent.lockedCollateral <= agent.totalCollateral
    && vault >= agent.totalCollateral + rentFloor
  }

  ghost predicate AgentOk(s: State, a: AgentKey)
    requires a in s.agents
  {
    && Solvent(a, s.agents[a], s.rentFloor, Balance(s.lamports, AgentVault(a)))
    && Tally.Audited(s.positions, a, s.agents[a])
  }

  ghost predicate PositionOk(s: State, k: PositionKey)
    requires k in s.positions
  {
    && k.agent in s.agents
    && !s.agents[k.agent].status.Draft?
    && Sound(k, s.positions[k], s.agents[k.agent].terms, s.rentFloor, Balance(s.lamports, PositionVault(k)))
  }

  ghost predicate Inv(s: State) {
    && s.now > 0
    && s.rentFloor > 0
    && RentExempt(s.lamports, s.rentFloor)
    && (forall a :: a in s.agents ==> AgentOk(s, a))
    && (forall k :: k in s.positions ==> PositionOk(s, k))
  }

  lemma GenesisSatisfiesInv(s: State)
    requires Genesis(s)
    ensures Inv(s)
  {
  }

  // ---------- transfers ----------

  lemma TransferMoves(lamports: Lamports, from: Account, to: Account, amount: nat, x: Account)
    requires Transfer(lamports, from, to, amount).Success?
    ensures Balance(Transfer(lamports, from, to, amount).value, x)
         == Balance(lamports, x) - (if x == from then amount else 0) + (if x == to then amount else 0)
  {
  }

  // No agent's or position's vault lost anything, apart from the named exceptions.
  ghost predicate VaultsKept(before: Lamports, after: Lamports, agents: set<AgentKey>, positions: set<PositionKey>) {
    && (forall a {:trigger AgentVault(a)} ::
         a !in agents ==> Balance(after, AgentVault(a)) >= Balance(before, AgentVault(a)))
    && (forall k {:trigger PositionVault(k)} ::
         k !in positions ==> Balance(after, PositionVault(k)) >= Balance(before, PositionVault(k)))
  }

  // ---------- the two shapes of update ----------

  // An instruction that rewrites one agent and maybe moves lamports.
  lemma AgentUpdateKeepsInv(s: State, a: AgentKey, agent: Agent, lamports: Lamports)
    requires Inv(s)
    requires RentExempt(lamports, s.rentFloor)
    requires VaultsKept(s.lamports, lamports, {a}, {})
    requires Solvent(a, agent, s.rentFloor, Balance(lamports, AgentVault(a)))
    requires Tally.Audited(s.positions, a, agent)
    requires (exists k :: k in s.positions && k.agent == a) ==>
      a in s.agents && !agent.status.Draft? && agent.terms == s.agents[a].terms
    ensures Inv(WithAgent(s, a, agent).(lamports := lamports))
  {
    var s' := WithAgent(s, a, agent).(lamports := lamports);
    forall b | b in s'.agents ensures AgentOk(s', b) {
      if b != a {
        assert AgentOk(s, b);
        assert Balance(lamports, AgentVault(b)) >= Balance(s.lamports, AgentVault(b));
      }
    }
    forall k | k in s'.positions ensures PositionOk(s', k) {
      assert PositionOk(s, k);
      assert Balance(lamports, PositionVault(k)) >= Balance(s.lamports, PositionVault(k));
    }
  }

  // An instruction that rewrites one position and its agent, and moves lamports.
  lemma PositionUpdateKeepsAgents(s: State, k: PositionKey, agent: Agent, position: Position, lamports: Lamports)
    requires forall a :: a in s.agents ==> AgentOk(s, a)
    requires k.agent in s.agents
    requires k in s.positions ==> s.positions[k].agent == k.agent
    requires position.agent == k.agent
    requires VaultsKept(s.lamports, lamports, {k.agent}, {k})
    requires Solvent(k.agent, agent, s.rentFloor, Balance(lamports, AgentVault(k.agent)))
    requires Tally.MovesWith(s.positions, s.agents[k.agent], k, position, agent)
    ensures forall a :: a in s.agents ==> AgentOk(WithPosition(s, k, agent, position, lamports), a)
  {
    var s' := WithPosition(s, k, agent, position, lamports);
    forall b | b in s.agents ensures AgentOk(s', b) {
      assert AgentOk(s, b);
      if b == k.agent {
        Tally.Rewrite(s.positions, b, s.agents[b], k, position, agent);
      } else {
        Tally.RewriteOther(s.positions, b, s.agents[b], k, position);
        assert Balance(lamports, AgentVault(b)) >= Balance(s.lamports, AgentVault(b));
      }
    }
  }

  lemma PositionUpdateKeepsPositions(s: State, k: PositionKey, agent: Agent, position: Position, lamports: Lamports)
    requires forall j :: j in s.positions ==> PositionOk(s, j)
    requires k.agent in s.agents
    requires VaultsKept(s.lamports, lamports, {k.agent}, {k})
    requires !agent.status.Draft? && agent.terms == s.agents[k.agent].terms
    requires Sound(k, position, agent.terms, s.rentFloor, Balance(lamports, PositionVault(k)))
    ensures
      var s' := WithPosition(s, k, agent, position, lamports);
      forall j :: j in s'.positions ==> PositionOk(s', j)
  {
  }

  lemma PositionUpdateKeepsInv(s: State, k: PositionKey, agent: Agent, position: Position, lamports: Lamports)
    requires Inv(s)
    requires k.agent in s.agents
    requires RentExempt(lamports, s.rentFloor)
    requires VaultsKept(s.lamports, lamports, {k.agent}, {k})
    requires Solvent(k.agent, agent, s.rentFloor, Balance(lamports, AgentVault(k.agent)))
    requires Tally.MovesWith(s.positions, s.agents[k.agent], k, position, agent)
    requires !agent.status.Draft? && agent.terms == s.agents[k.agent].terms
    requires Sound(k, position, agent.terms, s.rentFloor, Balance(lamports, PositionVault(k)))
    ensures Inv(WithPosition(s, k, agent, position, lamports))
  {
    assert k in s.positions ==> PositionOk(s, k);
    PositionUpdateKeepsAgents(s, k, agent, position, lamports);
    PositionUpdateKeepsPositions(s, k, agent, position, lamports);
  }

  // ---------- operator instructions ----------

  lemma CreateKeepsInv(s: State, operator: Wallet, id: u64, terms: Settlement.AgentTerms)
    requires Inv(s)
    requires HandleCreateAgent(s, operator, id, terms).Success?
    ensures Inv(HandleCreateAgent(s, operator, id, terms).value)
  {
    var a := AgentKey(operator, id);
    var s' := HandleCreateAgent(s, operator, id, terms).value;
    forall k | k in s.positions ensures k.agent != a {
      assert PositionOk(s, k);
    }
    forall counter ensures Tally.Recorded(s'.agents[a], counter) == Tally.Of(s.positions, a, counter) {
      forall k | k in s.positions ensures Tally.Weight(a, counter)(s.positions[k]) == 0 {
        assert PositionOk(s, k);
      }
      Tally.Sums.AllZero(s.positions, Tally.Weight(a, counter));
    }
    AgentUpdateKeepsInv(s, a, s'.agents[a], s'.lamports);
  }

  lemma AgentOnlyKeepsInv(s: State, a: AgentKey, agent: Agent)
    requires Inv(s) && a in s.agents
    requires agent == s.agents[a].(status := agent.status, terms := agent.terms, executor := agent.executor,
                                   publishedAt := agent.publishedAt)
    requires Settlement.Valid(agent.terms)
    requires s.agents[a].status.Draft? || (agent.terms == s.agents[a].terms && !agent.status.Draft?)
    ensures Inv(WithAgent(s, a, agent))
  {
    assert AgentOk(s, a);
    forall counter ensures Tally.Recorded(agent, counter) == Tally.Of(s.positions, a, counter) {
      assert Tally.Recorded(agent, counter) == Tally.Recorded(s.agents[a], counter);
    }
    forall k | k in s.positions && k.agent == a ensures !s.agents[a].status.Draft? {
      assert PositionOk(s, k);
    }
    AgentUpdateKeepsInv(s, a, agent, s.lamports);
    assert WithAgent(s, a, agent) == WithAgent(s, a, agent).(lamports := s.lamports);
  }

  lemma CollateralMoveKeepsInv(s: State, a: AgentKey, total: u64, lamports: Lamports)
    requires Inv(s) && a in s.agents
    requires RentExempt(lamports, s.rentFloor)
    requires VaultsKept(s.lamports, lamports, {a}, {})
    requires s.agents[a].lockedCollateral <= total
    requires Balance(lamports, AgentVault(a)) - total
          == Balance(s.lamports, AgentVault(a)) - s.agents[a].totalCollateral
    ensures Inv(WithAgent(s, a, s.agents[a].(totalCollateral := total)).(lamports := lamports))
  {
    assert AgentOk(s, a);
    var agent := s.agents[a].(totalCollateral := total);
    forall counter ensures Tally.Recorded(agent, counter) == Tally.Of(s.positions, a, counter) {
      assert Tally.Recorded(agent, counter) == Tally.Recorded(s.agents[a], counter);
    }
    forall k | k in s.positions && k.agent == a ensures !s.agents[a].status.Draft? {
      assert PositionOk(s, k);
    }
    AgentUpdateKeepsInv(s, a, agent, lamports);
  }

  lemma DepositKeepsInv(s: State, signer: Wallet, a: AgentKey, amount: u64)
    requires Inv(s)
    requires HandleDepositCollateral(s, signer, a, amount).Success?
    ensures Inv(HandleDepositCollateral(s, signer, a, amount).value)
  {
    assert AgentOk(s, a);
    var s' := HandleDepositCollateral(s, signer, a, amount).value;
    CollateralMoveKeepsInv(s, a, s'.agents[a].totalCollateral, s'.lamports);
  }

  lemma WithdrawKeepsInv(s: State, signer: Wallet, a: AgentKey, amount: u64)
    requires Inv(s)
    requires HandleWithdrawCollateral(s, signer, a, amount).Success?
    ensures Inv(HandleWithdrawCollateral(s, signer, a, amount).value)
  {
    assert AgentOk(s, a);
    var s' := HandleWithdrawCollateral(s, signer, a, amount).value;
    CollateralMoveKeepsInv(s, a, s'.agents[a].totalCollateral, s'.lamports);
  }

  // ---------- trader and trading-key instructions ----------
  //
  // Each is taken apart into the rewritten agent, position and lamports; then each part is checked on its own.

  lemma FromPositionVault(lamports: Lamports, k: PositionKey, wallet: Wallet, amount: nat, after: Lamports)
    requires Transfer(lamports, PositionVault(k), WalletOf(wallet), amount) == Success(after)
    ensures VaultsKept(lamports, after, {}, {k})
    ensures Balance(after, PositionVault(k)) == Balance(lamports, PositionVault(k)) - amount
  {
  }

  lemma FromAgentVault(lamports: Lamports, a: AgentKey, wallet: Wallet, amount: nat, after: Lamports)
    requires Transfer(lamports, AgentVault(a), WalletOf(wallet), amount) == Success(after)
    ensures VaultsKept(lamports, after, {a}, {})
    ensures Balance(after, AgentVault(a)) == Balance(lamports, AgentVault(a)) - amount
  {
  }

  lemma FromWallet(lamports: Lamports, wallet: Wallet, to: Account, amount: nat, after: Lamports)
    requires Transfer(lamports, WalletOf(wallet), to, amount) == Success(after)
    ensures VaultsKept(lamports, after, {}, {})
    ensures !to.WalletOf? ==> Balance(after, to) == Balance(lamports, to) + amount
  {
  }

  lemma KeptAcross(a: Lamports, b: Lamports, c: Lamports, agents: set<AgentKey>, positions: set<PositionKey>)
    requires VaultsKept(a, b, agents, positions) && VaultsKept(b, c, agents, positions)
    ensures VaultsKept(a, c, agents, positions)
  {
  }

  // -- open

  function Opened(s: State, k: PositionKey, amount: u64, secs: i64, lock: u64): Position
    requires k.agent in s.agents && I64_MIN <= s.now + secs <= I64_MAX
  {
    var terms := s.agents[k.agent].terms;
    Position(k.trader, k.agent, amount, lock, terms.feeBps, terms.maxDrawdownBps, PositionStatus.Open, NoBreach,
             s.now, s.now + secs, 0, 0, 0, 0, 0)
  }

  lemma OpenTakesApart(s: State, trader: Wallet, a: AgentKey, nonce: u64, amount: u64, secs: i64)
    returns (agent: Agent, lamports: Lamports, lock: u64)
    requires HandleOpenPosition(s, trader, a, nonce, amount, secs).Success?
    ensures var k := PositionKey(a, trader, nonce);
      && a in s.agents && k !in s.positions
      && I64_MIN <= s.now + secs <= I64_MAX
      && s.agents[a].status.Active? && amount > 0
      && Settlement.RequiredCollateral(amount, s.agents[a].terms.collateralRatioBps) == Success(lock)
      && lock <= s.agents[a].FreeCollateral()
      && s.agents[a].lockedCollateral + lock == agent.lockedCollateral
      && s.agents[a].capitalManaged + amount == agent.capitalManaged
      && s.agents[a].openPositions + 1 == agent.openPositions
      && agent == s.agents[a].(lockedCollateral := agent.lockedCollateral, capitalManaged := agent.capitalManaged,
                               openPositions := agent.openPositions)
      && Transfer(s.lamports, WalletOf(trader), PositionVault(k), amount + s.rentFloor) == Success(lamports)
      && RentExempt(lamports, s.rentFloor)
      && HandleOpenPosition(s, trader, a, nonce, amount, secs).value
         == WithPosition(s, k, agent, Opened(s, k, amount, secs, lock), lamports)
  {
    var s' := HandleOpenPosition(s, trader, a, nonce, amount, secs).value;
    agent, lamports := s'.agents[a], s'.lamports;
    lock := s'.positions[PositionKey(a, trader, nonce)].lockedCollateral;
  }

  lemma OpenMoves(positions: map<PositionKey, Position>, agent: Agent, k: PositionKey, p: Position, agent': Agent)
    requires k !in positions
    requires p.status.Open? && Lifecycle(p)
    requires agent.lockedCollateral + p.lockedCollateral == agent'.lockedCollateral
    requires agent.capitalManaged + p.principal == agent'.capitalManaged
    requires agent.openPositions + 1 == agent'.openPositions
    requires agent' == agent.(lockedCollateral := agent'.lockedCollateral, capitalManaged := agent'.capitalManaged,
                              openPositions := agent'.openPositions)
    ensures Tally.MovesWith(positions, agent, k, p, agent')
  {
  }

  lemma OpenKeepsInv(s: State, k: PositionKey, agent: Agent, p: Position, lamports: Lamports)
    requires Inv(s) && k.agent in s.agents && k !in s.positions
    requires s.agents[k.agent].status.Active?
    requires p.trader == k.trader && p.agent == k.agent && p.principal > 0
    requires p.status.Open? && Lifecycle(p)
    requires p.feeBps == s.agents[k.agent].terms.feeBps && p.maxDrawdownBps == s.agents[k.agent].terms.maxDrawdownBps
    requires Settlement.RequiredCollateral(p.principal, s.agents[k.agent].terms.collateralRatioBps)
          == Success(p.lockedCollateral)
    requires p.lockedCollateral <= s.agents[k.agent].FreeCollateral()
    requires s.agents[k.agent].lockedCollateral + p.lockedCollateral == agent.lockedCollateral
    requires s.agents[k.agent].capitalManaged + p.principal == agent.capitalManaged
    requires s.agents[k.agent].openPositions + 1 == agent.openPositions
    requires agent == s.agents[k.agent].(lockedCollateral := agent.lockedCollateral,
                                         capitalManaged := agent.capitalManaged, openPositions := agent.openPositions)
    requires Transfer(s.lamports, WalletOf(k.trader), PositionVault(k), p.principal + s.rentFloor) == Success(lamports)
    requires RentExempt(lamports, s.rentFloor)
    ensures Inv(WithPosition(s, k, agent, p, lamports))
  {
    assert AgentOk(s, k.agent);
    FromWallet(s.lamports, k.trader, PositionVault(k), p.principal + s.rentFloor, lamports);
    assert Balance(lamports, AgentVault(k.agent)) >= Balance(s.lamports, AgentVault(k.agent));
    OpenMoves(s.positions, s.agents[k.agent], k, p, agent);
    PositionUpdateKeepsInv(s, k, agent, p, lamports);
  }

  // -- cancel

  lemma CancelTakesApart(s: State, trader: Wallet, k: PositionKey) returns (agent: Agent, lamports: Lamports)
    requires HandleCancelPosition(s, trader, k).Success?
    ensures k in s.positions && k.agent in s.agents && k.trader == trader
    ensures s.positions[k].status.Open?
    ensures Release(s.agents[k.agent], s.positions[k]) == Success(agent)
    ensures Transfer(s.lamports, PositionVault(k), WalletOf(trader), Balance(s.lamports, PositionVault(k)))
         == Success(lamports)
    ensures RentExempt(lamports, s.rentFloor)
    ensures HandleCancelPosition(s, trader, k).value == WithPosition(
      s, k, agent, s.positions[k].(status := Cancelled, returned := s.positions[k].principal, closedAt := s.now), lamports)
  {
    var s' := HandleCancelPosition(s, trader, k).value;
    agent, lamports := s'.agents[k.agent], s'.lamports;
  }

  lemma CancelMoves(positions: map<PositionKey, Position>, agent: Agent, k: PositionKey, now: i64, agent': Agent)
    requires k in positions && Lifecycle(positions[k]) && positions[k].status.Open?
    requires Release(agent, positions[k]) == Success(agent')
    ensures Tally.MovesWith(
      positions, agent, k,
      positions[k].(status := Cancelled, returned := positions[k].principal, closedAt := now), agent')
  {
  }

  lemma CancelKeepsInv(s: State, trader: Wallet, k: PositionKey, agent: Agent, lamports: Lamports)
    requires Inv(s) && k in s.positions && k.agent in s.agents
    requires s.positions[k].status.Open?
    requires Release(s.agents[k.agent], s.positions[k]) == Success(agent)
    requires Transfer(s.lamports, PositionVault(k), WalletOf(trader), Balance(s.lamports, PositionVault(k)))
          == Success(lamports)
    requires RentExempt(lamports, s.rentFloor)
    ensures Inv(WithPosition(
      s, k, agent, s.positions[k].(status := Cancelled, returned := s.positions[k].principal, closedAt := s.now), lamports))
  {
    assert AgentOk(s, k.agent) && PositionOk(s, k);
    FromPositionVault(s.lamports, k, trader, Balance(s.lamports, PositionVault(k)), lamports);
    CancelMoves(s.positions, s.agents[k.agent], k, s.now, agent);
    PositionUpdateKeepsInv(
      s, k, agent, s.positions[k].(status := Cancelled, returned := s.positions[k].principal, closedAt := s.now), lamports);
  }

  // -- draw

  lemma DrawTakesApart(s: State, executor: Wallet, k: PositionKey) returns (lamports: Lamports)
    requires HandleDrawFunds(s, executor, k).Success?
    ensures k in s.positions && k.agent in s.agents
    ensures s.positions[k].status.Open? && s.now < s.positions[k].deadline
    ensures s.agents[k.agent].CanExecute(executor)
    ensures Transfer(s.lamports, PositionVault(k), WalletOf(executor), s.positions[k].principal) == Success(lamports)
    ensures RentExempt(lamports, s.rentFloor)
    ensures HandleDrawFunds(s, executor, k).value
         == WithPosition(s, k, s.agents[k.agent], s.positions[k].(status := Trading, drawnAt := s.now), lamports)
  {
    lamports := HandleDrawFunds(s, executor, k).value.lamports;
  }

  lemma DrawMoves(positions: map<PositionKey, Position>, agent: Agent, k: PositionKey, now: i64)
    requires k in positions && Lifecycle(positions[k]) && positions[k].status.Open?
    ensures Tally.MovesWith(positions, agent, k, positions[k].(status := Trading, drawnAt := now), agent)
  {
  }

  lemma DrawKeepsInv(s: State, executor: Wallet, k: PositionKey, lamports: Lamports)
    requires Inv(s) && k in s.positions && k.agent in s.agents
    requires s.positions[k].status.Open? && s.now < s.positions[k].deadline
    requires Transfer(s.lamports, PositionVault(k), WalletOf(executor), s.positions[k].principal) == Success(lamports)
    requires RentExempt(lamports, s.rentFloor)
    ensures Inv(WithPosition(s, k, s.agents[k.agent], s.positions[k].(status := Trading, drawnAt := s.now), lamports))
  {
    assert AgentOk(s, k.agent) && PositionOk(s, k);
    FromPositionVault(s.lamports, k, executor, s.positions[k].principal, lamports);
    DrawMoves(s.positions, s.agents[k.agent], k, s.now);
    PositionUpdateKeepsInv(s, k, s.agents[k.agent], s.positions[k].(status := Trading, drawnAt := s.now), lamports);
  }

  // -- settle

  // How a settle's amounts hang together: what moved, in order, and the books it leaves.
  datatype SettleParts = SettleParts(
    effective: u64, split: Settlement.Settled, fee: u64, breach: Breach,
    funded: Lamports, charged: Lamports, bonded: Lamports, lamports: Lamports,
    agent: Agent, position: Position)

  ghost predicate SettleAmounts(s: State, executor: Wallet, k: PositionKey, returned: u64, c: SettleParts)
    requires k in s.positions && k.agent in s.agents
  {
    var p := s.positions[k];
    && c.effective == (if p.status.Open? then p.principal else returned)
    && Settlement.ComputeSettlement(p.principal, c.effective, p.feeBps, p.maxDrawdownBps, p.lockedCollateral)
       == Success(c.split)
    && c.fee == PaidFee(c.funded, s.rentFloor, s.agents[k.agent].operator, p.trader, c.split.fee)
    && Transfer(s.lamports, WalletOf(executor), PositionVault(k), if p.status.Open? then 0 else returned)
       == Success(c.funded)
    && Transfer(c.funded, PositionVault(k), WalletOf(s.agents[k.agent].operator), c.fee) == Success(c.charged)
    && Transfer(c.charged, AgentVault(k.agent), WalletOf(p.trader), c.split.slash) == Success(c.bonded)
    && Transfer(c.bonded, PositionVault(k), WalletOf(p.trader), Balance(c.bonded, PositionVault(k)))
       == Success(c.lamports)
  }

  ghost predicate SettleFlows(s: State, executor: Wallet, k: PositionKey, returned: u64, c: SettleParts)
    requires k in s.positions && k.agent in s.agents
  {
    SettleAmounts(s, executor, k, returned, c) && RentExempt(c.lamports, s.rentFloor)
  }

  predicate SettleBooks(agent: Agent, p: Position, now: i64, c: SettleParts) {
    && c.breach == (if !p.status.Open? && now >= p.deadline then MissedDeadline
                    else if c.split.slash > 0 then Drawdown else NoBreach)
    && c.position == p.(status := Settled, breach := c.breach, returned := c.effective, slashed := c.split.slash,
                        feePaid := c.fee, closedAt := now)
    && agent.totalCollateral - c.split.slash == c.agent.totalCollateral
    && agent.slashedTotal + c.split.slash == c.agent.slashedTotal
    && agent.lockedCollateral - p.lockedCollateral == c.agent.lockedCollateral
    && agent.capitalManaged - p.principal == c.agent.capitalManaged
    && agent.openPositions - 1 == c.agent.openPositions
    && agent.feesEarned + c.fee == c.agent.feesEarned
    && agent.settledPositions + (if p.status.Open? then 0 else 1) == c.agent.settledPositions
    && agent.breachCount + (if c.breach.NoBreach? then 0 else 1) == c.agent.breachCount
    && c.agent == agent.(totalCollateral := c.agent.totalCollateral, slashedTotal := c.agent.slashedTotal,
                         lockedCollateral := c.agent.lockedCollateral, capitalManaged := c.agent.capitalManaged,
                         openPositions := c.agent.openPositions, feesEarned := c.agent.feesEarned,
                         settledPositions := c.agent.settledPositions, breachCount := c.agent.breachCount)
  }

  lemma SettleTakesApart(s: State, executor: Wallet, k: PositionKey, returned: u64) returns (c: SettleParts)
    requires HandleSettlePosition(s, executor, k, returned).Success?
    ensures k in s.positions && k.agent in s.agents && s.positions[k].Live()
    ensures s.agents[k.agent].CanExecute(executor)
    ensures SettleFlows(s, executor, k, returned, c)
    ensures SettleBooks(s.agents[k.agent], s.positions[k], s.now, c)
    ensures HandleSettlePosition(s, executor, k, returned).value == WithPosition(s, k, c.agent, c.position, c.lamports)
  {
    var s' := HandleSettlePosition(s, executor, k, returned).value;
    var p := s.positions[k];
    var position := s'.positions[k];
    var funded := Transfer(
      s.lamports, WalletOf(executor), PositionVault(k), if p.status.Open? then 0 else returned).value;
    var split := Settlement.ComputeSettlement(
      p.principal, position.returned, p.feeBps, p.maxDrawdownBps, p.lockedCollateral).value;
    var charged := Transfer(funded, PositionVault(k), WalletOf(s.agents[k.agent].operator), position.feePaid).value;
    var bonded := Transfer(charged, AgentVault(k.agent), WalletOf(p.trader), split.slash).value;
    c := SettleParts(position.returned, split, position.feePaid, position.breach, funded, charged, bonded,
                     s'.lamports, s'.agents[k.agent], position);
  }

  lemma SettleMoves(positions: map<PositionKey, Position>, agent: Agent, k: PositionKey, now: i64, c: SettleParts)
    requires k in positions && Lifecycle(positions[k]) && positions[k].Live()
    requires SettleBooks(agent, positions[k], now, c)
    ensures Tally.MovesWith(positions, agent, k, c.position, c.agent)
  {
  }

  lemma SettleVaults(s: State, executor: Wallet, k: PositionKey, returned: u64, c: SettleParts)
    requires k in s.positions && k.agent in s.agents
    requires SettleFlows(s, executor, k, returned, c)
    ensures VaultsKept(s.lamports, c.lamports, {k.agent}, {k})
    ensures Balance(c.lamports, AgentVault(k.agent)) == Balance(s.lamports, AgentVault(k.agent)) - c.split.slash
    ensures Balance(c.lamports, PositionVault(k)) == 0
  {
    var p := s.positions[k];
    FromWallet(s.lamports, executor, PositionVault(k), if p.status.Open? then 0 else returned, c.funded);
    FromPositionVault(c.funded, k, s.agents[k.agent].operator, c.fee, c.charged);
    FromAgentVault(c.charged, k.agent, p.trader, c.split.slash, c.bonded);
    FromPositionVault(c.bonded, k, p.trader, Balance(c.bonded, PositionVault(k)), c.lamports);
    KeptAcross(s.lamports, c.funded, c.charged, {k.agent}, {k});
    KeptAcross(s.lamports, c.charged, c.bonded, {k.agent}, {k});
    KeptAcross(s.lamports, c.bonded, c.lamports, {k.agent}, {k});
    TransferMoves(s.lamports, WalletOf(executor), PositionVault(k), if p.status.Open? then 0 else returned,
                  AgentVault(k.agent));
    TransferMoves(c.funded, PositionVault(k), WalletOf(s.agents[k.agent].operator), c.fee, AgentVault(k.agent));
    TransferMoves(c.bonded, PositionVault(k), WalletOf(p.trader), Balance(c.bonded, PositionVault(k)),
                  AgentVault(k.agent));
  }

  // A settled position is sound, whatever was returned and however late.
  lemma SettledIsSound(
    k: PositionKey, p: Position, terms: Settlement.AgentTerms, rentFloor: u64, vault: nat, agent: Agent, now: i64,
    c: SettleParts)
    requires Settlement.Valid(terms)
    requires p.Live() && Sound(k, p, terms, rentFloor, vault)
    requires now > 0
    requires p.status.Open? ==> c.effective == p.principal
    requires Settlement.ComputeSettlement(p.principal, c.effective, p.feeBps, p.maxDrawdownBps, p.lockedCollateral)
          == Success(c.split)
    requires c.fee <= c.split.fee
    requires SettleBooks(agent, p, now, c)
    ensures Sound(k, c.position, terms, rentFloor, 0)
  {
    Settlement.SettlementNeverOverflows(p.principal, c.effective, p.feeBps, p.maxDrawdownBps, p.lockedCollateral);
    Settlement.PayoutCoversLock(
      p.principal, c.effective, p.feeBps, p.maxDrawdownBps, terms.collateralRatioBps, p.lockedCollateral);
  }

  lemma SettleKeepsInv(s: State, executor: Wallet, k: PositionKey, returned: u64, c: SettleParts)
    requires Inv(s) && k in s.positions && k.agent in s.agents && s.positions[k].Live()
    requires SettleFlows(s, executor, k, returned, c)
    requires SettleBooks(s.agents[k.agent], s.positions[k], s.now, c)
    ensures Inv(WithPosition(s, k, c.agent, c.position, c.lamports))
  {
    assert AgentOk(s, k.agent) && PositionOk(s, k);
    var terms := s.agents[k.agent].terms;
    SettleVaults(s, executor, k, returned, c);
    SettleMoves(s.positions, s.agents[k.agent], k, s.now, c);
    SettledIsSound(k, s.positions[k], terms, s.rentFloor, Balance(s.lamports, PositionVault(k)), s.agents[k.agent],
                   s.now, c);
    LockWithin(s, k, c.split.slash);
    PositionUpdateKeepsInv(s, k, c.agent, c.position, c.lamports);
  }

  // Releasing one position's lock and slashing no more than it leaves the rest of the locks covered.
  lemma LockWithin(s: State, k: PositionKey, slash: u64)
    requires k in s.positions && k.agent in s.agents && s.positions[k].Live() && s.positions[k].agent == k.agent
    requires AgentOk(s, k.agent)
    requires slash <= s.positions[k].lockedCollateral
    ensures s.positions[k].lockedCollateral <= s.agents[k.agent].lockedCollateral
    ensures s.positions[k].principal <= s.agents[k.agent].capitalManaged
    ensures s.agents[k.agent].openPositions >= 1
    ensures s.agents[k.agent].lockedCollateral - s.positions[k].lockedCollateral
         <= s.agents[k.agent].totalCollateral - slash
  {
    Tally.CoversEach(s.positions, k.agent, s.agents[k.agent], k, Tally.Locked);
    Tally.CoversEach(s.positions, k.agent, s.agents[k.agent], k, Tally.Capital);
    Tally.CoversEach(s.positions, k.agent, s.agents[k.agent], k, Tally.OpenCount);
  }

  // -- claim

  datatype ClaimParts = ClaimParts(bonded: Lamports, lamports: Lamports, agent: Agent, position: Position)

  ghost predicate ClaimFlows(s: State, k: PositionKey, c: ClaimParts)
    requires k in s.positions && k.agent in s.agents
  {
    && Transfer(s.lamports, AgentVault(k.agent), WalletOf(k.trader), s.positions[k].lockedCollateral) == Success(c.bonded)
    && Transfer(c.bonded, PositionVault(k), WalletOf(k.trader), Balance(c.bonded, PositionVault(k)))
       == Success(c.lamports)
    && RentExempt(c.lamports, s.rentFloor)
  }

  predicate ClaimBooks(agent: Agent, p: Position, now: i64, c: ClaimParts) {
    && c.position == p.(status := Defaulted, breach := MissedDeadline, slashed := p.lockedCollateral, closedAt := now)
    && agent.totalCollateral - p.lockedCollateral == c.agent.totalCollateral
    && agent.slashedTotal + p.lockedCollateral == c.agent.slashedTotal
    && agent.lockedCollateral - p.lockedCollateral == c.agent.lockedCollateral
    && agent.capitalManaged - p.principal == c.agent.capitalManaged
    && agent.openPositions - 1 == c.agent.openPositions
    && agent.defaultedPositions + 1 == c.agent.defaultedPositions
    && agent.breachCount + 1 == c.agent.breachCount
    && c.agent == agent.(totalCollateral := c.agent.totalCollateral, slashedTotal := c.agent.slashedTotal,
                         lockedCollateral := c.agent.lockedCollateral, capitalManaged := c.agent.capitalManaged,
                         openPositions := c.agent.openPositions, defaultedPositions := c.agent.defaultedPositions,
                         breachCount := c.agent.breachCount)
  }

  lemma ClaimTakesApart(s: State, trader: Wallet, k: PositionKey) returns (c: ClaimParts)
    requires HandleClaimDefault(s, trader, k).Success?
    ensures k in s.positions && k.agent in s.agents && k.trader == trader
    ensures s.positions[k].status.Trading? && s.now >= s.positions[k].deadline
    ensures ClaimFlows(s, k, c)
    ensures ClaimBooks(s.agents[k.agent], s.positions[k], s.now, c)
    ensures HandleClaimDefault(s, trader, k).value == WithPosition(s, k, c.agent, c.position, c.lamports)
  {
    var s' := HandleClaimDefault(s, trader, k).value;
    var bonded := Transfer(s.lamports, AgentVault(k.agent), WalletOf(trader), s.positions[k].lockedCollateral).value;
    c := ClaimParts(bonded, s'.lamports, s'.agents[k.agent], s'.positions[k]);
  }

  lemma ClaimMoves(positions: map<PositionKey, Position>, agent: Agent, k: PositionKey, now: i64, c: ClaimParts)
    requires k in positions && Lifecycle(positions[k]) && positions[k].status.Trading?
    requires ClaimBooks(agent, positions[k], now, c)
    ensures Tally.MovesWith(positions, agent, k, c.position, c.agent)
  {
  }

  lemma ClaimVaults(s: State, k: PositionKey, c: ClaimParts)
    requires k in s.positions && k.agent in s.agents
    requires ClaimFlows(s, k, c)
    ensures VaultsKept(s.lamports, c.lamports, {k.agent}, {k})
    ensures Balance(c.lamports, AgentVault(k.agent))
         == Balance(s.lamports, AgentVault(k.agent)) - s.positions[k].lockedCollateral
    ensures Balance(c.lamports, PositionVault(k)) == 0
  {
  }

  lemma ClaimKeepsInv(s: State, k: PositionKey, c: ClaimParts)
    requires Inv(s) && k in s.positions && k.agent in s.agents
    requires s.positions[k].status.Trading? && s.now >= s.positions[k].deadline
    requires ClaimFlows(s, k, c)
    requires ClaimBooks(s.agents[k.agent], s.positions[k], s.now, c)
    ensures Inv(WithPosition(s, k, c.agent, c.position, c.lamports))
  {
    assert AgentOk(s, k.agent) && PositionOk(s, k);
    ClaimVaults(s, k, c);
    ClaimMoves(s.positions, s.agents[k.agent], k, s.now, c);
    LockWithin(s, k, s.positions[k].lockedCollateral);
    PositionUpdateKeepsInv(s, k, c.agent, c.position, c.lamports);
  }

  // ---------- every step, every run ----------

  lemma ClockKeepsInv(s: State, secs: nat)
    requires Inv(s) && s.now + secs <= I64_MAX
    ensures Inv(s.(now := s.now + secs))
  {
  }

  lemma DonationKeepsInv(s: State, from: Wallet, to: Account, amount: u64, lamports: Lamports)
    requires Inv(s)
    requires Transfer(s.lamports, WalletOf(from), to, amount) == Success(lamports)
    requires RentExempt(lamports, s.rentFloor)
    ensures Inv(s.(lamports := lamports))
  {
    var s' := s.(lamports := lamports);
    FromWallet(s.lamports, from, to, amount, lamports);
    forall a | a in s'.agents ensures AgentOk(s', a) {
      assert AgentOk(s, a);
      assert Balance(lamports, AgentVault(a)) >= Balance(s.lamports, AgentVault(a));
    }
    forall k | k in s'.positions ensures PositionOk(s', k) {
      assert PositionOk(s, k);
      assert Balance(lamports, PositionVault(k)) >= Balance(s.lamports, PositionVault(k));
    }
  }

  lemma OperatorStepKeepsInv(s: State, i: Instruction)
    requires Inv(s)
    requires i.CreateAgent? || i.UpdateAgent? || i.PublishAgent? || i.SetExecutor? || i.SetAccepting?
          || i.DepositCollateral? || i.WithdrawCollateral?
    requires Step(s, i).Success?
    ensures Inv(Step(s, i).value)
  {
    hide HandleCreateAgent, HandleDepositCollateral, HandleWithdrawCollateral;
    var s' := Step(s, i).value;
    match i
    case CreateAgent(operator, id, terms) => CreateKeepsInv(s, operator, id, terms);
    case UpdateAgent(_, a, terms) => AgentOnlyKeepsInv(s, a, s'.agents[a]);
    case PublishAgent(_, a) => AgentOnlyKeepsInv(s, a, s'.agents[a]);
    case SetExecutor(_, a, _) => assert AgentOk(s, a); AgentOnlyKeepsInv(s, a, s'.agents[a]);
    case SetAccepting(_, a, _) => assert AgentOk(s, a); AgentOnlyKeepsInv(s, a, s'.agents[a]);
    case DepositCollateral(signer, a, amount) => DepositKeepsInv(s, signer, a, amount);
    case WithdrawCollateral(signer, a, amount) => WithdrawKeepsInv(s, signer, a, amount);
  }

  lemma PositionStepKeepsInv(s: State, i: Instruction)
    requires Inv(s)
    requires i.OpenPosition? || i.CancelPosition? || i.DrawFunds? || i.SettlePosition? || i.ClaimDefault?
          || i.AdvanceClock? || i.Donate?
    requires Step(s, i).Success?
    ensures Inv(Step(s, i).value)
  {
    hide Inv, HandleOpenPosition, HandleCancelPosition, HandleDrawFunds, HandleSettlePosition, HandleClaimDefault;
    match i
    case OpenPosition(trader, a, nonce, amount, secs) =>
      var agent, lamports, lock := OpenTakesApart(s, trader, a, nonce, amount, secs);
      var k := PositionKey(a, trader, nonce);
      OpenKeepsInv(s, k, agent, Opened(s, k, amount, secs, lock), lamports);
    case CancelPosition(trader, k) =>
      var agent, lamports := CancelTakesApart(s, trader, k);
      CancelKeepsInv(s, trader, k, agent, lamports);
    case DrawFunds(executor, k) =>
      var lamports := DrawTakesApart(s, executor, k);
      DrawKeepsInv(s, executor, k, lamports);
    case SettlePosition(executor, k, returned) =>
      var c := SettleTakesApart(s, executor, k, returned);
      SettleKeepsInv(s, executor, k, returned, c);
    case ClaimDefault(trader, k) =>
      var c := ClaimTakesApart(s, trader, k);
      ClaimKeepsInv(s, k, c);
    case AdvanceClock(secs) => ClockKeepsInv(s, secs);
    case Donate(from, to, amount) => DonationKeepsInv(s, from, to, amount, Step(s, i).value.lamports);
  }

  // Every instruction anyone can send, successful or not, keeps the ledger sound.
  lemma StepKeepsInv(s: State, i: Instruction)
    requires Inv(s)
    ensures Inv(After(s, i))
  {
    hide Inv;
    if Step(s, i).Success? {
      if i.CreateAgent? || i.UpdateAgent? || i.PublishAgent? || i.SetExecutor? || i.SetAccepting?
        || i.DepositCollateral? || i.WithdrawCollateral? {
        OperatorStepKeepsInv(s, i);
      } else {
        PositionStepKeepsInv(s, i);
      }
    }
  }

  lemma {:induction false} RunKeepsInv(s: State, run: seq<Instruction>)
    requires Inv(s)
    ensures Inv(Run(s, run))
  {
    hide Inv;
    if run != [] {
      RunKeepsInv(s, run[..|run| - 1]);
      StepKeepsInv(Run(s, run[..|run| - 1]), run[|run| - 1]);
    }
  }

  // A ledger some interleaving of instructions can bring about.
  ghost predicate Reachable(s: State) {
    exists start, run :: Genesis(start) && s == Run(start, run)
  }

  // In every reachable ledger: counters equal their sums, locks are covered, vaults hold what they owe.
  lemma ReachableSatisfiesInv(s: State)
    requires Reachable(s)
    ensures Inv(s)
  {
    var start, run :| Genesis(start) && s == Run(start, run);
    GenesisSatisfiesInv(start);
    RunKeepsInv(start, run);
  }
}
