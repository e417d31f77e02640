// Who may do what: exactly when each instruction succeeds and what it then changes, in the ledger's own fields.
module LedgerAdmission {
  import opened Numbers
  import opened Accounts
  import opened Ledger
  import opened LedgerInvariant
  import opened LedgerLiveness
  import LedgerOutcomes
  import Settlement

  // ---------- the operator's instructions ----------

  // Terms anyone may publish: a bond of 10% to all of the principal, a fee of at most half of it, a drawdown of at most
  // half the principal that leaves room for the bond, and a window between a minute and 90 days.
  predicate Acceptable(t: Settlement.AgentTerms) {
    && 1_000 <= t.collateralRatioBps <= 10_000
    && 2 * t.feeBps <= t.collateralRatioBps
    && t.maxDrawdownBps <= 5_000 && t.collateralRatioBps + t.maxDrawdownBps <= 10_000
    && 60 <= t.minDurationSecs <= t.maxDurationSecs <= 7_776_000
  }

  lemma ValidExactly(t: Settlement.AgentTerms)
    ensures Settlement.Validate(t).Success? <==> Acceptable(t)
  {
  }

  lemma CreateSucceedsExactly(s: State, operator: Wallet, id: u64, terms: Settlement.AgentTerms)
    requires Inv(s)
    ensures
      var a := AgentKey(operator, id);
      var rest := Balance(s.lamports, WalletOf(operator)) - s.rentFloor;
      Step(s, CreateAgent(operator, id, terms)).Success? <==>
        a !in s.agents && Acceptable(terms) && (rest == 0 || rest >= s.rentFloor)
    ensures Step(s, CreateAgent(operator, id, terms)).Success? ==>
      var a := AgentKey(operator, id);
      var t := Step(s, CreateAgent(operator, id, terms)).value;
      && t == s.(agents := s.agents[a := t.agents[a]], lamports := t.lamports)
      && var agent := t.agents[a];
         && agent.operator == agent.executor == operator && agent.status == Draft && agent.terms == terms
         && agent.createdAt == s.now && agent.publishedAt == 0
         && agent.totalCollateral == agent.lockedCollateral == agent.capitalManaged == 0
         && agent.openPositions == agent.settledPositions == agent.defaultedPositions == agent.breachCount == 0
         && agent.slashedTotal == agent.feesEarned == 0
  {
    ValidExactly(terms);
    var a := AgentKey(operator, id);
    if Balance(s.lamports, WalletOf(operator)) >= s.rentFloor {
      PayingIn(s, WalletOf(operator), AgentVault(a), s.rentFloor);
    }
  }

  // A payment into an account that is empty or rent-exempt, of at least the rent floor or into one that has it.
  lemma PayingIn(s: State, from: Account, to: Account, amount: nat)
    requires Inv(s) && Balance(s.lamports, from) >= amount && from != to
    requires amount >= s.rentFloor || Balance(s.lamports, to) >= s.rentFloor
    ensures Transfer(s.lamports, from, to, amount).Success?
    ensures
      var rest := Balance(s.lamports, from) - amount;
      RentExempt(Transfer(s.lamports, from, to, amount).value, s.rentFloor) <==> rest == 0 || rest >= s.rentFloor
  {
    var after := Transfer(s.lamports, from, to, amount).value;
    TransferMoves(s.lamports, from, to, amount, from);
    TransferMoves(s.lamports, from, to, amount, to);
    RentAfterTransfer(s.lamports, s.rentFloor, from, to, amount, after);
  }

  lemma TransferMovesAll(lamports: Lamports, from: Account, to: Account, amount: nat)
    requires Transfer(lamports, from, to, amount).Success?
    ensures
      var after := Transfer(lamports, from, to, amount).value;
      forall x ::
        Balance(after, x) == Balance(lamports, x) - (if x == from then amount else 0) + (if x == to then amount else 0)
  {
    var after := Transfer(lamports, from, to, amount).value;
    forall x
      ensures
        Balance(after, x) == Balance(lamports, x) - (if x == from then amount else 0) + (if x == to then amount else 0)
    {
      TransferMoves(lamports, from, to, amount, x);
    }
  }

  // Settings: the operator alone, with the terms of a draft only.
  lemma SettingsSucceedExactly(s: State, signer: Wallet, a: AgentKey, terms: Settlement.AgentTerms, executor: Wallet,
                               accepting: bool)
    requires Inv(s)
    ensures Step(s, UpdateAgent(signer, a, terms)).Success? <==>
      a in s.agents && signer == s.agents[a].operator && s.agents[a].status == Draft && Acceptable(terms)
    ensures Step(s, UpdateAgent(signer, a, terms)).Success? ==>
      Step(s, UpdateAgent(signer, a, terms)).value == s.(agents := s.agents[a := s.agents[a].(terms := terms)])
    ensures Step(s, PublishAgent(signer, a)).Success? <==>
      a in s.agents && signer == s.agents[a].operator && s.agents[a].status == Draft && s.agents[a].totalCollateral > 0
    ensures Step(s, PublishAgent(signer, a)).Success? ==>
      Step(s, PublishAgent(signer, a)).value ==
        s.(agents := s.agents[a := s.agents[a].(status := Active, publishedAt := s.now)])
    ensures Step(s, SetExecutor(signer, a, executor)).Success? <==> a in s.agents && signer == s.agents[a].operator
    ensures Step(s, SetExecutor(signer, a, executor)).Success? ==>
      Step(s, SetExecutor(signer, a, executor)).value ==
        s.(agents := s.agents[a := s.agents[a].(executor := executor)])
    ensures Step(s, SetAccepting(signer, a, accepting)).Success? <==>
      a in s.agents && signer == s.agents[a].operator && s.agents[a].status != Draft
    ensures Step(s, SetAccepting(signer, a, accepting)).Success? ==>
      Step(s, SetAccepting(signer, a, accepting)).value ==
        s.(agents := s.agents[a := s.agents[a].(status := if accepting then Active else Paused)])
  {
    ValidExactly(terms);
    assert a in s.agents ==> AgentOk(s, a);
  }

  // What changes when lamports move between a wallet and an agent's vault.
  ghost predicate Moves(s: State, t: State, a: AgentKey, w: Wallet, amount: int) {
    && a in s.agents && a in t.agents
    && t.agents == s.agents[a := s.agents[a].(totalCollateral := t.agents[a].totalCollateral)]
    && t == s.(agents := t.agents, lamports := t.lamports)
    && t.agents[a].totalCollateral == s.agents[a].totalCollateral + amount
    && forall x :: Balance(t.lamports, x) ==
         Balance(s.lamports, x) + (if x == AgentVault(a) then amount else 0) - (if x == WalletOf(w) then amount else 0)
  }

  lemma DepositSucceedsExactly(s: State, signer: Wallet, a: AgentKey, amount: u64)
    requires Inv(s)
    ensures
      var rest := Balance(s.lamports, WalletOf(signer)) - amount;
      Step(s, DepositCollateral(signer, a, amount)).Success? <==>
        && a in s.agents && signer == s.agents[a].operator
        && amount > 0 && s.agents[a].totalCollateral + amount <= U64_MAX && (rest == 0 || rest >= s.rentFloor)
    ensures Step(s, DepositCollateral(signer, a, amount)).Success? ==>
      Moves(s, Step(s, DepositCollateral(signer, a, amount)).value, a, signer, amount)
  {
    assert a in s.agents ==> AgentOk(s, a);
    if a in s.agents && 0 < amount <= Balance(s.lamports, WalletOf(signer)) {
      PayingIn(s, WalletOf(signer), AgentVault(a), amount);
      TransferMovesAll(s.lamports, WalletOf(signer), AgentVault(a), amount);
    }
  }

  // A withdrawal: the operator's alone, of no more than is free, and into the operator's wallet.
  lemma WithdrawSucceedsExactly(s: State, signer: Wallet, a: AgentKey, amount: u64)
    requires Inv(s)
    ensures Step(s, WithdrawCollateral(signer, a, amount)).Success? <==>
      && a in s.agents && signer == s.agents[a].operator
      && 0 < amount <= s.agents[a].totalCollateral - s.agents[a].lockedCollateral
      && amount != UNNEGATABLE
      && Balance(s.lamports, WalletOf(signer)) + amount >= s.rentFloor
    ensures Step(s, WithdrawCollateral(signer, a, amount)).Success? ==>
      Moves(s, Step(s, WithdrawCollateral(signer, a, amount)).value, a, signer, -(amount as int))
  {
    assert a in s.agents ==> AgentOk(s, a);
    if a in s.agents && 0 < amount <= s.agents[a].totalCollateral - s.agents[a].lockedCollateral {
      var after := Transfer(s.lamports, AgentVault(a), WalletOf(signer), amount).value;
      TransferMovesAll(s.lamports, AgentVault(a), WalletOf(signer), amount);
      RentAfterTransfer(s.lamports, s.rentFloor, AgentVault(a), WalletOf(signer), amount, after);
    }
  }

  // ---------- positions ----------

  // An open succeeds exactly when the agent takes positions of that length, its free collateral backs one of that size,
  // and the trader can pay for it.
  lemma OpenSucceedsExactly(s: State, trader: Wallet, a: AgentKey, nonce: u64, amount: u64, secs: i64)
    requires Inv(s)
    ensures
      var rest := Balance(s.lamports, WalletOf(trader)) - amount - s.rentFloor;
      Step(s, OpenPosition(trader, a, nonce, amount, secs)).Success? <==>
        && a in s.agents && PositionKey(a, trader, nonce) !in s.positions
        && var agent := s.agents[a];
           && agent.status == Active && amount > 0
           && agent.terms.minDurationSecs <= secs <= agent.terms.maxDurationSecs
           && amount <= (agent.totalCollateral - agent.lockedCollateral) * 10_000 / agent.terms.collateralRatioBps
           && agent.capitalManaged + amount <= U64_MAX && agent.openPositions < U32_MAX
           && amount + s.rentFloor <= U64_MAX && s.now + secs <= I64_MAX
           && (rest == 0 || rest >= s.rentFloor)
  {
    if a in s.agents {
      assert AgentOk(s, a);
      var agent := s.agents[a];
      ValidExactly(agent.terms);
      Settlement.CapacityIsLargestPrincipal(agent.FreeCollateral(), amount, agent.terms.collateralRatioBps);
      if Balance(s.lamports, WalletOf(trader)) >= amount + s.rentFloor {
        PayingIn(s, WalletOf(trader), PositionVault(PositionKey(a, trader, nonce)), amount + s.rentFloor);
      }
    }
  }

  // What it opens: a position of the agent's terms as they are now, its bond the least whole number of lamports that
  // covers the ratio, paid for with its rent by the trader.
  lemma OpenOpens(s: State, trader: Wallet, a: AgentKey, nonce: u64, amount: u64, secs: i64)
    requires Inv(s) && Step(s, OpenPosition(trader, a, nonce, amount, secs)).Success?
    ensures a in s.agents
    ensures
      var t, k := Step(s, OpenPosition(trader, a, nonce, amount, secs)).value, PositionKey(a, trader, nonce);
      && k in t.positions && a in t.agents
      && var p, agent := t.positions[k], s.agents[a];
         && t == s.(agents := s.agents[a := t.agents[a]], positions := s.positions[k := p], lamports := t.lamports)
         && p.trader == trader && p.agent == a && p.principal == amount && p.status == PositionStatus.Open
         && p.feeBps == agent.terms.feeBps && p.maxDrawdownBps == agent.terms.maxDrawdownBps
         && p.openedAt == s.now && p.deadline == s.now + secs
         && amount * agent.terms.collateralRatioBps <= p.lockedCollateral * 10_000
         && p.lockedCollateral * 10_000 < amount * agent.terms.collateralRatioBps + 10_000
         && t.agents[a] == agent.(lockedCollateral := agent.lockedCollateral + p.lockedCollateral,
                                  capitalManaged := agent.capitalManaged + amount,
                                  openPositions := agent.openPositions + 1)
         && forall x :: Balance(t.lamports, x) == Balance(s.lamports, x)
              + (if x == PositionVault(k) then amount + s.rentFloor else 0)
              - (if x == WalletOf(trader) then amount + s.rentFloor else 0)
  {
    assert AgentOk(s, a);
    var agent, lamports, lock := OpenTakesApart(s, trader, a, nonce, amount, secs);
    ValidExactly(s.agents[a].terms);
    Settlement.LockIsCeiling(amount, s.agents[a].terms.collateralRatioBps);
    TransferMovesAll(s.lamports, WalletOf(trader), PositionVault(PositionKey(a, trader, nonce)), amount + s.rentFloor);
  }

  // A draw: the trading key or the operator, before the deadline, into a wallet that can exist with it.
  lemma DrawSucceedsExactly(s: State, executor: Wallet, k: PositionKey)
    requires Inv(s)
    ensures Step(s, DrawFunds(executor, k)).Success? <==>
      && k in s.positions && k.agent in s.agents
      && (executor == s.agents[k.agent].executor || executor == s.agents[k.agent].operator)
      && s.positions[k].status == PositionStatus.Open && s.now < s.positions[k].deadline
      && Balance(s.lamports, WalletOf(executor)) + s.positions[k].principal >= s.rentFloor
  {
    if k in s.positions && k.agent in s.agents && s.positions[k].status == PositionStatus.Open {
      assert PositionOk(s, k);
      DrawIsRentExempt(s, executor, k);
    }
    hide Inv, RentExempt;
  }

  lemma DrawIsRentExempt(s: State, executor: Wallet, k: PositionKey)
    requires Inv(s) && k in s.positions && s.positions[k].status == PositionStatus.Open
    ensures
      var p := s.positions[k];
      && Transfer(s.lamports, PositionVault(k), WalletOf(executor), p.principal).Success?
      && (RentExempt(Transfer(s.lamports, PositionVault(k), WalletOf(executor), p.principal).value, s.rentFloor) <==>
            Balance(s.lamports, WalletOf(executor)) + p.principal >= s.rentFloor)
  {
    assert PositionOk(s, k);
    var p := s.positions[k];
    var after := Transfer(s.lamports, PositionVault(k), WalletOf(executor), p.principal).value;
    TransferMovesAll(s.lamports, PositionVault(k), WalletOf(executor), p.principal);
    RentAfterTransfer(s.lamports, s.rentFloor, PositionVault(k), WalletOf(executor), p.principal, after);
  }

  lemma DrawDraws(s: State, executor: Wallet, k: PositionKey)
    requires Step(s, DrawFunds(executor, k)).Success?
    ensures k in s.positions
    ensures
      var t, principal := Step(s, DrawFunds(executor, k)).value, s.positions[k].principal;
      && t.positions == s.positions[k := s.positions[k].(status := Trading, drawnAt := s.now)]
      && t == s.(positions := t.positions, lamports := t.lamports)
      && forall x :: Balance(t.lamports, x) == Balance(s.lamports, x)
           + (if x == WalletOf(executor) then principal else 0) - (if x == PositionVault(k) then principal else 0)
  {
    var lamports := DrawTakesApart(s, executor, k);
    assert s.agents[k.agent := s.agents[k.agent]] == s.agents;
    TransferMovesAll(s.lamports, PositionVault(k), WalletOf(executor), s.positions[k].principal);
    hide HandleDrawFunds, Transfer, Balance;
  }

  // A cancel and a claim are the trader's own.
  lemma TraderSucceedsExactly(s: State, trader: Wallet, k: PositionKey)
    requires Inv(s)
    ensures Step(s, CancelPosition(trader, k)).Success? <==>
      k in s.positions && trader == k.trader && s.positions[k].status == PositionStatus.Open
    ensures Step(s, ClaimDefault(trader, k)).Success? <==>
      && k in s.positions && k.agent in s.agents && trader == k.trader
      && s.positions[k].status == Trading && s.now >= s.positions[k].deadline
      && s.agents[k.agent].defaultedPositions < U32_MAX && s.agents[k.agent].breachCount < U32_MAX
      && s.agents[k.agent].slashedTotal + s.positions[k].lockedCollateral <= U64_MAX
  {
    if k in s.positions {
      CancelAlwaysSucceeds(s, k);
      ClaimAlwaysSucceeds(s, k);
    }
    hide Inv;
  }

  // ---------- nothing happens to anyone without their signature ----------

  function Signer(i: Instruction): Option<Wallet> {
    match i
    case CreateAgent(operator, _, _) => Some(operator)
    case UpdateAgent(signer, _, _) => Some(signer)
    case PublishAgent(signer, _) => Some(signer)
    case SetExecutor(signer, _, _) => Some(signer)
    case SetAccepting(signer, _, _) => Some(signer)
    case DepositCollateral(signer, _, _) => Some(signer)
    case WithdrawCollateral(signer, _, _) => Some(signer)
    case OpenPosition(trader, _, _, _, _) => Some(trader)
    case CancelPosition(trader, _) => Some(trader)
    case DrawFunds(executor, _) => Some(executor)
    case SettlePosition(executor, _, _) => Some(executor)
    case ClaimDefault(trader, _) => Some(trader)
    case AdvanceClock(_) => None
    case Donate(from, _, _) => Some(from)
  }

  // The settings of an agent, and its collateral but for what was slashed.
  predicate SettingsKept(before: Agent, after: Agent) {
    && after.operator == before.operator && after.executor == before.executor && after.status == before.status
    && after.terms == before.terms && after.createdAt == before.createdAt && after.publishedAt == before.publishedAt
    && after.totalCollateral as int + after.slashedTotal == before.totalCollateral as int + before.slashedTotal
  }

  // An agent's settings and collateral change by its operator's signature; a position is cancelled or claimed by its
  // trader's, and drawn or settled by that of its agent's trading key or operator.
  predicate MayTurn(s: State, signer: Option<Wallet>, k: PositionKey, after: Position)
    requires k.agent in s.agents
  {
    if after.status == Cancelled || after.status == Defaulted then signer == Some(k.trader)
    else signer == Some(s.agents[k.agent].executor) || signer == Some(s.agents[k.agent].operator)
  }

  ghost predicate AgentsRightful(s: State, i: Instruction, t: State) {
    forall a :: a in s.agents ==>
      a in t.agents && (SettingsKept(s.agents[a], t.agents[a]) || Signer(i) == Some(s.agents[a].operator))
  }

  ghost predicate PositionsRightful(s: State, i: Instruction, t: State) {
    forall k :: k in s.positions ==>
      && k in t.positions && k.agent in s.agents
      && (t.positions[k] == s.positions[k] || MayTurn(s, Signer(i), k, t.positions[k]))
  }

  // And no wallet pays for anything it did not sign.
  ghost predicate WalletsRightful(s: State, i: Instruction, t: State) {
    forall w: Wallet {:trigger WalletOf(w)} ::
      Balance(t.lamports, WalletOf(w)) >= Balance(s.lamports, WalletOf(w)) || Signer(i) == Some(w)
  }

  ghost predicate Rightful(s: State, i: Instruction, t: State) {
    AgentsRightful(s, i, t) && PositionsRightful(s, i, t) && WalletsRightful(s, i, t)
  }

  // One position is rewritten, with its agent.
  lemma RewriteIsRightful(s: State, i: Instruction, k: PositionKey, agent: Agent, p: Position, lamports: Lamports)
    requires Inv(s) && k.agent in s.agents && SettingsKept(s.agents[k.agent], agent)
    requires k in s.positions ==> MayTurn(s, Signer(i), k, p)
    requires WalletsRightful(s, i, WithPosition(s, k, agent, p, lamports))
    ensures Rightful(s, i, WithPosition(s, k, agent, p, lamports))
  {
    hide WalletsRightful, Signer;
    RewriteOfAgent(s, i, k.agent, agent, WithPosition(s, k, agent, p, lamports));
    RewriteOfPosition(s, i, k, p, WithPosition(s, k, agent, p, lamports));
  }

  lemma RewriteOfAgent(s: State, i: Instruction, a: AgentKey, agent: Agent, t: State)
    requires t.agents == s.agents[a := agent]
    requires a in s.agents ==> SettingsKept(s.agents[a], agent) || Signer(i) == Some(s.agents[a].operator)
    ensures AgentsRightful(s, i, t)
  {
    hide Signer;
  }

  lemma RewriteOfPosition(s: State, i: Instruction, k: PositionKey, p: Position, t: State)
    requires Inv(s) && t.positions == s.positions[k := p]
    requires k in s.positions ==> k.agent in s.agents && MayTurn(s, Signer(i), k, p)
    ensures PositionsRightful(s, i, t)
  {
    forall j | j in s.positions ensures j.agent in s.agents {
      assert PositionOk(s, j);
    }
    hide Inv, MayTurn, Signer;
  }

  lemma OpenIsRightful(s: State, trader: Wallet, a: AgentKey, nonce: u64, amount: u64, secs: i64)
    requires Inv(s) && HandleOpenPosition(s, trader, a, nonce, amount, secs).Success?
    ensures Rightful(s, OpenPosition(trader, a, nonce, amount, secs),
                     HandleOpenPosition(s, trader, a, nonce, amount, secs).value)
  {
    var agent, lamports, lock := OpenTakesApart(s, trader, a, nonce, amount, secs);
    var k := PositionKey(a, trader, nonce);
    TransferMovesAll(s.lamports, WalletOf(trader), PositionVault(k), amount + s.rentFloor);
    hide Inv, HandleOpenPosition, Transfer;
    RewriteIsRightful(s, OpenPosition(trader, a, nonce, amount, secs), k, agent, Opened(s, k, amount, secs, lock),
                      lamports);
  }

  lemma CancelIsRightful(s: State, trader: Wallet, k: PositionKey)
    requires Inv(s) && HandleCancelPosition(s, trader, k).Success?
    ensures Rightful(s, CancelPosition(trader, k), HandleCancelPosition(s, trader, k).value)
  {
    var agent, lamports := CancelTakesApart(s, trader, k);
    assert SettingsKept(s.agents[k.agent], agent);
    var p := s.positions[k].(status := Cancelled, returned := s.positions[k].principal, closedAt := s.now);
    hide Inv, HandleCancelPosition, Release, RentExempt;
    PaymentIsRightful(s, CancelPosition(trader, k), PositionVault(k), WalletOf(trader),
                      Balance(s.lamports, PositionVault(k)), WithPosition(s, k, agent, p, lamports));
    hide Transfer, Balance;
    RewriteIsRightful(s, CancelPosition(trader, k), k, agent, p, lamports);
  }

  lemma DrawIsRightful(s: State, executor: Wallet, k: PositionKey)
    requires Inv(s) && HandleDrawFunds(s, executor, k).Success?
    ensures Rightful(s, DrawFunds(executor, k), HandleDrawFunds(s, executor, k).value)
  {
    var lamports := DrawTakesApart(s, executor, k);
    TransferMovesAll(s.lamports, PositionVault(k), WalletOf(executor), s.positions[k].principal);
    hide Inv, HandleDrawFunds, Transfer;
    RewriteIsRightful(s, DrawFunds(executor, k), k, s.agents[k.agent],
                      s.positions[k].(status := Trading, drawnAt := s.now), lamports);
  }

  lemma SettleIsRightful(s: State, executor: Wallet, k: PositionKey, returned: u64)
    requires Inv(s) && HandleSettlePosition(s, executor, k, returned).Success?
    ensures Rightful(s, SettlePosition(executor, k, returned), HandleSettlePosition(s, executor, k, returned).value)
  {
    var c := SettleTakesApart(s, executor, k, returned);
    assert c.position.status == PositionStatus.Settled && SettingsKept(s.agents[k.agent], c.agent);
    assert SettleAmounts(s, executor, k, returned, c);
    hide HandleSettlePosition, SettleFlows, SettleBooks, SettleAmounts, Inv, Balance;
    forall w: Wallet | w != executor ensures Balance(c.lamports, WalletOf(w)) >= Balance(s.lamports, WalletOf(w)) {
      SettleTakesFromExecutor(s, executor, k, returned, c, w);
    }
    RewriteIsRightful(s, SettlePosition(executor, k, returned), k, c.agent, c.position, c.lamports);
  }

  // Of the four payments of a settle only the first comes out of a wallet.
  lemma SettleTakesFromExecutor(s: State, executor: Wallet, k: PositionKey, returned: u64, c: SettleParts, w: Wallet)
    requires k in s.positions && k.agent in s.agents && SettleAmounts(s, executor, k, returned, c) && w != executor
    ensures Balance(c.lamports, WalletOf(w)) >= Balance(s.lamports, WalletOf(w))
  {
    var p := s.positions[k];
    TransferMoves(
      s.lamports, WalletOf(executor), PositionVault(k), if p.status.Open? then 0 else returned, WalletOf(w));
    TransferMoves(c.funded, PositionVault(k), WalletOf(s.agents[k.agent].operator), c.fee, WalletOf(w));
    TransferMoves(c.charged, AgentVault(k.agent), WalletOf(p.trader), c.split.slash, WalletOf(w));
    TransferMoves(c.bonded, PositionVault(k), WalletOf(p.trader), Balance(c.bonded, PositionVault(k)), WalletOf(w));
    hide Balance, Transfer;
  }

  lemma ClaimIsRightful(s: State, trader: Wallet, k: PositionKey)
    requires Inv(s) && HandleClaimDefault(s, trader, k).Success?
    ensures Rightful(s, ClaimDefault(trader, k), HandleClaimDefault(s, trader, k).value)
  {
    var c := ClaimTakesApart(s, trader, k);
    assert c.position.status == Defaulted && SettingsKept(s.agents[k.agent], c.agent);
    forall w ensures Balance(c.lamports, WalletOf(w)) >= Balance(s.lamports, WalletOf(w)) {
      LedgerOutcomes.ClaimPays(s, k, c, w);
    }
    hide HandleClaimDefault, Inv, ClaimFlows, ClaimBooks, Balance;
    RewriteIsRightful(s, ClaimDefault(trader, k), k, c.agent, c.position, c.lamports);
  }

  lemma SamePositionsRightful(s: State, i: Instruction, t: State)
    requires Inv(s) && t.positions == s.positions
    ensures PositionsRightful(s, i, t)
  {
    forall j | j in s.positions ensures j.agent in s.agents {
      assert PositionOk(s, j);
    }
    hide Inv, MayTurn, Signer;
  }

  lemma PaymentIsRightful(s: State, i: Instruction, from: Account, to: Account, amount: nat, t: State)
    requires Transfer(s.lamports, from, to, amount) == Success(t.lamports)
    requires from.WalletOf? ==> Signer(i) == Some(from.wallet)
    ensures WalletsRightful(s, i, t)
  {
    TransferMovesAll(s.lamports, from, to, amount);
    hide Transfer, Signer;
  }

  lemma OperatorIsRightful(s: State, i: Instruction)
    requires Inv(s) && Step(s, i).Success?
    requires i.CreateAgent? || i.UpdateAgent? || i.PublishAgent? || i.SetExecutor? || i.SetAccepting?
      || i.DepositCollateral? || i.WithdrawCollateral? || i.AdvanceClock? || i.Donate?
    ensures Rightful(s, i, Step(s, i).value)
  {
    var t := Step(s, i).value;
    OperatorMovesNoPosition(s, i);
    SamePositionsRightful(s, i, t);
    OperatorAgents(s, i);
    OperatorWallets(s, i);
    hide Inv, AgentsRightful, PositionsRightful, WalletsRightful, Step;
  }

  lemma OperatorMovesNoPosition(s: State, i: Instruction)
    requires Step(s, i).Success?
    requires i.CreateAgent? || i.UpdateAgent? || i.PublishAgent? || i.SetExecutor? || i.SetAccepting?
      || i.DepositCollateral? || i.WithdrawCollateral? || i.AdvanceClock? || i.Donate?
    ensures Step(s, i).value.positions == s.positions
  {
    hide RentExempt, Settlement.Validate, Transfer;
  }

  lemma OperatorWallets(s: State, i: Instruction)
    requires Step(s, i).Success?
    requires i.CreateAgent? || i.UpdateAgent? || i.PublishAgent? || i.SetExecutor? || i.SetAccepting?
      || i.DepositCollateral? || i.WithdrawCollateral? || i.AdvanceClock? || i.Donate?
    ensures WalletsRightful(s, i, Step(s, i).value)
  {
    var t := Step(s, i).value;
    hide RentExempt, Settlement.Validate, Balance, Transfer;
    match i
    case CreateAgent(operator, id, _) =>
      PaymentIsRightful(s, i, WalletOf(operator), AgentVault(AgentKey(operator, id)), s.rentFloor, t);
    case DepositCollateral(signer, a, amount) => PaymentIsRightful(s, i, WalletOf(signer), AgentVault(a), amount, t);
    case WithdrawCollateral(signer, a, amount) => PaymentIsRightful(s, i, AgentVault(a), WalletOf(signer), amount, t);
    case Donate(from, to, amount) => PaymentIsRightful(s, i, WalletOf(from), to, amount, t);
    case _ =>
  }

  lemma OperatorAgents(s: State, i: Instruction)
    requires Step(s, i).Success?
    requires i.CreateAgent? || i.UpdateAgent? || i.PublishAgent? || i.SetExecutor? || i.SetAccepting?
      || i.DepositCollateral? || i.WithdrawCollateral? || i.AdvanceClock? || i.Donate?
    ensures AgentsRightful(s, i, Step(s, i).value)
  {
    var t := Step(s, i).value;
    hide AgentsRightful;
    match i
    case CreateAgent(operator, id, _) =>
      RewriteOfAgent(s, i, AgentKey(operator, id), t.agents[AgentKey(operator, id)], t);
    case AdvanceClock(_) => SameAgentsRightful(s, i, t);
    case Donate(_, _, _) => SameAgentsRightful(s, i, t);
    case UpdateAgent(_, a, _) => RewriteOfAgent(s, i, a, t.agents[a], t);
    case PublishAgent(_, a) => RewriteOfAgent(s, i, a, t.agents[a], t);
    case SetExecutor(_, a, _) => RewriteOfAgent(s, i, a, t.agents[a], t);
    case SetAccepting(_, a, _) => RewriteOfAgent(s, i, a, t.agents[a], t);
    case DepositCollateral(_, a, _) => RewriteOfAgent(s, i, a, t.agents[a], t);
    case WithdrawCollateral(_, a, _) => RewriteOfAgent(s, i, a, t.agents[a], t);
  }

  lemma SameAgentsRightful(s: State, i: Instruction, t: State)
    requires t.agents == s.agents
    ensures AgentsRightful(s, i, t)
  {
  }

  // Whatever happens to an agent, a position or a wallet happens by the signature of someone it concerns: an agent's
  // settings and collateral by its operator's, a position by its trader's or its agent's side's, and no wallet pays for
  // anything it did not sign.
  lemma NothingWithoutASignature(s: State, i: Instruction)
    requires Inv(s) && Step(s, i).Success?
    ensures Rightful(s, i, Step(s, i).value)
  {
    hide Inv, Rightful, HandleCreateAgent, HandleUpdateAgent, HandlePublishAgent, HandleSetAccepting, HandleSetExecutor,
      HandleDepositCollateral, HandleWithdrawCollateral, HandleOpenPosition, HandleCancelPosition, HandleDrawFunds,
      HandleSettlePosition, HandleClaimDefault;
    match i
    case OpenPosition(trader, a, nonce, amount, secs) => OpenIsRightful(s, trader, a, nonce, amount, secs);
    case CancelPosition(trader, k) => CancelIsRightful(s, trader, k);
    case DrawFunds(executor, k) => DrawIsRightful(s, executor, k);
    case SettlePosition(executor, k, returned) => SettleIsRightful(s, executor, k, returned);
    case ClaimDefault(trader, k) => ClaimIsRightful(s, trader, k);
    case _ => OperatorIsRightful(s, i);
  }

  // ---------- why an instruction is refused ----------

  // The agent an operator's instruction names, and who signed it.
  predicate ByOperator(i: Instruction, a: AgentKey, signer: Wallet) {
    match i
    case UpdateAgent(w, b, _) => b == a && w == signer
    case PublishAgent(w, b) => b == a && w == signer
    case SetExecutor(w, b, _) => b == a && w == signer
    case SetAccepting(w, b, _) => b == a && w == signer
    case DepositCollateral(w, b, _) => b == a && w == signer
    case WithdrawCollateral(w, b, _) => b == a && w == signer
    case _ => false
  }

  lemma OperatorRefusals(s: State, i: Instruction, a: AgentKey, signer: Wallet)
    requires ByOperator(i, a, signer)
    ensures Step(s, i) == Failure(AccountMissing) <==> a !in s.agents
    ensures Step(s, i) == Failure(UnauthorizedOperator) <==> a in s.agents && signer != s.agents[a].operator
    ensures a in s.agents && signer == s.agents[a].operator ==>
      var agent := s.agents[a];
      && (Step(s, i) == Failure(TermsLocked) <==> i.UpdateAgent? && agent.status != Draft)
      && (Step(s, i) == Failure(AlreadyPublished) <==> i.PublishAgent? && agent.status != Draft)
      && (Step(s, i) == Failure(NoCollateral) <==>
            i.PublishAgent? && agent.status == Draft && agent.totalCollateral == 0)
      && (Step(s, i) == Failure(NotPublished) <==> i.SetAccepting? && agent.status == Draft)
      && (Step(s, i) == Failure(ZeroAmount) <==> (i.DepositCollateral? || i.WithdrawCollateral?) && i.amount == 0)
      && (Step(s, i) == Failure(InsufficientFreeCollateral) <==>
            i.WithdrawCollateral? && i.amount > 0 && agent.lockedCollateral + i.amount > agent.totalCollateral)
  {
  }

  lemma OpenRefusals(s: State, trader: Wallet, a: AgentKey, nonce: u64, amount: u64, secs: i64)
    requires Inv(s)
    ensures
      var r := Step(s, OpenPosition(trader, a, nonce, amount, secs));
      && (r == Failure(AccountMissing) <==> a !in s.agents)
      && (r == Failure(AccountInUse) <==> a in s.agents && PositionKey(a, trader, nonce) in s.positions)
      && (a in s.agents && PositionKey(a, trader, nonce) !in s.positions ==>
            var agent := s.agents[a];
            var inWindow := agent.terms.minDurationSecs <= secs <= agent.terms.maxDurationSecs;
            && (r == Failure(ZeroAmount) <==> amount == 0)
            && (r == Failure(AgentNotAccepting) <==> amount > 0 && agent.status != Active)
            && (r == Failure(InvalidDuration) <==> amount > 0 && agent.status == Active && !inWindow)
            && (r == Failure(InsufficientFreeCollateral) <==>
                  && amount > 0 && agent.status == Active && inWindow
                  && amount * agent.terms.collateralRatioBps >
                       (agent.totalCollateral - agent.lockedCollateral) * 10_000))
  {
    if a in s.agents {
      assert AgentOk(s, a);
      var agent := s.agents[a];
      ValidExactly(agent.terms);
      Settlement.LockIsCeiling(amount, agent.terms.collateralRatioBps);
    }
    hide Inv;
  }

  lemma TraderRefusals(s: State, w: Wallet, k: PositionKey)
    requires k in s.positions && k.agent in s.agents
    ensures
      var p := s.positions[k];
      && (Step(s, CancelPosition(w, k)) == Failure(AccountMissing) <==> w != k.trader)
      && (Step(s, CancelPosition(w, k)) == Failure(InvalidStatus) <==> w == k.trader && p.status != PositionStatus.Open)
      && (Step(s, ClaimDefault(w, k)) == Failure(AccountMissing) <==> w != k.trader)
      && (Step(s, ClaimDefault(w, k)) == Failure(InvalidStatus) <==> w == k.trader && p.status != Trading)
      && (Step(s, ClaimDefault(w, k)) == Failure(DeadlineNotReached) <==>
            w == k.trader && p.status == Trading && s.now < p.deadline)
  {
  }

  lemma DrawRefusals(s: State, w: Wallet, k: PositionKey)
    requires k in s.positions && k.agent in s.agents
    ensures
      var p, r := s.positions[k], Step(s, DrawFunds(w, k));
      var mayTrade := w == s.agents[k.agent].executor || w == s.agents[k.agent].operator;
      && (r == Failure(UnauthorizedExecutor) <==> !mayTrade)
      && (r == Failure(InvalidStatus) <==> mayTrade && p.status != PositionStatus.Open)
      && (r == Failure(DeadlinePassed) <==> mayTrade && p.status == PositionStatus.Open && s.now >= p.deadline)
  {
  }

  lemma SettleRefusals(s: State, w: Wallet, k: PositionKey, returned: u64)
    requires k in s.positions && k.agent in s.agents
    ensures
      var p, r := s.positions[k], Step(s, SettlePosition(w, k, returned));
      var mayTrade := w == s.agents[k.agent].executor || w == s.agents[k.agent].operator;
      && (r == Failure(UnauthorizedExecutor) <==> !mayTrade)
      && (r == Failure(InvalidStatus) <==> mayTrade && p.status != PositionStatus.Open && p.status != Trading)
  {
    BooksFailOtherwise();
    hide BookSettle, Settlement.ComputeSettlement;
  }

  // The rest of a settle fails for lack of funds or of room only.
  lemma BooksFailOtherwise()
    ensures forall principal: u64, returned: u64, feeBps: u16, maxDrawdownBps: u16, locked: u64 ::
      var r := Settlement.ComputeSettlement(principal, returned, feeBps, maxDrawdownBps, locked);
      r.Failure? ==> r.error == Overflow
    ensures forall agent: Agent, p: Position, effective: u64, split: Settlement.Settled, fee: u64, now: i64 ::
      var r := BookSettle(agent, p, effective, split, fee, now);
      r.Failure? ==> r.error in {Underflow, Overflow, CounterFull}
  {
  }

  // Terms are refused for the first thing that is wrong with them.
  lemma TermsRefusals(t: Settlement.AgentTerms)
    ensures
      var r := Settlement.Validate(t);
      var ratioOk := 1_000 <= t.collateralRatioBps <= 10_000;
      var feeOk := ratioOk && 2 * t.feeBps <= t.collateralRatioBps;
      var drawdownOk := feeOk && t.maxDrawdownBps <= 5_000;
      var sumOk := drawdownOk && t.collateralRatioBps + t.maxDrawdownBps <= 10_000;
      && (r == Failure(InvalidCollateralRatio) <==> !ratioOk)
      && (r == Failure(FeeTooHigh) <==> ratioOk && !feeOk)
      && (r == Failure(InvalidDrawdown) <==> feeOk && !drawdownOk)
      && (r == Failure(RatioPlusDrawdownTooHigh) <==> drawdownOk && !sumOk)
      && (r == Failure(InvalidTradingWindow) <==> sumOk && !Acceptable(t))
  {
  }
}
