// What an agent's counters should say, summed over every position it ever opened; and the lamport supply.
module Tally {
  import opened Numbers
  import opened Accounts
  import Sums

  // The cumulative and current counters an agent account carries.
  datatype Counter = Locked | Capital | OpenCount | SettledCount | DefaultedCount | BreachCount | SlashedTotal | FeesEarned

  // One position's share of a counter. A decline (never drawn) is not a track record.
  function Share(p: Position, counter: Counter): nat {
    match counter
    case Locked => if p.Live() then p.lockedCollateral else 0
    case Capital => if p.Live() then p.principal else 0
    case OpenCount => if p.Live() then 1 else 0
    case SettledCount => if p.status.Settled? && p.drawnAt != 0 then 1 else 0
    case DefaultedCount => if p.status.Defaulted? then 1 else 0
    case BreachCount => if p.breach.NoBreach? then 0 else 1
    case SlashedTotal => p.slashed
    case FeesEarned => p.feePaid
  }

  // What the agent account says.
  function Recorded(agent: Agent, counter: Counter): nat {
    match counter
    case Locked => agent.lockedCollateral
    case Capital => agent.capitalManaged
    case OpenCount => agent.openPositions
    case SettledCount => agent.settledPositions
    case DefaultedCount => agent.defaultedPositions
    case BreachCount => agent.breachCount
    case SlashedTotal => agent.slashedTotal
    case FeesEarned => agent.feesEarned
  }

  function Weight(a: AgentKey, counter: Counter): Position -> int {
    (p: Position) => if p.agent == a then Share(p, counter) else 0
  }

  // What the positions say.
  ghost function Of(positions: map<PositionKey, Position>, a: AgentKey, counter: Counter): int {
    Sums.Sum(positions, Weight(a, counter))
  }

  // Every counter of the agent is the sum over all its positions, closed ones included.
  ghost predicate Audited(positions: map<PositionKey, Position>, a: AgentKey, agent: Agent) {
    forall counter :: Recorded(agent, counter) == Of(positions, a, counter)
  }

  // Every counter moves by exactly what one position's share of it moves.
  ghost predicate MovesWith(
    positions: map<PositionKey, Position>, agent: Agent, k: PositionKey, p: Position, agent': Agent)
  {
    forall counter ::
      Recorded(agent', counter)
      == Recorded(agent, counter) - (if k in positions then Share(positions[k], counter) else 0) + Share(p, counter)
  }

  // Adding or rewriting one position keeps the audit exactly when the agent moves by that position's change.
  lemma Rewrite(
    positions: map<PositionKey, Position>, a: AgentKey, agent: Agent, k: PositionKey, p: Position, agent': Agent)
    requires p.agent == a && (k in positions ==> positions[k].agent == a)
    requires Audited(positions, a, agent)
    requires MovesWith(positions, agent, k, p, agent')
    ensures Audited(positions[k := p], a, agent')
  {
    forall counter ensures Recorded(agent', counter) == Of(positions[k := p], a, counter) {
      Sums.Rewrite(positions, Weight(a, counter), k, p);
    }
  }

  // Another agent's position is none of this agent's business.
  lemma RewriteOther(positions: map<PositionKey, Position>, a: AgentKey, agent: Agent, k: PositionKey, p: Position)
    requires p.agent != a && (k in positions ==> positions[k].agent != a)
    requires Audited(positions, a, agent)
    ensures Audited(positions[k := p], a, agent)
  {
    forall counter ensures Recorded(agent, counter) == Of(positions[k := p], a, counter) {
      Sums.Rewrite(positions, Weight(a, counter), k, p);
    }
  }

  // Each counter covers every single position's share.
  lemma CoversEach(positions: map<PositionKey, Position>, a: AgentKey, agent: Agent, k: PositionKey, counter: Counter)
    requires k in positions && positions[k].agent == a
    requires Audited(positions, a, agent)
    ensures Recorded(agent, counter) >= Share(positions[k], counter)
  {
    Sums.CoversEach(positions, Weight(a, counter), k);
  }

  // An agent with no live position has nothing locked and nothing under management.
  lemma NothingLive(positions: map<PositionKey, Position>, a: AgentKey, agent: Agent)
    requires forall k | k in positions && positions[k].agent == a :: !positions[k].Live()
    requires Audited(positions, a, agent)
    ensures agent.lockedCollateral == agent.capitalManaged == agent.openPositions == 0
  {
    Sums.AllZero(positions, Weight(a, Locked));
    Sums.AllZero(positions, Weight(a, Capital));
    Sums.AllZero(positions, Weight(a, OpenCount));
    assert Recorded(agent, Locked) == 0 && Recorded(agent, Capital) == 0 && Recorded(agent, OpenCount) == 0;
  }

  // ---------- lamports ----------

  function Same(n: nat): int { n }

  ghost function Supply(lamports: Lamports): int {
    Sums.Sum(lamports, Same)
  }

  lemma SupplyRewrite(lamports: Lamports, k: Account, n: nat)
    ensures Supply(lamports[k := n]) == Supply(lamports) - Balance(lamports, k) + n
  {
    Sums.Rewrite(lamports, Same, k, n);
  }

  // A transfer neither creates nor destroys lamports, even from an account to itself.
  lemma TransferConserves(lamports: Lamports, from: Account, to: Account, amount: nat)
    requires Transfer(lamports, from, to, amount).Success?
    ensures Supply(Transfer(lamports, from, to, amount).value) == Supply(lamports)
  {
    if amount > 0 {
      var debited := lamports[from := Balance(lamports, from) - amount];
      SupplyRewrite(lamports, from, Balance(lamports, from) - amount);
      SupplyRewrite(debited, to, Balance(debited, to) + amount);
    }
  }
}
