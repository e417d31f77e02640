// The simulator's settlement, in exact real arithmetic, and how far the on-chain integers stray from it.
module SimulationPort {
  import opened Numbers
  import S = Settlement

  datatype PortSettlement = PortSettlement(fee: real, slash: real, breached: bool)

  function PortRequiredCollateral(principal: real, ratioBps: int): real {
    principal * ratioBps as real / S.BPS_DENOMINATOR as real
  }

  function PortSettle(principal: real, returned: real, feeBps: int, maxDrawdownBps: int, locked: real): PortSettlement {
    if returned >= principal then
      PortSettlement((returned - principal) * feeBps as real / S.BPS_DENOMINATOR as real, 0.0, false)
    else
      var loss := principal - returned;
      var allowed := principal * maxDrawdownBps as real / S.BPS_DENOMINATOR as real;
      var shortfall := if loss - allowed > 0.0 then loss - allowed else 0.0;
      var slash := if shortfall < locked then shortfall else locked;
      PortSettlement(0.0, slash, slash > 0.0)
  }

  lemma ProductAsReal(x: int, y: int)
    ensures (x * y) as real == x as real * y as real
  {
  }

  // Rounding down loses less than one lamport, and nothing when the real share is not positive.
  lemma ShareTracksReal(value: u64, rateBps: u16)
    requires rateBps <= S.BPS_DENOMINATOR
    ensures S.Share(value, rateBps).Success?
    ensures
      var exact := value as real * rateBps as real / S.BPS_DENOMINATOR as real;
      exact - 1.0 < S.Share(value, rateBps).value as real <= exact
  {
    S.ShareIsPartOf(value, rateBps);
    ProductAsReal(value, rateBps);
    var share := S.Share(value, rateBps).value;
    assert (share * S.BPS_DENOMINATOR) as real <= (value * rateBps) as real;
    assert (value * rateBps) as real < ((share + 1) * S.BPS_DENOMINATOR) as real;
  }

  lemma LockTracksReal(principal: u64, ratioBps: u16)
    requires 0 < ratioBps <= S.BPS_DENOMINATOR
    ensures S.RequiredCollateral(principal, ratioBps).Success?
    ensures
      var exact := PortRequiredCollateral(principal as real, ratioBps);
      && exact <= S.RequiredCollateral(principal, ratioBps).value as real < exact + 1.0
      && (exact > 0.0 <==> principal > 0)
  {
    S.LockIsCeiling(principal, ratioBps);
    ProductAsReal(principal, ratioBps);
    var locked := S.RequiredCollateral(principal, ratioBps).value;
    assert (principal * ratioBps) as real <= (locked * S.BPS_DENOMINATOR) as real;
    assert (locked * S.BPS_DENOMINATOR) as real < (principal * ratioBps + S.BPS_DENOMINATOR) as real;
    assert principal > 0 ==> principal * ratioBps > 0;
  }

  // The program's fee never exceeds the simulator's and its slash is never below it, each by less than one lamport; and
  // the two agree exactly on whether the position breached.
  predicate Tracks(chain: S.Settled, port: PortSettlement) {
    && port.fee - 1.0 < chain.fee as real <= port.fee
    && port.slash <= chain.slash as real < port.slash + 1.0
    && (chain.slash > 0 <==> port.breached)
  }

  lemma ProgramTracksPort(principal: u64, returned: u64, ratioBps: u16, feeBps: u16, maxDrawdownBps: u16)
    requires 0 < ratioBps <= S.BPS_DENOMINATOR
    requires feeBps <= S.BPS_DENOMINATOR && maxDrawdownBps <= S.BPS_DENOMINATOR
    ensures S.RequiredCollateral(principal, ratioBps).Success?
    ensures
      var locked := S.RequiredCollateral(principal, ratioBps).value;
      && S.ComputeSettlement(principal, returned, feeBps, maxDrawdownBps, locked).Success?
      && Tracks(
           S.ComputeSettlement(principal, returned, feeBps, maxDrawdownBps, locked).value,
           PortSettle(principal as real, returned as real, feeBps, maxDrawdownBps,
                      PortRequiredCollateral(principal as real, ratioBps)))
  {
    LockTracksReal(principal, ratioBps);
    var locked := S.RequiredCollateral(principal, ratioBps).value;
    hide PortRequiredCollateral, S.RequiredCollateral, Tracks;
    var bond := PortRequiredCollateral(principal as real, ratioBps);
    if returned >= principal {
      ProfitTracks(principal, returned, feeBps, maxDrawdownBps, locked, bond);
    } else {
      LossTracks(principal, returned, feeBps, maxDrawdownBps, locked, bond);
    }
  }

  lemma ProfitTracks(principal: u64, returned: u64, feeBps: u16, maxDrawdownBps: u16, locked: u64, bond: real)
    requires returned >= principal && feeBps <= S.BPS_DENOMINATOR
    ensures S.ComputeSettlement(principal, returned, feeBps, maxDrawdownBps, locked).Success?
    ensures Tracks(S.ComputeSettlement(principal, returned, feeBps, maxDrawdownBps, locked).value,
                   PortSettle(principal as real, returned as real, feeBps, maxDrawdownBps, bond))
  {
    ShareTracksReal(returned - principal, feeBps);
    assert (returned - principal) as real == returned as real - principal as real;
    hide S.Share;
  }

  lemma LossTracks(principal: u64, returned: u64, feeBps: u16, maxDrawdownBps: u16, locked: u64, bond: real)
    requires returned < principal && maxDrawdownBps <= S.BPS_DENOMINATOR
    requires bond <= locked as real < bond + 1.0 && (bond > 0.0 <==> principal > 0)
    ensures S.ComputeSettlement(principal, returned, feeBps, maxDrawdownBps, locked).Success?
    ensures Tracks(S.ComputeSettlement(principal, returned, feeBps, maxDrawdownBps, locked).value,
                   PortSettle(principal as real, returned as real, feeBps, maxDrawdownBps, bond))
  {
    ShareTracksReal(principal, maxDrawdownBps);
    var allowed := principal as real * maxDrawdownBps as real / S.BPS_DENOMINATOR as real;
    hide S.Share;
    SlashTracks(principal - returned, S.Share(principal, maxDrawdownBps).value, allowed, locked, bond);
    assert (principal - returned) as real == principal as real - returned as real;
  }

  lemma SlashTracks(loss: nat, allowed: nat, realAllowed: real, locked: nat, bond: real)
    requires loss > 0 && realAllowed - 1.0 < allowed as real <= realAllowed
    requires bond <= locked as real < bond + 1.0 && bond > 0.0
    ensures
      var shortfall := if loss > allowed then loss - allowed else 0;
      var slash := if shortfall <= locked then shortfall else locked;
      var realShortfall := if loss as real - realAllowed > 0.0 then loss as real - realAllowed else 0.0;
      var realSlash := if realShortfall < bond then realShortfall else bond;
      realSlash <= slash as real < realSlash + 1.0 && (slash > 0 <==> realSlash > 0.0)
  {
  }
}
