/** How many contracts an entry may buy. Dollars are exact reals. */
module Sizing {
  import opened Market
  import opened Seqs

  const OPTION_PREMIUM_TICK: real := 0.01
  const TRAINER_MAX_CONTRACTS: int := 1

  datatype SizeReason = OK | STOP_TOO_TIGHT | NO_STOP | NO_BUDGET

  datatype Size = Size(qty: int, reason: SizeReason)

  datatype Risk = Risk(
    useRiskAtStop: bool, maxRiskUsd: real, ask: real, stopPremium: Option<real>,
    settledCash: real, equity: real, riskPct: real)

  function ComputeBudget(settledCash: real, equity: real, riskPct: real): real {
    MinR(settledCash, equity * (riskPct / 100.0))
  }

  function SizePosition(budget: real, premium: real): int {
    if premium <= 0.0 || budget <= 0.0 then 0 else (budget / (premium * 100.0)).Floor
  }

  /** A count, with why there is none. */
  function Counted(qty: int): Size {
    Size(qty, if qty > 0 then OK else NO_BUDGET)
  }

  function SizeAtRisk(r: Risk): Size {
    if r.ask <= 0.0 || r.settledCash <= 0.0 then Size(0, NO_BUDGET)
    else if !r.useRiskAtStop then
      Counted(Min(SizePosition(ComputeBudget(r.settledCash, r.equity, r.riskPct), r.ask), TRAINER_MAX_CONTRACTS))
    else if r.stopPremium.None? then Size(0, NO_STOP)
    else
      var distance := r.ask - r.stopPremium.value;
      if distance < OPTION_PREMIUM_TICK then Size(0, STOP_TOO_TIGHT)
      else if r.maxRiskUsd <= 0.0 then Size(0, NO_BUDGET)
      else
        var riskQty := (r.maxRiskUsd / (distance * 100.0)).Floor;
        var cashQty := (r.settledCash / (r.ask * 100.0)).Floor;
        Counted(Min(riskQty, Min(cashQty, TRAINER_MAX_CONTRACTS)))
  }

  lemma FloorTimes(money: real, unit: real)
    requires unit > 0.0
    ensures (money / unit).Floor >= 1 <==> money >= unit
  {
    var x := money / unit;
    assert x * unit == money;
    if x >= 1.0 {
      Scales(1.0, x, unit);
    } else {
      Scales(x, 1.0, unit);
    }
  }

  lemma Scales(a: real, b: real, unit: real)
    requires unit > 0.0
    ensures a <= b ==> a * unit <= b * unit
    ensures a < b ==> a * unit < b * unit
  {
    assert (b - a) * unit == b * unit - a * unit;
  }

  /** One contract fits the budget, or the risk to a stop a tick or more away and the cash. */
  predicate Affordable(r: Risk) {
    if !r.useRiskAtStop then
      r.ask * 100.0 <= r.settledCash && r.ask * 100.0 <= r.equity * (r.riskPct / 100.0)
    else
      && r.stopPremium.Some?
      && r.ask - r.stopPremium.value >= 0.01
      && (r.ask - r.stopPremium.value) * 100.0 <= r.maxRiskUsd
      && r.ask * 100.0 <= r.settledCash
  }

  /**
   * The trainer buys one contract or none: one exactly when it is affordable, and otherwise it says what is
   * missing: the stop, a tick of distance to it, or the money.
   */
  lemma OneContractExactly(r: Risk)
    ensures SizeAtRisk(r).qty <= 1
    ensures SizeAtRisk(r).qty == 1 <==> r.ask > 0.0 && Affordable(r)
    ensures SizeAtRisk(r).reason == OK <==> SizeAtRisk(r).qty == 1
    ensures SizeAtRisk(r).reason in {NO_STOP, STOP_TOO_TIGHT}
       <==> r.ask > 0.0 && r.settledCash > 0.0 && r.useRiskAtStop
            && (r.stopPremium.None? || r.ask - r.stopPremium.value < 0.01)
    ensures SizeAtRisk(r).reason == NO_STOP ==> r.stopPremium.None?
  {
    if r.ask > 0.0 {
      FloorTimes(ComputeBudget(r.settledCash, r.equity, r.riskPct), r.ask * 100.0);
      FloorTimes(r.settledCash, r.ask * 100.0);
      if r.stopPremium.Some? && r.ask - r.stopPremium.value >= OPTION_PREMIUM_TICK {
        FloorTimes(r.maxRiskUsd, (r.ask - r.stopPremium.value) * 100.0);
      }
    }
  }

  lemma FloorTimesMany(money: real, unit: real, n: nat)
    requires unit > 0.0
    ensures n <= (money / unit).Floor <==> n as real * unit <= money
  {
    var x := money / unit;
    assert x * unit == money;
    Scales(n as real, x, unit);
    Scales(x, n as real, unit);
  }

  /** Without the cap an entry buys the most contracts that both the cash and the risked share of equity pay for. */
  lemma OlderSizeIsTheMost(settledCash: real, equity: real, riskPct: real, premium: real, n: nat)
    requires premium > 0.0
    ensures var quantity := SizePosition(ComputeBudget(settledCash, equity, riskPct), premium);
      && quantity >= 0
      && (1 <= n <= quantity <==>
            1 <= n && n as real * (premium * 100.0) <= settledCash
            && n as real * (premium * 100.0) <= equity * (riskPct / 100.0))
  {
    var budget := ComputeBudget(settledCash, equity, riskPct);
    FloorTimesMany(budget, premium * 100.0, 0);
    FloorTimesMany(budget, premium * 100.0, n);
    if n >= 1 {
      Scales(1.0, n as real, premium * 100.0);
    }
  }
}
