/**
 * Press-and-hold charging: a map from controller to the timestamp (in
 * milliseconds) at which its select gesture began, and the power a hold of
 * a given length is worth.
 */
module Charge {

  import opened Settings
  import opened Options

  /**
   * Power of a hold that began at `start` and is read at `now`: the hold as
   * a fraction of the full charge time, capped at 1. There is no lower cap.
   */
  function Power(start: int, now: int): (p: real)
    ensures p <= 1.0
    ensures now - start >= MaxChargeTime ==> p == 1.0
    ensures now - start < MaxChargeTime ==> p * MaxChargeTime as real == (now - start) as real
    ensures 0.0 <= p <==> start <= now
  {
    var fraction := (now - start) as real / MaxChargeTime as real;
    if fraction < 1.0 then fraction else 1.0
  }

  /** Holding longer never yields less power. */
  lemma PowerMonotone(start: int, now: int, later: int)
    requires now <= later
    ensures Power(start, now) <= Power(start, later)
  {
  }

  /** Half the full charge time gives half power (1000 ms pressed, read at 1500 ms). */
  lemma HalfHoldIsHalfPower()
    ensures Power(1000, 1500) == 0.5
  {
  }

  /** Select-start: record `now` for `device`, replacing any charge in progress. */
  function BeginCharge<D>(charges: map<D, int>, device: D, now: int): (r: map<D, int>)
    ensures device in r && r[device] == now
    ensures r.Keys == charges.Keys + {device}
    ensures forall d :: d in charges && d != device ==> r[d] == charges[d]
  {
    charges[device := now]
  }

  /** Starting twice keeps only the second start: sessions never stack. */
  lemma BeginOverwrites<D>(charges: map<D, int>, device: D, first: int, second: int)
    ensures BeginCharge(BeginCharge(charges, device, first), device, second)
            == BeginCharge(charges, device, second)
  {
  }

  /** What select-end leaves behind, and the power it fired with, if any. */
  datatype Release<D> = Release(remaining: map<D, int>, fired: Option<real>)

  /**
   * Select-end: with a charge in progress, fire with its power and forget it;
   * without one, nothing happens.
   */
  function EndCharge<D>(charges: map<D, int>, device: D, now: int): (r: Release<D>)
    ensures device !in r.remaining
    ensures r.remaining.Keys == charges.Keys - {device}
    ensures forall d :: d in r.remaining ==> r.remaining[d] == charges[d]
    ensures r.fired.Some? <==> device in charges
    ensures device in charges ==> r.fired == Some(Power(charges[device], now))
    ensures device !in charges ==> r.remaining == charges
  {
    if device in charges then
      Release(charges - {device}, Some(Power(charges[device], now)))
    else
      Release(charges, None)
  }

  /** A second select-end right after the first fires nothing and changes nothing. */
  lemma EndTwiceFiresOnce<D>(charges: map<D, int>, device: D, now: int, later: int)
    ensures var first := EndCharge(charges, device, now);
      EndCharge(first.remaining, device, later) == Release(first.remaining, None)
  {
  }

  /** A press then a release fires the power of that hold and leaves no session behind. */
  lemma BeginThenEnd<D>(charges: map<D, int>, device: D, pressed: int, released: int)
    ensures EndCharge(BeginCharge(charges, device, pressed), device, released)
            == Release(charges - {device}, Some(Power(pressed, released)))
  {
    assert BeginCharge(charges, device, pressed) - {device} == charges - {device};
  }

  /** The per-frame charge level of every controller with a charge in progress. */
  function ChargeLevels<D>(charges: map<D, int>, now: int): (levels: map<D, real>)
    ensures levels.Keys == charges.Keys
    ensures forall d :: d in levels ==> levels[d] <= 1.0
    ensures forall d :: d in levels && charges[d] <= now ==> 0.0 <= levels[d]
  {
    map d | d in charges :: Power(charges[d], now)
  }

  /** A release fires with exactly the level shown for that controller in the same instant. */
  lemma ReleaseFiresShownLevel<D>(charges: map<D, int>, device: D, now: int)
    requires device in charges
    ensures EndCharge(charges, device, now).fired == Some(ChargeLevels(charges, now)[device])
  {
  }
}
