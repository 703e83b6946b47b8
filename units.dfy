/** USDT amounts on chain are integers of 10^-6 USDT (investments/blockchain.py).
    Only the two conversions are modelled; the gateway itself is an oracle. */
module Units {

  const UnitsPerUsdt: int := 1000000

  /** Python's int() on a Decimal: truncation toward zero. */
  function Truncate(x: real): (r: int)
    ensures x >= 0.0 ==> r as real <= x < r as real + 1.0
    ensures x < 0.0 ==> r as real - 1.0 < x <= r as real
  {
    if x >= 0.0 then x.Floor else -((-x).Floor)
  }

  /** The amount send_usdt puts on chain for a Decimal amount. */
  function ToBaseUnits(amount: real): int {
    Truncate(amount * UnitsPerUsdt as real)
  }

  /** The Decimal amount verify_transaction reports for a decoded transfer. */
  function FromBaseUnits(units: nat): (amount: real)
    ensures amount >= 0.0
  {
    units as real / UnitsPerUsdt as real
  }

  /** A verified on-chain amount converts back to the same base units. */
  lemma BaseUnitsRoundTrip(units: nat)
    ensures ToBaseUnits(FromBaseUnits(units)) == units
  {
    assert FromBaseUnits(units) * UnitsPerUsdt as real == units as real;
  }

  /** A non-negative amount sent on chain is never more than requested, and
      less than one base unit short of it. */
  lemma SendNeverOverpays(amount: real)
    requires amount >= 0.0
    ensures ToBaseUnits(amount) >= 0
    ensures FromBaseUnits(ToBaseUnits(amount)) <= amount
    ensures amount - FromBaseUnits(ToBaseUnits(amount)) < 1.0 / UnitsPerUsdt as real
  {
    var u := ToBaseUnits(amount);
    assert u as real <= amount * 1000000.0 < u as real + 1.0;
  }
}
