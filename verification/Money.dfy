// Rounding and billing-line arithmetic (src/lib/billing/line.ts, and the two
// rounding helpers of src/lib/silverfang/project-billing.ts). Quantities and rates
// are whole numbers of 0.0001, line totals are in cents.
module Money {

  /** `Math.round(n / d)`: to nearest, halves up. */
  function RoundDiv(n: int, d: int): int
    requires d > 0
  {
    (2 * n + d) / (2 * d)
  }

  lemma RoundDivNear(n: int, d: int)
    requires d > 0
    ensures -d <= 2 * (d * RoundDiv(n, d) - n) <= d
  {
    var r := RoundDiv(n, d);
    assert 2 * n + d == (2 * d) * r + (2 * n + d) % (2 * d);
    assert (2 * d) * r == 2 * (d * r);
  }

  datatype Line = Line(subtotal: int, total: int)

  /** `computeLine` with no proration: quantity times unit price, then discount and adjustment. */
  function ComputeLine(quantity: int, unitPrice: int, discount: int, adjustment: int): Line {
    var subtotal := RoundDiv(quantity * unitPrice, 1_000_000);
    Line(subtotal, subtotal - discount + adjustment)
  }

  /** A line's total is its quantity times its price to the nearest cent, less the discount, with the adjustment. */
  lemma LineTotalNear(quantity: int, unitPrice: int, discount: int, adjustment: int)
    ensures var total := ComputeLine(quantity, unitPrice, discount, adjustment).total;
            -500_000 <= 1_000_000 * (total + discount - adjustment) - quantity * unitPrice <= 500_000
  {
    RoundDivNear(quantity * unitPrice, 1_000_000);
  }

  /** `roundMoney(value / quantity)` on the 0.0001 grid, for a value in units of 0.00000001. */
  function UnitPrice(value: int, quantity: int): int
    requires quantity > 0
  {
    100 * RoundDiv(value, 100 * quantity)
  }

  /**
   * A unit price rounded to cents and multiplied back out stays within half a cent
   * per unit, plus half a cent, of the exact value (all in units of 0.00000001).
   */
  lemma RolledUpNear(value: int, quantity: int)
    requires quantity > 0
    ensures var total := ComputeLine(quantity, UnitPrice(value, quantity), 0, 0).total;
            -(50 * quantity + 500_000) <= 1_000_000 * total - value <= 50 * quantity + 500_000
  {
    var unitPrice := UnitPrice(value, quantity);
    RoundDivNear(value, 100 * quantity);
    RoundDivNear(quantity * unitPrice, 1_000_000);
    assert (100 * quantity) * RoundDiv(value, 100 * quantity) == quantity * unitPrice;
  }
}
