/** The order summary shown on the cart page and again on the checkout page:
    subtotal, shipping, 21% tax and total, recomputed from the cart each time.
    Amounts are exact reals; rounding to two decimals is only display. */
module OrderSummary {
  import opened Cart

  datatype Summary = Summary(subtotal: real, shipping: real, tax: real, total: real)

  /** Orders strictly above this subtotal ship free. */
  const FreeShippingAbove: real := 100.0
  const ShippingFee: real := 9.99
  const TaxRate: real := 0.21

  function Summarize(subtotal: real): (s: Summary)
    ensures s.subtotal == subtotal
    ensures s.shipping == 0.0 <==> subtotal > FreeShippingAbove
    ensures s.shipping == 0.0 || s.shipping == ShippingFee
  {
    var shipping := if subtotal > FreeShippingAbove then 0.0 else ShippingFee;
    var tax := subtotal * TaxRate;
    Summary(subtotal, shipping, tax, subtotal + shipping + tax)
  }

  /** The summary of a cart: its subtotal is the cart total. */
  function SummaryOf(c: seq<Item>): (s: Summary)
    ensures s.subtotal == CartTotal(c)
  {
    Summarize(CartTotal(c))
  }

  /** The total is the subtotal plus 21% tax, plus the fee unless shipping is
      free; tax is 21% of the subtotal. */
  lemma TotalClosedForm(subtotal: real)
    ensures Summarize(subtotal).tax == 0.21 * subtotal
    ensures subtotal > 100.0 ==> Summarize(subtotal).total == 1.21 * subtotal
    ensures subtotal <= 100.0 ==> Summarize(subtotal).total == 1.21 * subtotal + 9.99
  {
  }

  /** For a non-negative subtotal the total never falls below the subtotal
      with its tax, and shipping only adds the fee. */
  lemma TotalBounds(subtotal: real)
    requires subtotal >= 0.0
    ensures Summarize(subtotal).total >= Summarize(subtotal).subtotal + Summarize(subtotal).tax
    ensures Summarize(subtotal).total <= 1.21 * subtotal + 9.99
  {
  }

  /** Within one shipping band the total grows with the subtotal. */
  lemma TotalMonotoneWithinBand(x: real, y: real)
    requires x <= y
    requires (x > 100.0) == (y > 100.0)
    ensures Summarize(x).total <= Summarize(y).total
  {
  }

  /** Across the free-shipping threshold the total drops: a 100.00 order
      costs 130.99, a 100.01 order 121.0121. */
  lemma TotalDropsAtThreshold()
    ensures Summarize(100.0).total == 130.99
    ensures Summarize(100.01).total == 121.0121
    ensures Summarize(100.01).total < Summarize(100.0).total
  {
  }

  /** A laptop-and-mouse cart: a 1299.99 laptop and a 49.99 accessory give
      subtotal 1349.98, free shipping, tax 283.4958 and total 1633.4758
      (shown as 283.50 and 1633.48). */
  lemma SummaryExample()
    ensures var c := [Item(1, "ProBook Laptop 15", 1299.99, "1.png", 1, 15),
                      Item(8, "Mouse", 49.99, "8.png", 1, 40)];
            SummaryOf(c) == Summary(1349.98, 0.0, 283.4958, 1633.4758)
  {
    TotalExample();
  }
}
