/** One priced line of an invoice. */
module InvoiceItems {
  import opened Scalars

  datatype InvoiceItem = InvoiceItem(
    quantity: int,
    unitPrice: Cents,
    discountAmount: Cents,
    description: string,
    createdAt: Time,
    invoiceId: Id,
    productId: Id)

  /** The gross amount of the line, before its discount. */
  function Gross(it: InvoiceItem): Cents {
    it.quantity * it.unitPrice
  }

  /** The net amount of the line. Not clamped: a discount larger than the
      gross amount gives a negative total. */
  function LineTotal(it: InvoiceItem): (r: Cents)
    ensures r < 0 <==> it.discountAmount > Gross(it)
    ensures it.discountAmount == 0 ==> r == Gross(it)
  {
    (it.quantity * it.unitPrice) - it.discountAmount
  }

  /** The discount the line gives: what separates its net total from its
      gross amount. */
  function TotalDiscount(it: InvoiceItem): (d: Cents)
    ensures LineTotal(it) + d == Gross(it)
  {
    it.discountAmount
  }

  /** Net total and discount add back up to the gross amount. */
  lemma LineTotalPlusDiscountIsGross(it: InvoiceItem)
    ensures LineTotal(it) + TotalDiscount(it) == Gross(it)
  {
  }

  /** Three at 19.99 with 5.00 off come to 54.97. */
  lemma LineTotalExample(it: InvoiceItem)
    requires it.quantity == 3 && it.unitPrice == 1999 && it.discountAmount == 500
    ensures LineTotal(it) == 5497
  {
  }

  /** For a non-negative unit price, more units never lower the total. */
  lemma {:induction false} LineTotalMonotoneInQuantity(it: InvoiceItem, q: int)
    requires it.unitPrice >= 0 && it.quantity <= q
    ensures LineTotal(it) <= LineTotal(it.(quantity := q))
  {
    assert q * it.unitPrice - it.quantity * it.unitPrice == (q - it.quantity) * it.unitPrice;
  }
}
