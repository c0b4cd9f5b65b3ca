/** A bill issued to a customer, and its overdue flag. */
module Invoices {
  import opened Wrappers
  import opened Scalars
  import opened Enums

  datatype Invoice = Invoice(
    invoiceNumber: string,
    invoiceDate: Time,
    dueDate: Option<Time>,
    customerName: string,
    customerEmail: string,
    customerPhone: string,
    customerAddress: string,
    status: InvoiceStatus,
    subTotal: Cents,
    taxAmount: Cents,
    discountAmount: Cents,
    totalAmount: Cents,
    notes: string,
    createdAt: Time,
    updatedAt: Option<Time>,
    createdByUserId: Id)

  /** An invoice built with only the property initialisers run; both the
      invoice date and `CreatedAt` read the clock. The creator key has no
      initialiser and starts at 0, which no row carries. */
  function NewInvoice(now: Time): (v: Invoice)
    ensures forall t :: !IsOverdue(v, t)
    ensures v.status == Draft && v.totalAmount == v.subTotal + v.taxAmount - v.discountAmount
  {
    Invoice("", now, None, "", "", "", "", Draft, 0, 0, 0, 0, "", now, None, 0)
  }

  lemma NewInvoiceDefaults(now: Time)
    ensures NewInvoice(now).status == Draft
    ensures NewInvoice(now).subTotal == 0 && NewInvoice(now).taxAmount == 0
    ensures NewInvoice(now).discountAmount == 0 && NewInvoice(now).totalAmount == 0
    ensures NewInvoice(now).updatedAt == None
  {
  }

  /** Past due at `now` and not paid. The stored `Overdue` status plays no
      part: only the due date, the clock and `Paid` matter. */
  predicate IsOverdue(v: Invoice, now: Time)
    ensures v.dueDate.None? ==> !IsOverdue(v, now)
    ensures v.dueDate.Some? && v.dueDate.value < now ==> (IsOverdue(v, now) <==> v.status != Paid)
  {
    v.dueDate.Some? && v.dueDate.value < now && v.status != Paid
  }

  lemma NeverOverdueWithoutDueDateOrWhenPaid(v: Invoice, now: Time)
    ensures v.dueDate.None? ==> !IsOverdue(v, now)
    ensures v.status == Paid ==> !IsOverdue(v, now)
    ensures v.dueDate == Some(now) ==> !IsOverdue(v, now)
  {
  }

  /** Once overdue, an invoice stays overdue as the clock advances. */
  lemma OverdueMonotone(v: Invoice, now: Time, later: Time)
    requires IsOverdue(v, now) && now <= later
    ensures IsOverdue(v, later)
  {
  }

  /** The derived flag and the stored status can disagree both ways. */
  lemma OverdueFlagIgnoresOverdueStatus(v: Invoice, now: Time)
    requires v.dueDate.Some?
    ensures v.status == Overdue && v.dueDate.value > now ==> !IsOverdue(v, now)
    ensures (v.status == Cancelled || v.status == Draft) && v.dueDate.value < now
            ==> IsOverdue(v, now)
  {
  }

  /** Column length limits. The store does not enforce them. */
  predicate WithinLengths(v: Invoice) {
    && |v.invoiceNumber| <= 50
    && |v.customerName| <= 200
    && |v.customerEmail| <= 255
    && |v.customerPhone| <= 20
    && |v.customerAddress| <= 500
    && |v.notes| <= 1000
  }
}
