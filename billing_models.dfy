/**
 * Payment categories and transactions (`apps/billing/models.py`). Amounts
 * are integer cents; `clean` raises the first integrity failure it meets.
 */
module Billing {
  import opened Base

  /** The two movement kinds; a category has one of them too. */
  datatype Flow = Income | Expense

  function FlowCode(f: Flow): string {
    match f
    case Income => "income"
    case Expense => "expense"
  }

  datatype TransactionStatus = Pending | Paid | Annulled

  function TransactionStatusCode(s: TransactionStatus): string {
    match s
    case Pending => "pending"
    case Paid => "paid"
    case Annulled => "cancelled"
  }

  datatype PaymentCategory = PaymentCategory(id: nat, name: string, kind: Flow, description: string, isActive: bool)

  /** A transaction; the category is absent when no category id is set, the amount when it is null. */
  datatype Transaction = Transaction(
    id: nat,
    flow: Flow,
    category: Option<PaymentCategory>,
    propertyId: Option<nat>,
    amountCents: Option<int>,
    concept: string,
    description: string,
    status: TransactionStatus,
    issueDate: int,
    dueDate: Option<int>,
    paymentDate: Option<int>,
    createdBy: Option<nat>)

  const DefaultTransactionStatus := Pending

  datatype TransactionError = AmountNotPositive | CategoryNotIncome | CategoryNotExpense | PropertyRequired

  /** A set amount must be positive. */
  predicate AmountFails(t: Transaction) {
    t.amountCents.Some? && t.amountCents.value <= 0
  }

  /** The category, when set, must be of the transaction's own kind. */
  function CategoryFailure(t: Transaction): (e: Option<TransactionError>)
    ensures e.Some? <==> t.category.Some? && t.category.value.kind != t.flow
    ensures e.Some? ==> e.value == (if t.flow == Income then CategoryNotIncome else CategoryNotExpense)
  {
    if t.category.None? then None
    else match t.flow
      case Income => if t.category.value.kind != Income then Some(CategoryNotIncome) else None
      case Expense => if t.category.value.kind != Expense then Some(CategoryNotExpense) else None
  }

  /** `Transaction.clean`: amount, then category, then the property of an income; the first failure is reported. */
  function Clean(t: Transaction): (e: Option<TransactionError>)
    ensures AmountFails(t) ==> e == Some(AmountNotPositive)
    ensures !AmountFails(t) && CategoryFailure(t).Some? ==> e == CategoryFailure(t)
    ensures !AmountFails(t) && CategoryFailure(t).None? ==> (e.Some? <==> t.flow == Income && t.propertyId.None?)
    ensures e.Some? && e.value == PropertyRequired ==> t.flow == Income && t.propertyId.None?
    ensures e.None? <==> !AmountFails(t) && CategoryFailure(t).None? && (t.flow == Income ==> t.propertyId.Some?)
  {
    if AmountFails(t) then Some(AmountNotPositive)
    else if CategoryFailure(t).Some? then CategoryFailure(t)
    else if t.flow == Income && t.propertyId.None? then Some(PropertyRequired)
    else None
  }

  /** An expense needs no property: with a positive amount and a matching category it is clean. */
  lemma ExpenseWithoutPropertyIsClean(t: Transaction)
    requires t.flow == Expense && t.propertyId.None?
    requires t.amountCents.Some? && t.amountCents.value > 0
    requires t.category.Some? && t.category.value.kind == Expense
    ensures Clean(t).None?
  {
  }

  /** An income without a property is refused even when everything else is right. */
  lemma IncomeWithoutPropertyIsRefused(t: Transaction)
    requires t.flow == Income && t.propertyId.None?
    requires t.amountCents.Some? && t.amountCents.value > 0
    requires t.category.Some? && t.category.value.kind == Income
    ensures Clean(t) == Some(PropertyRequired)
  {
  }

  /** `Transaction.save`: `clean` first, so a record that fails it is never stored. */
  function Save(t: Transaction): (r: Result<Transaction, TransactionError>)
    ensures r.Ok? <==> Clean(t).None?
    ensures r.Ok? ==> r.value == t
    ensures r.Err? ==> Clean(t) == Some(r.error)
  {
    match Clean(t)
    case None => Ok(t)
    case Some(e) => Err(e)
  }

  /** A new record as the model's defaults build it: status pending, issued today. */
  function NewTransaction(id: nat, flow: Flow, category: Option<PaymentCategory>, propertyId: Option<nat>, amountCents: Option<int>,
                          concept: string, description: string, status: Option<TransactionStatus>, today: int,
                          dueDate: Option<int>, createdBy: Option<nat>): (t: Transaction)
    ensures t.status == status.GetOr(DefaultTransactionStatus) && t.issueDate == today && t.paymentDate.None?
    ensures status.None? ==> t.status == Pending
  {
    Transaction(id, flow, category, propertyId, amountCents, concept, description,
                status.GetOr(DefaultTransactionStatus), today, dueDate, None, createdBy)
  }
}
