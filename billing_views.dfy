/**
 * The transaction endpoints (`apps/billing/views.py`): the batch of charges
 * for every property, and the dashboard statistics.
 */
module BillingViews {
  import opened Base
  import opened Text
  import opened Properties
  import opened Billing

  /** The stored transactions; `nextId` is the next primary key the table hands out. */
  class Ledger {
    var transactions: seq<Transaction>
    var nextId: nat

    ghost predicate Valid()
      reads this
    {
      && (forall i :: 0 <= i < |transactions| ==> transactions[i].id < nextId)
      && (forall i, j :: 0 <= i < j < |transactions| ==> transactions[i].id != transactions[j].id)
    }

    constructor ()
      ensures Valid() && transactions == [] && nextId == 1
    {
      transactions := [];
      nextId := 1;
    }
  }

  /** The request body of `batch-create`, as received. */
  datatype BatchInput = BatchInput(
    categoryId: Option<int>,
    amountCents: Option<int>,
    concept: Option<string>,
    description: Option<string>,
    dueDate: Option<int>)

  datatype BatchField = CategoryField | AmountField | ConceptField

  /** The largest amount ten digits with two decimals can hold. */
  const MaxAmountCents := 99_999_999_99

  /** The category must be an existing income category. */
  predicate CategoryAccepted(categories: map<nat, PaymentCategory>, id: Option<int>) {
    id.Some? && id.value >= 0 && id.value as nat in categories && categories[id.value as nat].kind == Income
  }

  /**
   * The smallest amount the batch accepts. The field's `min_value` is the
   * float 0.01, which is slightly more than one cent; the validator compares
   * the `Decimal` amount with that float exactly, so `Decimal('0.01')` falls
   * below it and two cents is the least amount that passes.
   */
  const MinAmountCents := 2

  /** At least two cents (see `MinAmountCents`) and at most ten digits. */
  predicate AmountAccepted(amount: Option<int>) {
    amount.Some? && MinAmountCents <= amount.value <= MaxAmountCents
  }

  /** A one-cent batch amount is refused with an amount error; two cents is accepted. */
  lemma OneCentRefused(categories: map<nat, PaymentCategory>, input: BatchInput)
    ensures input.amountCents == Some(1) ==> AmountField in BatchErrors(categories, input)
    ensures input.amountCents == Some(2) ==> AmountField !in BatchErrors(categories, input)
  {
  }

  /** Required, not blank once trimmed, at most 150 characters once trimmed. */
  predicate ConceptAccepted(concept: Option<string>) {
    concept.Some? && 0 < |Strip(concept.value)| <= 150
  }

  /** `BatchTransactionSerializer.is_valid`: every field is checked and every failing one reported. */
  function BatchErrors(categories: map<nat, PaymentCategory>, input: BatchInput): (errs: set<BatchField>)
    ensures CategoryField in errs <==> !CategoryAccepted(categories, input.categoryId)
    ensures AmountField in errs <==> !AmountAccepted(input.amountCents)
    ensures ConceptField in errs <==> !ConceptAccepted(input.concept)
    ensures errs <= {CategoryField, AmountField, ConceptField}
  {
    (if CategoryAccepted(categories, input.categoryId) then {} else {CategoryField})
    + (if AmountAccepted(input.amountCents) then {} else {AmountField})
    + (if ConceptAccepted(input.concept) then {} else {ConceptField})
  }

  /** The charge the batch builds for one property. */
  function BatchCharge(id: nat, category: PaymentCategory, amount: int, concept: string, description: string,
                       dueDate: Option<int>, propertyId: nat, requester: nat, today: int): Transaction
  {
    Transaction(id, Income, Some(category), Some(propertyId), Some(amount), concept, description,
                Pending, today, dueDate, None, Some(requester))
  }

  /** The charges for `props`, numbered from `firstId`, in the order of the properties. */
  function BatchFor(firstId: nat, category: PaymentCategory, amount: int, concept: string, description: string,
                    dueDate: Option<int>, props: seq<Property>, requester: nat, today: int): (ts: seq<Transaction>)
    ensures |ts| == |props|
    ensures forall k :: 0 <= k < |ts| ==>
      ts[k] == BatchCharge(firstId + k, category, amount, concept, description, dueDate, props[k].id, requester, today)
    decreases |props|
  {
    if props == [] then []
    else
      [BatchCharge(firstId, category, amount, concept, description, dueDate, props[0].id, requester, today)]
      + BatchFor(firstId + 1, category, amount, concept, description, dueDate, props[1..], requester, today)
  }

  /**
   * The batch is inserted without `clean`, yet every charge it builds would
   * pass `clean`: positive amount, income category, a property set.
   */
  lemma BatchChargesAreClean(firstId: nat, category: PaymentCategory, amount: int, concept: string, description: string,
                             dueDate: Option<int>, props: seq<Property>, requester: nat, today: int)
    requires category.kind == Income && amount > 0
    ensures forall t :: t in BatchFor(firstId, category, amount, concept, description, dueDate, props, requester, today) ==> Clean(t).None?
  {
    var ts := BatchFor(firstId, category, amount, concept, description, dueDate, props, requester, today);
    forall t | t in ts ensures Clean(t).None? {
      var k :| 0 <= k < |ts| && ts[k] == t;
    }
  }

  /** Records numbered from `first` on, in order, keep the ids below the new counter and distinct. */
  lemma BatchIdsFresh(old_: seq<Transaction>, added: seq<Transaction>, first: nat)
    requires forall i :: 0 <= i < |old_| ==> old_[i].id < first
    requires forall i, j :: 0 <= i < j < |old_| ==> old_[i].id != old_[j].id
    requires forall k :: 0 <= k < |added| ==> added[k].id == first + k
    ensures var all := old_ + added;
      && (forall i :: 0 <= i < |all| ==> all[i].id < first + |added|)
      && (forall i, j :: 0 <= i < j < |all| ==> all[i].id != all[j].id)
  {
    var all := old_ + added;
    forall i, j | 0 <= i < j < |all| ensures all[i].id != all[j].id {
      if j >= |old_| {
        assert all[j] == added[j - |old_|];
        if i >= |old_| {
          assert all[i] == added[i - |old_|];
        }
      }
    }
  }

  /** The loop of `batch_create`: one charge per property, appended in order. */
  method BuildBatch(first: nat, category: PaymentCategory, amount: int, concept: string, description: string,
                    dueDate: Option<int>, props: seq<Property>, requester: nat, today: int)
    returns (toCreate: seq<Transaction>)
    ensures toCreate == BatchFor(first, category, amount, concept, description, dueDate, props, requester, today)
  {
    toCreate := [];
    var i := 0;
    while i < |props|
      invariant 0 <= i <= |props| && |toCreate| == i
      invariant forall k :: 0 <= k < i ==>
        toCreate[k] == BatchCharge(first + k, category, amount, concept, description, dueDate, props[k].id, requester, today)
    {
      toCreate := toCreate + [BatchCharge(first + i, category, amount, concept, description, dueDate, props[i].id, requester, today)];
      i := i + 1;
    }
  }

  /**
   * `TransactionViewSet.batch_create`: an invalid request is refused and
   * creates nothing; otherwise one pending income charge per property is
   * built in a loop, issued today, and all are inserted at once. The result
   * is the number created.
   */
  method BatchCreate(ledger: Ledger, categories: map<nat, PaymentCategory>, input: BatchInput,
                     props: seq<Property>, requester: nat, today: int)
    returns (r: Result<nat, set<BatchField>>)
    requires ledger.Valid()
    modifies ledger
    ensures ledger.Valid()
    ensures r.Err? <==> BatchErrors(categories, input) != {}
    ensures r.Err? ==> r.error == BatchErrors(categories, input) && ledger.transactions == old(ledger.transactions) && ledger.nextId == old(ledger.nextId)
    ensures r.Ok? ==>
      && r.value == |props|
      && ledger.nextId == old(ledger.nextId) + |props|
      && ledger.transactions == old(ledger.transactions)
         + BatchFor(old(ledger.nextId), categories[input.categoryId.value as nat], input.amountCents.value,
                    Strip(input.concept.value), Strip(input.description.GetOr("")), input.dueDate, props, requester, today)
  {
    var errors := BatchErrors(categories, input);
    if errors != {} {
      return Err(errors);
    }
    var category := categories[input.categoryId.value as nat];
    var amount := input.amountCents.value;
    var concept := Strip(input.concept.value);
    var description := Strip(input.description.GetOr(""));
    var first := ledger.nextId;
    var toCreate := BuildBatch(first, category, amount, concept, description, input.dueDate, props, requester, today);
    BatchIdsFresh(ledger.transactions, toCreate, first);
    ledger.transactions := ledger.transactions + toCreate;
    ledger.nextId := first + |props|;
    r := Ok(|props|);
  }

  /** The dashboard figures, in cents. */
  datatype TransactionStats = TransactionStats(totalIncome: int, totalExpense: int, balance: int, pendingIncomesCount: nat)

  /** The sum of the set amounts of one kind, 0 when there are none (a null amount adds nothing). */
  function SumOf(ts: seq<Transaction>, flow: Flow): (s: int)
    ensures (forall k :: 0 <= k < |ts| ==> ts[k].flow != flow || ts[k].amountCents.None?) ==> s == 0
    ensures (forall k :: 0 <= k < |ts| && ts[k].flow == flow && ts[k].amountCents.Some? ==> ts[k].amountCents.value >= 0) ==> s >= 0
  {
    if ts == [] then 0
    else
      var last := ts[|ts| - 1];
      SumOf(ts[..|ts| - 1], flow) + (if last.flow == flow && last.amountCents.Some? then last.amountCents.value else 0)
  }

  /** The number of pending incomes. */
  function PendingIncomes(ts: seq<Transaction>): (n: nat)
    ensures n == 0 <==> forall k :: 0 <= k < |ts| ==> !(ts[k].flow == Income && ts[k].status == Pending)
  {
    if ts == [] then 0
    else PendingIncomes(ts[..|ts| - 1]) + (if ts[|ts| - 1].flow == Income && ts[|ts| - 1].status == Pending then 1 else 0)
  }

  /** `TransactionViewSet.stats` over the (already filtered) transactions. */
  function Stats(ts: seq<Transaction>): (s: TransactionStats)
    ensures s.balance == s.totalIncome - s.totalExpense
    ensures s.pendingIncomesCount <= |ts|
  {
    PendingIncomesBounded(ts);
    TransactionStats(SumOf(ts, Income), SumOf(ts, Expense), SumOf(ts, Income) - SumOf(ts, Expense), PendingIncomes(ts))
  }

  lemma {:induction false} PendingIncomesBounded(ts: seq<Transaction>)
    ensures PendingIncomes(ts) <= |ts|
  {
    if ts != [] {
      PendingIncomesBounded(ts[..|ts| - 1]);
    }
  }

  /** The figures of two lists of transactions add up. */
  lemma {:induction false} StatsAppend(a: seq<Transaction>, b: seq<Transaction>)
    ensures Stats(a + b).totalIncome == Stats(a).totalIncome + Stats(b).totalIncome
    ensures Stats(a + b).totalExpense == Stats(a).totalExpense + Stats(b).totalExpense
    ensures Stats(a + b).balance == Stats(a).balance + Stats(b).balance
    ensures Stats(a + b).pendingIncomesCount == Stats(a).pendingIncomesCount + Stats(b).pendingIncomesCount
    decreases |b|
  {
    if b == [] {
      assert a + b == a;
    } else {
      var b' := b[..|b| - 1];
      assert (a + b)[..|a + b| - 1] == a + b';
      assert (a + b)[|a + b| - 1] == b[|b| - 1];
      StatsAppend(a, b');
    }
  }

  /** With no transactions every figure is 0. */
  lemma NoTransactionsNoFigures()
    ensures Stats([]) == TransactionStats(0, 0, 0, 0)
  {
  }

  /** The status of an expense does not enter any figure. */
  lemma {:induction false} ExpenseStatusIrrelevant(ts: seq<Transaction>, i: nat, s: TransactionStatus)
    requires i < |ts| && ts[i].flow == Expense
    ensures Stats(ts[i := ts[i].(status := s)]) == Stats(ts)
  {
    var a, b := ts[..i], ts[i + 1..];
    var t := ts[i].(status := s);
    assert ts == (a + [ts[i]]) + b;
    assert ts[i := t] == (a + [t]) + b;
    SingleExpenseStats(ts[i], s);
    StatsAppend(a, [ts[i]]);
    StatsAppend(a, [t]);
    StatsAppend(a + [ts[i]], b);
    StatsAppend(a + [t], b);
  }

  /** One expense has the same figures whatever its status. */
  lemma SingleExpenseStats(x: Transaction, s: TransactionStatus)
    requires x.flow == Expense
    ensures Stats([x.(status := s)]) == Stats([x])
  {
    assert [x][..0] == [] && [x.(status := s)][..0] == [];
  }

  /** When every transaction passed `clean` with an amount set, both totals are non-negative. */
  lemma {:induction false} CleanTotalsNonNegative(ts: seq<Transaction>)
    requires forall k :: 0 <= k < |ts| ==> ts[k].amountCents.Some? && Clean(ts[k]).None?
    ensures Stats(ts).totalIncome >= 0 && Stats(ts).totalExpense >= 0
  {
    if ts != [] {
      CleanTotalsNonNegative(ts[..|ts| - 1]);
    }
  }

  /** Pending incomes all of one amount add up to that amount times their number. */
  lemma {:induction false} UniformPendingIncomes(ts: seq<Transaction>, amount: int)
    requires forall k :: 0 <= k < |ts| ==> ts[k].flow == Income && ts[k].amountCents == Some(amount) && ts[k].status == Pending
    ensures SumOf(ts, Income) == amount * |ts| && SumOf(ts, Expense) == 0 && PendingIncomes(ts) == |ts|
  {
    if ts != [] {
      UniformPendingIncomes(ts[..|ts| - 1], amount);
      assert amount * |ts| == amount * (|ts| - 1) + amount;
    }
  }

  /** A batch of charges raises the income total by the amount times the number of properties, and the pending count by the number of properties. */
  lemma BatchRaisesIncome(firstId: nat, category: PaymentCategory, amount: int, concept: string, description: string,
                          dueDate: Option<int>, props: seq<Property>, requester: nat, today: int)
    ensures var s := Stats(BatchFor(firstId, category, amount, concept, description, dueDate, props, requester, today));
      s.totalIncome == amount * |props| && s.totalExpense == 0 && s.pendingIncomesCount == |props|
  {
    UniformPendingIncomes(BatchFor(firstId, category, amount, concept, description, dueDate, props, requester, today), amount);
  }
}
