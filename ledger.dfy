/** The totals the dashboard cards and header compute from the transaction
    list (frontend/src/components/DashboardData.jsx and
    frontend/src/components/DashboardHeader.jsx). Both components filter by
    `(t.type || "debit")` and sum `Math.abs(t.amount)`; amounts are exact
    reals. The calendar month and year of each date are given with the
    transaction. */
module Ledger {
  import opened Common

  /** `getMonth()`: January is 0. */
  type Month = m: int | 0 <= m < 12

  /** A transaction as the browser holds it. */
  datatype ClientTx = ClientTx(
    mongoId: Option<string>,
    localId: Option<string>,
    txType: Option<string>,
    amount: real,
    category: string,
    date: int,
    month: Month,
    year: int)

  /** `t.type || "debit"`: a missing or empty type counts as debit. */
  function EffectiveType(t: ClientTx): string
  {
    if Truthy(t.txType) then t.txType.value else "debit"
  }

  predicate IsDebit(t: ClientTx)
  {
    EffectiveType(t) == "debit"
  }

  predicate IsCredit(t: ClientTx)
  {
    EffectiveType(t) == "credit"
  }

  function Abs(x: real): real
  {
    if x < 0.0 then -x else x
  }

  /** The sum of the absolute amounts of the debits. */
  function DebitTotal(txs: seq<ClientTx>): real
    decreases |txs|
  {
    if txs == [] then 0.0
    else DebitTotal(txs[..|txs| - 1]) + (if IsDebit(txs[|txs| - 1]) then Abs(txs[|txs| - 1].amount) else 0.0)
  }

  /** The sum of the absolute amounts of the credits. */
  function CreditTotal(txs: seq<ClientTx>): real
    decreases |txs|
  {
    if txs == [] then 0.0
    else CreditTotal(txs[..|txs| - 1]) + (if IsCredit(txs[|txs| - 1]) then Abs(txs[|txs| - 1].amount) else 0.0)
  }

  /** `creditTotal - debitTotal`, in both components. */
  function Balance(txs: seq<ClientTx>): real
  {
    CreditTotal(txs) - DebitTotal(txs)
  }

  /** The debits dated in the given month of the given year. */
  function MonthExpenses(txs: seq<ClientTx>, month: Month, year: int): real
    decreases |txs|
  {
    if txs == [] then 0.0
    else
      var t := txs[|txs| - 1];
      MonthExpenses(txs[..|txs| - 1], month, year)
      + (if t.month == month && t.year == year && IsDebit(t) then Abs(t.amount) else 0.0)
  }

  /** The number of debits. */
  function DebitCount(txs: seq<ClientTx>): nat
    decreases |txs|
  {
    if txs == [] then 0
    else DebitCount(txs[..|txs| - 1]) + (if IsDebit(txs[|txs| - 1]) then 1 else 0)
  }

  /** The average expense: the debit total over the number of debits, or 0
      without debits (the two-decimal rounding is not modelled). */
  function AverageExpense(txs: seq<ClientTx>): real
  {
    Mean(DebitTotal(txs), DebitCount(txs))
  }

  function Mean(total: real, n: nat): real
  {
    if n > 0 then total / (n as real) else 0.0
  }

  /** The header shows the balance in its positive style. */
  predicate PositiveStyle(txs: seq<ClientTx>)
  {
    Balance(txs) >= 0.0
  }

  // ---------------------------------------------------------------------------

  /** Both totals are sums of absolute values, hence never negative. */
  lemma {:induction false} TotalsNonNegative(txs: seq<ClientTx>)
    ensures DebitTotal(txs) >= 0.0 && CreditTotal(txs) >= 0.0
    decreases |txs|
  {
    if txs != [] {
      TotalsNonNegative(txs[..|txs| - 1]);
    }
  }

  /** An untyped transaction adds its absolute amount to the debit side and
      nothing to the credit side. */
  lemma UntypedCountsAsDebit(txs: seq<ClientTx>, t: ClientTx)
    requires !Truthy(t.txType)
    ensures DebitTotal(txs + [t]) == DebitTotal(txs) + Abs(t.amount)
    ensures CreditTotal(txs + [t]) == CreditTotal(txs)
    ensures DebitCount(txs + [t]) == DebitCount(txs) + 1
  {
    assert (txs + [t])[..|txs + [t]| - 1] == txs;
  }

  /** A typed transaction whose type is neither debit nor credit counts on
      neither side. */
  lemma OtherTypeCountsNowhere(txs: seq<ClientTx>, t: ClientTx)
    requires Truthy(t.txType) && t.txType.value != "debit" && t.txType.value != "credit"
    ensures DebitTotal(txs + [t]) == DebitTotal(txs) && CreditTotal(txs + [t]) == CreditTotal(txs)
  {
    assert (txs + [t])[..|txs + [t]| - 1] == txs;
  }

  /** The current month's expenses are part of the debit total. */
  lemma {:induction false} MonthExpensesBounded(txs: seq<ClientTx>, month: Month, year: int)
    ensures 0.0 <= MonthExpenses(txs, month, year) <= DebitTotal(txs)
    decreases |txs|
  {
    if txs != [] {
      MonthExpensesBounded(txs[..|txs| - 1], month, year);
    }
  }

  /** The debits are at most all transactions, and without debits the debit
      total is 0. */
  lemma {:induction false} DebitCountBounds(txs: seq<ClientTx>)
    ensures DebitCount(txs) <= |txs|
    ensures DebitCount(txs) == 0 ==> DebitTotal(txs) == 0.0
    decreases |txs|
  {
    if txs != [] {
      DebitCountBounds(txs[..|txs| - 1]);
      TotalsNonNegative(txs[..|txs| - 1]);
    }
  }

  lemma MeanSpec(total: real, n: nat)
    requires total >= 0.0
    ensures n > 0 ==> Mean(total, n) * (n as real) == total
    ensures Mean(total, n) >= 0.0
  {
  }

  /** The average times the number of debits gives the debit total back,
      and the average is never negative. */
  lemma AverageExpenseSpec(txs: seq<ClientTx>)
    ensures DebitCount(txs) > 0 ==> AverageExpense(txs) * (DebitCount(txs) as real) == DebitTotal(txs)
    ensures AverageExpense(txs) >= 0.0
  {
    var total, n := DebitTotal(txs), DebitCount(txs);
    TotalsNonNegative(txs);
    MeanSpec(total, n);
  }

  /** The header's style is the positive one exactly when credits cover
      debits. */
  lemma PositiveStyleIff(txs: seq<ClientTx>)
    ensures PositiveStyle(txs) <==> CreditTotal(txs) >= DebitTotal(txs)
  {
  }
}
