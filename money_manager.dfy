/**
 * The ledger: adding and deleting transactions, the running balance
 * (contributions minus expenses) and the per-payer expense totals behind
 * the spending chart.
 */
module MoneyManager {
  import opened Wrappers
  import opened Types
  import opened JsArray

  /** The name shown for a payer id that matches no roommate. */
  const UnknownName: string := "未知"

  /**
   * `handleAdd`: nothing happens while the amount field or the description
   * is empty; otherwise the new transaction goes in front. `amount` is what
   * `parseFloat` makes of `amountText`, in cents.
   */
  function AddTransaction(
    txs: seq<Transaction>, amountText: string, amount: int, description: string,
    kind: TxType, payer: Id, id: Id, now: Instant): (r: seq<Transaction>)
    ensures amountText == "" || description == "" ==> r == txs
    ensures amountText != "" && description != "" ==>
      && |r| == |txs| + 1
      && r[1..] == txs
      && r[0].id == id && r[0].amount == amount && r[0].description == description
      && r[0].kind == kind && r[0].payerId == payer && r[0].date == now
  {
    if amountText == "" || description == "" then txs
    else [Transaction(id, payer, amount, description, now, kind)] + txs
  }

  /** The test `tr => tr.id !== id` of the delete button. */
  function TxIdIsNot(id: Id): Transaction -> bool {
    (t: Transaction) => t.id != id
  }

  /** The delete button: every transaction with the given id goes. */
  function DeleteTransaction(txs: seq<Transaction>, id: Id): (r: seq<Transaction>)
    ensures forall t :: t in r <==> t in txs && t.id != id
  {
    Filter(txs, TxIdIsNot(id))
  }

  /** One step of the `balance` reduce. */
  function BalanceStep(acc: int, t: Transaction): int {
    if t.kind == Contribution then acc + t.amount else acc - t.amount
  }

  /** `balance`: `reduce` from 0, a left fold, so the last transaction is applied last. */
  function Balance(txs: seq<Transaction>): int {
    if txs == [] then 0 else BalanceStep(Balance(txs[..|txs| - 1]), txs[|txs| - 1])
  }

  /** The sum of the amounts of the transactions of one kind. */
  function SumOfKind(txs: seq<Transaction>, kind: TxType): int {
    if txs == [] then 0
    else (if txs[0].kind == kind then txs[0].amount else 0) + SumOfKind(txs[1..], kind)
  }

  lemma {:induction false} SumOfKindAppend(txs: seq<Transaction>, t: Transaction, kind: TxType)
    ensures SumOfKind(txs + [t], kind) == SumOfKind(txs, kind) + (if t.kind == kind then t.amount else 0)
  {
    if txs != [] {
      assert (txs + [t])[1..] == txs[1..] + [t];
      SumOfKindAppend(txs[1..], t, kind);
    } else {
      assert [t][1..] == [];
    }
  }

  /** The balance is all contributions minus all expenses (so 0 for no transactions). */
  lemma {:induction false} BalanceIsContributionsMinusExpenses(txs: seq<Transaction>)
    ensures Balance(txs) == SumOfKind(txs, Contribution) - SumOfKind(txs, Expense)
  {
    if txs != [] {
      var init, last := txs[..|txs| - 1], txs[|txs| - 1];
      assert txs == init + [last];
      BalanceIsContributionsMinusExpenses(init);
      SumOfKindAppend(init, last, Contribution);
      SumOfKindAppend(init, last, Expense);
    }
  }

  /** A transaction put in front raises the balance by a contribution and lowers it by an expense. */
  lemma BalancePrepend(t: Transaction, txs: seq<Transaction>)
    ensures Balance([t] + txs) == Balance(txs) + (if t.kind == Contribution then t.amount else -t.amount)
  {
    BalanceIsContributionsMinusExpenses([t] + txs);
    BalanceIsContributionsMinusExpenses(txs);
    assert ([t] + txs)[1..] == txs;
  }

  /** What `handleAdd` does to the balance. */
  lemma AddTransactionBalance(
    txs: seq<Transaction>, amountText: string, amount: int, description: string,
    kind: TxType, payer: Id, id: Id, now: Instant)
    ensures Balance(AddTransaction(txs, amountText, amount, description, kind, payer, id, now)) ==
      if amountText == "" || description == "" then Balance(txs)
      else if kind == Contribution then Balance(txs) + amount
      else Balance(txs) - amount
  {
    if amountText != "" && description != "" {
      BalancePrepend(Transaction(id, payer, amount, description, now, kind), txs);
    }
  }

  /** Deleting keeps the order of the remaining transactions and every copy of each of them. */
  lemma DeleteTransactionKeepsOthersInOrder(txs: seq<Transaction>, id: Id)
    ensures IsSubsequence(DeleteTransaction(txs, id), txs)
    ensures forall t: Transaction :: t.id != id ==> multiset(DeleteTransaction(txs, id))[t] == multiset(txs)[t]
  {
    FilterIsSubsequence(txs, TxIdIsNot(id));
    forall t: Transaction | t.id != id ensures multiset(DeleteTransaction(txs, id))[t] == multiset(txs)[t] {
      FilterMultiplicity(txs, TxIdIsNot(id), t);
    }
  }

  // ---- The spending chart ----

  function IsExpense(): Transaction -> bool {
    (t: Transaction) => t.kind == Expense
  }

  /** `transactions.filter(t => t.type === 'expense')`. */
  function Expenses(txs: seq<Transaction>): (es: seq<Transaction>)
    ensures forall t :: t in es <==> t in txs && t.kind == Expense
  {
    Filter(txs, IsExpense())
  }

  /** The expenses keep their order in the ledger and every copy of each expense. */
  lemma ExpensesKeepOrder(txs: seq<Transaction>)
    ensures IsSubsequence(Expenses(txs), txs)
    ensures forall t: Transaction :: t.kind == Expense ==> multiset(Expenses(txs))[t] == multiset(txs)[t]
  {
    FilterIsSubsequence(txs, IsExpense());
    forall t: Transaction | t.kind == Expense ensures multiset(Expenses(txs))[t] == multiset(txs)[t] {
      FilterMultiplicity(txs, IsExpense(), t);
    }
  }

  /**
   * The keys of the chart's `Map`, in the order a `Map` keeps them: each
   * payer once, at the position of its first expense.
   */
  function PayerOrder(es: seq<Transaction>): seq<Id> {
    if es == [] then []
    else
      var order := PayerOrder(es[..|es| - 1]);
      var p := es[|es| - 1].payerId;
      if p in order then order else order + [p]
  }

  /** The keys are distinct, and a payer is a key exactly when one of the expenses is theirs. */
  lemma {:induction false} PayerOrderKeys(es: seq<Transaction>)
    ensures forall i, j :: 0 <= i < j < |PayerOrder(es)| ==> PayerOrder(es)[i] != PayerOrder(es)[j]
    ensures forall k :: k in PayerOrder(es) <==> exists i :: 0 <= i < |es| && es[i].payerId == k
  {
    if es != [] {
      var init := es[..|es| - 1];
      PayerOrderKeys(init);
      assert forall i :: 0 <= i < |init| ==> init[i] == es[i];
    }
  }

  /** The amount the chart's `Map` holds for `payer`: the sum of that payer's expenses. */
  function PayerTotal(es: seq<Transaction>, payer: Id): int {
    if es == [] then 0
    else
      var last := es[|es| - 1];
      PayerTotal(es[..|es| - 1], payer) + (if last.payerId == payer then last.amount else 0)
  }

  /** One slice of the pie chart. */
  datatype Slice = Slice(name: string, value: int)

  /** `user?.name || '未知'`: the first roommate with the id names it, unless there is none or its name is empty. */
  function PayerName(roommates: seq<Roommate>, id: Id): (name: string)
    ensures (forall i :: 0 <= i < |roommates| ==> roommates[i].id != id) ==> name == UnknownName
    ensures name != UnknownName ==> exists i :: 0 <= i < |roommates| && roommates[i].id == id && roommates[i].name == name
    ensures forall i :: FirstWithId(roommates, id, i) ==> name == (if roommates[i].name == "" then UnknownName else roommates[i].name)
  {
    var k := FindIndex(roommates, HasId(id));
    assert forall i :: 0 <= i < |roommates| ==> (HasId(id)(roommates[i]) <==> roommates[i].id == id);
    match Find(roommates, HasId(id))
    case None => UnknownName
    case Some(r) => if r.name == "" then UnknownName else r.name
  }

  /**
   * `spendingData`: one slice per payer with an expense, in the order of
   * their first expenses, holding the sum of that payer's expenses.
   */
  method SpendingData(txs: seq<Transaction>, roommates: seq<Roommate>) returns (data: seq<Slice>)
    ensures |data| == |PayerOrder(Expenses(txs))|
    ensures forall i :: 0 <= i < |data| ==>
      var payer := PayerOrder(Expenses(txs))[i];
      data[i] == Slice(PayerName(roommates, payer), PayerTotal(Expenses(txs), payer))
  {
    var es := Expenses(txs);
    var keys, totals := PayerTotals(es);
    TotalsMapMatches(es);
    data := seq(|keys|, j requires 0 <= j < |keys| => Slice(PayerName(roommates, keys[j]), totals[keys[j]]));
  }

  /** The `Map` after the `forEach` over `es`: `get` (or 0), add the amount, `set`, one expense at a time. */
  function TotalsMap(es: seq<Transaction>): map<Id, int> {
    if es == [] then map[]
    else
      var m := TotalsMap(es[..|es| - 1]);
      var t := es[|es| - 1];
      m[t.payerId := (if t.payerId in m then m[t.payerId] else 0) + t.amount]
  }

  /** The `Map`'s keys are the payers with an expense, and each holds the sum of that payer's expenses. */
  lemma {:induction false} TotalsMapMatches(es: seq<Transaction>)
    ensures forall k :: k in TotalsMap(es) <==> k in PayerOrder(es)
    ensures forall k :: k in TotalsMap(es) ==> TotalsMap(es)[k] == PayerTotal(es, k)
  {
    if es != [] {
      var init, t := es[..|es| - 1], es[|es| - 1];
      assert es == init + [t];
      TotalsMapMatches(init);
      forall k ensures PayerTotal(es, k) == PayerTotal(init, k) + (if t.payerId == k then t.amount else 0) {
        PayerTotalAppend(init, t, k);
      }
      if t.payerId !in TotalsMap(init) {
        PayerTotalAbsent(init, t.payerId);
      }
    }
  }

  /** One more expense: its payer's total grows, and its payer is appended to the keys if new. */
  lemma MapAppend(seen: seq<Transaction>, t: Transaction)
    ensures var m := TotalsMap(seen);
      TotalsMap(seen + [t]) == m[t.payerId := (if t.payerId in m then m[t.payerId] else 0) + t.amount]
    ensures var order := PayerOrder(seen);
      PayerOrder(seen + [t]) == if t.payerId in order then order else order + [t.payerId]
  {
    assert (seen + [t])[..|seen|] == seen;
  }

  /** One iteration of the `forEach` keeps the keys and the contents in step with the expenses seen. */
  lemma PayerTotalsStep(seen: seq<Transaction>, t: Transaction, keys: seq<Id>, totals: map<Id, int>)
    requires keys == PayerOrder(seen) && totals == TotalsMap(seen)
    ensures (if t.payerId in totals then keys else keys + [t.payerId]) == PayerOrder(seen + [t])
    ensures totals[t.payerId := (if t.payerId in totals then totals[t.payerId] else 0) + t.amount] == TotalsMap(seen + [t])
  {
    TotalsMapMatches(seen);
    MapAppend(seen, t);
  }

  /**
   * The `forEach` over the expenses, filling the `Map`: its keys in
   * insertion order, and its contents.
   */
  method PayerTotals(es: seq<Transaction>) returns (keys: seq<Id>, totals: map<Id, int>)
    ensures keys == PayerOrder(es)
    ensures totals == TotalsMap(es)
  {
    keys, totals := [], map[];
    var i := 0;
    while i < |es|
      invariant 0 <= i <= |es|
      invariant keys == PayerOrder(es[..i])
      invariant totals == TotalsMap(es[..i])
    {
      var t := es[i];
      ghost var seen := es[..i];
      assert es[..i + 1] == seen + [t];
      PayerTotalsStep(seen, t, keys, totals);
      var current := if t.payerId in totals then totals[t.payerId] else 0;
      if t.payerId !in totals {
        keys := keys + [t.payerId];
      }
      totals := totals[t.payerId := current + t.amount];
      i := i + 1;
    }
    assert es[..i] == es;
  }

  /** The sum of the Map's values over `keys`. */
  function SumTotals(keys: seq<Id>, es: seq<Transaction>): int {
    if keys == [] then 0 else PayerTotal(es, keys[0]) + SumTotals(keys[1..], es)
  }

  /** The sum of all amounts. */
  function TotalAmount(es: seq<Transaction>): int {
    if es == [] then 0 else es[0].amount + TotalAmount(es[1..])
  }

  lemma {:induction false} TotalAmountAppend(es: seq<Transaction>, t: Transaction)
    ensures TotalAmount(es + [t]) == TotalAmount(es) + t.amount
  {
    if es != [] {
      assert (es + [t])[1..] == es[1..] + [t];
      TotalAmountAppend(es[1..], t);
    } else {
      assert [t][1..] == [];
    }
  }

  lemma PayerTotalAppend(es: seq<Transaction>, t: Transaction, k: Id)
    ensures PayerTotal(es + [t], k) == PayerTotal(es, k) + (if t.payerId == k then t.amount else 0)
  {
    assert (es + [t])[..|es|] == es;
  }

  /** A payer that is not among the keys has spent nothing. */
  lemma {:induction false} PayerTotalAbsent(es: seq<Transaction>, k: Id)
    requires k !in PayerOrder(es)
    ensures PayerTotal(es, k) == 0
  {
    if es != [] {
      var init := es[..|es| - 1];
      assert forall i :: 0 <= i < |init| ==> init[i] == es[i];
      PayerTotalAbsent(init, k);
    }
  }

  /** Adding one expense adds its amount to the sum over distinct keys that include its payer. */
  lemma {:induction false} SumTotalsShift(keys: seq<Id>, es: seq<Transaction>, t: Transaction)
    requires forall i, j :: 0 <= i < j < |keys| ==> keys[i] != keys[j]
    ensures SumTotals(keys, es + [t]) == SumTotals(keys, es) + (if t.payerId in keys then t.amount else 0)
  {
    if keys != [] {
      PayerTotalAppend(es, t, keys[0]);
      SumTotalsShift(keys[1..], es, t);
      assert t.payerId in keys <==> t.payerId == keys[0] || t.payerId in keys[1..] by {
        assert keys == [keys[0]] + keys[1..];
      }
      assert t.payerId == keys[0] ==> t.payerId !in keys[1..];
    }
  }

  lemma {:induction false} SumTotalsAppendKey(keys: seq<Id>, p: Id, es: seq<Transaction>)
    ensures SumTotals(keys + [p], es) == SumTotals(keys, es) + PayerTotal(es, p)
  {
    if keys != [] {
      assert (keys + [p])[1..] == keys[1..] + [p];
      SumTotalsAppendKey(keys[1..], p, es);
    } else {
      assert [p][1..] == [];
    }
  }

  /** The chart's values add up to the amount of all the expenses they were built from. */
  lemma {:induction false} PayerTotalsSum(es: seq<Transaction>)
    ensures SumTotals(PayerOrder(es), es) == TotalAmount(es)
  {
    if es != [] {
      var init, t := es[..|es| - 1], es[|es| - 1];
      assert es == init + [t];
      PayerTotalsSum(init);
      TotalAmountAppend(init, t);
      var order := PayerOrder(init);
      PayerOrderKeys(init);
      SumTotalsShift(order, init, t);
      if t.payerId !in order {
        SumTotalsAppendKey(order, t.payerId, es);
        PayerTotalAppend(init, t, t.payerId);
        PayerTotalAbsent(init, t.payerId);
      }
    }
  }

  /** The expenses among the transactions sum to the total expenses. */
  lemma {:induction false} ExpensesTotal(txs: seq<Transaction>)
    ensures TotalAmount(Expenses(txs)) == SumOfKind(txs, Expense)
  {
    if txs != [] {
      ExpensesTotal(txs[1..]);
    }
  }

  /**
   * The chart counts expenses only, and all of them: its values sum to the
   * total of the expense transactions, and a payer has a slice exactly
   * when it paid at least one expense.
   */
  lemma SpendingMatchesExpenses(txs: seq<Transaction>)
    ensures SumTotals(PayerOrder(Expenses(txs)), Expenses(txs)) == SumOfKind(txs, Expense)
    ensures forall k :: k in PayerOrder(Expenses(txs)) <==> exists t :: t in txs && t.kind == Expense && t.payerId == k
  {
    var es := Expenses(txs);
    PayerTotalsSum(es);
    ExpensesTotal(txs);
    PayerOrderKeys(es);
    forall k ensures k in PayerOrder(es) <==> exists t :: t in txs && t.kind == Expense && t.payerId == k {
      if exists t :: t in txs && t.kind == Expense && t.payerId == k {
        var t :| t in txs && t.kind == Expense && t.payerId == k;
        assert t in es;
      }
    }
  }

  /** A contribution put in front leaves the chart as it was. */
  lemma ContributionLeavesSpendingUnchanged(c: Transaction, txs: seq<Transaction>)
    requires c.kind == Contribution
    ensures Expenses([c] + txs) == Expenses(txs)
  {
    assert ([c] + txs)[1..] == txs;
  }

  function PaidBy(k: Id): Transaction -> bool {
    (t: Transaction) => t.payerId == k
  }

  /** The slices come in the order of each payer's first expense. */
  lemma {:induction false} PayerOrderFollowsFirstExpense(es: seq<Transaction>)
    ensures forall i, j :: 0 <= i < j < |PayerOrder(es)| ==>
      FindIndex(es, PaidBy(PayerOrder(es)[i])) < FindIndex(es, PaidBy(PayerOrder(es)[j]))
  {
    if es != [] {
      var init, t := es[..|es| - 1], es[|es| - 1];
      assert es == init + [t];
      PayerOrderFollowsFirstExpense(init);
      PayerOrderKeys(init);
      var order := PayerOrder(init);
      forall k | k in order
        ensures FindIndex(es, PaidBy(k)) == FindIndex(init, PaidBy(k)) < |init|
      {
        FirstPaymentKept(init, t, k);
      }
      if t.payerId !in order {
        FirstPaymentNew(init, t);
      }
    }
  }

  /** A new payer's first expense is the appended one. */
  lemma FirstPaymentNew(init: seq<Transaction>, t: Transaction)
    requires t.payerId !in PayerOrder(init)
    ensures FindIndex(init + [t], PaidBy(t.payerId)) == |init|
  {
    PayerOrderKeys(init);
    FindIndexAppend(init, t, PaidBy(t.payerId));
    assert forall i :: 0 <= i < |init| ==> !PaidBy(t.payerId)(init[i]);
  }

  /** A payer already seen keeps the index of their first expense when another expense is appended. */
  lemma FirstPaymentKept(init: seq<Transaction>, t: Transaction, k: Id)
    requires k in PayerOrder(init)
    ensures FindIndex(init + [t], PaidBy(k)) == FindIndex(init, PaidBy(k)) < |init|
  {
    PayerOrderKeys(init);
    var m :| 0 <= m < |init| && init[m].payerId == k;
    assert PaidBy(k)(init[m]);
    FindIndexAppend(init, t, PaidBy(k));
  }
}
