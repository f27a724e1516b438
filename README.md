# SplitEase ledger core in Dafny

SplitEase is a group expense splitter. Members record expenses, each split among the
group's members. Members also record payments ("settlements") between them. This project
models the arithmetic at the heart of the backend and proves what it promises:

- **The balance fold** (`calculateBalances`) turns a group's expenses and settlements into
  a signed net balance per user. A positive balance means the user is owed money.
  The thin handlers `getBalances` and `settleUp` are modelled too.
- **The settle-up planner** (`getSettleUp`) splits the balances into debtors and creditors.
  It then pairs them with a two-pointer greedy sweep into suggested transfers.
- **The dashboard** (`getDashboardBalances`) adds one user's balances up over all their
  groups. It reports the net total, what they owe and what they are owed.
- **Expense creation and deletion** (`createExpense`, `deleteExpense`):
  - the even split, in which the first member absorbs the rounding remainder;
  - the rule that only the payer or the group's creator may delete an expense.

All money is in integer cents. The source keeps amounts in floating-point numbers and
rounds them to two decimals after each step (`Math.round(x * 100) / 100`, `toFixed(2)`).
On whole cents that rounding is the identity, so the model leaves it out. The source's
thresholds translate as follows:

- a debtor has a balance below -0.01, which means at most -2 cents;
- a creditor has a balance above 0.01, which means at least 2 cents (`Tolerance` is 1 cent);
- "nothing left" (`<= 0.001`) becomes `<= 0`.

Files, one module each:

- `ledger.dfy` (`Ledger`): the records (expenses with optional split fields, settlements,
  groups), the error statuses and the sum of an expense's applied splits.
- `balances.dfy` (`Balances`): the balance object as an insertion-ordered map, the fold,
  `getBalances`, `settleUp`, and the zero-sum and order-independence proofs.
- `settle_up.dfy` (`SettleUp`): the partition, the greedy sweep as a loop, its recursive
  specification, and what the plan does to the balances.
- `dashboard.dfy` (`Dashboard`): the aggregation loop over groups.
- `expenses.dfy` (`Expenses`): the even split, `createExpense` and `deleteExpense`.

The fold and the planner are imperative in the source, and the model keeps them as
methods with loops:

- `CalculateBalances`, `Partition`, `Sweep` and `DashboardBalances` are each proved equal
  to a recursive reference function.
- The properties are proved about those functions as lemmas.

Three points where the code does something other than one might expect:

- **Order of the planner.** A greedy planner is often taken to match the largest debtor
  with the largest creditor. This code does not sort anything: it sweeps both lists in
  the order in which users first received a balance (`FoldLedgerOrder`). `Sweep` and
  `Greedy` follow the code, and `GreedyPayersOrder`/`GreedyPayeesOrder` prove that order.
- **Balances left after the plan.** One might expect that applying the plan leaves every
  balance within 0.01 of zero. The code only guarantees this when total debt equals
  total credit (`SettlePlanEffect`). Balances of exactly one cent fall under the
  tolerance and drop out of both lists, so the two totals can differ. Then a debtor can
  be left more than a cent short. `ToleranceStrandsDebtor` exhibits a ledger of fully
  split expenses that ends with a user still owing 2 cents.
- **The first split.** The first member takes the rounding remainder. Because
  the share is rounded to the nearest cent, that first split can be negative
  (`NegativeFirstShare`). The model does not claim it is non-negative.

## Model

| member | source | states |
|---|---|---|
| Balances.CreditMoves | backend/src/controllers/balanceController.ts:18 | `balances[u] = (balances[u] \|\| 0) + x` moves `u`'s balance by exactly `x`, no other user's, and adds `u` as a key |
| Balances.FoldLedgerValid | backend/src/controllers/balanceController.ts:13-34 | the balance object the fold builds lists every key exactly once, and lists exactly its keys |
| Balances.FoldLedgerOrder | backend/src/controllers/balanceController.ts:13-34 | the balance object lists its keys in the order the loops first assign to them: each expense's payer then its split users, expense by expense, then each settlement's `from` and `to` |
| Balances.ApplySplitsPointwise | backend/src/controllers/balanceController.ts:20-24 | the split loop debits each user by exactly the amounts of their splits; splits without user or amount change nothing; the keys gained are the split users |
| Balances.ApplyExpensesPointwise | backend/src/controllers/balanceController.ts:16-25 | after the expense loop each user's balance is what they paid less their applied splits, over all expenses |
| Balances.ApplySettlementsPointwise | backend/src/controllers/balanceController.ts:28-34 | each settlement adds its amount to `from` and subtracts it from `to`, and no other user changes |
| Balances.FoldLedgerPointwise | backend/src/controllers/balanceController.ts:9-42 | a user's balance is expenses paid less splits owed, plus settlements paid less settlements received; the keys are exactly the users the records name |
| Balances.CalculateBalances | backend/src/controllers/balanceController.ts:9-42 | the nested forEach loops compute exactly the fold: expenses in order, then settlements in order |
| Balances.GetBalances | backend/src/controllers/balanceController.ts:48-68 | a missing group id is refused with 400 "Group ID required"; otherwise the answer is the folded balances |
| Balances.SettleUp | backend/src/controllers/balanceController.ts:143-171 | a payment is refused with 400 "Missing fields" exactly when the group id, `to` or a non-zero amount is missing; otherwise one settlement from the acting user is appended |
| Balances.RecordedPaymentMovesBalances | backend/src/controllers/balanceController.ts:157-162 | a recorded payment raises the payer's balance and lowers the payee's by its amount, and moves nobody else |
| Balances.TotalCredit | backend/src/controllers/balanceController.ts:18 | one credit raises the sum of all balances by exactly its amount |
| Balances.TotalApplySplits | backend/src/controllers/balanceController.ts:20-24 | the split loop lowers the sum of all balances by the total of the applied splits |
| Balances.TotalApplyExpenses | backend/src/controllers/balanceController.ts:16-25 | the expense loop changes the sum of all balances by paid amounts less applied splits |
| Balances.TotalApplySettlements | backend/src/controllers/balanceController.ts:28-34 | settlements leave the sum of all balances unchanged |
| Balances.TotalOfLedger | backend/src/controllers/balanceController.ts:9-42 | the balances sum to the amount by which the expenses are not fully split |
| Balances.ImbalanceOfBalanced | backend/src/controllers/balanceController.ts:16-25 | when every expense's applied splits add up to its amount, the expenses add nothing to the sum |
| Balances.LedgerZeroSum | backend/src/controllers/balanceController.ts:16-34 | zero sum: when every expense is fully split, the balances add up to 0 |
| Balances.LedgerOrderIndependent | backend/src/controllers/balanceController.ts:16-34 | swapping two neighbouring runs of expenses, and two neighbouring runs of settlements, leaves every balance as it was; such swaps reach every order, so the amounts do not depend on the order of the records |
| SettleUp.Partition | backend/src/controllers/balanceController.ts:88-94 | the forEach over the balance entries yields exactly the debtors and the creditors, in entry order |
| SettleUp.ExceedingMembers | backend/src/controllers/balanceController.ts:91-94 | a user is a debtor exactly when their balance is below -0.01, and a creditor exactly when it is above 0.01; users within the tolerance are in neither list |
| SettleUp.ExceedingAmounts | backend/src/controllers/balanceController.ts:92-93 | a debtor's amount is minus their balance and a creditor's is their balance, so every amount exceeds the tolerance |
| SettleUp.PartitionOwed | backend/src/controllers/balanceController.ts:91-94 | over a well-formed balance object, each debtor is listed once for their whole debt and each creditor once for their whole credit |
| SettleUp.SumOverPartition | backend/src/controllers/balanceController.ts:91-94 | the sum of all balances is the total credit less the total debt, plus the balances within the tolerance |
| SettleUp.Pay | backend/src/controllers/balanceController.ts:107-124 | one step with both amounts positive pays `min(debtor, creditor)` from the debtor to the creditor; both remaining amounts drop by it, stay at or above zero, and at least one reaches zero; otherwise nothing is paid |
| SettleUp.Greedy | backend/src/controllers/balanceController.ts:101-128 | the sweep as a recursion that ends because a side is passed over at every step; every transfer it emits is strictly positive |
| SettleUp.SweepStep | backend/src/controllers/balanceController.ts:101-127 | one pass of the loop body at pointers `i`, `j` is one unfolding of the recursive sweep on what remains of both lists |
| SettleUp.Sweep | backend/src/controllers/balanceController.ts:96-128 | the while loop with its two pointers, whose amounts drop at the pointers, emits exactly the recursive sweep |
| SettleUp.GetSettleUp | backend/src/controllers/balanceController.ts:74-137 | a missing group id is refused with 400 "Group ID required"; otherwise the answer is the greedy plan over the folded balances |
| SettleUp.GreedySettles | backend/src/controllers/balanceController.ts:101-128 | no debtor pays more than it owes and no creditor receives more than it is owed; the side with the smaller total is settled in full, so with equal totals each debtor pays exactly its debt and each creditor receives exactly its credit |
| SettleUp.GreedyLength | backend/src/controllers/balanceController.ts:101-128 | the plan has at most one transfer fewer than debtors and creditors together |
| SettleUp.GreedyPayersOrder | backend/src/controllers/balanceController.ts:101-128 | the payers of successive transfers walk the debtor list forward without going back (the debtor pointer never decreases) |
| SettleUp.GreedyPayeesOrder | backend/src/controllers/balanceController.ts:101-128 | the payees of successive transfers walk the creditor list forward without going back |
| SettleUp.SettlePlanTransfers | backend/src/controllers/balanceController.ts:91-128 | every suggested transfer is positive and runs from a user below -0.01 to a different user above 0.01 |
| SettleUp.SettlePlanEffect | backend/src/controllers/balanceController.ts:86-128 | applying the plan moves each debtor up toward zero and each creditor down toward zero without passing it, and leaves users within the tolerance alone; with equal total debt and credit every balance beyond the tolerance becomes exactly zero |
| SettleUp.BalancedLedgerSettles | backend/src/controllers/balanceController.ts:9-128 | for fully split expenses where no balance is exactly one cent either way, following the plan leaves every user at zero |
| SettleUp.ToleranceStrandsDebtor | backend/src/controllers/balanceController.ts:91-94 | with fully split expenses, balances of one cent fall under the tolerance, and the plan can leave a debtor still owing 2 cents |
| Dashboard.DashboardBalances | backend/src/controllers/balanceController.ts:187-198 | the loop over the user's groups sums their balance in each group into the net total, the positive balances into "owed to you" and the magnitudes of the negative ones into "you owe"; both are non-negative and the net is their difference |
| Dashboard.NetIsOwedLessOwe | backend/src/controllers/balanceController.ts:191-197 | over any list of groups, "you owe" and "owed to you" are non-negative, and the net total is "owed to you" less "you owe" |
| Dashboard.GroupOrderIrrelevant | backend/src/controllers/balanceController.ts:191-197 | swapping two neighbouring runs of groups changes none of the three totals; such swaps reach every order, so the totals do not depend on the order in which the groups are listed |
| Dashboard.BalanceInMeaning | backend/src/controllers/balanceController.ts:192-193 | the balance the dashboard reads for a group is the user's expenses net plus settlements paid less received in that group |
| Expenses.RoundedShareNearest | backend/src/controllers/expenseController.ts:39 | the per-member share is the amount over the member count rounded to the nearest cent: the remainder is at most half a cent per member, and ties go away from zero |
| Expenses.EvenSplit | backend/src/controllers/expenseController.ts:38-51 | one split per member in member order, each naming its member with an amount; every split after the first is the rounded share, and the first is the share plus the remainder |
| Expenses.EvenSplitSumsToAmount | backend/src/controllers/expenseController.ts:41-51 | the splits add up exactly to the expense amount |
| Expenses.FirstShareDeviation | backend/src/controllers/expenseController.ts:39-45 | the first split differs from the plain share by at most half a cent per member |
| Expenses.NegativeFirstShare | backend/src/controllers/expenseController.ts:39-45 | 5 cents split among 10 members gives the first member -4 cents |
| Expenses.CreateExpense | backend/src/controllers/expenseController.ts:30-59 | an unknown group is answered 404 "Group not found" and nothing is created; otherwise the expense keeps the amount, is paid by the acting user and carries the even split |
| Expenses.CreatedExpenseBalanced | backend/src/controllers/expenseController.ts:38-59 | an expense created in a group with members is fully split, so it keeps the balances at zero sum |
| Expenses.DeleteExpense | backend/src/controllers/expenseController.ts:77-98 | deletion succeeds exactly when the expense and its group exist and the requester is the payer or the group's creator; the three failures are answered 404, 404 and 403, and the stored expenses stay as they were; on success exactly that expense is removed |
| Expenses.DeleteTwice | backend/src/controllers/expenseController.ts:78-83 | after a successful delete, asking again for the same expense is answered 404 "Expense not found" |

## Left out

- Database queries and saves (`Expense.find`, `Group.findById`, `Settlement.create`, `expense.save`, `findByIdAndDelete`), and Express request/response handling. Fetched records are input sequences and maps. Status codes are the `Status` datatype. Saving a created expense or a payment is returning the new record or the extended list.
- The 500 answers of the `catch` blocks. They come from database failures and thrown exceptions, which are not modelled.
- Floating-point arithmetic. Amounts are whole cents, so the rounding passes (the closing pass of the fold, the sweep's cleanups, the dashboard's display rounding) are the identity and are not repeated. Binary drift of `toFixed(2)` is not modelled: `RoundedShare` rounds the exact quotient, halves away from zero.
- Expenses.RoundedShare: on an exact half cent the source's double quotient lies just below or just above the half, and `toFixed(2)` rounds it that way. For example, 10.01 split between two members gives `5.004999…`, so the source stores the splits `[5.01, 5.00]`, while `EvenSplit` stores `[500, 501]` cents. Both lists add up to the amount, which is what `EvenSplitSumsToAmount` promises; which member gets the odd cent is not modelled.
- Balances.FoldLedgerOrder: the source enumerates the keys with `Object.entries`, which lists string keys in insertion order. Integer-like keys would come first, but user ids are 24-character hex object ids, never such keys.
- Expenses.EvenSplit: the source divides by the member count. For a group without members it computes a non-finite share, but mapping over no members still yields no splits, and that is what the model returns. Groups always contain their creator, so this case does not arise in practice.
- Expenses.CreateExpense: request fields of the wrong type (a missing or non-numeric `amount`) are not modelled. The amount is an integer number of cents, and schema validation on save is part of the database layer.
- Balances.CalculateBalances: the records are filtered by group in the query, so the expenses' `group` field is not consulted. A split's user is treated as present exactly when the optional field is set.
- SettleUp.Sweep: the source's debtors and creditors are objects whose `amount` fields the loop lowers in place. The model keeps them as values in sequences and replaces the entry at the pointer. The `if (!debtor || !creditor) break` guard cannot fire inside the loop bounds and is not modelled.
- Dashboard.DashboardBalances: the query for the user's groups is the input list of group records.
- The group and user controllers, authentication, tokens, e-mail and the frontend. They are plumbing around database calls and foreign libraries, outside the ledger arithmetic.
