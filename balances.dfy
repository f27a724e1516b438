/**
 * The balance fold of the balance controller (calculateBalances) and the two thin
 * handlers around it: reading a group's balances and recording a payment.
 */
module Balances {
  import opened Ledger

  /**
   * The `balances` object of calculateBalances: net cents per user, positive when the
   * user is owed money. `users` lists the keys in the order they were first assigned,
   * which is the order in which the object's entries are later enumerated.
   */
  datatype BalanceMap = BalanceMap(users: seq<UserId>, amount: map<UserId, int>)

  const Empty: BalanceMap := BalanceMap([], map[])

  ghost predicate Distinct(us: seq<UserId>) {
    forall i, j :: 0 <= i < j < |us| ==> us[i] != us[j]
  }

  /** Every key is listed once, and the list holds exactly the keys. */
  ghost predicate Valid(b: BalanceMap) {
    && Distinct(b.users)
    && (forall u :: u in b.amount <==> u in b.users)
  }

  /** `balances[u] || 0`: an absent user reads as zero. */
  function Get(b: BalanceMap, u: UserId): int {
    if u in b.amount then b.amount[u] else 0
  }

  /** `balances[u] = (balances[u] || 0) + x`. */
  function Credit(b: BalanceMap, u: UserId, x: int): BalanceMap
  {
    if u in b.amount then BalanceMap(b.users, b.amount[u := b.amount[u] + x])
    else BalanceMap(b.users + [u], b.amount[u := x])
  }

  /**
   * Crediting moves `u`'s balance by exactly `x`, leaves every other balance as it
   * was, and gives `u` an entry if it had none.
   */
  lemma CreditMoves(b: BalanceMap, u: UserId, x: int, v: UserId)
    ensures Get(Credit(b, u, x), v) == Get(b, v) + (if v == u then x else 0)
    ensures Credit(b, u, x).amount.Keys == b.amount.Keys + {u}
  {
  }

  // ----- Reference definitions: what each record contributes to one user -----

  /** What a split takes from user `u`. */
  function SplitDebit(u: UserId, s: Split): int {
    if Counts(s) && s.user.value == u then s.amount.value else 0
  }

  function SplitDebits(u: UserId, splits: seq<Split>): int {
    if splits == [] then 0
    else SplitDebits(u, splits[..|splits| - 1]) + SplitDebit(u, splits[|splits| - 1])
  }

  /** The users a list of splits debits. */
  function SplitUsers(splits: seq<Split>): set<UserId> {
    if splits == [] then {}
    else
      var s := splits[|splits| - 1];
      SplitUsers(splits[..|splits| - 1]) + (if Counts(s) then {s.user.value} else {})
  }

  /** What one expense does to user `u`: paid in full, minus the user's own share. */
  function ExpenseShare(u: UserId, e: Expense): int {
    (if e.paidBy == u then e.amount else 0) - SplitDebits(u, e.splits)
  }

  function ExpenseNet(u: UserId, es: seq<Expense>): int {
    if es == [] then 0
    else ExpenseNet(u, es[..|es| - 1]) + ExpenseShare(u, es[|es| - 1])
  }

  function ExpenseUsers(es: seq<Expense>): set<UserId> {
    if es == [] then {}
    else
      var e := es[|es| - 1];
      ExpenseUsers(es[..|es| - 1]) + {e.paidBy} + SplitUsers(e.splits)
  }

  /** Total paid by `u` across a list of payments. */
  function PaidBy(u: UserId, ss: seq<Settlement>): int {
    if ss == [] then 0
    else
      var s := ss[|ss| - 1];
      PaidBy(u, ss[..|ss| - 1]) + (if s.from == u then s.amount else 0)
  }

  /** Total received by `u` across a list of payments. */
  function ReceivedBy(u: UserId, ss: seq<Settlement>): int {
    if ss == [] then 0
    else
      var s := ss[|ss| - 1];
      ReceivedBy(u, ss[..|ss| - 1]) + (if s.to == u then s.amount else 0)
  }

  function SettlementUsers(ss: seq<Settlement>): set<UserId> {
    if ss == [] then {}
    else
      var s := ss[|ss| - 1];
      SettlementUsers(ss[..|ss| - 1]) + {s.from, s.to}
  }

  /** What the expenses add to the sum of all balances: paid amounts minus applied splits. */
  function Imbalance(es: seq<Expense>): int {
    if es == [] then 0
    else
      var e := es[|es| - 1];
      Imbalance(es[..|es| - 1]) + (e.amount - SplitTotal(e.splits))
  }

  // ----- The fold, step by step, as the source applies it -----

  /** The inner forEach: debit each split's user, skipping splits without user or amount. */
  function ApplySplits(b: BalanceMap, splits: seq<Split>): (r: BalanceMap)
  {
    if splits == [] then b
    else
      var prev := ApplySplits(b, splits[..|splits| - 1]);
      var s := splits[|splits| - 1];
      if Counts(s) then Credit(prev, s.user.value, -s.amount.value) else prev
  }

  /** One expense: credit the payer the full amount, then debit the splits. */
  function ApplyExpense(b: BalanceMap, e: Expense): (r: BalanceMap)
  {
    ApplySplits(Credit(b, e.paidBy, e.amount), e.splits)
  }

  function ApplyExpenses(b: BalanceMap, es: seq<Expense>): (r: BalanceMap)
  {
    if es == [] then b else ApplyExpense(ApplyExpenses(b, es[..|es| - 1]), es[|es| - 1])
  }

  /** One settlement: credit `from`, then debit `to`. */
  function ApplySettlement(b: BalanceMap, s: Settlement): (r: BalanceMap)
  {
    Credit(Credit(b, s.from, s.amount), s.to, -s.amount)
  }

  function ApplySettlements(b: BalanceMap, ss: seq<Settlement>): (r: BalanceMap)
  {
    if ss == [] then b else ApplySettlement(ApplySettlements(b, ss[..|ss| - 1]), ss[|ss| - 1])
  }

  /** calculateBalances: all expenses first, then all settlements. */
  function FoldLedger(es: seq<Expense>, ss: seq<Settlement>): BalanceMap
  {
    ApplySettlements(ApplyExpenses(Empty, es), ss)
  }

  // ----- The fold keeps every key listed exactly once -----

  lemma CreditValid(b: BalanceMap, u: UserId, x: int)
    requires Valid(b)
    ensures Valid(Credit(b, u, x))
  {
    var r := Credit(b, u, x);
    if u !in b.amount {
      forall i, j | 0 <= i < j < |r.users|
        ensures r.users[i] != r.users[j]
      {
        if j == |b.users| {
          assert r.users[i] == b.users[i];
        }
      }
    }
  }

  lemma {:induction false} ApplySplitsValid(b: BalanceMap, splits: seq<Split>)
    requires Valid(b)
    ensures Valid(ApplySplits(b, splits))
    decreases |splits|
  {
    if splits != [] {
      var init := splits[..|splits| - 1];
      var s := splits[|splits| - 1];
      ApplySplitsValid(b, init);
      if Counts(s) {
        CreditValid(ApplySplits(b, init), s.user.value, -s.amount.value);
      }
    }
  }

  lemma {:induction false} ApplyExpensesValid(b: BalanceMap, es: seq<Expense>)
    requires Valid(b)
    ensures Valid(ApplyExpenses(b, es))
    decreases |es|
  {
    if es != [] {
      var init := es[..|es| - 1];
      var e := es[|es| - 1];
      ApplyExpensesValid(b, init);
      CreditValid(ApplyExpenses(b, init), e.paidBy, e.amount);
      ApplySplitsValid(Credit(ApplyExpenses(b, init), e.paidBy, e.amount), e.splits);
    }
  }

  lemma {:induction false} ApplySettlementsValid(b: BalanceMap, ss: seq<Settlement>)
    requires Valid(b)
    ensures Valid(ApplySettlements(b, ss))
    decreases |ss|
  {
    if ss != [] {
      var init := ss[..|ss| - 1];
      var s := ss[|ss| - 1];
      ApplySettlementsValid(b, init);
      CreditValid(ApplySettlements(b, init), s.from, s.amount);
      CreditValid(Credit(ApplySettlements(b, init), s.from, s.amount), s.to, -s.amount);
    }
  }

  /** The computed balances list every user with an entry exactly once. */
  lemma FoldLedgerValid(es: seq<Expense>, ss: seq<Settlement>)
    ensures Valid(FoldLedger(es, ss))
  {
    ApplyExpensesValid(Empty, es);
    ApplySettlementsValid(ApplyExpenses(Empty, es), ss);
  }

  // ----- The order in which the fold lists its keys -----

  /**
   * `us` followed by the names of `ns` not seen before, each at its first occurrence:
   * the key order of an object to which the names of `ns` are assigned one by one.
   */
  function Extend(us: seq<UserId>, ns: seq<UserId>): seq<UserId> {
    if ns == [] then us
    else
      var seen := Extend(us, ns[..|ns| - 1]);
      if ns[|ns| - 1] in seen then seen else seen + [ns[|ns| - 1]]
  }

  /** The users the split loop assigns to, in order. */
  function SplitNames(splits: seq<Split>): seq<UserId> {
    if splits == [] then []
    else
      var s := splits[|splits| - 1];
      SplitNames(splits[..|splits| - 1]) + (if Counts(s) then [s.user.value] else [])
  }

  /** The users the expense loop assigns to, in order: each payer, then its split users. */
  function ExpenseNames(es: seq<Expense>): seq<UserId> {
    if es == [] then []
    else
      var e := es[|es| - 1];
      ExpenseNames(es[..|es| - 1]) + ([e.paidBy] + SplitNames(e.splits))
  }

  /** The users the settlement loop assigns to, in order: each payer, then its payee. */
  function SettlementNames(ss: seq<Settlement>): seq<UserId> {
    if ss == [] then []
    else
      var s := ss[|ss| - 1];
      SettlementNames(ss[..|ss| - 1]) + [s.from, s.to]
  }

  lemma {:induction false} ExtendConcat(us: seq<UserId>, a: seq<UserId>, b: seq<UserId>)
    ensures Extend(us, a + b) == Extend(Extend(us, a), b)
    decreases |b|
  {
    if b == [] {
      assert a + b == a;
    } else {
      assert (a + b)[..|a + b| - 1] == a + b[..|b| - 1];
      ExtendConcat(us, a, b[..|b| - 1]);
    }
  }

  lemma CreditUsers(b: BalanceMap, u: UserId, x: int)
    requires Valid(b)
    ensures Credit(b, u, x).users == Extend(b.users, [u])
  {
    assert [u][..0] == [];
  }

  lemma {:induction false} ApplySplitsUsers(b: BalanceMap, splits: seq<Split>)
    requires Valid(b)
    ensures ApplySplits(b, splits).users == Extend(b.users, SplitNames(splits))
    decreases |splits|
  {
    if splits != [] {
      var init, s := splits[..|splits| - 1], splits[|splits| - 1];
      ApplySplitsUsers(b, init);
      ApplySplitsValid(b, init);
      if Counts(s) {
        CreditUsers(ApplySplits(b, init), s.user.value, -s.amount.value);
        ExtendConcat(b.users, SplitNames(init), [s.user.value]);
      } else {
        assert SplitNames(splits) == SplitNames(init);
      }
    }
  }

  lemma {:induction false} ApplyExpensesUsers(b: BalanceMap, es: seq<Expense>)
    requires Valid(b)
    ensures ApplyExpenses(b, es).users == Extend(b.users, ExpenseNames(es))
    decreases |es|
  {
    if es != [] {
      var init, e := es[..|es| - 1], es[|es| - 1];
      var prev := ApplyExpenses(b, init);
      ApplyExpensesUsers(b, init);
      ApplyExpensesValid(b, init);
      CreditUsers(prev, e.paidBy, e.amount);
      CreditValid(prev, e.paidBy, e.amount);
      ApplySplitsUsers(Credit(prev, e.paidBy, e.amount), e.splits);
      ExtendConcat(prev.users, [e.paidBy], SplitNames(e.splits));
      ExtendConcat(b.users, ExpenseNames(init), [e.paidBy] + SplitNames(e.splits));
    }
  }

  lemma {:induction false} ApplySettlementsUsers(b: BalanceMap, ss: seq<Settlement>)
    requires Valid(b)
    ensures ApplySettlements(b, ss).users == Extend(b.users, SettlementNames(ss))
    decreases |ss|
  {
    if ss != [] {
      var init, s := ss[..|ss| - 1], ss[|ss| - 1];
      var prev := ApplySettlements(b, init);
      ApplySettlementsUsers(b, init);
      ApplySettlementsValid(b, init);
      CreditUsers(prev, s.from, s.amount);
      CreditValid(prev, s.from, s.amount);
      CreditUsers(Credit(prev, s.from, s.amount), s.to, -s.amount);
      ExtendConcat(prev.users, [s.from], [s.to]);
      assert [s.from] + [s.to] == [s.from, s.to];
      ExtendConcat(b.users, SettlementNames(init), [s.from, s.to]);
    }
  }

  /**
   * The computed balances list the users in the order in which the loops first assign
   * to them: payers and split users of the expenses in turn, then the payers and payees
   * of the settlements.
   */
  lemma FoldLedgerOrder(es: seq<Expense>, ss: seq<Settlement>)
    ensures FoldLedger(es, ss).users == Extend([], ExpenseNames(es) + SettlementNames(ss))
  {
    ApplyExpensesUsers(Empty, es);
    ApplyExpensesValid(Empty, es);
    ApplySettlementsUsers(ApplyExpenses(Empty, es), ss);
    ExtendConcat([], ExpenseNames(es), SettlementNames(ss));
  }

  // ----- What the fold computes, user by user -----

  lemma {:induction false} ApplySplitsPointwise(b: BalanceMap, splits: seq<Split>, u: UserId)
    ensures Get(ApplySplits(b, splits), u) == Get(b, u) - SplitDebits(u, splits)
    ensures ApplySplits(b, splits).amount.Keys == b.amount.Keys + SplitUsers(splits)
    decreases |splits|
  {
    if splits != [] {
      ApplySplitsPointwise(b, splits[..|splits| - 1], u);
    }
  }

  lemma {:induction false} ApplyExpensesPointwise(b: BalanceMap, es: seq<Expense>, u: UserId)
    ensures Get(ApplyExpenses(b, es), u) == Get(b, u) + ExpenseNet(u, es)
    ensures ApplyExpenses(b, es).amount.Keys == b.amount.Keys + ExpenseUsers(es)
    decreases |es|
  {
    if es != [] {
      var init := es[..|es| - 1];
      var e := es[|es| - 1];
      ApplyExpensesPointwise(b, init, u);
      ApplySplitsPointwise(Credit(ApplyExpenses(b, init), e.paidBy, e.amount), e.splits, u);
    }
  }

  lemma {:induction false} ApplySettlementsPointwise(b: BalanceMap, ss: seq<Settlement>, u: UserId)
    ensures Get(ApplySettlements(b, ss), u) == Get(b, u) + PaidBy(u, ss) - ReceivedBy(u, ss)
    ensures ApplySettlements(b, ss).amount.Keys == b.amount.Keys + SettlementUsers(ss)
    decreases |ss|
  {
    if ss != [] {
      ApplySettlementsPointwise(b, ss[..|ss| - 1], u);
    }
  }

  /**
   * The balance of each user is what they paid for expenses, minus their own shares,
   * plus what they paid in settlements, minus what they received; the users with an
   * entry are exactly those some record names.
   */
  lemma FoldLedgerPointwise(es: seq<Expense>, ss: seq<Settlement>, u: UserId)
    ensures Get(FoldLedger(es, ss), u) == ExpenseNet(u, es) + PaidBy(u, ss) - ReceivedBy(u, ss)
    ensures FoldLedger(es, ss).amount.Keys == ExpenseUsers(es) + SettlementUsers(ss)
  {
    ApplyExpensesPointwise(Empty, es, u);
    ApplySettlementsPointwise(ApplyExpenses(Empty, es), ss, u);
  }

  /**
   * calculateBalances over the fetched records. The closing pass that rounds every
   * entry to two decimals is the identity on cents and is not repeated here.
   */
  method CalculateBalances(expenses: seq<Expense>, settlements: seq<Settlement>)
    returns (balances: BalanceMap)
    ensures balances == FoldLedger(expenses, settlements)
  {
    balances := Empty;
    for k := 0 to |expenses|
      invariant balances == ApplyExpenses(Empty, expenses[..k])
    {
      var exp := expenses[k];
      ghost var before := balances;
      balances := Credit(balances, exp.paidBy, exp.amount);
      for t := 0 to |exp.splits|
          invariant balances == ApplySplits(Credit(before, exp.paidBy, exp.amount), exp.splits[..t])
      {
        var split := exp.splits[t];
        if split.user.Some? && split.amount.Some? {
          balances := Credit(balances, split.user.value, -split.amount.value);
        }
        assert exp.splits[..t + 1][..t] == exp.splits[..t];
      }
      assert exp.splits[..|exp.splits|] == exp.splits;
      assert expenses[..k + 1][..k] == expenses[..k];
    }
    assert expenses[..|expenses|] == expenses;
    for k := 0 to |settlements|
      invariant balances == ApplySettlements(ApplyExpenses(Empty, expenses), settlements[..k])
    {
      var s := settlements[k];
      balances := Credit(balances, s.from, s.amount);
      balances := Credit(balances, s.to, -s.amount);
      assert settlements[..k + 1][..k] == settlements[..k];
    }
    assert settlements[..|settlements|] == settlements;
  }

  /** getBalances: a missing group id is refused before anything is computed. */
  method GetBalances(groupId: GroupId, expenses: seq<Expense>, settlements: seq<Settlement>)
    returns (r: Response<BalanceMap>)
    ensures r.Err? <==> groupId == ""
    ensures r.Err? ==> r.status == BadRequest("Group ID required")
    ensures r.Ok? ==> r.value == FoldLedger(expenses, settlements)
  {
    if groupId == "" {
      return Err(BadRequest("Group ID required"));
    }
    var balances := CalculateBalances(expenses, settlements);
    r := Ok(balances);
  }

  /**
   * settleUp: records a payment from the acting user. It is refused when the group id or
   * `to` is missing or when the amount is missing or zero; nothing else is checked.
   */
  function SettleUp(groupId: GroupId, actor: UserId, to: UserId, amount: Option<int>,
                    recorded: seq<Settlement>): (r: Response<seq<Settlement>>)
    ensures r.Ok? <==> groupId != "" && to != "" && amount.Some? && amount.value != 0
    ensures r.Err? ==> r.status == BadRequest("Missing fields")
    ensures r.Ok? ==> r.value == recorded + [Settlement(actor, to, amount.value)]
  {
    if groupId == "" || to == "" || amount.None? || amount.value == 0 then
      Err(BadRequest("Missing fields"))
    else
      Ok(recorded + [Settlement(actor, to, amount.value)])
  }

  // ----- Sum of all balances -----

  function SumOver(b: BalanceMap, us: seq<UserId>): int {
    if us == [] then 0 else SumOver(b, us[..|us| - 1]) + Get(b, us[|us| - 1])
  }

  /** The sum of every user's balance. */
  function Total(b: BalanceMap): int {
    SumOver(b, b.users)
  }

  lemma {:induction false} SumOverShift(b: BalanceMap, b': BalanceMap, us: seq<UserId>, u: UserId, x: int)
    requires Distinct(us)
    requires forall v :: Get(b', v) == Get(b, v) + (if v == u then x else 0)
    ensures SumOver(b', us) == SumOver(b, us) + (if u in us then x else 0)
    decreases |us|
  {
    if us != [] {
      var init := us[..|us| - 1];
      assert Distinct(init);
      SumOverShift(b, b', init, u, x);
      assert u in us <==> u in init || u == us[|us| - 1];
      assert u == us[|us| - 1] ==> u !in init;
    }
  }

  lemma TotalCredit(b: BalanceMap, u: UserId, x: int)
    requires Valid(b)
    ensures Total(Credit(b, u, x)) == Total(b) + x
  {
    var r := Credit(b, u, x);
    SumOverShift(b, r, b.users, u, x);
    if u in b.amount {
      assert u in b.users;
    } else {
      assert u !in b.users;
      assert r.users[..|r.users| - 1] == b.users;
      assert SumOver(r, r.users) == SumOver(r, b.users) + Get(r, u);
    }
  }

  lemma {:induction false} TotalApplySplits(b: BalanceMap, splits: seq<Split>)
    requires Valid(b)
    ensures Total(ApplySplits(b, splits)) == Total(b) - SplitTotal(splits)
    decreases |splits|
  {
    if splits != [] {
      var init := splits[..|splits| - 1];
      TotalApplySplits(b, init);
      ApplySplitsValid(b, init);
      var s := splits[|splits| - 1];
      if Counts(s) {
        TotalCredit(ApplySplits(b, init), s.user.value, -s.amount.value);
      }
    }
  }

  lemma {:induction false} TotalApplyExpenses(b: BalanceMap, es: seq<Expense>)
    requires Valid(b)
    ensures Total(ApplyExpenses(b, es)) == Total(b) + Imbalance(es)
    decreases |es|
  {
    if es != [] {
      var init := es[..|es| - 1];
      var e := es[|es| - 1];
      TotalApplyExpenses(b, init);
      ApplyExpensesValid(b, init);
      var prev := ApplyExpenses(b, init);
      TotalCredit(prev, e.paidBy, e.amount);
      CreditValid(prev, e.paidBy, e.amount);
      TotalApplySplits(Credit(prev, e.paidBy, e.amount), e.splits);
    }
  }

  lemma TotalApplySettlement(b: BalanceMap, s: Settlement)
    requires Valid(b)
    ensures Total(ApplySettlement(b, s)) == Total(b)
  {
    var mid := Credit(b, s.from, s.amount);
    TotalCredit(b, s.from, s.amount);
    CreditValid(b, s.from, s.amount);
    TotalCredit(mid, s.to, -s.amount);
  }

  lemma {:induction false} TotalApplySettlements(b: BalanceMap, ss: seq<Settlement>)
    requires Valid(b)
    ensures Total(ApplySettlements(b, ss)) == Total(b)
    decreases |ss|
  {
    if ss != [] {
      var init := ss[..|ss| - 1];
      TotalApplySettlements(b, init);
      ApplySettlementsValid(b, init);
      TotalApplySettlement(ApplySettlements(b, init), ss[|ss| - 1]);
    }
  }

  /** The balances sum to what the expenses' splits fail to cover; settlements add nothing. */
  lemma TotalOfLedger(es: seq<Expense>, ss: seq<Settlement>)
    ensures Total(FoldLedger(es, ss)) == Imbalance(es)
  {
    TotalApplyExpenses(Empty, es);
    ApplyExpensesValid(Empty, es);
    TotalApplySettlements(ApplyExpenses(Empty, es), ss);
  }

  lemma {:induction false} ImbalanceOfBalanced(es: seq<Expense>)
    requires forall k :: 0 <= k < |es| ==> Balanced(es[k])
    ensures Imbalance(es) == 0
    decreases |es|
  {
    if es != [] {
      ImbalanceOfBalanced(es[..|es| - 1]);
    }
  }

  /** Zero-sum: when every expense's splits cover its amount, the balances sum to zero. */
  lemma LedgerZeroSum(es: seq<Expense>, ss: seq<Settlement>)
    requires forall k :: 0 <= k < |es| ==> Balanced(es[k])
    ensures Total(FoldLedger(es, ss)) == 0
  {
    TotalOfLedger(es, ss);
    ImbalanceOfBalanced(es);
  }

  // ----- Order independence -----

  lemma {:induction false} ExpenseNetConcat(u: UserId, a: seq<Expense>, b: seq<Expense>)
    ensures ExpenseNet(u, a + b) == ExpenseNet(u, a) + ExpenseNet(u, b)
    ensures ExpenseUsers(a + b) == ExpenseUsers(a) + ExpenseUsers(b)
    decreases |b|
  {
    if b == [] {
      assert a + b == a;
    } else {
      assert (a + b)[..|a + b| - 1] == a + b[..|b| - 1];
      ExpenseNetConcat(u, a, b[..|b| - 1]);
    }
  }

  lemma {:induction false} PaymentsConcat(u: UserId, a: seq<Settlement>, b: seq<Settlement>)
    ensures PaidBy(u, a + b) == PaidBy(u, a) + PaidBy(u, b)
    ensures ReceivedBy(u, a + b) == ReceivedBy(u, a) + ReceivedBy(u, b)
    ensures SettlementUsers(a + b) == SettlementUsers(a) + SettlementUsers(b)
    decreases |b|
  {
    if b == [] {
      assert a + b == a;
    } else {
      assert (a + b)[..|a + b| - 1] == a + b[..|b| - 1];
      PaymentsConcat(u, a, b[..|b| - 1]);
    }
  }

  /**
   * In cents the fold does not depend on the order of the records: swapping two
   * neighbouring runs of expenses, and two neighbouring runs of settlements, leaves every
   * balance as it was. Such swaps reach every reordering.
   */
  lemma LedgerOrderIndependent(ep: seq<Expense>, e1: seq<Expense>, e2: seq<Expense>, eq: seq<Expense>,
                               sp: seq<Settlement>, s1: seq<Settlement>, s2: seq<Settlement>, sq: seq<Settlement>)
    ensures FoldLedger(ep + e1 + e2 + eq, sp + s1 + s2 + sq).amount
         == FoldLedger(ep + e2 + e1 + eq, sp + s2 + s1 + sq).amount
  {
    var es, es' := ep + e1 + e2 + eq, ep + e2 + e1 + eq;
    var ss, ss' := sp + s1 + s2 + sq, sp + s2 + s1 + sq;
    var x, y := FoldLedger(es, ss), FoldLedger(es', ss');
    forall u
      ensures Get(x, u) == Get(y, u) && ExpenseUsers(es) == ExpenseUsers(es')
      ensures SettlementUsers(ss) == SettlementUsers(ss')
    {
      FoldLedgerPointwise(es, ss, u);
      FoldLedgerPointwise(es', ss', u);
      ExpenseNetConcat(u, ep + e1 + e2, eq);
      ExpenseNetConcat(u, ep + e1, e2);
      ExpenseNetConcat(u, ep, e1);
      ExpenseNetConcat(u, ep + e2 + e1, eq);
      ExpenseNetConcat(u, ep + e2, e1);
      ExpenseNetConcat(u, ep, e2);
      PaymentsConcat(u, sp + s1 + s2, sq);
      PaymentsConcat(u, sp + s1, s2);
      PaymentsConcat(u, sp, s1);
      PaymentsConcat(u, sp + s2 + s1, sq);
      PaymentsConcat(u, sp + s2, s1);
      PaymentsConcat(u, sp, s2);
    }
    var someone: UserId := "";
    FoldLedgerPointwise(es, ss, someone);
    FoldLedgerPointwise(es', ss', someone);
    assert x.amount.Keys == y.amount.Keys;
    forall u | u in x.amount
      ensures x.amount[u] == y.amount[u]
    {
      assert Get(x, u) == Get(y, u);
    }
  }

  /** A recorded payment moves exactly the payer's and the payee's balances. */
  lemma RecordedPaymentMovesBalances(groupId: GroupId, actor: UserId, to: UserId, amount: Option<int>,
                                     es: seq<Expense>, recorded: seq<Settlement>, u: UserId)
    requires SettleUp(groupId, actor, to, amount, recorded).Ok?
    ensures var after := SettleUp(groupId, actor, to, amount, recorded).value;
      Get(FoldLedger(es, after), u) ==
        Get(FoldLedger(es, recorded), u)
        + (if u == actor then amount.value else 0) - (if u == to then amount.value else 0)
  {
    var after := SettleUp(groupId, actor, to, amount, recorded).value;
    assert after[..|after| - 1] == recorded;
    FoldLedgerPointwise(es, after, u);
    FoldLedgerPointwise(es, recorded, u);
  }
}
