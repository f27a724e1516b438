/**
 * The dashboard of the balance controller (getDashboardBalances): one user's balance in
 * every group they belong to, added up into a net total, what they owe and what they
 * are owed.
 */
module Dashboard {
  import opened Ledger
  import opened Balances

  /** The records of one group, as the balance fold reads them. */
  datatype GroupLedger = GroupLedger(expenses: seq<Expense>, settlements: seq<Settlement>)

  /** `balances[userId] || 0` for one group. */
  function BalanceIn(u: UserId, g: GroupLedger): int {
    Get(FoldLedger(g.expenses, g.settlements), u)
  }

  /** The user's balances added up over the groups. */
  function NetAcross(u: UserId, gs: seq<GroupLedger>): int {
    if gs == [] then 0 else NetAcross(u, gs[..|gs| - 1]) + BalanceIn(u, gs[|gs| - 1])
  }

  /** The positive balances added up: what the user is owed. */
  function OwedAcross(u: UserId, gs: seq<GroupLedger>): int {
    if gs == [] then 0
    else
      var bal := BalanceIn(u, gs[|gs| - 1]);
      OwedAcross(u, gs[..|gs| - 1]) + (if bal > 0 then bal else 0)
  }

  /** The magnitudes of the negative balances added up: what the user owes. */
  function OweAcross(u: UserId, gs: seq<GroupLedger>): int {
    if gs == [] then 0
    else
      var bal := BalanceIn(u, gs[|gs| - 1]);
      OweAcross(u, gs[..|gs| - 1]) + (if bal < 0 then -bal else 0)
  }

  /** Both partial sums are never negative, and the net is what is owed less what is owed out. */
  lemma {:induction false} NetIsOwedLessOwe(u: UserId, gs: seq<GroupLedger>)
    ensures OwedAcross(u, gs) >= 0 && OweAcross(u, gs) >= 0
    ensures NetAcross(u, gs) == OwedAcross(u, gs) - OweAcross(u, gs)
    decreases |gs|
  {
    if gs != [] {
      NetIsOwedLessOwe(u, gs[..|gs| - 1]);
    }
  }

  /** The totals over two lists of groups are the sums of the totals over each. */
  lemma {:induction false} AcrossConcat(u: UserId, a: seq<GroupLedger>, b: seq<GroupLedger>)
    ensures NetAcross(u, a + b) == NetAcross(u, a) + NetAcross(u, b)
    ensures OwedAcross(u, a + b) == OwedAcross(u, a) + OwedAcross(u, b)
    ensures OweAcross(u, a + b) == OweAcross(u, a) + OweAcross(u, b)
    decreases |b|
  {
    if b == [] {
      assert a + b == a;
    } else {
      assert (a + b)[..|a + b| - 1] == a + b[..|b| - 1];
      AcrossConcat(u, a, b[..|b| - 1]);
    }
  }

  /**
   * The totals do not depend on the order in which the groups are listed: swapping two
   * neighbouring runs of groups changes none of them, and such swaps reach every order.
   */
  lemma GroupOrderIrrelevant(u: UserId, p: seq<GroupLedger>, a: seq<GroupLedger>, b: seq<GroupLedger>,
                             q: seq<GroupLedger>)
    ensures NetAcross(u, p + a + b + q) == NetAcross(u, p + b + a + q)
    ensures OwedAcross(u, p + a + b + q) == OwedAcross(u, p + b + a + q)
    ensures OweAcross(u, p + a + b + q) == OweAcross(u, p + b + a + q)
  {
    AcrossConcat(u, p + a + b, q);
    AcrossConcat(u, p + a, b);
    AcrossConcat(u, p, a);
    AcrossConcat(u, p + b + a, q);
    AcrossConcat(u, p + b, a);
    AcrossConcat(u, p, b);
  }

  /**
   * The user's balance in one group is what the group's expenses leave them with, plus
   * what they paid out in settlements, less what they received.
   */
  lemma BalanceInMeaning(u: UserId, g: GroupLedger)
    ensures BalanceIn(u, g) == ExpenseNet(u, g.expenses) + PaidBy(u, g.settlements) - ReceivedBy(u, g.settlements)
  {
    FoldLedgerPointwise(g.expenses, g.settlements, u);
  }

  /** The for loop over the user's groups. */
  method DashboardBalances(userId: UserId, groups: seq<GroupLedger>)
    returns (totalBalance: int, youOwe: int, owedToYou: int)
    ensures totalBalance == NetAcross(userId, groups)
    ensures youOwe == OweAcross(userId, groups) && owedToYou == OwedAcross(userId, groups)
    ensures youOwe >= 0 && owedToYou >= 0 && totalBalance == owedToYou - youOwe
  {
    totalBalance, youOwe, owedToYou := 0, 0, 0;
    for k := 0 to |groups|
      invariant totalBalance == NetAcross(userId, groups[..k])
      invariant youOwe == OweAcross(userId, groups[..k])
      invariant owedToYou == OwedAcross(userId, groups[..k])
    {
      var balances := CalculateBalances(groups[k].expenses, groups[k].settlements);
      var myBal := Get(balances, userId);
      totalBalance := totalBalance + myBal;
      if myBal > 0 {
        owedToYou := owedToYou + myBal;
      }
      if myBal < 0 {
        youOwe := youOwe + -myBal;
      }
      assert groups[..k + 1][..k] == groups[..k];
    }
    assert groups[..|groups|] == groups;
    NetIsOwedLessOwe(userId, groups);
  }
}
