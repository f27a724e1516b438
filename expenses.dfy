/**
 * The expense controller's own logic: the even split that createExpense stores with a
 * new expense, and the rule deciding who may delete an expense.
 */
module Expenses {
  import opened Ledger

  /**
   * `amount / n` rounded to whole cents, halves away from zero, as `toFixed(2)` rounds
   * the exact quotient.
   */
  function RoundedShare(amount: int, n: int): int
    requires n >= 1
  {
    if amount >= 0 then (2 * amount + n) / (2 * n) else -((-2 * amount + n) / (2 * n))
  }

  /**
   * The share is a nearest whole-cent quotient: `amount - share * n` is at most half of
   * `n` cents either way, and a tie goes away from zero.
   */
  lemma RoundedShareNearest(amount: int, n: int)
    requires n >= 1
    ensures var d := 2 * (amount - RoundedShare(amount, n) * n);
      && -n <= d <= n
      && (amount >= 0 ==> d < n)
      && (amount < 0 ==> -n < d)
  {
    var s := RoundedShare(amount, n);
    if amount >= 0 {
      var q, r := (2 * amount + n) / (2 * n), (2 * amount + n) % (2 * n);
      assert 2 * amount + n == q * (2 * n) + r && 0 <= r < 2 * n;
      assert s == q;
      assert 2 * (amount - s * n) == r - n;
    } else {
      var q, r := (-2 * amount + n) / (2 * n), (-2 * amount + n) % (2 * n);
      assert -2 * amount + n == q * (2 * n) + r && 0 <= r < 2 * n;
      assert s == -q;
      assert 2 * (amount - s * n) == n - r;
    }
  }

  /**
   * The `members.map` of createExpense: one split per member, in member order, each for
   * the rounded share, except that the first member also takes what the rounding left
   * over. A group without members gets no splits.
   */
  function EvenSplit(members: seq<UserId>, amount: int): (splits: seq<Split>)
    ensures |splits| == |members|
    ensures forall k :: 0 <= k < |splits| ==> Counts(splits[k]) && splits[k].user.value == members[k]
    ensures forall k :: 1 <= k < |splits| ==> splits[k].amount == Some(RoundedShare(amount, |members|))
    ensures members != [] ==>
      var share := RoundedShare(amount, |members|);
      splits[0].amount == Some(share + (amount - share * |members|))
  {
    if members == [] then []
    else
      var n := |members|;
      var share := RoundedShare(amount, n);
      seq(n, k requires 0 <= k < n => Split(Some(members[k]), Some(if k == 0 then share + (amount - share * n) else share)))
  }

  /** The first `k` splits add up to the first share plus `k - 1` plain shares. */
  lemma {:induction false} EvenSplitPrefix(members: seq<UserId>, amount: int, k: nat)
    requires 1 <= k <= |members|
    ensures var splits, share := EvenSplit(members, amount), RoundedShare(amount, |members|);
      SplitTotal(splits[..k]) == splits[0].amount.value + (k - 1) * share
  {
    var splits, share := EvenSplit(members, amount), RoundedShare(amount, |members|);
    if k == 1 {
      assert splits[..1][..0] == [];
    } else {
      EvenSplitPrefix(members, amount, k - 1);
      assert splits[..k][..k - 1] == splits[..k - 1];
      assert splits[..k][k - 1] == splits[k - 1] && splits[k - 1].amount == Some(share);
      assert (k - 1) * share == (k - 2) * share + share;
    }
  }

  /** The splits add up exactly to the amount paid: nothing is lost to rounding. */
  lemma EvenSplitSumsToAmount(members: seq<UserId>, amount: int)
    requires members != []
    ensures SplitTotal(EvenSplit(members, amount)) == amount
  {
    var splits := EvenSplit(members, amount);
    EvenSplitPrefix(members, amount, |members|);
    assert splits[..|splits|] == splits;
  }

  /** The first member's split is off the plain share by at most half a cent per member. */
  lemma FirstShareDeviation(members: seq<UserId>, amount: int)
    requires members != []
    ensures var splits, share := EvenSplit(members, amount), RoundedShare(amount, |members|);
      -|members| <= 2 * (splits[0].amount.value - share) <= |members|
  {
    RoundedShareNearest(amount, |members|);
  }

  /** Five cents split ten ways: each plain share rounds up to a cent, so the first is -4 cents. */
  lemma NegativeFirstShare(members: seq<UserId>)
    requires |members| == 10
    ensures EvenSplit(members, 5)[0].amount == Some(-4)
  {
    assert RoundedShare(5, 10) == 1;
  }

  /**
   * createExpense: an unknown group is not found and nothing is created; otherwise the
   * expense keeps the amount as given, is paid by the acting user and is split evenly
   * over the group's members.
   */
  function CreateExpense(groups: map<GroupId, Group>, groupId: GroupId, description: string,
                         amount: int, actor: UserId): (r: Response<Expense>)
    ensures r.Err? <==> groupId !in groups
    ensures r.Err? ==> r.status == NotFound("Group not found")
    ensures r.Ok? ==>
      && r.value.group == groupId && r.value.description == description
      && r.value.amount == amount && r.value.paidBy == actor
      && r.value.splits == EvenSplit(groups[groupId].members, amount)
  {
    if groupId !in groups then Err(NotFound("Group not found"))
    else Ok(Expense(groupId, description, amount, actor, EvenSplit(groups[groupId].members, amount)))
  }

  /** An expense created in a group with members is fully split, so it keeps the ledger at zero sum. */
  lemma CreatedExpenseBalanced(groups: map<GroupId, Group>, groupId: GroupId, description: string,
                               amount: int, actor: UserId)
    requires groupId in groups && groups[groupId].members != []
    ensures CreateExpense(groups, groupId, description, amount, actor).Ok?
    ensures Balanced(CreateExpense(groups, groupId, description, amount, actor).value)
  {
    EvenSplitSumsToAmount(groups[groupId].members, amount);
  }

  /** The stored expenses after a delete request, and the answer to it. */
  datatype Deletion = Deletion(store: map<ExpenseId, Expense>, response: Response<string>)

  /** The payer of an expense, or the creator of its group, may delete it. */
  predicate MayDelete(e: Expense, g: Group, actor: UserId) {
    e.paidBy == actor || g.createdBy == Some(actor)
  }

  /**
   * deleteExpense: a missing expense or group is not found, anybody other than the payer
   * and the group's creator is refused, and in all three cases the store is left as it
   * was; otherwise exactly that expense is removed.
   */
  function DeleteExpense(store: map<ExpenseId, Expense>, groups: map<GroupId, Group>,
                         id: ExpenseId, actor: UserId): (r: Deletion)
    ensures r.response.Ok? <==>
      id in store && store[id].group in groups && MayDelete(store[id], groups[store[id].group], actor)
    ensures id !in store ==> r.response == Err(NotFound("Expense not found"))
    ensures id in store && store[id].group !in groups ==> r.response == Err(NotFound("Group not found"))
    ensures id in store && store[id].group in groups && !MayDelete(store[id], groups[store[id].group], actor) ==>
      r.response == Err(Forbidden("Not authorized to delete this expense"))
    ensures r.response.Err? ==> r.store == store
    ensures r.response.Ok? ==>
      && r.response.value == "Expense deleted"
      && (forall x :: x in r.store <==> x in store && x != id)
      && (forall x :: x in r.store ==> r.store[x] == store[x])
  {
    if id !in store then Deletion(store, Err(NotFound("Expense not found")))
    else
      var e := store[id];
      if e.group !in groups then Deletion(store, Err(NotFound("Group not found")))
      else if !MayDelete(e, groups[e.group], actor) then
        Deletion(store, Err(Forbidden("Not authorized to delete this expense")))
      else Deletion(store - {id}, Ok("Expense deleted"))
  }

  /** Once deleted, the expense is gone: asking again is answered with not found. */
  lemma DeleteTwice(store: map<ExpenseId, Expense>, groups: map<GroupId, Group>, id: ExpenseId,
                    actor: UserId, other: UserId)
    requires DeleteExpense(store, groups, id, actor).response.Ok?
    ensures var again := DeleteExpense(DeleteExpense(store, groups, id, actor).store, groups, id, other);
      again.response == Err(NotFound("Expense not found"))
  {
  }
}
