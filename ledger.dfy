/**
 * The records of the expense splitter as values. Every amount is in integer cents:
 * the source keeps money in floating-point numbers and rounds to two decimals after
 * each step, and on whole cents that rounding is the identity.
 */
module Ledger {

  /** Identifiers are the string form of the stored object ids. */
  type UserId = string
  type GroupId = string
  type ExpenseId = string

  datatype Option<T> = None | Some(value: T)

  /** The client errors the controllers answer with (HTTP 400, 403 and 404). */
  datatype Status =
    | BadRequest(message: string)
    | Forbidden(message: string)
    | NotFound(message: string)

  /** A controller's answer: the payload on success, or an error status. */
  datatype Response<T> = Ok(value: T) | Err(status: Status)

  /** One member's share of an expense; both fields are optional in the stored schema. */
  datatype Split = Split(user: Option<UserId>, amount: Option<int>)

  datatype Expense = Expense(
    group: GroupId,
    description: string,
    amount: int,
    paidBy: UserId,
    splits: seq<Split>)

  /**
   * A payment from `from` (the debtor) to `to` (the creditor). The same shape is a
   * stored settlement record of one group and a transfer suggested by the planner.
   */
  datatype Settlement = Settlement(from: UserId, to: UserId, amount: int)

  datatype Group = Group(name: string, members: seq<UserId>, createdBy: Option<UserId>)

  /** A split that the balance fold applies: it names a user and has an amount. */
  predicate Counts(s: Split) {
    s.user.Some? && s.amount.Some?
  }

  /** The total of the splits that the balance fold applies. */
  function SplitTotal(splits: seq<Split>): int
  {
    if splits == [] then 0
    else
      var last := splits[|splits| - 1];
      SplitTotal(splits[..|splits| - 1]) + (if Counts(last) then last.amount.value else 0)
  }

  /** An expense whose applied splits add up exactly to what was paid. */
  predicate Balanced(e: Expense) {
    SplitTotal(e.splits) == e.amount
  }

  lemma {:induction false} SplitTotalConcat(a: seq<Split>, b: seq<Split>)
    ensures SplitTotal(a + b) == SplitTotal(a) + SplitTotal(b)
    decreases |b|
  {
    if b == [] {
      assert a + b == a;
    } else {
      var b' := b[..|b| - 1];
      assert (a + b)[..|a + b| - 1] == a + b';
      SplitTotalConcat(a, b');
    }
  }
}
