/**
 * The settle-up planner of the balance controller (getSettleUp): split the balances
 * into debtors and creditors, then pair them with a two-pointer greedy sweep.
 */
module SettleUp {
  import opened Ledger
  import opened Balances

  /**
   * A debtor or a creditor in the sweep: `amount` is what is still to be paid (for a
   * debtor) or still to be received (for a creditor), in cents, as a magnitude.
   */
  datatype Party = Party(user: UserId, amount: int)

  /**
   * A balance within one cent of zero counts as settled: the source's `amount < -0.01`
   * and `amount > 0.01` are strict, so in cents a debtor is at or below -2.
   */
  const Tolerance: int := 1

  function Min(a: int, b: int): int {
    if a <= b then a else b
  }

  function UsersOf(ps: seq<Party>): seq<UserId> {
    seq(|ps|, k requires 0 <= k < |ps| => ps[k].user)
  }

  // ----- Partition -----

  /**
   * The users of `us`, in order, whose balance times `sign` exceeds the tolerance, each
   * with that product as its amount. With `sign == -1` these are the debtors and their
   * debts; with `sign == 1`, the creditors and what they are owed.
   */
  function Exceeding(b: BalanceMap, us: seq<UserId>, sign: int): seq<Party> {
    if us == [] then []
    else
      var u := us[|us| - 1];
      Exceeding(b, us[..|us| - 1], sign) + (if sign * Get(b, u) > Tolerance then [Party(u, sign * Get(b, u))] else [])
  }

  function Debtors(b: BalanceMap): seq<Party> {
    Exceeding(b, b.users, -1)
  }

  function Creditors(b: BalanceMap): seq<Party> {
    Exceeding(b, b.users, 1)
  }

  /** The forEach over the balance entries that fills `debtors` and `creditors`. */
  method Partition(b: BalanceMap) returns (debtors: seq<Party>, creditors: seq<Party>)
    ensures debtors == Debtors(b) && creditors == Creditors(b)
  {
    debtors, creditors := [], [];
    for k := 0 to |b.users|
      invariant debtors == Exceeding(b, b.users[..k], -1)
      invariant creditors == Exceeding(b, b.users[..k], 1)
    {
      var user := b.users[k];
      var amount := Get(b, user);
      if amount < -Tolerance {
        debtors := debtors + [Party(user, -amount)];
      }
      if amount > Tolerance {
        creditors := creditors + [Party(user, amount)];
      }
      assert b.users[..k + 1][..k] == b.users[..k];
    }
    assert b.users[..|b.users|] == b.users;
  }

  // ----- The greedy sweep -----

  /** One pass of the loop body on the current debtor and creditor. */
  datatype Step = Step(paid: seq<Settlement>, debtor: Party, creditor: Party)

  /**
   * The current debtor pays the current creditor the smaller of their two remaining
   * amounts when that is positive, and both remaining amounts go down by it.
   */
  function Pay(d: Party, c: Party): (step: Step)
    ensures step.debtor.user == d.user && step.creditor.user == c.user
    ensures d.amount > 0 && c.amount > 0 ==>
      var x := d.amount - step.debtor.amount;
      && step.paid == [Settlement(d.user, c.user, x)]
      && x == c.amount - step.creditor.amount
      && 0 <= step.debtor.amount < d.amount && 0 <= step.creditor.amount < c.amount
      && (step.debtor.amount == 0 || step.creditor.amount == 0)
    ensures d.amount <= 0 || c.amount <= 0 ==> step == Step([], d, c)
  {
    var x := Min(d.amount, c.amount);
    if x > 0 then Step([Settlement(d.user, c.user, x)], d.(amount := d.amount - x), c.(amount := c.amount - x))
    else Step([], d, c)
  }

  /** A party with nothing left is passed over (its pointer advances); otherwise it stays. */
  function Next(p: Party, rest: seq<Party>): seq<Party> {
    if p.amount <= 0 then rest else [p] + rest
  }

  /**
   * The two-pointer sweep as a recursion on what is left of both lists. At least one
   * side is passed over at every step, which is why the sweep ends.
   */
  function Greedy(ds: seq<Party>, cs: seq<Party>): (plan: seq<Settlement>)
    ensures forall k :: 0 <= k < |plan| ==> plan[k].amount > 0
    decreases |ds| + |cs|
  {
    if ds == [] || cs == [] then []
    else
      var step := Pay(ds[0], cs[0]);
      step.paid + Greedy(Next(step.debtor, ds[1..]), Next(step.creditor, cs[1..]))
  }

  lemma ConcatAssoc(a: seq<Settlement>, b: seq<Settlement>, c: seq<Settlement>)
    ensures (a + b) + c == a + (b + c)
  {
  }

  lemma GreedyCons(d: Party, c: Party, dr: seq<Party>, cr: seq<Party>)
    ensures var step := Pay(d, c);
      Greedy([d] + dr, [c] + cr) == step.paid + Greedy(Next(step.debtor, dr), Next(step.creditor, cr))
  {
    assert ([d] + dr)[0] == d && ([d] + dr)[1..] == dr;
    assert ([c] + cr)[0] == c && ([c] + cr)[1..] == cr;
  }

  /** One pass of the loop body, on the parties' amounts as the loop sees them at indices i and j. */
  lemma SweepStep(ds: seq<Party>, cs: seq<Party>, i: nat, j: nat)
    requires i < |ds| && j < |cs|
    ensures var step := Pay(ds[i], cs[j]);
      var ds', cs' := ds[i := step.debtor], cs[j := step.creditor];
      var i' := if step.debtor.amount <= 0 then i + 1 else i;
      var j' := if step.creditor.amount <= 0 then j + 1 else j;
      Greedy(ds[i..], cs[j..]) == step.paid + Greedy(ds'[i'..], cs'[j'..])
  {
    var step := Pay(ds[i], cs[j]);
    var ds', cs' := ds[i := step.debtor], cs[j := step.creditor];
    assert ds[i..] == [ds[i]] + ds[i + 1..];
    assert cs[j..] == [cs[j]] + cs[j + 1..];
    GreedyCons(ds[i], cs[j], ds[i + 1..], cs[j + 1..]);
    assert ds'[i + 1..] == ds[i + 1..] && cs'[j + 1..] == cs[j + 1..];
    assert ds'[i..] == [step.debtor] + ds[i + 1..];
    assert cs'[j..] == [step.creditor] + cs[j + 1..];
  }

  /**
   * The sweep as the loop state sees it: both lists whole, with the pointers `i` and `j`
   * and the amounts already lowered at the pointers.
   */
  function SweepFrom(ds: seq<Party>, cs: seq<Party>, i: nat, j: nat): seq<Settlement>
    requires i <= |ds| && j <= |cs|
    decreases |ds| - i + |cs| - j
  {
    if i == |ds| || j == |cs| then []
    else
      var step := Pay(ds[i], cs[j]);
      step.paid + SweepFrom(ds[i := step.debtor], cs[j := step.creditor],
                            if step.debtor.amount <= 0 then i + 1 else i,
                            if step.creditor.amount <= 0 then j + 1 else j)
  }

  lemma {:induction false} SweepFromGreedy(ds: seq<Party>, cs: seq<Party>, i: nat, j: nat)
    requires i <= |ds| && j <= |cs|
    ensures SweepFrom(ds, cs, i, j) == Greedy(ds[i..], cs[j..])
    decreases |ds| - i + |cs| - j
  {
    if i < |ds| && j < |cs| {
      var step := Pay(ds[i], cs[j]);
      SweepStep(ds, cs, i, j);
      SweepFromGreedy(ds[i := step.debtor], cs[j := step.creditor],
                      if step.debtor.amount <= 0 then i + 1 else i,
                      if step.creditor.amount <= 0 then j + 1 else j);
    }
  }

  /**
   * The while loop of getSettleUp. The source's parties are objects whose remaining
   * amounts the loop lowers in place; here the loop replaces the entry at the pointer.
   */
  method Sweep(debtors: seq<Party>, creditors: seq<Party>) returns (plan: seq<Settlement>)
    ensures plan == Greedy(debtors, creditors)
  {
    var ds, cs := debtors, creditors;
    plan := [];
    var i, j := 0, 0;
    while i < |ds| && j < |cs|
      invariant 0 <= i <= |ds| && 0 <= j <= |cs|
      invariant plan + SweepFrom(ds, cs, i, j) == SweepFrom(debtors, creditors, 0, 0)
      decreases |ds| - i + |cs| - j
    {
      ghost var before, step := plan, Pay(ds[i], cs[j]);
      var debtor, creditor := ds[i], cs[j];
      var settleAmount := Min(debtor.amount, creditor.amount);
      if settleAmount > 0 {
        plan := plan + [Settlement(debtor.user, creditor.user, settleAmount)];
        ds := ds[i := debtor.(amount := debtor.amount - settleAmount)];
        cs := cs[j := creditor.(amount := creditor.amount - settleAmount)];
      } else {
        assert ds == ds[i := debtor] && cs == cs[j := creditor];
      }
      assert plan == before + step.paid && ds[i] == step.debtor && cs[j] == step.creditor;
      if ds[i].amount <= 0 {
        i := i + 1;
      }
      if cs[j].amount <= 0 {
        j := j + 1;
      }
      ConcatAssoc(before, step.paid, SweepFrom(ds, cs, i, j));
    }
    SweepFromGreedy(debtors, creditors, 0, 0);
    assert debtors[0..] == debtors && creditors[0..] == creditors;
  }

  /** The transfers the planner suggests for a set of balances. */
  function SettlePlan(b: BalanceMap): seq<Settlement> {
    Greedy(Debtors(b), Creditors(b))
  }

  /** getSettleUp: a missing group id is refused; otherwise balances, partition, sweep. */
  method GetSettleUp(groupId: GroupId, expenses: seq<Expense>, settlements: seq<Settlement>)
    returns (r: Response<seq<Settlement>>)
    ensures r.Err? <==> groupId == ""
    ensures r.Err? ==> r.status == BadRequest("Group ID required")
    ensures r.Ok? ==> r.value == SettlePlan(FoldLedger(expenses, settlements))
  {
    if groupId == "" {
      return Err(BadRequest("Group ID required"));
    }
    var balances := CalculateBalances(expenses, settlements);
    var debtors, creditors := Partition(balances);
    var plan := Sweep(debtors, creditors);
    r := Ok(plan);
  }

  // ----- What the sweep pays -----

  predicate Positive(ps: seq<Party>) {
    forall k :: 0 <= k < |ps| ==> ps[k].amount > 0
  }

  /** The total still to be paid (or to be received) by a list of parties. */
  function PartySum(ps: seq<Party>): int {
    if ps == [] then 0 else ps[0].amount + PartySum(ps[1..])
  }

  /** What the parties named `u` in `ps` still have to pay (or to receive). */
  function AmountFor(u: UserId, ps: seq<Party>): int {
    if ps == [] then 0 else (if ps[0].user == u then ps[0].amount else 0) + AmountFor(u, ps[1..])
  }

  lemma {:induction false} PartySumConcat(a: seq<Party>, b: seq<Party>, u: UserId)
    ensures PartySum(a + b) == PartySum(a) + PartySum(b)
    ensures AmountFor(u, a + b) == AmountFor(u, a) + AmountFor(u, b)
    decreases |a|
  {
    if a == [] {
      assert a + b == b;
    } else {
      assert (a + b)[0] == a[0] && (a + b)[1..] == a[1..] + b;
      PartySumConcat(a[1..], b, u);
    }
  }

  lemma {:induction false} AmountBounds(u: UserId, ps: seq<Party>)
    requires Positive(ps)
    ensures 0 <= AmountFor(u, ps) <= PartySum(ps)
    ensures ps != [] ==> PartySum(ps) > 0
    decreases |ps|
  {
    if ps != [] {
      AmountBounds(u, ps[1..]);
    }
  }

  /** Passing over a settled party, or keeping an unsettled one, leaves the amounts still due as they were. */
  lemma NextSums(p: Party, rest: seq<Party>, u: UserId)
    requires p.amount >= 0
    ensures PartySum(Next(p, rest)) == p.amount + PartySum(rest)
    ensures AmountFor(u, Next(p, rest)) == (if p.user == u then p.amount else 0) + AmountFor(u, rest)
  {
    if p.amount > 0 {
      assert ([p] + rest)[0] == p && ([p] + rest)[1..] == rest;
    }
  }

  /**
   * With positive amounts, nobody pays more than they owe and nobody receives more than
   * they are owed, and the side with the smaller total is settled in full: when debts
   * and credits are equal, every debtor pays exactly its debt and every creditor
   * receives exactly its credit.
   */
  lemma {:induction false} GreedySettles(ds: seq<Party>, cs: seq<Party>, u: UserId)
    requires Positive(ds) && Positive(cs)
    ensures var plan := Greedy(ds, cs);
      && 0 <= PaidBy(u, plan) <= AmountFor(u, ds)
      && 0 <= ReceivedBy(u, plan) <= AmountFor(u, cs)
      && (PartySum(ds) <= PartySum(cs) ==> PaidBy(u, plan) == AmountFor(u, ds))
      && (PartySum(cs) <= PartySum(ds) ==> ReceivedBy(u, plan) == AmountFor(u, cs))
    decreases |ds| + |cs|
  {
    AmountBounds(u, ds);
    AmountBounds(u, cs);
    if ds != [] && cs != [] {
      var d, c := ds[0], cs[0];
      var step := Pay(d, c);
      var ds', cs' := Next(step.debtor, ds[1..]), Next(step.creditor, cs[1..]);
      var x := d.amount - step.debtor.amount;
      NextSums(step.debtor, ds[1..], u);
      NextSums(step.creditor, cs[1..], u);
      assert Positive(ds') && Positive(cs');
      GreedySettles(ds', cs', u);
      PaymentsConcat(u, step.paid, Greedy(ds', cs'));
      assert PaidBy(u, step.paid) == (if d.user == u then x else 0);
      assert ReceivedBy(u, step.paid) == (if c.user == u then x else 0);
    }
  }

  /** At most one transfer fewer than there are parties: every step passes over at least one. */
  lemma {:induction false} GreedyLength(ds: seq<Party>, cs: seq<Party>)
    ensures |Greedy(ds, cs)| <= if ds == [] || cs == [] then 0 else |ds| + |cs| - 1
    decreases |ds| + |cs|
  {
    if ds != [] && cs != [] {
      var step := Pay(ds[0], cs[0]);
      var ds', cs' := Next(step.debtor, ds[1..]), Next(step.creditor, cs[1..]);
      GreedyLength(ds', cs');
      assert |ds'| + |cs'| <= |ds| + |cs| - 1;
    }
  }

  // ----- The order of the transfers -----

  function Payers(plan: seq<Settlement>): seq<UserId> {
    seq(|plan|, k requires 0 <= k < |plan| => plan[k].from)
  }

  function Payees(plan: seq<Settlement>): seq<UserId> {
    seq(|plan|, k requires 0 <= k < |plan| => plan[k].to)
  }

  /**
   * `xs` reads off `ys` from left to right, staying on an element or moving on but
   * never going back: the order in which a pointer that only advances visits `ys`.
   */
  predicate Follows(xs: seq<UserId>, ys: seq<UserId>)
    decreases |xs| + |ys|
  {
    xs == [] || (ys != [] && ((xs[0] == ys[0] && Follows(xs[1..], ys)) || Follows(xs, ys[1..])))
  }

  lemma {:induction false} FollowsWithin(xs: seq<UserId>, ys: seq<UserId>, x: UserId)
    requires Follows(xs, ys) && x in xs
    ensures x in ys
    decreases |xs| + |ys|
  {
    if xs[0] == ys[0] && Follows(xs[1..], ys) {
      if x != xs[0] {
        FollowsWithin(xs[1..], ys, x);
      }
    } else {
      FollowsWithin(xs, ys[1..], x);
    }
  }

  lemma NextUsers(p: Party, rest: seq<Party>)
    ensures UsersOf(Next(p, rest)) == if p.amount <= 0 then UsersOf(rest) else [p.user] + UsersOf(rest)
  {
  }

  lemma PlanUsersConcat(a: seq<Settlement>, b: seq<Settlement>)
    ensures Payers(a + b) == Payers(a) + Payers(b)
    ensures Payees(a + b) == Payees(a) + Payees(b)
  {
  }

  /** Dropping the first party of a list, or keeping it, leaves a list the rest still follows. */
  lemma FollowsNext(xs: seq<UserId>, p: Party, ps: seq<Party>)
    requires ps != [] && p.user == ps[0].user
    requires Follows(xs, UsersOf(Next(p, ps[1..])))
    ensures Follows(xs, UsersOf(ps))
  {
    var us := UsersOf(ps);
    assert us[0] == p.user && us[1..] == UsersOf(ps[1..]);
    NextUsers(p, ps[1..]);
    if p.amount > 0 {
      assert UsersOf(Next(p, ps[1..])) == us;
    }
  }

  lemma FollowsCons(x: UserId, xs: seq<UserId>, ys: seq<UserId>)
    requires ys != [] && x == ys[0] && Follows(xs, ys)
    ensures Follows([x] + xs, ys)
  {
    assert ([x] + xs)[0] == x && ([x] + xs)[1..] == xs;
  }

  /** The payers of the plan visit the debtors in list order: the debtor pointer only moves forward. */
  lemma {:induction false} GreedyPayersOrder(ds: seq<Party>, cs: seq<Party>)
    ensures Follows(Payers(Greedy(ds, cs)), UsersOf(ds))
    decreases |ds| + |cs|
  {
    if ds != [] && cs != [] {
      var step := Pay(ds[0], cs[0]);
      var ds', cs' := Next(step.debtor, ds[1..]), Next(step.creditor, cs[1..]);
      var rest := Greedy(ds', cs');
      GreedyPayersOrder(ds', cs');
      FollowsNext(Payers(rest), step.debtor, ds);
      PlanUsersConcat(step.paid, rest);
      if step.paid != [] {
        assert Payers(step.paid) == [ds[0].user];
        FollowsCons(ds[0].user, Payers(rest), UsersOf(ds));
      } else {
        assert step.paid + rest == rest;
      }
    }
  }

  /** The payees of the plan visit the creditors in list order: the creditor pointer only moves forward. */
  lemma {:induction false} GreedyPayeesOrder(ds: seq<Party>, cs: seq<Party>)
    ensures Follows(Payees(Greedy(ds, cs)), UsersOf(cs))
    decreases |ds| + |cs|
  {
    if ds != [] && cs != [] {
      var step := Pay(ds[0], cs[0]);
      var ds', cs' := Next(step.debtor, ds[1..]), Next(step.creditor, cs[1..]);
      var rest := Greedy(ds', cs');
      GreedyPayeesOrder(ds', cs');
      FollowsNext(Payees(rest), step.creditor, cs);
      PlanUsersConcat(step.paid, rest);
      if step.paid != [] {
        assert Payees(step.paid) == [cs[0].user];
        FollowsCons(cs[0].user, Payees(rest), UsersOf(cs));
      } else {
        assert step.paid + rest == rest;
      }
    }
  }

  // ----- The partition -----

  lemma UsersOfConcat(a: seq<Party>, b: seq<Party>)
    ensures UsersOf(a + b) == UsersOf(a) + UsersOf(b)
  {
  }

  /** A user is listed exactly when its balance, times `sign`, exceeds the tolerance. */
  lemma {:induction false} ExceedingMembers(b: BalanceMap, us: seq<UserId>, sign: int, u: UserId)
    ensures u in UsersOf(Exceeding(b, us, sign)) <==> u in us && sign * Get(b, u) > Tolerance
    decreases |us|
  {
    if us != [] {
      var init, last := us[..|us| - 1], us[|us| - 1];
      ExceedingMembers(b, init, sign, u);
      var tail := if sign * Get(b, last) > Tolerance then [Party(last, sign * Get(b, last))] else [];
      assert Exceeding(b, us, sign) == Exceeding(b, init, sign) + tail;
      UsersOfConcat(Exceeding(b, init, sign), tail);
      if tail != [] {
        assert UsersOf(tail) == [last];
      } else {
        assert UsersOf(tail) == [];
      }
      assert u in us <==> u in init || u == last;
    }
  }

  /** Every listed amount is the user's balance times `sign`, so it is beyond the tolerance. */
  lemma {:induction false} ExceedingAmounts(b: BalanceMap, us: seq<UserId>, sign: int)
    ensures forall k :: 0 <= k < |Exceeding(b, us, sign)| ==>
      Exceeding(b, us, sign)[k].amount == sign * Get(b, Exceeding(b, us, sign)[k].user) > Tolerance
    decreases |us|
  {
    if us != [] {
      var init, last := us[..|us| - 1], us[|us| - 1];
      ExceedingAmounts(b, init, sign);
      var tail := if sign * Get(b, last) > Tolerance then [Party(last, sign * Get(b, last))] else [];
      var ps, front := Exceeding(b, us, sign), Exceeding(b, init, sign);
      assert ps == front + tail;
      forall k | 0 <= k < |ps|
        ensures ps[k].amount == sign * Get(b, ps[k].user) > Tolerance
      {
        if k < |front| {
          assert ps[k] == front[k];
        } else {
          assert ps[k] == tail[0] == Party(last, sign * Get(b, last));
        }
      }
    }
  }

  /** Over distinct users, what is listed for `u` is its whole debt (or credit), or nothing. */
  lemma {:induction false} ExceedingAmountFor(b: BalanceMap, us: seq<UserId>, sign: int, u: UserId)
    requires Distinct(us)
    ensures AmountFor(u, Exceeding(b, us, sign)) == if u in us && sign * Get(b, u) > Tolerance then sign * Get(b, u) else 0
    decreases |us|
  {
    if us != [] {
      var init, last := us[..|us| - 1], us[|us| - 1];
      assert Distinct(init);
      ExceedingAmountFor(b, init, sign, u);
      var tail := if sign * Get(b, last) > Tolerance then [Party(last, sign * Get(b, last))] else [];
      PartySumConcat(Exceeding(b, init, sign), tail, u);
      assert us == init + [last];
      assert last == u ==> u !in init;
      if tail != [] {
        assert tail[1..] == [];
      }
    }
  }

  /** The balances within the tolerance of zero, which neither list holds. */
  function Residue(b: BalanceMap, us: seq<UserId>): int {
    if us == [] then 0
    else
      var v := Get(b, us[|us| - 1]);
      Residue(b, us[..|us| - 1]) + (if -Tolerance <= v <= Tolerance then v else 0)
  }

  /** The sum of the balances is what the creditors are owed, less what the debtors owe, plus the residue. */
  lemma {:induction false} SumOverPartition(b: BalanceMap, us: seq<UserId>)
    ensures SumOver(b, us) == PartySum(Exceeding(b, us, 1)) - PartySum(Exceeding(b, us, -1)) + Residue(b, us)
    decreases |us|
  {
    if us != [] {
      var init, last := us[..|us| - 1], us[|us| - 1];
      SumOverPartition(b, init);
      var v := Get(b, last);
      PartySumConcat(Exceeding(b, init, 1), if v > Tolerance then [Party(last, v)] else [], last);
      PartySumConcat(Exceeding(b, init, -1), if -v > Tolerance then [Party(last, -v)] else [], last);
    }
  }

  lemma {:induction false} ResidueZero(b: BalanceMap, us: seq<UserId>)
    requires forall v :: Get(b, v) != Tolerance && Get(b, v) != -Tolerance
    ensures Residue(b, us) == 0
    decreases |us|
  {
    if us != [] {
      ResidueZero(b, us[..|us| - 1]);
      assert Get(b, us[|us| - 1]) != Tolerance;
    }
  }

  // ----- The plan applied to the balances -----

  /**
   * Every suggested transfer is positive and runs from a user whose balance is below
   * the tolerance to a different user whose balance is above it, and there are at most
   * one fewer transfers than debtors and creditors together.
   */
  lemma SettlePlanTransfers(b: BalanceMap)
    ensures forall s :: s in SettlePlan(b) ==>
      s.amount > 0 && Get(b, s.from) < -Tolerance && Get(b, s.to) > Tolerance && s.from != s.to
    ensures |SettlePlan(b)| <= if Debtors(b) == [] || Creditors(b) == [] then 0 else |Debtors(b)| + |Creditors(b)| - 1
  {
    var plan := SettlePlan(b);
    GreedyPayersOrder(Debtors(b), Creditors(b));
    GreedyPayeesOrder(Debtors(b), Creditors(b));
    GreedyLength(Debtors(b), Creditors(b));
    forall s | s in plan
      ensures Get(b, s.from) < -Tolerance && Get(b, s.to) > Tolerance
    {
      var k :| 0 <= k < |plan| && plan[k] == s;
      assert Payers(plan)[k] == s.from && Payees(plan)[k] == s.to;
      FollowsWithin(Payers(plan), UsersOf(Debtors(b)), s.from);
      FollowsWithin(Payees(plan), UsersOf(Creditors(b)), s.to);
      ExceedingMembers(b, b.users, -1, s.from);
      ExceedingMembers(b, b.users, 1, s.to);
    }
  }

  /**
   * Over a well-formed balance map, the debtors list each user with a balance below the
   * tolerance once, for its whole debt, and the creditors each user above it, for its
   * whole credit.
   */
  lemma PartitionOwed(b: BalanceMap, u: UserId)
    requires Valid(b)
    ensures Positive(Debtors(b)) && Positive(Creditors(b))
    ensures AmountFor(u, Debtors(b)) == if Get(b, u) < -Tolerance then -Get(b, u) else 0
    ensures AmountFor(u, Creditors(b)) == if Get(b, u) > Tolerance then Get(b, u) else 0
  {
    ExceedingAmounts(b, b.users, -1);
    ExceedingAmounts(b, b.users, 1);
    ExceedingAmountFor(b, b.users, -1, u);
    ExceedingAmountFor(b, b.users, 1, u);
  }

  /**
   * Applying the plan moves a debtor's balance up toward zero without passing it and a
   * creditor's balance down toward zero without passing it, and leaves the balances
   * within the tolerance alone. When the debts add up to the credits, every balance
   * beyond the tolerance ends at exactly zero.
   */
  lemma SettlePlanEffect(b: BalanceMap, u: UserId)
    requires Valid(b)
    ensures var before, after := Get(b, u), Get(ApplySettlements(b, SettlePlan(b)), u);
      && (before < -Tolerance ==> before <= after <= 0)
      && (before > Tolerance ==> 0 <= after <= before)
      && (-Tolerance <= before <= Tolerance ==> after == before)
      && (PartySum(Debtors(b)) == PartySum(Creditors(b)) ==>
            after == if -Tolerance <= before <= Tolerance then before else 0)
  {
    ApplySettlementsPointwise(b, SettlePlan(b), u);
    PartitionOwed(b, u);
    GreedySettles(Debtors(b), Creditors(b), u);
  }

  /**
   * For a ledger whose expenses are each fully split, and in which no balance is off
   * by exactly one cent, following the suggested plan leaves everybody at zero.
   */
  lemma BalancedLedgerSettles(es: seq<Expense>, ss: seq<Settlement>, u: UserId)
    requires forall k :: 0 <= k < |es| ==> Balanced(es[k])
    requires forall v :: Get(FoldLedger(es, ss), v) != Tolerance && Get(FoldLedger(es, ss), v) != -Tolerance
    ensures var b := FoldLedger(es, ss);
      Get(ApplySettlements(b, SettlePlan(b)), u) == 0
  {
    var b := FoldLedger(es, ss);
    FoldLedgerValid(es, ss);
    LedgerZeroSum(es, ss);
    SumOverPartition(b, b.users);
    ResidueZero(b, b.users);
    SettlePlanEffect(b, u);
  }

  /**
   * Three fully split expenses: `b` pays 2 cents for `a`, and `c` and `d` each pay a
   * cent for `a`.
   */
  const StrandingExpenses: seq<Expense> := [
    Expense("g", "", 2, "b", [Split(Some("a"), Some(2))]),
    Expense("g", "", 1, "c", [Split(Some("a"), Some(1))]),
    Expense("g", "", 1, "d", [Split(Some("a"), Some(1))])]

  /** The balances they leave: `a` owes 4 cents, `b` is owed 2, `c` and `d` a cent each. */
  const StrandingBalances: BalanceMap :=
    BalanceMap(["b", "a", "c", "d"], map["b" := 2, "a" := -4, "c" := 1, "d" := 1])

  lemma StrandingFold()
    ensures FoldLedger(StrandingExpenses, []) == StrandingBalances
  {
    var es := StrandingExpenses;
    var e1, e2, e3 := es[0], es[1], es[2];
    assert e1.splits[..0] == [] && e2.splits[..0] == [] && e3.splits[..0] == [];
    var b1 := BalanceMap(["b", "a"], map["b" := 2, "a" := -2]);
    var b2 := BalanceMap(["b", "a", "c"], map["b" := 2, "a" := -3, "c" := 1]);
    assert es[..1][..0] == [] && es[..1][0] == e1;
    assert ApplyExpenses(Empty, es[..1]) == b1;
    assert es[..2][..1] == es[..1] && es[..2][1] == e2;
    assert ApplyExpenses(Empty, es[..2]) == b2;
    assert es[..2] == es[..|es| - 1];
  }

  lemma StrandingPlan()
    ensures SettlePlan(StrandingBalances) == [Settlement("a", "b", 2)]
  {
    var b := StrandingBalances;
    var us := b.users;
    assert us[..3] == ["b", "a", "c"] && us[..3][..2] == ["b", "a"] && us[..3][..2][..1] == ["b"];
    assert us[..3][..2][..1][..0] == [];
    assert Get(b, "b") == 2 && Get(b, "a") == -4 && Get(b, "c") == 1 && Get(b, "d") == 1;
    assert Exceeding(b, ["b"], -1) == [] && Exceeding(b, ["b"], 1) == [Party("b", 2)];
    assert Exceeding(b, ["b", "a"], -1) == [Party("a", 4)] && Exceeding(b, ["b", "a"], 1) == [Party("b", 2)];
    assert Exceeding(b, ["b", "a", "c"], -1) == [Party("a", 4)] && Exceeding(b, ["b", "a", "c"], 1) == [Party("b", 2)];
    assert Debtors(b) == [Party("a", 4)];
    assert Creditors(b) == [Party("b", 2)];
    assert Pay(Party("a", 4), Party("b", 2)) == Step([Settlement("a", "b", 2)], Party("a", 2), Party("b", 0));
  }

  /**
   * The tolerance can leave a debtor beyond it. After the expenses above the cents of
   * `c` and `d` are within the tolerance, so the plan pays only `b`, and `a` still owes
   * 2 cents although every expense is fully split.
   */
  lemma ToleranceStrandsDebtor()
    ensures forall k :: 0 <= k < |StrandingExpenses| ==> Balanced(StrandingExpenses[k])
    ensures var b := FoldLedger(StrandingExpenses, []);
      Get(ApplySettlements(b, SettlePlan(b)), "a") == -2
  {
    StrandingFold();
    StrandingPlan();
    var plan := [Settlement("a", "b", 2)];
    assert plan[..0] == [];
    forall k | 0 <= k < |StrandingExpenses|
      ensures Balanced(StrandingExpenses[k])
    {
      assert StrandingExpenses[k].splits[..0] == [];
    }
  }
}
