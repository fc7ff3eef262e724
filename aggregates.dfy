/** Figures over the movements of all accounts at once (8-Arrays/script.js:657-686,
    each built on `accounts.flatMap(acc => acc.movements)`), and the bank-wide
    total that a transfer leaves unchanged. */
module Aggregates {
  import opened Summary

  /** `flatMap(acc => acc.movements)`, on the accounts' movement lists in order:
      every movement of every account, and nothing else. */
  function Flatten(ledger: seq<seq<real>>): (r: seq<real>)
    ensures forall i, x :: 0 <= i < |ledger| && x in ledger[i] ==> x in r
    ensures forall x :: x in r ==> exists i :: 0 <= i < |ledger| && x in ledger[i]
  {
    if ledger == [] then []
    else
      var n := |ledger| - 1;
      assert forall i :: 0 <= i < n ==> ledger[..n][i] == ledger[i];
      Flatten(ledger[..n]) + ledger[n]
  }

  /** The sum of every movement of every account: the account balances added up. */
  function Total(ledger: seq<seq<real>>): (r: real)
    ensures r == SumOfBalances(ledger)
  {
    TotalIsSumOfBalances(ledger);
    Sum(Flatten(ledger))
  }

  /** `allDepositsSum` (lines 657-660): the accounts' incomes added up. */
  function AllDepositsSum(ledger: seq<seq<real>>): (r: real)
    ensures r == SumOfIncomes(ledger)
  {
    AllDepositsIsSumOfIncomes(ledger);
    Incomes(Flatten(ledger))
  }

  /** The counting `reduce` behind `depositsAbove1000` (lines 664-671): movements
      of at least 1000. */
  function CountAtLeast1000(s: seq<real>): (r: nat)
    ensures r <= |s|
    ensures r == 0 <==> forall i :: 0 <= i < |s| ==> s[i] < 1000.0
  {
    if s == [] then 0
    else
      var n := |s| - 1;
      assert forall i :: 0 <= i < n ==> s[..n][i] == s[i];
      CountAtLeast1000(s[..n]) + (if s[n] >= 1000.0 then 1 else 0)
  }

  /** `depositsAbove1000`: the number of movements, over all accounts, of at
      least 1000, which is the accounts' own counts added up. */
  function DepositsAbove1000(ledger: seq<seq<real>>): (r: nat)
    ensures var all := Flatten(ledger); r == |set i | 0 <= i < |all| && all[i] >= 1000.0|
    ensures r == SumOfCounts(ledger)
  {
    CountIsNumberOfLargeMovements(Flatten(ledger));
    CountOfFlattenIsSumOfCounts(ledger);
    CountAtLeast1000(Flatten(ledger))
  }

  /** The `{ deposits, withdrawals }` accumulator of lines 677-686. */
  datatype Sums = Sums(deposits: real, withdrawals: real)

  /** `sums[cur > 0 ? 'deposits' : 'withdrawals'] += cur`: a zero goes to the
      withdrawals.  The deposits never go below 0, the withdrawals never above,
      and together they are the sum of the movements. */
  function SplitSums(s: seq<real>): (r: Sums)
    ensures r.deposits >= 0.0 && r.withdrawals <= 0.0
    ensures r.deposits + r.withdrawals == Sum(s)
  {
    if s == [] then Sums(0.0, 0.0)
    else
      var sums, cur := SplitSums(s[..|s| - 1]), s[|s| - 1];
      if cur > 0.0 then sums.(deposits := sums.deposits + cur)
      else sums.(withdrawals := sums.withdrawals + cur)
  }

  /** `{ deposits, withdrawals }` (lines 677-686): all incomes, and all outgoings
      as a negative figure. */
  function DepositsAndWithdrawals(ledger: seq<seq<real>>): (r: Sums)
    ensures r == Sums(AllDepositsSum(ledger), Out(Flatten(ledger)))
  {
    SplitSumsAreIncomesAndOut(Flatten(ledger));
    SplitSums(Flatten(ledger))
  }

  /** The sum, account by account, of a per-account figure. */
  function SumOfBalances(ledger: seq<seq<real>>): real
  {
    if ledger == [] then 0.0
    else SumOfBalances(ledger[..|ledger| - 1]) + Balance(ledger[|ledger| - 1])
  }

  function SumOfIncomes(ledger: seq<seq<real>>): real
  {
    if ledger == [] then 0.0
    else SumOfIncomes(ledger[..|ledger| - 1]) + Incomes(ledger[|ledger| - 1])
  }

  function SumOfCounts(ledger: seq<seq<real>>): nat
  {
    if ledger == [] then 0
    else SumOfCounts(ledger[..|ledger| - 1]) + CountAtLeast1000(ledger[|ledger| - 1])
  }

  /** Account `i` with `x` pushed onto its movements. */
  function Push(ledger: seq<seq<real>>, i: nat, x: real): (r: seq<seq<real>>)
    requires i < |ledger|
    ensures |r| == |ledger| && r[i] == ledger[i] + [x]
    ensures forall j :: 0 <= j < |ledger| && j != i ==> r[j] == ledger[j]
  {
    ledger[i := ledger[i] + [x]]
  }

  // ----- lemmas -----

  /** One more movement goes to one side of the two-way reduce. */
  lemma SplitSumsSnoc(s: seq<real>, x: real)
    ensures SplitSums(s + [x]) ==
              if x > 0.0 then SplitSums(s).(deposits := SplitSums(s).deposits + x)
              else SplitSums(s).(withdrawals := SplitSums(s).withdrawals + x)
  {
    assert (s + [x])[..|s|] == s;
  }

  lemma {:induction false} DepositsAppend(a: seq<real>, b: seq<real>)
    ensures Deposits(a + b) == Deposits(a) + Deposits(b)
    decreases |b|
  {
    if b == [] {
      assert a + b == a;
    } else {
      assert (a + b)[..|a + b| - 1] == a + b[..|b| - 1];
      DepositsAppend(a, b[..|b| - 1]);
    }
  }

  /** `flatMap` distributes over concatenation of the account lists. */
  lemma {:induction false} FlattenAppend(a: seq<seq<real>>, b: seq<seq<real>>)
    ensures Flatten(a + b) == Flatten(a) + Flatten(b)
    decreases |b|
  {
    if b == [] {
      assert a + b == a;
    } else {
      assert (a + b)[..|a + b| - 1] == a + b[..|b| - 1];
      FlattenAppend(a, b[..|b| - 1]);
    }
  }

  /** One account flattens to its own movements, so with FlattenAppend the
      flattened list is every account's movements in account order. */
  lemma FlattenOne(m: seq<real>)
    ensures Flatten([m]) == m
  {
    assert [m][..0] == [];
  }

  /** The counting reduce distributes over concatenation. */
  lemma {:induction false} CountAppend(a: seq<real>, b: seq<real>)
    ensures CountAtLeast1000(a + b) == CountAtLeast1000(a) + CountAtLeast1000(b)
    decreases |b|
  {
    if b == [] {
      assert a + b == a;
    } else {
      assert (a + b)[..|a + b| - 1] == a + b[..|b| - 1];
      CountAppend(a, b[..|b| - 1]);
    }
  }

  /** Counting over all accounts at once is adding up the per-account counts. */
  lemma {:induction false} CountOfFlattenIsSumOfCounts(ledger: seq<seq<real>>)
    ensures CountAtLeast1000(Flatten(ledger)) == SumOfCounts(ledger)
  {
    if ledger != [] {
      var init, last := ledger[..|ledger| - 1], ledger[|ledger| - 1];
      CountOfFlattenIsSumOfCounts(init);
      CountAppend(Flatten(init), last);
    }
  }

  /** The bank-wide total is the sum of the account balances. */
  lemma {:induction false} TotalIsSumOfBalances(ledger: seq<seq<real>>)
    ensures Sum(Flatten(ledger)) == SumOfBalances(ledger)
  {
    if ledger != [] {
      TotalIsSumOfBalances(ledger[..|ledger| - 1]);
      SumAppend(Flatten(ledger[..|ledger| - 1]), ledger[|ledger| - 1]);
    }
  }

  /** All deposits together are the accounts' incomes added up. */
  lemma {:induction false} AllDepositsIsSumOfIncomes(ledger: seq<seq<real>>)
    ensures Incomes(Flatten(ledger)) == SumOfIncomes(ledger)
  {
    if ledger != [] {
      var init, last := ledger[..|ledger| - 1], ledger[|ledger| - 1];
      AllDepositsIsSumOfIncomes(init);
      DepositsAppend(Flatten(init), last);
      SumAppend(Deposits(Flatten(init)), Deposits(last));
    }
  }

  /** The counting reduce counts the positions holding at least 1000. */
  lemma {:induction false} CountIsNumberOfLargeMovements(s: seq<real>)
    ensures CountAtLeast1000(s) == |set i | 0 <= i < |s| && s[i] >= 1000.0|
  {
    if s != [] {
      var n := |s| - 1;
      CountIsNumberOfLargeMovements(s[..n]);
      var before := set i | 0 <= i < n && s[..n][i] >= 1000.0;
      var after := set i | 0 <= i < |s| && s[i] >= 1000.0;
      if s[n] >= 1000.0 {
        assert after == before + {n};
      } else {
        assert after == before;
      }
    }
  }

  /** The two-way reduce puts the incomes in `deposits` and the (negative) out in
      `withdrawals`: zero lands in withdrawals but adds nothing; together they
      make the total. */
  lemma {:induction false} SplitSumsAreIncomesAndOut(s: seq<real>)
    ensures SplitSums(s) == Sums(Incomes(s), Out(s))
    ensures SplitSums(s).deposits + SplitSums(s).withdrawals == Sum(s)
  {
    if s != [] {
      var init, last := s[..|s| - 1], s[|s| - 1];
      SplitSumsAreIncomesAndOut(init);
      SumAppend(Deposits(init), if last > 0.0 then [last] else []);
      SumAppend(Withdrawals(init), if last < 0.0 then [last] else []);
    }
    IncomesAndOutMakeBalance(s);
  }

  /** Pushing `x` onto one account raises the total by `x`. */
  lemma {:induction false} PushRaisesTotal(ledger: seq<seq<real>>, i: nat, x: real)
    requires i < |ledger|
    ensures Total(Push(ledger, i, x)) == Total(ledger) + x
  {
    var n := |ledger| - 1;
    var r := Push(ledger, i, x);
    assert r[..n] == if i == n then ledger[..n] else Push(ledger[..n], i, x);
    if i < n {
      PushRaisesTotal(ledger[..n], i, x);
      SumAppend(Flatten(ledger[..n]), ledger[n]);
      SumAppend(Flatten(r[..n]), r[n]);
    } else {
      SumAppend(Flatten(ledger[..n]), ledger[n]);
      SumAppend(Flatten(ledger[..n]), ledger[n] + [x]);
      SumAppend(ledger[n], [x]);
    }
  }

  /** The ledger after a transfer of `amount` to account `to`, paid by account
      `from`, or by an account outside the ledger when `from` is negative. */
  function Transferred(ledger: seq<seq<real>>, from: int, to: nat, amount: real): (r: seq<seq<real>>)
    requires from < |ledger| && to < |ledger| && from != to
    ensures |r| == |ledger| && r[to] == ledger[to] + [amount]
    ensures from >= 0 ==> r[from] == ledger[from] + [-amount]
    ensures forall j :: 0 <= j < |ledger| && j != from && j != to ==> r[j] == ledger[j]
  {
    if from >= 0 then Push(Push(ledger, from, -amount), to, amount) else Push(ledger, to, amount)
  }

  /** Money moves between listed accounts without changing the total; paid from
      outside the ledger, it raises the total by the amount. */
  lemma TransferredTotal(ledger: seq<seq<real>>, from: int, to: nat, amount: real)
    requires from < |ledger| && to < |ledger| && from != to
    ensures Total(Transferred(ledger, from, to, amount)) ==
              Total(ledger) + (if from >= 0 then 0.0 else amount)
  {
    if from >= 0 {
      TransferKeepsTotal(ledger, from, to, amount);
    } else {
      PushRaisesTotal(ledger, to, amount);
    }
  }

  /** A transfer between two different accounts leaves the total unchanged. */
  lemma TransferKeepsTotal(ledger: seq<seq<real>>, from: nat, to: nat, amount: real)
    requires from < |ledger| && to < |ledger| && from != to
    ensures Total(Push(Push(ledger, from, -amount), to, amount)) == Total(ledger)
  {
    PushRaisesTotal(ledger, from, -amount);
    PushRaisesTotal(Push(ledger, from, -amount), to, amount);
  }
}
