/** The four hard-coded accounts the program starts with (8-Arrays/script.js:8-36). */
module Seed {
  import opened Summary
  import opened Aggregates

  const Movements1: seq<real> := [200.0, 450.0, -400.0, 3000.0, -650.0, -130.0, 70.0, 1300.0]
  const Movements2: seq<real> := [5000.0, 3400.0, -150.0, -790.0, -3210.0, -1000.0, 8500.0, -30.0]
  const Movements3: seq<real> := [200.0, -200.0, 340.0, -300.0, -20.0, 50.0, 400.0, -460.0]
  const Movements4: seq<real> := [430.0, 1000.0, 700.0, 50.0, 90.0]

  /** An account object literal: its owner, its movements, its interest rate in
      percent and its PIN. */
  datatype AccountData = AccountData(owner: string, movements: seq<real>, interestRate: real, pin: int)

  /** `[account1, account2, account3, account4]` */
  const Accounts: seq<AccountData> := [
    AccountData("Jonas Schmedtmann", Movements1, 1.2, 1111),
    AccountData("Jessica Davis", Movements2, 1.5, 2222),
    AccountData("Steven Thomas Williams", Movements3, 0.7, 3333),
    AccountData("Sarah Smith", Movements4, 1.0, 4444)
  ]

  /** Account 1's figures: balance 3840, incomes 5020, out 1180 and interest
      59.4, the 0.84 earned by the deposit of 70 being dropped. */
  lemma FirstAccountFigures()
    ensures Balance(Movements1) == 3840.0
    ensures Summarize(Movements1, 1.2) == Figures(5020.0, 1180.0, 59.4)
    ensures InterestOn(70.0, 1.2) == 0.84
  {
    FirstAccountBalance(Movements1);
    FirstAccountSums(Movements1);
    SplitSumsAreIncomesAndOut(Movements1);
    FirstAccountInterest(Movements1);
    InterestIsPerDeposit(Movements1, 1.2);
  }

  /** The movements of account 1, element by element.  The lemmas below take the
      list as a parameter that satisfies this predicate, rather than the literal
      itself, so each proof works on the eight elements alone and the literal is
      unfolded only once, where FirstAccountFigures calls them. */
  predicate IsMovements1(m: seq<real>)
  {
    |m| == 8 && m[0] == 200.0 && m[1] == 450.0 && m[2] == -400.0 && m[3] == 3000.0 &&
    m[4] == -650.0 && m[5] == -130.0 && m[6] == 70.0 && m[7] == 1300.0
  }

  /** The balance after each movement in turn. */
  lemma FirstAccountBalance(m: seq<real>)
    requires IsMovements1(m)
    ensures Balance(m) == 3840.0
  {
    assert Sum([m[0]]) == 200.0 by {
      assert [m[0]] == [] + [m[0]];
      SumSnoc([], m[0]);
    }
    assert Sum([m[0], m[1]]) == 650.0 by {
      assert [m[0], m[1]] == [m[0]] + [m[1]];
      SumSnoc([m[0]], m[1]);
    }
    assert Sum([m[0], m[1], m[2]]) == 250.0 by {
      assert [m[0], m[1], m[2]] == [m[0], m[1]] + [m[2]];
      SumSnoc([m[0], m[1]], m[2]);
    }
    assert Sum([m[0], m[1], m[2], m[3]]) == 3250.0 by {
      assert [m[0], m[1], m[2], m[3]] == [m[0], m[1], m[2]] + [m[3]];
      SumSnoc([m[0], m[1], m[2]], m[3]);
    }
    assert Sum([m[0], m[1], m[2], m[3], m[4]]) == 2600.0 by {
      assert [m[0], m[1], m[2], m[3], m[4]] == [m[0], m[1], m[2], m[3]] + [m[4]];
      SumSnoc([m[0], m[1], m[2], m[3]], m[4]);
    }
    assert Sum([m[0], m[1], m[2], m[3], m[4], m[5]]) == 2470.0 by {
      assert [m[0], m[1], m[2], m[3], m[4], m[5]] == [m[0], m[1], m[2], m[3], m[4]] + [m[5]];
      SumSnoc([m[0], m[1], m[2], m[3], m[4]], m[5]);
    }
    assert Sum([m[0], m[1], m[2], m[3], m[4], m[5], m[6]]) == 2540.0 by {
      assert [m[0], m[1], m[2], m[3], m[4], m[5], m[6]] == [m[0], m[1], m[2], m[3], m[4], m[5]] + [m[6]];
      SumSnoc([m[0], m[1], m[2], m[3], m[4], m[5]], m[6]);
    }
    assert Sum([m[0], m[1], m[2], m[3], m[4], m[5], m[6], m[7]]) == 3840.0 by {
      assert [m[0], m[1], m[2], m[3], m[4], m[5], m[6], m[7]] == [m[0], m[1], m[2], m[3], m[4], m[5], m[6]] + [m[7]];
      SumSnoc([m[0], m[1], m[2], m[3], m[4], m[5], m[6]], m[7]);
    }
    assert [m[0], m[1], m[2], m[3], m[4], m[5], m[6], m[7]] == m;
  }

  /** The deposits and withdrawals after each movement in turn. */
  lemma FirstAccountSums(m: seq<real>)
    requires IsMovements1(m)
    ensures SplitSums(m) == Sums(5020.0, -1180.0)
  {
    assert SplitSums([m[0]]) == Sums(200.0, 0.0) by {
      assert [m[0]] == [] + [m[0]];
      SplitSumsSnoc([], m[0]);
    }
    assert SplitSums([m[0], m[1]]) == Sums(650.0, 0.0) by {
      assert [m[0], m[1]] == [m[0]] + [m[1]];
      SplitSumsSnoc([m[0]], m[1]);
    }
    assert SplitSums([m[0], m[1], m[2]]) == Sums(650.0, -400.0) by {
      assert [m[0], m[1], m[2]] == [m[0], m[1]] + [m[2]];
      SplitSumsSnoc([m[0], m[1]], m[2]);
    }
    assert SplitSums([m[0], m[1], m[2], m[3]]) == Sums(3650.0, -400.0) by {
      assert [m[0], m[1], m[2], m[3]] == [m[0], m[1], m[2]] + [m[3]];
      SplitSumsSnoc([m[0], m[1], m[2]], m[3]);
    }
    assert SplitSums([m[0], m[1], m[2], m[3], m[4]]) == Sums(3650.0, -1050.0) by {
      assert [m[0], m[1], m[2], m[3], m[4]] == [m[0], m[1], m[2], m[3]] + [m[4]];
      SplitSumsSnoc([m[0], m[1], m[2], m[3]], m[4]);
    }
    assert SplitSums([m[0], m[1], m[2], m[3], m[4], m[5]]) == Sums(3650.0, -1180.0) by {
      assert [m[0], m[1], m[2], m[3], m[4], m[5]] == [m[0], m[1], m[2], m[3], m[4]] + [m[5]];
      SplitSumsSnoc([m[0], m[1], m[2], m[3], m[4]], m[5]);
    }
    assert SplitSums([m[0], m[1], m[2], m[3], m[4], m[5], m[6]]) == Sums(3720.0, -1180.0) by {
      assert [m[0], m[1], m[2], m[3], m[4], m[5], m[6]] == [m[0], m[1], m[2], m[3], m[4], m[5]] + [m[6]];
      SplitSumsSnoc([m[0], m[1], m[2], m[3], m[4], m[5]], m[6]);
    }
    assert SplitSums([m[0], m[1], m[2], m[3], m[4], m[5], m[6], m[7]]) == Sums(5020.0, -1180.0) by {
      assert [m[0], m[1], m[2], m[3], m[4], m[5], m[6], m[7]] == [m[0], m[1], m[2], m[3], m[4], m[5], m[6]] + [m[7]];
      SplitSumsSnoc([m[0], m[1], m[2], m[3], m[4], m[5], m[6]], m[7]);
    }
    assert [m[0], m[1], m[2], m[3], m[4], m[5], m[6], m[7]] == m;
  }

  /** The interest after each movement in turn, one deposit at a time. */
  lemma FirstAccountInterest(m: seq<real>)
    requires IsMovements1(m)
    ensures InterestPerDeposit(m, 1.2) == 59.4
  {
    assert InterestPerDeposit([m[0]], 1.2) == 2.4 by {
      assert [m[0]] == [] + [m[0]];
      InterestPerDepositSnoc([], m[0], 1.2);
    }
    assert InterestPerDeposit([m[0], m[1]], 1.2) == 7.8 by {
      assert [m[0], m[1]] == [m[0]] + [m[1]];
      InterestPerDepositSnoc([m[0]], m[1], 1.2);
    }
    assert InterestPerDeposit([m[0], m[1], m[2]], 1.2) == 7.8 by {
      assert [m[0], m[1], m[2]] == [m[0], m[1]] + [m[2]];
      InterestPerDepositSnoc([m[0], m[1]], m[2], 1.2);
    }
    assert InterestPerDeposit([m[0], m[1], m[2], m[3]], 1.2) == 43.8 by {
      assert [m[0], m[1], m[2], m[3]] == [m[0], m[1], m[2]] + [m[3]];
      InterestPerDepositSnoc([m[0], m[1], m[2]], m[3], 1.2);
    }
    assert InterestPerDeposit([m[0], m[1], m[2], m[3], m[4]], 1.2) == 43.8 by {
      assert [m[0], m[1], m[2], m[3], m[4]] == [m[0], m[1], m[2], m[3]] + [m[4]];
      InterestPerDepositSnoc([m[0], m[1], m[2], m[3]], m[4], 1.2);
    }
    assert InterestPerDeposit([m[0], m[1], m[2], m[3], m[4], m[5]], 1.2) == 43.8 by {
      assert [m[0], m[1], m[2], m[3], m[4], m[5]] == [m[0], m[1], m[2], m[3], m[4]] + [m[5]];
      InterestPerDepositSnoc([m[0], m[1], m[2], m[3], m[4]], m[5], 1.2);
    }
    assert InterestPerDeposit([m[0], m[1], m[2], m[3], m[4], m[5], m[6]], 1.2) == 43.8 by {
      assert [m[0], m[1], m[2], m[3], m[4], m[5], m[6]] == [m[0], m[1], m[2], m[3], m[4], m[5]] + [m[6]];
      InterestPerDepositSnoc([m[0], m[1], m[2], m[3], m[4], m[5]], m[6], 1.2);
    }
    assert InterestPerDeposit([m[0], m[1], m[2], m[3], m[4], m[5], m[6], m[7]], 1.2) == 59.4 by {
      assert [m[0], m[1], m[2], m[3], m[4], m[5], m[6], m[7]] == [m[0], m[1], m[2], m[3], m[4], m[5], m[6]] + [m[7]];
      InterestPerDepositSnoc([m[0], m[1], m[2], m[3], m[4], m[5], m[6]], m[7], 1.2);
    }
    assert [m[0], m[1], m[2], m[3], m[4], m[5], m[6], m[7]] == m;
  }
}
