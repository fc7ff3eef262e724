/** The arithmetic behind the balance label and the summary labels of an account
    (8-Arrays/script.js, calcDisplayBalance and calcDisplaySummary).  Every list
    function recurses on the LAST element, as `reduce` folds from the left. */
module Summary {

  /** `movements.reduce((acc, mov) => acc + mov, 0)` */
  function Sum(s: seq<real>): real
  {
    if s == [] then 0.0 else Sum(s[..|s| - 1]) + s[|s| - 1]
  }

  /** `filter(deposit => deposit > 0)` */
  function Deposits(s: seq<real>): (r: seq<real>)
    ensures |r| <= |s|
    ensures forall x :: x in r <==> x in s && x > 0.0
    ensures forall i :: 0 <= i < |r| ==> r[i] > 0.0
  {
    if s == [] then []
    else
      var last := s[|s| - 1];
      assert s == s[..|s| - 1] + [last];
      Deposits(s[..|s| - 1]) + (if last > 0.0 then [last] else [])
  }

  /** `filter(withdrawal => withdrawal < 0)` */
  function Withdrawals(s: seq<real>): (r: seq<real>)
    ensures |r| <= |s|
    ensures forall x :: x in r <==> x in s && x < 0.0
    ensures forall i :: 0 <= i < |r| ==> r[i] < 0.0
  {
    if s == [] then []
    else
      var last := s[|s| - 1];
      assert s == s[..|s| - 1] + [last];
      Withdrawals(s[..|s| - 1]) + (if last < 0.0 then [last] else [])
  }

  /** The interest one deposit earns at `rate` percent. */
  function InterestOn(deposit: real, rate: real): real
  {
    deposit * rate / 100.0
  }

  /** `map(deposit => (deposit * acc.interestRate) / 100)` */
  function InterestTerms(deposits: seq<real>, rate: real): (r: seq<real>)
    ensures |r| == |deposits|
    ensures forall i :: 0 <= i < |r| ==> r[i] == InterestOn(deposits[i], rate)
  {
    if deposits == [] then []
    else InterestTerms(deposits[..|deposits| - 1], rate) + [InterestOn(deposits[|deposits| - 1], rate)]
  }

  /** `filter((int, i, arr) => int >= 1)` */
  function Qualifying(terms: seq<real>): (r: seq<real>)
    ensures |r| <= |terms|
    ensures forall x :: x in r <==> x in terms && x >= 1.0
    ensures forall i :: 0 <= i < |r| ==> r[i] >= 1.0
  {
    if terms == [] then []
    else
      var last := terms[|terms| - 1];
      assert terms == terms[..|terms| - 1] + [last];
      Qualifying(terms[..|terms| - 1]) + (if last >= 1.0 then [last] else [])
  }

  /** The balance written into `acc.balance` (line 94): what came in minus what
      went out. */
  function Balance(movements: seq<real>): (r: real)
    ensures r == Incomes(movements) + Out(movements)
  {
    IncomesAndOutMakeBalance(movements);
    Sum(movements)
  }

  /** `incomes` (lines 102-104): never negative. */
  function Incomes(movements: seq<real>): (r: real)
    ensures r >= 0.0
  {
    SumSign(Deposits(movements));
    Sum(Deposits(movements))
  }

  /** `out` before `Math.abs` (lines 107-109): zero or negative. */
  function Out(movements: seq<real>): (r: real)
    ensures r <= 0.0
  {
    SumSign(Withdrawals(movements));
    Sum(Withdrawals(movements))
  }

  /** `interest` (lines 112-118): only terms of at least 1 are kept, so the
      interest is either nothing at all or at least 1. */
  function Interest(movements: seq<real>, rate: real): (r: real)
    ensures r == 0.0 || r >= 1.0
  {
    var q := Qualifying(InterestTerms(Deposits(movements), rate));
    assert forall i :: 0 <= i < |q| ==> q[i] in q;
    SumOfLargeTerms(q);
    Sum(q)
  }

  /** The three summary labels: incomes, `Math.abs(out)` and interest. */
  datatype Figures = Figures(incomes: real, out: real, interest: real)

  /** Everything calcDisplaySummary shows, with what it means for the account. */
  function Summarize(movements: seq<real>, rate: real): (r: Figures)
    ensures r.incomes >= 0.0 && r.out >= 0.0
    ensures r.incomes - r.out == Balance(movements)
    ensures r.interest == 0.0 || r.interest >= 1.0
    ensures movements == [] ==> r == Figures(0.0, 0.0, 0.0)
  {
    var out := Out(movements);
    Figures(Incomes(movements), if out < 0.0 then -out else out, Interest(movements, rate))
  }

  /** The per-deposit interest rule as one pass over the movements: each deposit
      `m` adds its own term `m * rate / 100` when that term is at least 1. */
  function InterestPerDeposit(movements: seq<real>, rate: real): real
  {
    if movements == [] then 0.0
    else
      var m := movements[|movements| - 1];
      InterestPerDeposit(movements[..|movements| - 1], rate)
        + (if m > 0.0 && InterestOn(m, rate) >= 1.0 then InterestOn(m, rate) else 0.0)
  }

  // ----- lemmas -----

  /** One more element adds itself to the sum. */
  lemma SumSnoc(s: seq<real>, x: real)
    ensures Sum(s + [x]) == Sum(s) + x
  {
    assert (s + [x])[..|s|] == s;
  }

  lemma InterestPerDepositSnoc(s: seq<real>, x: real, rate: real)
    ensures InterestPerDeposit(s + [x], rate) ==
              InterestPerDeposit(s, rate) + (if x > 0.0 && InterestOn(x, rate) >= 1.0 then InterestOn(x, rate) else 0.0)
  {
    assert (s + [x])[..|s|] == s;
  }

  lemma {:induction false} SumAppend(a: seq<real>, b: seq<real>)
    ensures Sum(a + b) == Sum(a) + Sum(b)
    decreases |b|
  {
    if b == [] {
      assert a + b == a;
    } else {
      assert (a + b)[..|a + b| - 1] == a + b[..|b| - 1];
      SumAppend(a, b[..|b| - 1]);
    }
  }

  /** The withdrawals filter distributes over concatenation: together with its
      contract on one movement, it keeps every negative movement, as often as it
      occurs and in order. */
  lemma {:induction false} WithdrawalsAppend(a: seq<real>, b: seq<real>)
    ensures Withdrawals(a + b) == Withdrawals(a) + Withdrawals(b)
    decreases |b|
  {
    if b == [] {
      assert a + b == a;
    } else {
      assert (a + b)[..|a + b| - 1] == a + b[..|b| - 1];
      WithdrawalsAppend(a, b[..|b| - 1]);
    }
  }

  /** The filter on the interest terms distributes over concatenation: every term
      of at least 1 is kept, as often as it occurs and in order. */
  lemma {:induction false} QualifyingAppend(a: seq<real>, b: seq<real>)
    ensures Qualifying(a + b) == Qualifying(a) + Qualifying(b)
    decreases |b|
  {
    if b == [] {
      assert a + b == a;
    } else {
      assert (a + b)[..|a + b| - 1] == a + b[..|b| - 1];
      QualifyingAppend(a, b[..|b| - 1]);
    }
  }

  /** A sum of all-positive (all-negative) values is non-negative (non-positive). */
  lemma {:induction false} SumSign(s: seq<real>)
    ensures (forall i :: 0 <= i < |s| ==> s[i] >= 0.0) ==> Sum(s) >= 0.0
    ensures (forall i :: 0 <= i < |s| ==> s[i] <= 0.0) ==> Sum(s) <= 0.0
  {
    if s != [] {
      SumSign(s[..|s| - 1]);
    }
  }

  /** Incomes plus the (negative) out equals the balance: zero movements add
      nothing to either side. */
  lemma {:induction false} IncomesAndOutMakeBalance(movements: seq<real>)
    ensures Incomes(movements) + Out(movements) == Sum(movements)
  {
    if movements != [] {
      var init, last := movements[..|movements| - 1], movements[|movements| - 1];
      IncomesAndOutMakeBalance(init);
      SumAppend(Deposits(init), if last > 0.0 then [last] else []);
      SumAppend(Withdrawals(init), if last < 0.0 then [last] else []);
    }
  }

  /** A sum of terms that are each at least 1 is at least their number. */
  lemma {:induction false} SumOfLargeTerms(s: seq<real>)
    requires forall i :: 0 <= i < |s| ==> s[i] >= 1.0
    ensures Sum(s) >= |s| as real
  {
    if s != [] {
      SumOfLargeTerms(s[..|s| - 1]);
    }
  }

  /** Dropping terms that are non-negative never raises the sum. */
  lemma {:induction false} QualifyingSumBounded(terms: seq<real>)
    requires forall i :: 0 <= i < |terms| ==> terms[i] >= 0.0
    ensures Sum(Qualifying(terms)) <= Sum(terms)
  {
    if terms != [] {
      var init, last := terms[..|terms| - 1], terms[|terms| - 1];
      QualifyingSumBounded(init);
      SumAppend(Qualifying(init), if last >= 1.0 then [last] else []);
    }
  }

  /** The interest terms add up to `rate / 100` of the deposits. */
  lemma {:induction false} InterestTermsSum(deposits: seq<real>, rate: real)
    ensures Sum(InterestTerms(deposits, rate)) == Sum(deposits) * rate / 100.0
  {
    if deposits != [] {
      var init, d := deposits[..|deposits| - 1], deposits[|deposits| - 1];
      InterestTermsSum(init, rate);
      var terms := InterestTerms(init, rate);
      assert InterestTerms(deposits, rate) == terms + [InterestOn(d, rate)];
      assert (terms + [InterestOn(d, rate)])[..|terms|] == terms;
      Distribute(Sum(init), d, rate);
    }
  }

  lemma Distribute(a: real, b: real, rate: real)
    ensures a * rate / 100.0 + b * rate / 100.0 == (a + b) * rate / 100.0
  {
  }

  /** With a non-negative rate the interest never exceeds `incomes * rate / 100`. */
  lemma InterestBounded(movements: seq<real>, rate: real)
    ensures rate >= 0.0 ==> 0.0 <= Interest(movements, rate) <= Incomes(movements) * rate / 100.0
  {
    if rate >= 0.0 {
      InterestAtMostTerms(movements, rate);
      IncomesAreDeposits(movements);
      TermsAreShareOf(Deposits(movements), Incomes(movements), rate);
    }
  }

  /** At a non-negative rate, dropping the terms below 1 leaves at most the sum
      of all terms. */
  lemma InterestAtMostTerms(movements: seq<real>, rate: real)
    requires rate >= 0.0
    ensures Interest(movements, rate) <= Sum(InterestTerms(Deposits(movements), rate))
  {
    TermsNonNegative(Deposits(movements), rate);
    QualifyingSumBounded(InterestTerms(Deposits(movements), rate));
  }

  /** The incomes are the sum of the deposits: a solver hint for InterestBounded,
      which states this unfolding of Incomes apart from the nonlinear steps. */
  lemma IncomesAreDeposits(movements: seq<real>)
    ensures Incomes(movements) == Sum(Deposits(movements))
  {
  }

  /** The interest terms of deposits summing to `total` add up to `rate / 100`
      of it. */
  lemma TermsAreShareOf(deposits: seq<real>, total: real, rate: real)
    requires total == Sum(deposits)
    ensures Sum(InterestTerms(deposits, rate)) == total * rate / 100.0
  {
    InterestTermsSum(deposits, rate);
  }

  /** At a non-negative rate no deposit earns a negative term. */
  lemma TermsNonNegative(deposits: seq<real>, rate: real)
    requires forall i :: 0 <= i < |deposits| ==> deposits[i] > 0.0
    requires rate >= 0.0
    ensures forall i :: 0 <= i < |deposits| ==> InterestTerms(deposits, rate)[i] >= 0.0
  {
    forall i | 0 <= i < |deposits| ensures InterestTerms(deposits, rate)[i] >= 0.0 {
      NonNegativeProduct(deposits[i], rate);
    }
  }

  lemma NonNegativeProduct(d: real, rate: real)
    requires d > 0.0 && rate >= 0.0
    ensures InterestOn(d, rate) >= 0.0
  {
  }

  /** The filter/map/filter/reduce chain computes the per-deposit rule. */
  lemma {:induction false} InterestIsPerDeposit(movements: seq<real>, rate: real)
    ensures Interest(movements, rate) == InterestPerDeposit(movements, rate)
  {
    if movements != [] {
      var init, m := movements[..|movements| - 1], movements[|movements| - 1];
      assert movements == init + [m];
      InterestIsPerDeposit(init, rate);
      InterestOfLast(init, m, rate);
    }
  }

  /** One more movement adds its own interest term, when it is a deposit whose
      term is at least 1, and nothing otherwise. */
  lemma InterestOfLast(init: seq<real>, m: real, rate: real)
    ensures Interest(init + [m], rate) ==
              Interest(init, rate) + (if m > 0.0 && InterestOn(m, rate) >= 1.0 then InterestOn(m, rate) else 0.0)
  {
    var s := init + [m];
    assert s[..|s| - 1] == init;
    var d := Deposits(init);
    if m > 0.0 {
      var t, e := InterestTerms(d, rate), InterestOn(m, rate);
      assert Deposits(s) == d + [m];
      assert (d + [m])[..|d|] == d;
      assert InterestTerms(d + [m], rate) == t + [e];
      assert (t + [e])[..|t|] == t;
      SumAppend(Qualifying(t), if e >= 1.0 then [e] else []);
    } else {
      assert Deposits(s) == d;
    }
  }
}
