/** The Bankist ledger (8-Arrays/script.js:8-237): the account objects, the shared
    `accounts` array, the `currentAccount` and `sorted` globals, and the five
    click handlers, each modelled as a method on one Bank object that holds
    those globals. */
module Bankist {
  import opened Summary
  import opened Usernames
  import opened ArrayOps
  import opened MovementsView
  import opened Aggregates
  import Seed

  datatype Option<T> = None | Some(value: T)

  /** One account record.  `balance` is None until calcDisplayBalance has run
      for the account (in the program the property is `undefined` until then). */
  class Account {
    const owner: string
    const interestRate: real
    const pin: int
    var movements: seq<real>
    var username: string
    var balance: Option<real>

    constructor (owner: string, movements: seq<real>, interestRate: real, pin: int)
      ensures this.owner == owner && this.movements == movements
      ensures this.interestRate == interestRate && this.pin == pin
      ensures username == "" && balance == None
    {
      this.owner := owner;
      this.movements := movements;
      this.interestRate := interestRate;
      this.pin := pin;
      username := "";
      balance := None;
    }
  }

  // ----- the guards of the handlers -----

  /** `currentAccount.balance >= amount` (line 183), on the cached balance: an
      `undefined` cache covers nothing, a cached balance covers exactly the
      amounts up to it. */
  function Covers(balance: Option<real>, amount: real): (r: bool)
    ensures balance.None? ==> !r
    ensures balance.Some? ==> (r <==> amount <= balance.value)
  {
    balance.Some? && balance.value >= amount
  }

  /** `movements.some(mov => mov >= threshold)` */
  function SomeAtLeast(movements: seq<real>, threshold: real): (r: bool)
    ensures r <==> exists i :: 0 <= i < |movements| && movements[i] >= threshold
  {
    if movements == [] then false
    else
      var n := |movements| - 1;
      assert forall i :: 0 <= i < n ==> movements[..n][i] == movements[i];
      movements[n] >= threshold || SomeAtLeast(movements[..n], threshold)
  }

  /** The largest movement. */
  function Largest(movements: seq<real>): (m: real)
    requires movements != []
    ensures m in movements
    ensures forall i :: 0 <= i < |movements| ==> movements[i] <= m
  {
    if |movements| == 1 then movements[0]
    else
      var n := |movements| - 1;
      var rest := Largest(movements[..n]);
      assert forall i :: 0 <= i < n ==> movements[..n][i] == movements[i];
      if movements[n] >= rest then movements[n] else rest
  }

  /** The loan guard of line 199: a loan is granted exactly when it is positive
      and at most ten times the largest movement on the account. */
  function LoanAllowed(movements: seq<real>, amount: real): (r: bool)
    ensures r <==> amount > 0.0 && movements != [] && amount <= 10.0 * Largest(movements)
  {
    TenthOfLargest(movements, amount);
    amount > 0.0 && SomeAtLeast(movements, amount * 0.1)
  }

  /** Some movement reaches a tenth of a positive amount exactly when the largest
      one does. */
  lemma TenthOfLargest(movements: seq<real>, amount: real)
    ensures amount > 0.0 ==>
              (SomeAtLeast(movements, amount * 0.1) <==> movements != [] && amount <= 10.0 * Largest(movements))
  {
    if amount > 0.0 && movements != [] && amount <= 10.0 * Largest(movements) {
      var i :| 0 <= i < |movements| && movements[i] == Largest(movements);
      assert movements[i] >= amount * 0.1;
    }
  }

  // ----- calcDisplayBalance, updateUI, createUsernames -----

  /** calcDisplayBalance (lines 93-97): stores the sum of the movements. */
  method CalcDisplayBalance(acc: Account)
    modifies acc`balance
    ensures acc.balance == Some(Balance(acc.movements))
  {
    acc.balance := Some(Sum(acc.movements));
  }

  /** createUsernames (lines 123-131): the `forEach` that gives every account the
      username derived from its owner. */
  method CreateUsernames(accs: seq<Account>)
    modifies accs`username
    ensures forall i :: 0 <= i < |accs| ==> accs[i].username == Username(accs[i].owner)
  {
    for n := 0 to |accs|
      invariant forall i :: 0 <= i < n ==> accs[i].username == Username(accs[i].owner)
    {
      accs[n].username := Username(accs[n].owner);
    }
  }

  // ----- the bank -----

  /** The usernames of a list of accounts, in order. */
  function NamesOf(accs: seq<Account>): (r: seq<string>)
    reads accs`username
    ensures |r| == |accs|
    decreases |accs|
  {
    if accs == [] then [] else NamesOf(accs[..|accs| - 1]) + [accs[|accs| - 1].username]
  }

  lemma {:induction false} NamesOfAt(accs: seq<Account>)
    ensures forall i :: 0 <= i < |accs| ==> NamesOf(accs)[i] == accs[i].username
    decreases |accs|
  {
    if accs != [] {
      NamesOfAt(accs[..|accs| - 1]);
    }
  }

  /** The movement lists of a list of accounts, in order. */
  function LedgerOf(accs: seq<Account>): (r: seq<seq<real>>)
    reads accs`movements
    ensures |r| == |accs|
    decreases |accs|
  {
    if accs == [] then [] else LedgerOf(accs[..|accs| - 1]) + [accs[|accs| - 1].movements]
  }

  lemma {:induction false} LedgerOfAt(accs: seq<Account>)
    ensures forall i :: 0 <= i < |accs| ==> LedgerOf(accs)[i] == accs[i].movements
    decreases |accs|
  {
    if accs != [] {
      LedgerOfAt(accs[..|accs| - 1]);
    }
  }

  /** Removing an account removes its username at the same position. */
  lemma NamesOfSplice(accs: seq<Account>, start: int)
    ensures NamesOf(SpliceOne(accs, start)) == SpliceOne(NamesOf(accs), start)
  {
    var r, n := SpliceOne(accs, start), SpliceOne(NamesOf(accs), start);
    NamesOfAt(accs);
    NamesOfAt(r);
    SpliceOneRemovesOne(accs, start);
    SpliceOneRemovesOne(NamesOf(accs), start);
    var k := SpliceStart(|accs|, start);
    assert |NamesOf(r)| == |n|;
    forall i | 0 <= i < |n| ensures NamesOf(r)[i] == n[i] {
      if i < k {
        assert r[i] == accs[i];
      } else {
        assert r[i] == accs[i + 1];
      }
    }
  }

  /** A listed account's username is among the listed usernames. */
  lemma UsernameIsListed(accs: seq<Account>, a: Account)
    ensures a in accs ==> a.username in NamesOf(accs)
  {
    if a in accs {
      var i :| 0 <= i < |accs| && accs[i] == a;
      NamesOfAt(accs);
      assert NamesOf(accs)[i] == a.username;
    }
  }

  /** Accounts with different usernames are different objects. */
  lemma AccountsOfDistinctNames(accs: seq<Account>)
    requires Distinct(NamesOf(accs))
    ensures forall i, j :: 0 <= i < |accs| && 0 <= j < |accs| && i != j ==> accs[i] != accs[j]
  {
    NamesOfAt(accs);
  }

  /** With distinct usernames, looking up the username of an account that is
      listed, or whose username nobody listed has, finds that account, or
      finds nothing when it is not listed. */
  lemma ListedAccountPosition(accs: seq<Account>, a: Account)
    requires Distinct(NamesOf(accs))
    requires a in accs || a.username !in NamesOf(accs)
    ensures var k := FindIndex(NamesOf(accs), a.username);
            if k >= 0 then accs[k] == a else a !in accs
  {
    var names, k := NamesOf(accs), FindIndex(NamesOf(accs), a.username);
    NamesOfAt(accs);
    if a in accs {
      var i :| 0 <= i < |accs| && accs[i] == a;
      assert names[i] == a.username;
      assert names[k] == names[i];
    }
  }

  /** The usernames createUsernames derives for the program's four accounts are
      "js", "jd", "stw" and "ss". */
  lemma SeededUsernames()
    ensures |Seed.Accounts| == 4
    ensures Username(Seed.Accounts[0].owner) == "js" && Username(Seed.Accounts[1].owner) == "jd"
    ensures Username(Seed.Accounts[2].owner) == "stw" && Username(Seed.Accounts[3].owner) == "ss"
  {
    assert Seed.Accounts[0].owner == "Jonas Schmedtmann" && Seed.Accounts[1].owner == "Jessica Davis";
    assert Seed.Accounts[2].owner == "Steven Thomas Williams" && Seed.Accounts[3].owner == "Sarah Smith";
    JonasUsername("Jonas Schmedtmann");
    JessicaUsername("Jessica Davis");
    StevenUsername("Steven Thomas Williams");
    SarahUsername("Sarah Smith");
  }

  /** The four seeded usernames differ from one another. */
  lemma SeededUsernamesDistinct()
    ensures Distinct(["js", "jd", "stw", "ss"])
  {
    var names := ["js", "jd", "stw", "ss"];
    assert names[0][1] != names[1][1] && names[2][1] != names[3][1];
    assert names[0][0] != names[2][0] && names[0][0] != names[3][0];
    assert names[1][0] != names[2][0] && names[1][0] != names[3][0];
  }

  class Bank {
    var accounts: seq<Account>
    var currentAccount: Account?
    var sorted: bool

    /** The usernames, in list order. */
    function Names(): (r: seq<string>)
      reads this`accounts, accounts`username
      ensures |r| == |accounts|
    {
      NamesOf(accounts)
    }

    /** The movement lists, in list order. */
    function Ledger(): (r: seq<seq<real>>)
      reads this`accounts, accounts`movements
      ensures |r| == |accounts|
    {
      LedgerOf(accounts)
    }

    /** Usernames are unique in the list, and a current account that has been
        removed from the list shares its username with no listed account. */
    ghost predicate Valid()
      reads this`accounts, this`currentAccount, accounts`username,
            (if currentAccount == null then {} else {currentAccount})`username
    {
      Distinct(Names()) &&
      (currentAccount != null && currentAccount !in accounts ==> currentAccount.username !in Names())
    }

    /** The program's start over the given account literals: one account object
        per literal, in order, each given the username derived from its owner;
        nobody logged in and the movements unsorted.  The directory is valid
        exactly when the derived usernames are distinct (Start shows they are
        for the program's own four accounts). */
    constructor (data: seq<Seed.AccountData>)
      ensures |accounts| == |data|
      ensures forall i :: 0 <= i < |data| ==>
                fresh(accounts[i]) && accounts[i].owner == data[i].owner &&
                accounts[i].movements == data[i].movements &&
                accounts[i].interestRate == data[i].interestRate && accounts[i].pin == data[i].pin &&
                accounts[i].username == Username(data[i].owner) && accounts[i].balance == None
      ensures Valid() <==> Distinct(Names())
      ensures currentAccount == null && !sorted
    {
      var accs: seq<Account> := [];
      for n := 0 to |data|
        invariant |accs| == n
        invariant forall i :: 0 <= i < n ==>
                    fresh(accs[i]) && accs[i].owner == data[i].owner &&
                    accs[i].movements == data[i].movements &&
                    accs[i].interestRate == data[i].interestRate && accs[i].pin == data[i].pin &&
                    accs[i].balance == None
      {
        var acc := new Account(data[n].owner, data[n].movements, data[n].interestRate, data[n].pin);
        accs := accs + [acc];
      }
      CreateUsernames(accs);
      accounts := accs;
      currentAccount := null;
      sorted := false;
    }

    /** updateUI (lines 137-144): renders the movements in chronological order
        (displayMovements is called without `sort`), refreshes the cached balance
        and renders the summary.  The rendered values go to the page, so only the
        balance stays behind: the directory and every movement list are as they were. */
    method UpdateUI(acc: Account)
      modifies acc`balance
      ensures acc.balance == Some(Balance(acc.movements))
      ensures Names() == old(Names()) && Ledger() == old(Ledger())
      ensures old(Valid()) ==> Valid()
    {
      var shown := Displayed(acc.movements, false);
      CalcDisplayBalance(acc);
      var figures := Summarize(acc.movements, acc.interestRate);
    }

    /** The login handler (lines 149-167).  `currentAccount` is overwritten with
        the result of `find` before the PIN is looked at, so an unknown username
        logs the session out and a wrong PIN leaves the found account current. */
    method Login(user: string, pin: int) returns (ok: bool)
      requires Valid()
      modifies this`currentAccount, accounts`balance
      ensures Valid()
      ensures var k := FindIndex(Names(), user);
              currentAccount == if k >= 0 then accounts[k] else null
      ensures ok <==> currentAccount != null && currentAccount.pin == pin
      ensures ok ==> currentAccount.balance == Some(Balance(currentAccount.movements))
      ensures forall a :: a in accounts && (!ok || a != currentAccount) ==> a.balance == old(a.balance)
    {
      var k := FindIndex(Names(), user);
      currentAccount := if k >= 0 then accounts[k] else null;
      ok := currentAccount != null && currentAccount.pin == pin;
      assert Valid();
      if ok {
        UpdateUI(currentAccount);
      }
    }

    /** One `push` onto the movements of `a`, found at position `i` of the
        directory or not listed at all (`i` is -1): a listed account's entry of
        the ledger grows by `x`, and nothing else of the bank changes. */
    method PushOne(a: Account, i: int, x: real)
      requires i < |accounts| && Distinct(Names())
      requires if i >= 0 then accounts[i] == a else a !in accounts
      modifies a`movements
      ensures a.movements == old(a.movements) + [x]
      ensures Names() == old(Names())
      ensures Ledger() == if i >= 0 then Push(old(Ledger()), i, x) else old(Ledger())
    {
      ghost var before := Ledger();
      AccountsOfDistinctNames(accounts);
      LedgerOfAt(accounts);
      a.movements := a.movements + [x];
      LedgerOfAt(accounts);
      if i >= 0 {
        assert Ledger() == Push(before, i, x);
      } else {
        assert Ledger() == before;
      }
    }

    /** The two pushes of the transfer handler (lines 187-188): `-amount` onto
        the sender and `amount` onto the listed receiver.  The sender need not be
        listed any more, but then no listed account has its username. */
    method PushLegs(sender: Account, receiver: Account, k: nat, amount: real)
      requires Distinct(Names()) && k < |accounts| && accounts[k] == receiver
      requires Names()[k] != sender.username
      requires sender in accounts || sender.username !in Names()
      modifies sender`movements, receiver`movements
      ensures sender.movements == old(sender.movements) + [-amount]
      ensures receiver.movements == old(receiver.movements) + [amount]
      ensures Names() == old(Names())
      ensures Ledger() == Transferred(old(Ledger()), FindIndex(Names(), sender.username), k, amount)
    {
      var s := FindIndex(Names(), sender.username);
      assert sender != receiver by {
        NamesOfAt(accounts);
      }
      assert if s >= 0 then accounts[s] == sender else sender !in accounts by {
        ListedAccountPosition(accounts, sender);
      }
      PushOne(sender, s, -amount);
      PushOne(receiver, k, amount);
    }

    /** The body of a successful transfer (lines 186-190): both legs, then the
        sender's view is refreshed. */
    method Pay(receiver: Account, k: nat, amount: real)
      requires Valid() && currentAccount != null && k < |accounts| && accounts[k] == receiver
      requires Names()[k] != currentAccount.username
      modifies currentAccount`movements, receiver`movements, currentAccount`balance
      ensures Valid()
      ensures currentAccount.movements == old(currentAccount.movements) + [-amount]
      ensures currentAccount.balance == Some(Balance(currentAccount.movements))
      ensures Ledger() == Transferred(old(Ledger()), FindIndex(Names(), currentAccount.username), k, amount)
    {
      PushLegs(currentAccount, receiver, k, amount);
      assert Valid();
      UpdateUI(currentAccount);
    }

    /** The transfer handler (lines 170-192).  Both legs are pushed only when the
        amount is positive, the receiver exists, the cached balance covers the
        amount and the receiver is not the sender; only the sender's view (and
        cached balance) is refreshed.  A sender that is no longer listed still
        pays: its leg lands outside the list (TransferredTotal: the listed total
        then grows by the amount). */
    method Transfer(to: string, amount: real) returns (done: bool)
      requires Valid() && currentAccount != null
      modifies accounts`movements, currentAccount`movements, currentAccount`balance
      ensures Valid()
      ensures done <==> amount > 0.0 && to in Names() && Covers(old(currentAccount.balance), amount) &&
                        to != currentAccount.username
      ensures currentAccount.movements ==
                if done then old(currentAccount.movements) + [-amount] else old(currentAccount.movements)
      ensures currentAccount.balance ==
                if done then Some(Balance(currentAccount.movements)) else old(currentAccount.balance)
      ensures Ledger() == if done then Transferred(old(Ledger()), FindIndex(Names(), currentAccount.username),
                                                   FindIndex(Names(), to), amount)
                          else old(Ledger())
      ensures currentAccount in accounts ==> Total(Ledger()) == Total(old(Ledger()))
    {
      var k := FindIndex(Names(), to);
      done := amount > 0.0 && k >= 0 && Covers(currentAccount.balance, amount) &&
              Names()[k] != currentAccount.username;
      if done {
        ghost var before := Ledger();
        Pay(accounts[k], k, amount);
        assert currentAccount in accounts ==> Total(Ledger()) == Total(before) by {
          var s := FindIndex(Names(), currentAccount.username);
          UsernameIsListed(accounts, currentAccount);
          TransferredTotal(before, s, k, amount);
        }
      }
    }

    /** The loan handler (lines 195-207). */
    method RequestLoan(amount: real) returns (granted: bool)
      requires Valid() && currentAccount != null
      modifies currentAccount`movements, currentAccount`balance
      ensures Valid()
      ensures granted <==> LoanAllowed(old(currentAccount.movements), amount)
      ensures currentAccount.movements ==
                if granted then old(currentAccount.movements) + [amount] else old(currentAccount.movements)
      ensures currentAccount.balance ==
                if granted then Some(Balance(currentAccount.movements)) else old(currentAccount.balance)
    {
      granted := amount > 0.0 && SomeAtLeast(currentAccount.movements, amount * 0.1);
      if granted {
        currentAccount.movements := currentAccount.movements + [amount];
        UpdateUI(currentAccount);
      }
    }

    /** The close handler (lines 210-229).  It removes the element at the
        `findIndex` of the current account's username with `splice(index, 1)`
        and leaves `currentAccount` as it was, so closing an account that is
        already gone splices at -1 and removes the last account in the list. */
    method Close(user: string, pin: int) returns (closed: bool)
      requires Valid() && currentAccount != null
      modifies this`accounts
      ensures Valid()
      ensures currentAccount == old(currentAccount) && sorted == old(sorted)
      ensures closed <==> user == currentAccount.username && pin == currentAccount.pin
      ensures accounts == if closed then SpliceOne(old(accounts), FindIndex(old(Names()), currentAccount.username))
                          else old(accounts)
      ensures closed && old(accounts) != [] ==> |accounts| == |old(accounts)| - 1
      ensures closed ==> currentAccount !in accounts && currentAccount.username !in Names()
      ensures closed && currentAccount !in old(accounts) && old(accounts) != [] ==>
                accounts == old(accounts)[..|old(accounts)| - 1]
    {
      closed := user == currentAccount.username && pin == currentAccount.pin;
      if closed {
        var names := Names();
        var index := FindIndex(names, currentAccount.username);
        accounts := SpliceOne(accounts, index);
        assert Names() == SpliceOne(names, index) by {
          NamesOfSplice(old(accounts), index);
        }
        assert Distinct(Names()) by {
          SpliceOneKeepsDistinct(names, index);
        }
        assert currentAccount.username !in Names() by {
          SpliceOneKeepsElements(names, index, currentAccount.username);
          UsernameIsListed(old(accounts), currentAccount);
          if currentAccount in old(accounts) {
            SpliceRemovesName(names, currentAccount.username);
          }
        }
        assert currentAccount !in accounts by {
          UsernameIsListed(accounts, currentAccount);
        }
        if old(accounts) != [] {
          assert |accounts| == |old(accounts)| - 1 by {
            SpliceOneRemovesOne(old(accounts), index);
          }
          if currentAccount !in old(accounts) {
            UsernameIsListed(old(accounts), currentAccount);
            SpliceMinusOne(old(accounts));
          }
        }
      }
    }

    /** The sort handler (lines 233-237): shows the movements in the order the
        flipped flag asks for and stores the flipped flag. */
    method ToggleSort() returns (shown: seq<real>)
      requires currentAccount != null
      modifies this`sorted
      ensures sorted == !old(sorted)
      ensures shown == Displayed(currentAccount.movements, sorted)
      ensures multiset(shown) == multiset(currentAccount.movements)
      ensures sorted ==> Ascending(shown)
    {
      shown := Displayed(currentAccount.movements, !sorted);
      sorted := !sorted;
    }
  }

  /** The program's start (lines 36 and 133): one fresh account per literal, in
      order, carrying the literal's owner, movements, interest rate and PIN with
      no balance cached yet, and with the usernames js, jd, stw and ss, so the
      directory is valid; nobody is logged in yet. */
  method Start() returns (b: Bank)
    ensures fresh(b) && b.Valid()
    ensures |b.accounts| == |Seed.Accounts|
    ensures forall i :: 0 <= i < |b.accounts| ==>
              fresh(b.accounts[i]) && b.accounts[i].owner == Seed.Accounts[i].owner &&
              b.accounts[i].movements == Seed.Accounts[i].movements &&
              b.accounts[i].interestRate == Seed.Accounts[i].interestRate &&
              b.accounts[i].pin == Seed.Accounts[i].pin && b.accounts[i].balance == None
    ensures b.Names() == ["js", "jd", "stw", "ss"]
    ensures b.currentAccount == null && !b.sorted
  {
    b := new Bank(Seed.Accounts);
    var names := b.Names();
    assert |names| == 4;
    assert names[0] == "js" && names[1] == "jd" && names[2] == "stw" && names[3] == "ss" by {
      assert forall i :: 0 <= i < 4 ==> names[i] == Username(Seed.Accounts[i].owner) by {
        NamesOfAt(b.accounts);
      }
      SeededUsernames();
    }
    SeededUsernamesDistinct();
    FourNames(names, "js", "jd", "stw", "ss");
  }

  /** A solver hint for Start: four elements known one by one make the
      four-element display, without unfolding the string literals. */
  lemma FourNames(names: seq<string>, a: string, b: string, c: string, d: string)
    requires |names| == 4 && names[0] == a && names[1] == b && names[2] == c && names[3] == d
    ensures names == [a, b, c, d]
  {
  }
}
