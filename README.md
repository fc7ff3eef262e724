# Bankist ledger, modelled in Dafny

Bankist is a browser banking demo (`8-Arrays/script.js`). It keeps four hard-coded
accounts in memory. Each account has an owner, a list of signed movements (deposits are
positive, withdrawals negative), an interest rate in percent and a PIN. The program
derives a username for every account from the owner's name. Click handlers let the
current user:

- log in;
- transfer money to another account;
- request a loan;
- close their account;
- toggle a sorted view of their movements.

After a login, transfer or loan, the page shows the account's balance, incomes, out and
interest.

This project models that ledger:

- the account records and the shared `accounts` array;
- the `currentAccount` and `sorted` globals;
- the arithmetic of `calcDisplayBalance` and `calcDisplaySummary`;
- `createUsernames`;
- the five handler bodies;
- the array-practice aggregates at the end of the file;
- `convertTitleCase`.

It proves the properties the program relies on or promises.

Modules, one per file:

- `Strings`: ASCII `toLowerCase`/`toUpperCase`, `split(' ')` and `join(' ')`, with their
  round trips and the exact condition under which `split` yields no empty piece.
- `Summary`: the balance and the summary figures, as left folds over the movements, plus a
  one-pass reference definition of the interest rule.
- `Aggregates`: the bank-wide figures built on `flatMap`, and the ledger after a transfer,
  with the proof that a transfer between listed accounts keeps the bank's total.
- `ArrayOps`: `find`/`findIndex` by username and `splice(start, 1)` with JavaScript's
  negative-start semantics.
- `MovementsView`: the `slice().sort((a, b) => a - b)` view used when the movements are
  shown sorted.
- `Usernames`: the username derivation and a reference definition (the lower-cased first
  letter of every word).
- `TitleCase`: `convertTitleCase` and its exception list.
- `Seed`: the four account literals, with account 1's figures computed.
- `Bankist`: the `Account` and `Bank` classes. The handlers are `Bank` methods that change
  the account objects and the bank's fields in place.

### The program as written

The model follows the code in three places where one could expect other behaviour.

- **Transfer checks the cached balance.** The handler compares the amount against
  `currentAccount.balance`, the value `calcDisplayBalance` last stored. It does not
  recompute the sum. Before any refresh that field is `undefined`, and `undefined >= x` is
  false. The model keeps the cache as an `Option`, so `None` stands for `undefined`.
- **Login assigns before it checks the PIN.** `currentAccount` is assigned the result of
  `find` before the PIN is compared.
  - An unknown username therefore sets it to `undefined`.
  - A wrong PIN leaves the found account current. Its view is not refreshed.
- **Close keeps the closed account current.** The session reference is not cleared. A
  second close of an account that is already gone gets index -1 from `findIndex`, and
  `splice(-1, 1)` removes the last account in the list. `Bank.Close` states this outcome.

With nobody logged in, the close and sort handlers always throw a `TypeError`, because
they read `currentAccount` first. The transfer handler reads it only after the amount is
positive and the receiver is found. The loan handler reads it only after the amount is
positive. Other calls to those two with nobody logged in end without any effect. The
model's handler methods require a logged-in account.

## Model

| member | source | states |
|---|---|---|
| Strings.Lower | 8-Arrays/script.js:126 | an upper-case ASCII letter becomes its lower-case letter, every other character is kept, and a space stays a space |
| Strings.Upper | 8-Arrays/script.js:692 | a lower-case ASCII letter becomes its upper-case letter, every other character is kept, and a space stays a space |
| Strings.LowerStr | 8-Arrays/script.js:126 | `toLowerCase` keeps the length and lower-cases every position |
| Strings.Split | 8-Arrays/script.js:127 | `split(' ')` always yields at least one piece and no piece holds a space |
| Strings.Join | 8-Arrays/script.js:700 | `join(' ')` begins with the first word, and a space follows it when more words come |
| Strings.SplitCount | 8-Arrays/script.js:127 | `split(' ')` yields exactly one piece more than the string has spaces |
| Strings.JoinSplit | 8-Arrays/script.js:698-700 | `join(' ')` undoes `split(' ')` on every string |
| Strings.SplitJoin | 8-Arrays/script.js:698-700 | `split(' ')` undoes `join(' ')` on a non-empty list of space-free words |
| Strings.SplitWord | 8-Arrays/script.js:698 | a space-free string splits into itself alone |
| Strings.SplitFirstWord | 8-Arrays/script.js:698 | a space-free word followed by a space splits off as the first piece |
| Strings.SplitLower | 8-Arrays/script.js:126-127 | lower-casing before splitting gives the same number of pieces, each one lower-cased |
| Strings.SingleSpacedIffNoEmptyPiece | 8-Arrays/script.js:127-128 | no piece is empty exactly when the string is non-empty, has no leading or trailing space and no double space |
| Strings.LaterPiecesNonEmpty | 8-Arrays/script.js:127 | the pieces after the first are all non-empty exactly when there is no double space and no trailing space |
| Summary.Deposits | 8-Arrays/script.js:103 | the filter keeps exactly the positive movements and never lengthens the list |
| Summary.Withdrawals | 8-Arrays/script.js:108 | the filter keeps exactly the negative movements and never lengthens the list |
| Summary.InterestTerms | 8-Arrays/script.js:114 | one term per deposit, each `deposit * rate / 100` |
| Summary.Qualifying | 8-Arrays/script.js:115-117 | the filter keeps exactly the terms of at least 1 |
| Summary.WithdrawalsAppend | 8-Arrays/script.js:108 | the withdrawals filter distributes over concatenation, so every negative movement is kept as often as it occurs and in order |
| Summary.QualifyingAppend | 8-Arrays/script.js:115-117 | the filter on the terms distributes over concatenation, so every term of at least 1 is kept as often as it occurs and in order |
| Summary.Balance | 8-Arrays/script.js:94 | the balance is the incomes plus the (negative) out |
| Summary.Incomes | 8-Arrays/script.js:102-104 | the incomes are never negative |
| Summary.Out | 8-Arrays/script.js:107-109 | the out, before `Math.abs`, is never positive |
| Summary.Interest | 8-Arrays/script.js:112-118 | the interest is either 0 or at least 1, because only terms of at least 1 are kept |
| Summary.Summarize | 8-Arrays/script.js:101-120 | the three labels: incomes and out are non-negative, incomes minus out is the balance, interest is 0 or at least 1, all zero for no movements |
| Summary.SumSnoc | 8-Arrays/script.js:94 | the `reduce` adds one more movement to the running sum |
| Summary.SumAppend | 8-Arrays/script.js:94 | the sum of two lists one after the other is the sum of their sums |
| Summary.SumSign | 8-Arrays/script.js:104 | a sum of non-negative (non-positive) values is non-negative (non-positive) |
| Summary.IncomesAndOutMakeBalance | 8-Arrays/script.js:102-110 | incomes plus the negative out equals the balance: a zero movement adds to neither |
| Summary.SumOfLargeTerms | 8-Arrays/script.js:115-118 | terms that are each at least 1 add up to at least their number |
| Summary.QualifyingSumBounded | 8-Arrays/script.js:115-118 | dropping the terms below 1 never raises the sum of non-negative terms |
| Summary.InterestTermsSum | 8-Arrays/script.js:113-114 | the terms add up to `rate / 100` of the deposits |
| Summary.InterestBounded | 8-Arrays/script.js:112-118 | with a non-negative rate the interest lies between 0 and `incomes * rate / 100` |
| Summary.InterestAtMostTerms | 8-Arrays/script.js:115-118 | at a non-negative rate the interest is at most the sum of all the interest terms |
| Summary.TermsAreShareOf | 8-Arrays/script.js:113-114 | the interest terms add up to `rate / 100` of the deposits' total |
| Summary.InterestIsPerDeposit | 8-Arrays/script.js:112-118 | the filter/map/filter/reduce chain equals the one-pass rule: each deposit adds its own term when that term is at least 1 |
| Summary.InterestOfLast | 8-Arrays/script.js:112-118 | one more movement adds its term to the interest when it is a deposit whose term is at least 1, and nothing otherwise |
| Summary.InterestPerDepositSnoc | 8-Arrays/script.js:112-118 | the one-pass rule adds the qualifying term of one more movement |
| Aggregates.Push | 8-Arrays/script.js:187-188 | a `push` onto one account grows its entry of the ledger by the value and keeps every other entry |
| Aggregates.Flatten | 8-Arrays/script.js:658 | `flatMap` holds every movement of every account, and nothing else |
| Aggregates.FlattenAppend | 8-Arrays/script.js:658 | `flatMap` over two lists of accounts is the two flattened lists one after the other |
| Aggregates.FlattenOne | 8-Arrays/script.js:658 | one account flattens to its own movements, so the flattened list is every account's movements in account order |
| Aggregates.AllDepositsSum | 8-Arrays/script.js:657-660 | `allDepositsSum` equals the accounts' incomes added up account by account |
| Aggregates.CountAtLeast1000 | 8-Arrays/script.js:671 | the count is at most the number of movements, and zero exactly when no movement reaches 1000 |
| Aggregates.DepositsAbove1000 | 8-Arrays/script.js:664-671 | `depositsAbove1000` is the number of positions, over all accounts, holding at least 1000, and equals the accounts' own counts added up |
| Aggregates.SplitSums | 8-Arrays/script.js:679-685 | the `deposits` side is never negative, the `withdrawals` side never positive, and together they are the sum of the movements |
| Aggregates.DepositsAndWithdrawals | 8-Arrays/script.js:677-686 | `{ deposits, withdrawals }` is all the incomes and all the outgoings as a negative figure |
| Aggregates.Transferred | 8-Arrays/script.js:187-188 | after a transfer the receiver's entry ends in `amount`, a listed sender's entry ends in `-amount`, and every other entry is as it was |
| Aggregates.PushRaisesTotal | 8-Arrays/script.js:187-188 | one `push` raises the bank-wide total by the pushed value |
| Aggregates.TransferKeepsTotal | 8-Arrays/script.js:180-191 | a transfer between two listed accounts leaves the total of all movements unchanged |
| Aggregates.TransferredTotal | 8-Arrays/script.js:180-191 | the total is unchanged by a transfer between listed accounts and grows by the amount when the paying account is no longer listed |
| Aggregates.TotalIsSumOfBalances | 8-Arrays/script.js:658 | the sum of the flattened movements is the sum of the account balances |
| Aggregates.DepositsAppend | 8-Arrays/script.js:658-659 | filtering the concatenated movements is concatenating the filtered lists |
| Aggregates.AllDepositsIsSumOfIncomes | 8-Arrays/script.js:657-660 | `allDepositsSum` is the accounts' incomes added up |
| Aggregates.CountIsNumberOfLargeMovements | 8-Arrays/script.js:664-671 | the counting `reduce` equals the number of positions holding at least 1000 |
| Aggregates.CountAppend | 8-Arrays/script.js:671 | the counting `reduce` over two lists one after the other is the sum of their counts |
| Aggregates.CountOfFlattenIsSumOfCounts | 8-Arrays/script.js:664-671 | counting over all accounts at once equals adding up the per-account counts |
| Aggregates.SplitSumsSnoc | 8-Arrays/script.js:680-683 | one more movement goes to `deposits` when positive and to `withdrawals` otherwise (zero included) |
| Aggregates.SplitSumsAreIncomesAndOut | 8-Arrays/script.js:677-686 | the two-way reduce yields the incomes and the negative out, and the two add up to the total |
| ArrayOps.FindIndex | 8-Arrays/script.js:217-219 | the first position holding the name, or -1 exactly when no position does |
| ArrayOps.SpliceStart | 8-Arrays/script.js:223 | `splice` counts a negative start back from the end and clamps it at 0, and clamps a start past the end to the length |
| ArrayOps.SpliceOne | 8-Arrays/script.js:223 | `splice(start, 1)` leaves one element fewer when the resolved start is inside the array, and the same length otherwise |
| ArrayOps.SpliceOneRemovesOne | 8-Arrays/script.js:223 | `splice(start, 1)` removes exactly the element at the resolved start when there is one, and the others keep their order |
| ArrayOps.SpliceMinusOne | 8-Arrays/script.js:217-223 | `splice(-1, 1)` on a non-empty list drops its last element |
| ArrayOps.SpliceOneKeepsElements | 8-Arrays/script.js:223 | `splice` only removes |
| ArrayOps.SpliceOneKeepsDistinct | 8-Arrays/script.js:223 | removing an element keeps the rest free of duplicates |
| ArrayOps.SpliceRemovesName | 8-Arrays/script.js:217-223 | splicing at the `findIndex` of a listed name in a duplicate-free list leaves the name unlisted |
| MovementsView.InsertKeepsAscending | 8-Arrays/script.js:72 | inserting into an ascending list keeps it ascending and puts the smaller of the new value and the old head first |
| MovementsView.InsertAddsOne | 8-Arrays/script.js:72 | inserting adds exactly the new value to the elements |
| MovementsView.Insert | 8-Arrays/script.js:72 | inserting one movement makes the list one longer |
| MovementsView.SortedCopy | 8-Arrays/script.js:72 | the sorted copy has as many movements as the original |
| MovementsView.SortedCopySorts | 8-Arrays/script.js:72 | the sorted copy is ascending and a permutation of the movements |
| MovementsView.Displayed | 8-Arrays/script.js:72 | the shown list is a permutation of the movements, ascending when sorting and the movements themselves otherwise |
| MovementsView.AscendingPermutationsAreEqual | 8-Arrays/script.js:72 | two ascending permutations of the same movements are the same list, so the view does not depend on the sort algorithm |
| MovementsView.SortedCopyOfAscending | 8-Arrays/script.js:72 | sorting an ascending list leaves it as it is |
| MovementsView.SortedCopyIdempotent | 8-Arrays/script.js:72 | sorting the sorted view again changes nothing |
| Usernames.Initials | 8-Arrays/script.js:128-129 | the map/join yields at most one character per piece |
| Usernames.WordStarts | 8-Arrays/script.js:125-129 | the reference definition picks only characters of the name that are not spaces |
| Usernames.Username | 8-Arrays/script.js:125-129 | the username is the lower-cased first letter of every word of the owner's name, in order: the `split`/`map`/`join` chain equals the word-start reference definition |
| Usernames.InitialsAreWordStarts | 8-Arrays/script.js:127-129 | the `split`/`map`/`join` chain picks exactly the first character of every word |
| Usernames.WordStartsLower | 8-Arrays/script.js:126-128 | lower-casing first or last picks the same word starts |
| Usernames.InitialsOfNonEmptyPieces | 8-Arrays/script.js:128-129 | with no empty piece every piece contributes exactly its first character |
| Usernames.UsernameShape | 8-Arrays/script.js:125-129 | the username has no space and no upper-case letter and at most one character per word; for a single-spaced name it has exactly one lower-cased initial per word |
| Usernames.WordStartsOfFirstWord | 8-Arrays/script.js:125-129 | a space-free first word contributes its first letter and nothing more |
| Usernames.WordStartsOfLastWord | 8-Arrays/script.js:125-129 | a space-free last word contributes only its first letter |
| Usernames.TwoWords | 8-Arrays/script.js:125-129 | a two-word name gets the two lower-cased initials |
| Usernames.ThreeWords | 8-Arrays/script.js:125-129 | a three-word name gets the three lower-cased initials |
| Usernames.JonasUsername | 8-Arrays/script.js:9 | "Jonas Schmedtmann" gets the username "js" |
| Usernames.JessicaUsername | 8-Arrays/script.js:16 | "Jessica Davis" gets the username "jd" |
| Usernames.StevenUsername | 8-Arrays/script.js:23 | "Steven Thomas Williams" gets the username "stw" |
| Usernames.SarahUsername | 8-Arrays/script.js:30 | "Sarah Smith" gets the username "ss" |
| TitleCase.Capitalize | 8-Arrays/script.js:692 | `capitilize` keeps the length and everything after the first character, and turns the first character into its upper-case form: the same character up to case, and not a lower-case letter |
| TitleCase.TitleWord | 8-Arrays/script.js:699 | only the first letter can change. It changes exactly when the word is not an exception and starts with a lower-case letter, and a non-exception never starts lower-case afterwards. The first letter is always the same letter up to case |
| TitleCase.TitleWords | 8-Arrays/script.js:699 | the map keeps the word count. Each word keeps its length and everything after its first letter. Exceptions stay as they are, and every other word ends up with a first letter that is not lower-case. Every first letter stays the same letter up to case, and a word that does not start lower-case is kept as it is |
| TitleCase.ConvertTitleCase | 8-Arrays/script.js:691-702 | the result keeps the title's words and their count; the first word and every non-exception are capitalised, exceptions after the first stay lower-case, and the rest of every word is lower-cased |
| TitleCase.WordsOfSingleSpaced | 8-Arrays/script.js:697-698 | the words of a single-spaced title are its lower-cased words, none of them empty |
| TitleCase.JoinStart | 8-Arrays/script.js:700-701 | the joined title begins with the first word's first letter |
| TitleCase.SplitCapitalize | 8-Arrays/script.js:701 | capitalising the joined title capitalises its first word and leaves the others |
| Seed.FirstAccountFigures | 8-Arrays/script.js:8-13 | account 1 has balance 3840, incomes 5020, out 1180 and interest 59.4, because the 0.84 term of the deposit of 70 is dropped |
| Seed.FirstAccountBalance | 8-Arrays/script.js:94 | the movements of account 1 sum to 3840 |
| Seed.FirstAccountSums | 8-Arrays/script.js:102-110 | account 1's deposits add up to 5020 and its withdrawals to -1180 |
| Seed.FirstAccountInterest | 8-Arrays/script.js:112-118 | account 1 at 1.2 % earns 59.4 |
| Bankist.Account.constructor | 8-Arrays/script.js:8-13 | an account literal: owner, movements, rate and PIN as given, no username and no cached balance yet |
| Bankist.SomeAtLeast | 8-Arrays/script.js:199 | `some(mov => mov >= threshold)` holds exactly when some movement reaches the threshold |
| Bankist.Covers | 8-Arrays/script.js:183 | an `undefined` cached balance covers no amount, and a cached balance covers exactly the amounts up to it |
| Bankist.LoanAllowed | 8-Arrays/script.js:199 | the loan guard holds exactly when the amount is positive and at most ten times the largest movement |
| Bankist.TenthOfLargest | 8-Arrays/script.js:199 | for a positive amount, some movement reaches a tenth of it exactly when the largest movement does |
| Bankist.Largest | 8-Arrays/script.js:199 | the largest movement is one of the movements and no movement exceeds it |
| Bankist.CalcDisplayBalance | 8-Arrays/script.js:93-97 | the cached balance becomes the sum of the movements |
| Bankist.CreateUsernames | 8-Arrays/script.js:123-131 | every account's username becomes the one derived from its owner |
| Bankist.NamesOfSplice | 8-Arrays/script.js:223 | splicing the accounts splices their usernames at the same position |
| Bankist.ListedAccountPosition | 8-Arrays/script.js:152-154 | with unique usernames, `find` by an account's username finds that account, or nothing when it is not listed |
| Bankist.SeededUsernames | 8-Arrays/script.js:123-133 | the four seeded accounts get the usernames js, jd, stw and ss |
| Bankist.SeededUsernamesDistinct | 8-Arrays/script.js:133 | the four seeded usernames are pairwise different |
| Bankist.Start | 8-Arrays/script.js:133 | the program's start over its four literals: one fresh account per literal, in order, with the literal's owner, movements, interest rate and PIN and no cached balance; the usernames are js, jd, stw and ss and the directory is valid; nobody is logged in and the view is unsorted |
| Bankist.Bank.constructor | 8-Arrays/script.js:36 | the start of the program: one fresh account per literal, in order, with derived usernames and no cached balance; nobody logged in, the view unsorted, and the directory valid exactly when the usernames are distinct |
| Bankist.Bank.UpdateUI | 8-Arrays/script.js:137-144 | refreshes the account's cached balance to its sum and changes no username and no movement list |
| Bankist.Bank.Login | 8-Arrays/script.js:149-167 | `currentAccount` becomes the account `find` returns, or none; login succeeds exactly when that account's PIN matches; only then is its balance refreshed |
| Bankist.Bank.PushOne | 8-Arrays/script.js:187-188 | one `push` appends to the account's movements and changes the ledger by that push alone |
| Bankist.Bank.PushLegs | 8-Arrays/script.js:187-188 | the sender gets `-amount` and the receiver `amount`; the ledger becomes the transferred ledger and the usernames are unchanged |
| Bankist.Bank.Pay | 8-Arrays/script.js:186-190 | both legs are pushed and the sender's cached balance is refreshed, keeping the directory valid |
| Bankist.Bank.Transfer | 8-Arrays/script.js:170-192 | the transfer applies exactly when the amount is positive, the receiver exists, the cached balance covers the amount and the receiver is not the sender. Then both legs are pushed; otherwise no movement list changes. When the sender is a listed account, the bank's total over all movements is unchanged |
| Bankist.Bank.RequestLoan | 8-Arrays/script.js:195-207 | the loan is granted exactly when the amount is positive and some movement is at least a tenth of it; then the amount is appended once, otherwise nothing changes |
| Bankist.Bank.Close | 8-Arrays/script.js:210-229 | closes exactly when username and PIN match; removes the account at the `findIndex` with `splice(index, 1)`, shrinking a non-empty list by one, so the username is no longer listed; `currentAccount` is kept, and a stale close removes the last account |
| Bankist.Bank.ToggleSort | 8-Arrays/script.js:232-237 | flips the flag and shows the movements in the order the flipped flag asks for: a permutation, ascending when sorted |

## Left out

- Rendering is not modelled. This covers DOM lookups, the HTML template of `displayMovements`, label text, opacity, clearing inputs and `blur`. It also covers the welcome message built from `owner.split(' ')[0]`. `Bank.UpdateUI` computes the values it shows and drops them.
- Event wiring and `preventDefault` are not modelled: each handler body is a method.
- `Number(input.value)` parsing and `NaN` are not modelled. The handlers take parsed numbers, and PINs are integers. A `NaN` would make every guard false, which the model's rejection paths already cover.
- Floating-point rounding is not modelled. Amounts, rates, `amount * 0.1` and the interest terms use exact `real` arithmetic.
- Unicode case mapping is not modelled: `toLowerCase` and `toUpperCase` act on ASCII letters only.
- UTF-16 code units are not modelled: a model `char` is a whole Unicode scalar value, while `name[0]` (line 128), `str[0]` and `str.slice(1)` (line 692) index UTF-16 code units. For a name or title whose first character lies outside the Basic Multilingual Plane, the model takes the whole character where the program takes half a surrogate pair.
- The `console.log` calls are not modelled. Neither are the commented-out lecture notes at lines 238-653, which have no effect when the program runs.
- JavaScript's sort algorithm is not modelled. `MovementsView.SortedCopy` sorts by insertion, and `MovementsView.AscendingPermutationsAreEqual` shows that any ascending permutation gives the same view.
- Bankist.Account.constructor: a username and a cached balance that do not exist yet are modelled as `""` and `None`, not as `undefined`.
- Bankist.Bank.Close, Bankist.Bank.ToggleSort: with nobody logged in the program throws a `TypeError`. The model instead requires `currentAccount` to be non-null.
- Bankist.Bank.Transfer: with nobody logged in the program throws only when the amount is positive and the receiver exists. Otherwise it does nothing. The model's non-null requirement also excludes these calls, which do nothing.
- Bankist.Bank.RequestLoan: with nobody logged in the program throws only when the amount is positive. Otherwise it does nothing. The model's non-null requirement also excludes these calls, which do nothing.
- TitleCase.ConvertTitleCase: the program throws a `TypeError` on an empty word, that is for a title that is empty or has a leading, trailing or double space. The model requires a single-spaced title instead.
- Summary.InterestBounded: the bound is stated only for a non-negative rate. For a negative rate no term reaches 1, so the interest is 0.
- Bankist.Bank.constructor: it takes the account literals as a parameter. The program's own four are in `Seed.Accounts`, and `Bankist.Start` builds the bank from them with a valid directory.
- Seed: concrete figures are proved for account 1 only.
