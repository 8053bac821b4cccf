# Points ledger

A Dafny model of the points ledger behind a small reward-points HTTP
service (`app.js`). A user earns points credited to sponsoring payers and
spends them oldest first. These parts are modelled:

- the three globals: the user's total (`userPoints`), the transaction log
  (`userData`) and the per-payer balances (`payerData`);
- the body of the add handler, which validates and records one transaction;
- the balance snapshot;
- the body of the spend handler. It sorts the log newest first, pops the
  oldest transaction until one covers what is still due, reduces that one
  and pushes it back, and then folds the per-payer deductions into the
  balances.

The ledger is the class `PointsLedger.Ledger`. Its fields are
`total: int`, `log: seq<Txn>` and `perPayer: map<Payer, int>`. Its methods
follow the handlers statement by statement:

- `Add` is the add handler;
- `Balances` is the snapshot;
- `Spend` is the spend handler. It uses `Deplete` (the `while (true)` loop),
  `TakeOldest` (one turn of the loop) and `Settle` (the final `for` loop).

Each method is tied to pure specification functions:

- `CheckAdd` for the add checks;
- `SortNewestFirst` for the sort;
- `WalkOldestFirst` and `OldestFirstSpend` for the depletion walk;
- `ApplyDeductions` for the fold.

The invariant `Consistent` keeps three facts:

- the total is the sum of the log and is never negative;
- every logged payer has a balance;
- each balance is the sum of that payer's logged points.

The modules are:

- `Outcomes`: result types;
- `Transactions`: the record and the sums over a log;
- `Ordering`: the sort;
- `PayerMaps`: balance and deduction maps;
- `Spending`: the walk and its properties;
- `PointsLedger`: the add checks, the invariant and the class;
- `Scenarios`: worked spends.

Further modelling choices:

- Timestamps are integers. The spend handler's comparator compares the
  timestamp strings themselves, so an integer stands for a timestamp's
  rank in string order, not for the instant it denotes.
- Payer names arrive already upper-cased by the request validation.
- The model keeps these behaviours of the handlers:
  - transactions popped with fewer points than are still due are removed
    from the log; the one that covers what is due is pushed back, even
    when it drops to zero points;
  - a popped transaction with zero or negative points is not skipped: a
    negative one raises what is still due and credits its payer
    (`Scenarios.SpendThroughNegativeEntry`);
  - a payer's balance can go below zero after a spend
    (`Scenarios.SpendDrivesPayerNegative`), so `Consistent` does not claim
    non-negative balances;
  - a spend of zero or a negative amount is not refused
    (`Scenarios.SpendNegativeAmount`);
  - the one input that makes the handler throw is a spend of at most zero
    points on an empty log, where `pop()` yields `undefined`. It is
    modelled as the error `EmptyLogFault`, which changes nothing.

## Model

| member | source | states |
|---|---|---|
| PointsLedger.Ledger.constructor | app.js:8-11 | the ledger starts with total 0, an empty log and no payers, and is consistent |
| PointsLedger.CheckAdd | app.js:41-64 | zero points is refused first; otherwise a total that would go below zero is refused; otherwise a balance that would go below zero is refused (an unseen payer counts as 0); each outcome holds exactly under its condition |
| PointsLedger.Ledger.Add | app.js:37-78 | the outcome is `CheckAdd`'s; a refusal changes nothing; an accepted add raises the total by the points, appends exactly that transaction, adds the points to the payer's balance (creating it), leaves every other balance alone and keeps the ledger consistent |
| PointsLedger.AddKeepsConsistent | app.js:65-75 | an accepted add carries the invariant (total and per-payer sums of the log, total not negative) to the new state |
| PointsLedger.Ledger.Balances | app.js:81-84 | the snapshot is the balance map, and its values add up to the total |
| PointsLedger.TotalIsSumOfBalances | app.js:8-11 | in a consistent ledger the per-payer balances sum to the total |
| PointsLedger.Ledger.Spend | app.js:108-150 | an amount above the total is refused with that total and changes nothing; on an empty log the handler faults and nothing changes; otherwise the result is the oldest-first walk's deductions, the total drops by the amount, the log becomes the walk's log, every deducted payer has a balance, the balances become the old ones plus the deductions, and the ledger stays consistent |
| PointsLedger.SpendKeepsConsistent | app.js:116-147 | a spend the handler carries out only deducts from payers that have a balance, and leaves a consistent ledger with the total lowered by the amount |
| PointsLedger.WalkKeepsConsistent | app.js:121-147 | the same for a walk over any reordering of the log |
| PointsLedger.Ledger.Deplete | app.js:120-142 | the loop ends, leaving exactly the log and deductions of the oldest-first walk, and the total drops by the amount; it keeps what is due at most the log's sum, so no pop meets an empty log |
| PointsLedger.Ledger.TakeOldest | app.js:122-141 | one turn either covers what is due (the reduced transaction is pushed back and the walk is complete) or consumes the oldest whole, leaving a shorter non-empty log that still holds what is due and the same remaining walk |
| PointsLedger.Ledger.Settle | app.js:145-147 | every payer's balance gets its deduction added, and nothing else changes |
| PayerMaps.CreditEntries | app.js:65-69 | crediting a payer adds it to the keys and adds the amount to its entry (from 0 if absent), leaving all other entries alone |
| PayerMaps.LookupCredit | app.js:125-129 | reading any payer after a credit gives the old value, plus the amount for the credited payer |
| PayerMaps.ApplyDeductionsSum | app.js:145-147 | folding the deductions into the balances changes the sum of the balances by exactly the sum of the deductions, whatever order the payers are visited in |
| Ordering.InsertKeepsNewestFirst | app.js:116-118 | inserting into a newest-first log keeps it newest first and adds exactly the one transaction |
| Ordering.SortSortsNewestFirst | app.js:116-118 | the sort returns the same transactions with timestamps non-increasing, so popping takes the oldest |
| Transactions.PermutationKeepsPoints | app.js:116-118 | reordering the log changes neither its total nor any payer's sum |
| Transactions.PermutationKeepsPayers | app.js:116-118 | reordering the log keeps the set of payers it credits |
| Spending.WalkOldestFirst | app.js:121-142 | the walk never empties the log or makes it longer |
| Spending.PopLeavesEnough | app.js:122-135 | if the log holds what is due and the oldest does not cover it, more log remains and it still holds what is left |
| Spending.DueIsRemainder | app.js:134 | what is due at a transaction is the amount less the points of every transaction popped before it |
| Spending.WalkKeepsPoints | app.js:121-142 | the walk takes exactly what is due off the log's total, and off each payer's sum exactly that payer's deduction |
| Spending.WalkSpentSum | app.js:125-140 | the deductions recorded sum to minus what was due |
| Spending.WalkSpentPayers | app.js:125-140 | a payer gets a deduction entry exactly when it had one or owns a popped transaction |
| Spending.WalkShape | app.js:122-132 | the walk keeps an untouched prefix and, at the boundary, a transaction that covered what was still due, reduced by that amount and not below zero |
| Spending.WalkConsumesWhole | app.js:133-141 | every transaction the walk removed was smaller than what was due when it was popped |
| Spending.WalkKeepsPayers | app.js:121-142 | each kept transaction sits where it stood, with the same payer and timestamp |
| Spending.WalkOldestOut | app.js:116-142 | on a newest-first log nothing removed is newer than anything kept |
| Spending.SpendAccounts | app.js:120-142 | a spend's deductions sum to minus the amount, the log loses exactly the amount, each payer's logged sum moves by exactly its deduction, and only payers with logged transactions are charged |
| Spending.SpendKeepsNewest | app.js:116-132 | a spend keeps a newest-first prefix plus the boundary transaction reduced by what was still due (possibly to zero); kept and removed together make up the old log |
| Spending.SpendConsumesOldest | app.js:116-142 | every transaction a spend removes was consumed whole, and none is newer than anything it keeps |
| Scenarios.SpendAcrossTwoPayers | app.js:116-142 | with 10 points each from X (older) and Y, spending 15 charges X 10 and Y 5 and leaves Y's transaction at 5 |
| Scenarios.SpendDrivesPayerNegative | app.js:120-147 | with X 5, Y 10, X -3 in time order, spending 5 charges X 5 and leaves X's balance at -3 |
| Scenarios.SpendThroughNegativeEntry | app.js:133-141 | an older negative transaction popped on the way raises what is due and credits its payer: the result is X -1, Y -5 |
| Scenarios.SpendNegativeAmount | app.js:110-131 | a spend of -3 is carried out: the oldest transaction grows by 3 and its payer is credited 3 |

## Left out

- The Express setup, routing, the listener and the port (app.js:1-6, 153-157) are process bootstrap and I/O.
- Request validation and sanitisation (app.js:15-36, 88-107) is left out. It covers upper-casing the payer, integer coercion, the ISO 8601 check and refusing extra fields. It is a boundary over a library this model does not include.
- HTTP status codes, reason strings and JSON serialisation are left out. Only the error kinds are modelled, and `InsufficientBalance` carries the total the refusal reports.
- Concurrency is left out: the handlers run one at a time.
- Timestamp order is the order of the timestamp strings. Timestamps written with different UTC offsets or precisions need not sort by the instant they denote (`2020-11-02T14:00:00+05:00` sorts after `2020-11-02T10:00:00Z` although it is earlier). The model takes the string order as given and does not model the strings.
- JavaScript numbers are modelled as unbounded integers. Precision loss above 2^53 is not modelled.
- Ordering.SortSortsNewestFirst: states only that the result is newest first and a permutation. The sort in the model is stable, but how ties are ordered (and so which tied transaction is consumed first) is not stated, just as the comparator does not fix it.
- Spending.WalkOldestFirst: the walk also stops at the log's last transaction. The handler has no such stop and would pop an empty log. Every spend keeps what is due at most the log's sum, so the last transaction always covers it (`Spending.WalkShape`) and this stop never differs from the handler.
