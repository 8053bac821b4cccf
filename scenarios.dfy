/** Worked spends on small ledgers, showing behaviour of the spend handler
    that its invariants alone do not pin down. */
module Scenarios {
  import opened Transactions
  import opened Ordering
  import opened PayerMaps
  import opened Spending

  /** Two payers' transactions: the older one is used up first and the
      newer one only in part. */
  lemma SpendAcrossTwoPayers()
    ensures var log := [Txn("X", 10, 1), Txn("Y", 10, 2)];
            var w := OldestFirstSpend(log, 15);
            && w.spent == map["X" := -10, "Y" := -5]
            && w.log == [Txn("Y", 5, 2)]
  {
    var log := [Txn("X", 10, 1), Txn("Y", 10, 2)];
    assert SortNewestFirst(log) == [Txn("Y", 10, 2), Txn("X", 10, 1)];
  }

  /** A payer's balance can go below zero: the oldest transaction is X's
      although X's later correction has already lowered X's balance. */
  lemma SpendDrivesPayerNegative()
    ensures var log := [Txn("X", 5, 1), Txn("Y", 10, 2), Txn("X", -3, 3)];
            var w := OldestFirstSpend(log, 5);
            && w.spent == map["X" := -5]
            && ApplyDeductions(map["X" := 2, "Y" := 10], w.spent) == map["X" := -3, "Y" := 10]
  {
    var log := [Txn("X", 5, 1), Txn("Y", 10, 2), Txn("X", -3, 3)];
    assert SortNewestFirst(log) == [Txn("X", -3, 3), Txn("Y", 10, 2), Txn("X", 5, 1)];
  }

  /** A negative transaction popped on the way gives its points back to
      what is still due and to its payer's deduction. */
  lemma SpendThroughNegativeEntry()
    ensures var log := [Txn("X", 10, 5), Txn("X", -4, 1), Txn("Y", 5, 3)];
            var w := OldestFirstSpend(log, 6);
            && w.spent == map["X" := -1, "Y" := -5]
            && w.log == [Txn("X", 5, 5)]
  {
    var log := [Txn("X", 10, 5), Txn("X", -4, 1), Txn("Y", 5, 3)];
    var s := [Txn("X", 10, 5), Txn("Y", 5, 3), Txn("X", -4, 1)];
    assert SortNewestFirst(log) == s;
    WalkContinues(s, 6, map[]);
    assert s[..2] == [Txn("X", 10, 5), Txn("Y", 5, 3)];
    WalkContinues(s[..2], 10, map["X" := 4]);
    assert s[..2][..1] == [Txn("X", 10, 5)];
    WalkStops(s[..2][..1], 5, map["X" := 4, "Y" := -5]);
  }

  /** A spend of a negative amount is carried out, not refused: the oldest
      transaction covers it, grows by its magnitude, and its payer is
      credited instead of charged. */
  lemma SpendNegativeAmount()
    ensures var log := [Txn("X", 5, 1), Txn("Y", 2, 2)];
            var w := OldestFirstSpend(log, -3);
            && w.spent == map["X" := 3]
            && w.log == [Txn("Y", 2, 2), Txn("X", 8, 1)]
  {
    var log := [Txn("X", 5, 1), Txn("Y", 2, 2)];
    assert SortNewestFirst(log) == [Txn("Y", 2, 2), Txn("X", 5, 1)];
  }
}
