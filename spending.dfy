/** The oldest-first depletion walk of the spend handler, as functions of the
    sorted log, and what it is proved to do. */
module Spending {
  import opened Transactions
  import opened Ordering
  import opened PayerMaps

  /** Where a walk leaves the log and the per-payer deductions it recorded. */
  datatype Walk = Walk(log: seq<Txn>, spent: map<Payer, int>)

  /** The walk over a newest-first log: pop the last (oldest) transaction;
      if it covers what is still due, reduce it by that amount, push it back
      and stop; otherwise drop it, deduct its points and go on. The walk also
      stops at the last transaction of the log: whenever `remaining <=
      Points(s)`, as every spend guarantees, that one covers what is due
      (`WalkShape`), so the handler never pops an empty log. */
  function WalkOldestFirst(s: seq<Txn>, remaining: int, spent: map<Payer, int>): (w: Walk)
    requires s != []
    ensures 1 <= |w.log| <= |s|
    decreases |s|
  {
    var oldest := s[|s| - 1];
    var rest := s[..|s| - 1];
    if oldest.points >= remaining || |s| == 1 then
      Walk(rest + [oldest.(points := oldest.points - remaining)], Credit(spent, oldest.payer, -remaining))
    else
      WalkOldestFirst(rest, remaining - oldest.points, Credit(spent, oldest.payer, -oldest.points))
  }

  /** One step of the walk: the oldest transaction covers what is due. */
  lemma WalkStops(s: seq<Txn>, remaining: int, spent: map<Payer, int>)
    requires s != [] && remaining <= s[|s| - 1].points
    ensures WalkOldestFirst(s, remaining, spent)
            == Walk(s[..|s| - 1] + [s[|s| - 1].(points := s[|s| - 1].points - remaining)],
                    Credit(spent, s[|s| - 1].payer, -remaining))
  {
  }

  /** One step of the walk: the oldest transaction is consumed whole and the
      walk goes on over the rest. */
  lemma WalkContinues(s: seq<Txn>, remaining: int, spent: map<Payer, int>)
    requires |s| > 1 && s[|s| - 1].points < remaining
    ensures WalkOldestFirst(s, remaining, spent)
            == WalkOldestFirst(s[..|s| - 1], remaining - s[|s| - 1].points,
                               Credit(spent, s[|s| - 1].payer, -s[|s| - 1].points))
  {
  }

  /** When the log holds what is due and the oldest transaction does not
      cover it, there is more log to pop and it still holds what is left. */
  lemma PopLeavesEnough(s: seq<Txn>, remaining: int)
    requires s != [] && remaining <= Points(s) && s[|s| - 1].points < remaining
    ensures |s| > 1
    ensures remaining - s[|s| - 1].points <= Points(s[..|s| - 1])
  {
    assert Points(s) == Points(s[..|s| - 1]) + s[|s| - 1].points;
  }

  /** What is still due when the walk pops `s[j]`, if it gets that far:
      the transactions after `j` are popped first, each taking its points
      off what is due. */
  function Due(s: seq<Txn>, remaining: int, j: int): int
    requires 0 <= j < |s|
    decreases |s|
  {
    if j == |s| - 1 then remaining
    else Due(s[..|s| - 1], remaining - s[|s| - 1].points, j)
  }

  /** What is due at `s[j]` is what remained at the start less the points of
      every transaction after it. */
  lemma {:induction false} DueIsRemainder(s: seq<Txn>, remaining: int, j: int)
    requires 0 <= j < |s|
    ensures Due(s, remaining, j) == remaining - Points(s[j + 1..])
    decreases |s|
  {
    if j == |s| - 1 {
      assert s[j + 1..] == [];
    } else {
      var rest := s[..|s| - 1];
      DueIsRemainder(rest, remaining - s[|s| - 1].points, j);
      assert s[j + 1..][..|s[j + 1..]| - 1] == rest[j + 1..];
    }
  }

  // Each property of the walk below is a predicate of one walk, proved by
  // induction on the log: the walk's stopping step establishes it, and its
  // continuing step carries it from the rest of the log to the whole.

  /** The log loses exactly `remaining` points, and payer `p` exactly what
      was deducted from it. */
  ghost predicate KeepsPoints(s: seq<Txn>, remaining: int, spent: map<Payer, int>, p: Payer)
    requires s != []
  {
    var w := WalkOldestFirst(s, remaining, spent);
    && Points(w.log) == Points(s) - remaining
    && PayerPoints(w.log, p) == PayerPoints(s, p) + Lookup(w.spent, p) - Lookup(spent, p)
  }

  lemma KeepsPointsStops(s: seq<Txn>, remaining: int, spent: map<Payer, int>, p: Payer)
    requires s != [] && remaining <= s[|s| - 1].points
    ensures KeepsPoints(s, remaining, spent, p)
  {
    var oldest := s[|s| - 1];
    var rest := s[..|s| - 1];
    WalkStops(s, remaining, spent);
    var reduced := oldest.(points := oldest.points - remaining);
    assert (rest + [reduced])[..|rest|] == rest;
    LookupCredit(spent, oldest.payer, -remaining);
  }

  lemma KeepsPointsStep(s: seq<Txn>, remaining: int, spent: map<Payer, int>, p: Payer)
    requires |s| > 1 && s[|s| - 1].points < remaining
    requires KeepsPoints(s[..|s| - 1], remaining - s[|s| - 1].points, Credit(spent, s[|s| - 1].payer, -s[|s| - 1].points), p)
    ensures KeepsPoints(s, remaining, spent, p)
  {
    WalkContinues(s, remaining, spent);
    LookupCredit(spent, s[|s| - 1].payer, -s[|s| - 1].points);
  }

  lemma {:induction false} WalkKeepsPointsOf(s: seq<Txn>, remaining: int, spent: map<Payer, int>, p: Payer)
    requires s != [] && remaining <= Points(s)
    ensures KeepsPoints(s, remaining, spent, p)
    decreases |s|
  {
    var oldest := s[|s| - 1];
    if oldest.points >= remaining {
      KeepsPointsStops(s, remaining, spent, p);
    } else {
      PopLeavesEnough(s, remaining);
      WalkKeepsPointsOf(s[..|s| - 1], remaining - oldest.points, Credit(spent, oldest.payer, -oldest.points), p);
      KeepsPointsStep(s, remaining, spent, p);
    }
  }

  /** The walk takes exactly `remaining` points off the log, and off each
      payer's sum exactly what it deducted from that payer. */
  lemma WalkKeepsPoints(s: seq<Txn>, remaining: int, spent: map<Payer, int>)
    requires s != [] && remaining <= Points(s)
    ensures var w := WalkOldestFirst(s, remaining, spent);
            && Points(w.log) == Points(s) - remaining
            && forall p :: PayerPoints(w.log, p) == PayerPoints(s, p) + Lookup(w.spent, p) - Lookup(spent, p)
  {
    var w := WalkOldestFirst(s, remaining, spent);
    forall p ensures PayerPoints(w.log, p) == PayerPoints(s, p) + Lookup(w.spent, p) - Lookup(spent, p) {
      WalkKeepsPointsOf(s, remaining, spent, p);
    }
    WalkKeepsPointsOf(s, remaining, spent, "");
  }

  /** The deductions recorded add up to minus what was spent. */
  ghost predicate SpentSum(s: seq<Txn>, remaining: int, spent: map<Payer, int>)
    requires s != []
  {
    SumValues(WalkOldestFirst(s, remaining, spent).spent) == SumValues(spent) - remaining
  }

  lemma SpentSumStops(s: seq<Txn>, remaining: int, spent: map<Payer, int>)
    requires s != [] && remaining <= s[|s| - 1].points
    ensures SpentSum(s, remaining, spent)
  {
    WalkStops(s, remaining, spent);
    SumValuesCredit(spent, s[|s| - 1].payer, -remaining);
  }

  lemma SpentSumStep(s: seq<Txn>, remaining: int, spent: map<Payer, int>)
    requires |s| > 1 && s[|s| - 1].points < remaining
    requires SpentSum(s[..|s| - 1], remaining - s[|s| - 1].points, Credit(spent, s[|s| - 1].payer, -s[|s| - 1].points))
    ensures SpentSum(s, remaining, spent)
  {
    WalkContinues(s, remaining, spent);
    SumValuesCredit(spent, s[|s| - 1].payer, -s[|s| - 1].points);
  }

  lemma {:induction false} WalkSpentSum(s: seq<Txn>, remaining: int, spent: map<Payer, int>)
    requires s != [] && remaining <= Points(s)
    ensures SpentSum(s, remaining, spent)
    decreases |s|
  {
    var oldest := s[|s| - 1];
    if oldest.points >= remaining {
      SpentSumStops(s, remaining, spent);
    } else {
      PopLeavesEnough(s, remaining);
      WalkSpentSum(s[..|s| - 1], remaining - oldest.points, Credit(spent, oldest.payer, -oldest.points));
      SpentSumStep(s, remaining, spent);
    }
  }

  /** A payer gets a deduction entry exactly when it already had one or one
      of the transactions the walk popped (those from the boundary on) is
      theirs. */
  ghost predicate SpentPayers(s: seq<Txn>, remaining: int, spent: map<Payer, int>)
    requires s != []
  {
    var w := WalkOldestFirst(s, remaining, spent);
    w.spent.Keys == spent.Keys + PayersFrom(s, |w.log| - 1)
  }

  lemma SpentPayersStops(s: seq<Txn>, remaining: int, spent: map<Payer, int>)
    requires s != [] && remaining <= s[|s| - 1].points
    ensures SpentPayers(s, remaining, spent)
  {
    WalkStops(s, remaining, spent);
  }

  lemma SpentPayersStep(s: seq<Txn>, remaining: int, spent: map<Payer, int>)
    requires |s| > 1 && s[|s| - 1].points < remaining
    requires SpentPayers(s[..|s| - 1], remaining - s[|s| - 1].points, Credit(spent, s[|s| - 1].payer, -s[|s| - 1].points))
    ensures SpentPayers(s, remaining, spent)
  {
    WalkContinues(s, remaining, spent);
    PayersFromPop(s, |WalkOldestFirst(s, remaining, spent).log| - 1);
  }

  lemma {:induction false} WalkSpentPayers(s: seq<Txn>, remaining: int, spent: map<Payer, int>)
    requires s != [] && remaining <= Points(s)
    ensures SpentPayers(s, remaining, spent)
    decreases |s|
  {
    var oldest := s[|s| - 1];
    if oldest.points >= remaining {
      SpentPayersStops(s, remaining, spent);
    } else {
      PopLeavesEnough(s, remaining);
      WalkSpentPayers(s[..|s| - 1], remaining - oldest.points, Credit(spent, oldest.payer, -oldest.points));
      SpentPayersStep(s, remaining, spent);
    }
  }

  /** The walk keeps a prefix of `s` untouched, and reduces the transaction
      at the boundary by what was still due when it was popped (never below
      zero) and keeps it. */
  ghost predicate Shape(s: seq<Txn>, remaining: int, spent: map<Payer, int>)
    requires s != []
  {
    var w := WalkOldestFirst(s, remaining, spent);
    var k := |w.log| - 1;
    && w.log[..k] == s[..k]
    && Due(s, remaining, k) <= s[k].points
    && w.log[k] == s[k].(points := s[k].points - Due(s, remaining, k))
  }

  lemma ShapeStops(s: seq<Txn>, remaining: int, spent: map<Payer, int>)
    requires s != [] && remaining <= s[|s| - 1].points
    ensures Shape(s, remaining, spent)
  {
    WalkStops(s, remaining, spent);
  }

  lemma ShapeStep(s: seq<Txn>, remaining: int, spent: map<Payer, int>)
    requires |s| > 1 && s[|s| - 1].points < remaining
    requires Shape(s[..|s| - 1], remaining - s[|s| - 1].points, Credit(spent, s[|s| - 1].payer, -s[|s| - 1].points))
    ensures Shape(s, remaining, spent)
  {
    WalkContinues(s, remaining, spent);
    var k := |WalkOldestFirst(s, remaining, spent).log| - 1;
    assert s[..k] == s[..|s| - 1][..k];
  }

  lemma {:induction false} WalkShape(s: seq<Txn>, remaining: int, spent: map<Payer, int>)
    requires s != [] && remaining <= Points(s)
    ensures Shape(s, remaining, spent)
    decreases |s|
  {
    var oldest := s[|s| - 1];
    if oldest.points >= remaining {
      ShapeStops(s, remaining, spent);
    } else {
      PopLeavesEnough(s, remaining);
      WalkShape(s[..|s| - 1], remaining - oldest.points, Credit(spent, oldest.payer, -oldest.points));
      ShapeStep(s, remaining, spent);
    }
  }

  /** Every transaction after the boundary was consumed whole: each held
      less than what was still due when it was popped. */
  ghost predicate ConsumesWhole(s: seq<Txn>, remaining: int, spent: map<Payer, int>)
    requires s != []
  {
    var k := |WalkOldestFirst(s, remaining, spent).log| - 1;
    forall j :: k < j < |s| ==> s[j].points < Due(s, remaining, j)
  }

  lemma ConsumesWholeStep(s: seq<Txn>, remaining: int, spent: map<Payer, int>)
    requires |s| > 1 && s[|s| - 1].points < remaining
    requires ConsumesWhole(s[..|s| - 1], remaining - s[|s| - 1].points, Credit(spent, s[|s| - 1].payer, -s[|s| - 1].points))
    ensures ConsumesWhole(s, remaining, spent)
  {
    WalkContinues(s, remaining, spent);
  }

  lemma {:induction false} WalkConsumesWhole(s: seq<Txn>, remaining: int, spent: map<Payer, int>)
    requires s != [] && remaining <= Points(s)
    ensures ConsumesWhole(s, remaining, spent)
    decreases |s|
  {
    var oldest := s[|s| - 1];
    if oldest.points >= remaining {
      WalkStops(s, remaining, spent);
    } else {
      PopLeavesEnough(s, remaining);
      WalkConsumesWhole(s[..|s| - 1], remaining - oldest.points, Credit(spent, oldest.payer, -oldest.points));
      ConsumesWholeStep(s, remaining, spent);
    }
  }

  /** Each transaction left in the log sits where it stood in `s` and is
      still credited to the same payer at the same time. */
  lemma WalkKeepsPayers(s: seq<Txn>, remaining: int, spent: map<Payer, int>)
    requires s != [] && remaining <= Points(s)
    ensures var w := WalkOldestFirst(s, remaining, spent);
            forall i :: 0 <= i < |w.log| ==> w.log[i].payer == s[i].payer && w.log[i].timestamp == s[i].timestamp
  {
    WalkShape(s, remaining, spent);
    var w := WalkOldestFirst(s, remaining, spent);
    var k := |w.log| - 1;
    forall i | 0 <= i < k ensures w.log[i] == s[i] {
      assert w.log[i] == w.log[..k][i];
    }
  }

  /** The spend handler's walk: the log is sorted newest first and walked
      from its oldest end with nothing deducted yet. */
  function OldestFirstSpend(log: seq<Txn>, amount: int): Walk
    requires log != []
  {
    WalkOldestFirst(SortNewestFirst(log), amount, map[])
  }

  /** What a spend takes: exactly `amount` points from the log, each payer's
      share deducted from that payer, and deductions only against payers
      whose transactions it popped. */
  lemma SpendAccounts(log: seq<Txn>, amount: int)
    requires log != [] && amount <= Points(log)
    ensures var w := OldestFirstSpend(log, amount);
            && SumValues(w.spent) == -amount
            && Points(w.log) == Points(log) - amount
            && (forall p :: PayerPoints(w.log, p) == PayerPoints(log, p) + Lookup(w.spent, p))
            && (forall q :: q in w.spent ==> Credits(log, q))
  {
    var s := SortNewestFirst(log);
    SortSortsNewestFirst(log);
    WalkAccounts(log, s, amount);
  }

  /** `SpendAccounts` for a walk over any reordering `s` of the log. */
  lemma WalkAccounts(log: seq<Txn>, s: seq<Txn>, amount: int)
    requires s != [] && multiset(s) == multiset(log) && amount <= Points(log)
    ensures var w := WalkOldestFirst(s, amount, map[]);
            && SumValues(w.spent) == -amount
            && Points(w.log) == Points(log) - amount
            && (forall p :: PayerPoints(w.log, p) == PayerPoints(log, p) + Lookup(w.spent, p))
            && (forall q :: q in w.spent ==> Credits(log, q))
  {
    PermutationKeepsPoints(s, log);
    WalkKeepsPoints(s, amount, map[]);
    WalkSpentSum(s, amount, map[]);
    assert SumValues(map[]) == 0;
    WalkChargesLoggedPayers(log, s, amount);
  }

  /** Every payer a walk over a reordering of the log deducts from has a
      transaction in the log. */
  lemma WalkChargesLoggedPayers(log: seq<Txn>, s: seq<Txn>, amount: int)
    requires s != [] && multiset(s) == multiset(log) && amount <= Points(log)
    ensures var w := WalkOldestFirst(s, amount, map[]);
            forall q :: q in w.spent ==> Credits(log, q)
  {
    PermutationKeepsPoints(s, log);
    WalkChargesListedPayers(s, amount);
    PermutationKeepsPayers(s, log);
  }

  /** Every payer a walk from nothing spent deducts from has a transaction
      among those walked. */
  lemma WalkChargesListedPayers(s: seq<Txn>, amount: int)
    requires s != [] && amount <= Points(s)
    ensures var w := WalkOldestFirst(s, amount, map[]);
            forall q :: q in w.spent ==> Credits(s, q)
  {
    WalkSpentPayers(s, amount, map[]);
    PayersFromMembers(s, |WalkOldestFirst(s, amount, map[]).log| - 1);
  }

  /** A spend keeps for the next spend a prefix of the newest-first order,
      with the boundary transaction, which covered what was still due,
      reduced by that amount (possibly to zero) and retained; what it keeps and what it removes
      together make up the old log. */
  lemma SpendKeepsNewest(log: seq<Txn>, amount: int)
    requires log != [] && amount <= Points(log)
    ensures var s := SortNewestFirst(log);
            var w := OldestFirstSpend(log, amount);
            var k := |w.log| - 1;
            && k < |s|
            && multiset(log) == multiset(s[..k + 1]) + multiset(s[k + 1..])
            && w.log[..k] == s[..k]
            && w.log[k] == s[k].(points := s[k].points - Due(s, amount, k))
            && Due(s, amount, k) <= s[k].points
  {
    var s := SortNewestFirst(log);
    SortSortsNewestFirst(log);
    WalkKeepsNewest(log, s, amount);
    assert OldestFirstSpend(log, amount) == WalkOldestFirst(s, amount, map[]);
  }

  /** `SpendKeepsNewest` for a walk over any reordering `s` of the log. */
  lemma WalkKeepsNewest(log: seq<Txn>, s: seq<Txn>, amount: int)
    requires s != [] && multiset(s) == multiset(log) && amount <= Points(log)
    ensures var w := WalkOldestFirst(s, amount, map[]);
            var k := |w.log| - 1;
            && k < |s|
            && multiset(log) == multiset(s[..k + 1]) + multiset(s[k + 1..])
            && w.log[..k] == s[..k]
            && w.log[k] == s[k].(points := s[k].points - Due(s, amount, k))
            && Due(s, amount, k) <= s[k].points
  {
    PermutationKeepsPoints(s, log);
    WalkShape(s, amount, map[]);
    SplitKeepsMultiset(s, |WalkOldestFirst(s, amount, map[]).log|);
  }

  /** On a newest-first log, nothing the walk removes is newer than anything
      it keeps. */
  lemma WalkOldestOut(s: seq<Txn>, remaining: int, spent: map<Payer, int>)
    requires s != [] && remaining <= Points(s) && NewestFirst(s)
    ensures var w := WalkOldestFirst(s, remaining, spent);
            var k := |w.log| - 1;
            forall i, j :: 0 <= i <= k < j < |s| ==> s[j].timestamp <= w.log[i].timestamp
  {
    WalkKeepsPayers(s, remaining, spent);
  }

  /** A spend consumes the log oldest first: every transaction it removes
      was consumed whole, and none of them is newer than anything it keeps. */
  lemma SpendConsumesOldest(log: seq<Txn>, amount: int)
    requires log != [] && amount <= Points(log)
    ensures var s := SortNewestFirst(log);
            var w := OldestFirstSpend(log, amount);
            var k := |w.log| - 1;
            && (forall j :: k < j < |s| ==> s[j].points < Due(s, amount, j))
            && (forall i, j :: 0 <= i <= k < j < |s| ==> s[j].timestamp <= w.log[i].timestamp)
  {
    var s := SortNewestFirst(log);
    SortSortsNewestFirst(log);
    WalkConsumesOldest(log, s, amount);
    assert OldestFirstSpend(log, amount) == WalkOldestFirst(s, amount, map[]);
  }

  /** `SpendConsumesOldest` for a walk over any newest-first reordering `s`
      of the log. */
  lemma WalkConsumesOldest(log: seq<Txn>, s: seq<Txn>, amount: int)
    requires s != [] && multiset(s) == multiset(log) && NewestFirst(s) && amount <= Points(log)
    ensures var w := WalkOldestFirst(s, amount, map[]);
            var k := |w.log| - 1;
            && (forall j :: k < j < |s| ==> s[j].points < Due(s, amount, j))
            && (forall i, j :: 0 <= i <= k < j < |s| ==> s[j].timestamp <= w.log[i].timestamp)
  {
    PermutationKeepsPoints(s, log);
    WalkConsumesWhole(s, amount, map[]);
    WalkOldestOut(s, amount, map[]);
  }
}
