/** The points ledger: the user's total, the transaction log and the
    per-payer balances, with the add, balance and spend operations of the
    service's handlers. */
module PointsLedger {
  import opened Outcomes
  import opened Transactions
  import opened Ordering
  import opened PayerMaps
  import opened Spending

  datatype AddError = ZeroPoints | NegativeTotalBalance | NegativePayerBalance

  /** `InsufficientBalance` carries the total the refusal reports.
      `EmptyLogFault` is the spend handler failing on its first `pop()` of an
      empty log, which only a spend of at most zero points on an empty ledger
      reaches. */
  datatype SpendError = InsufficientBalance(available: int) | EmptyLogFault

  /** The add handler's checks, in their order: zero points first, then the
      total, then the payer's balance (a payer not seen before has none). */
  function CheckAdd(total: int, perPayer: map<Payer, int>, payer: Payer, points: int): (v: Outcome<AddError>)
    ensures v == Fail(ZeroPoints) <==> points == 0
    ensures v == Fail(NegativeTotalBalance) <==> points != 0 && total + points < 0
    ensures v == Pass <==> points != 0 && total + points >= 0 && Lookup(perPayer, payer) + points >= 0
  {
    if points == 0 then Fail(ZeroPoints)
    else if total + points < 0 then Fail(NegativeTotalBalance)
    else if (payer !in perPayer && points < 0) || (payer in perPayer && perPayer[payer] + points < 0) then
      Fail(NegativePayerBalance)
    else Pass
  }

  /** The ledger's invariant: the total is the sum of the log and is never
      negative, every logged payer has a balance, and each balance is the sum
      of that payer's logged points. Individual balances are not required to
      be non-negative: a spend can drive one below zero. */
  ghost predicate Consistent(total: int, log: seq<Txn>, perPayer: map<Payer, int>)
  {
    && total == Points(log)
    && total >= 0
    && (forall i :: 0 <= i < |log| ==> log[i].payer in perPayer)
    && (forall p :: p in perPayer ==> perPayer[p] == PayerPoints(log, p))
  }

  /** In a consistent ledger the balances add up to the total. */
  lemma TotalIsSumOfBalances(total: int, log: seq<Txn>, perPayer: map<Payer, int>)
    requires Consistent(total, log, perPayer)
    ensures SumValues(perPayer) == total
  {
    assert perPayer == BalancesOf(log, perPayer.Keys);
    BalancesAddUpToTotal(log, perPayer.Keys);
  }

  /** An accepted add keeps the ledger consistent. */
  lemma AddKeepsConsistent(total: int, log: seq<Txn>, perPayer: map<Payer, int>,
                           payer: Payer, points: int, timestamp: Timestamp)
    requires Consistent(total, log, perPayer)
    requires CheckAdd(total, perPayer, payer, points) == Pass
    ensures Consistent(total + points, log + [Txn(payer, points, timestamp)], Credit(perPayer, payer, points))
  {
    var log' := log + [Txn(payer, points, timestamp)];
    var perPayer' := Credit(perPayer, payer, points);
    assert log'[..|log|] == log;
    assert Points(log') == Points(log) + points;
    if payer !in perPayer {
      PayerPointsAbsent(log, payer);
    }
    forall i | 0 <= i < |log'| ensures log'[i].payer in perPayer' {
      if i < |log| { assert log'[i] == log[i]; }
    }
    forall p | p in perPayer' ensures perPayer'[p] == PayerPoints(log', p) {
      assert PayerPoints(log', p) == PayerPoints(log, p) + (if p == payer then points else 0);
    }
  }

  /** A spend the handler carries through keeps the ledger consistent, and
      deducts only from payers that have a balance. */
  lemma SpendKeepsConsistent(total: int, log: seq<Txn>, perPayer: map<Payer, int>, amount: int)
    requires Consistent(total, log, perPayer)
    requires amount <= total && log != []
    ensures var w := OldestFirstSpend(log, amount);
            && w.spent.Keys <= perPayer.Keys
            && Consistent(total - amount, w.log, ApplyDeductions(perPayer, w.spent))
  {
    var s := SortNewestFirst(log);
    SortSortsNewestFirst(log);
    WalkKeepsConsistent(total, log, perPayer, s, amount);
  }

  /** `SpendKeepsConsistent` for a walk over any reordering `s` of the log. */
  lemma WalkKeepsConsistent(total: int, log: seq<Txn>, perPayer: map<Payer, int>, s: seq<Txn>, amount: int)
    requires Consistent(total, log, perPayer)
    requires amount <= total && s != [] && multiset(s) == multiset(log)
    ensures var w := WalkOldestFirst(s, amount, map[]);
            && w.spent.Keys <= perPayer.Keys
            && Consistent(total - amount, w.log, ApplyDeductions(perPayer, w.spent))
  {
    var w := WalkOldestFirst(s, amount, map[]);
    WalkAccounts(log, s, amount);
    PermutationKeepsPoints(s, log);
    WalkKeepsPayers(s, amount, map[]);
    forall i | 0 <= i < |w.log| ensures w.log[i].payer in perPayer {
      assert s[i] in multiset(log);
    }
  }

  class Ledger {
    /** The user's point total (`userPoints`). */
    var total: int
    /** Every transaction still held (`userData`), in log order until a spend
        sorts it. */
    var log: seq<Txn>
    /** Each payer's balance (`payerData`). */
    var perPayer: map<Payer, int>

    ghost predicate Valid()
      reads this
    {
      Consistent(total, log, perPayer)
    }

    /** The ledger at process start: empty. */
    constructor ()
      ensures Valid()
      ensures total == 0 && log == [] && perPayer == map[]
    {
      total := 0;
      log := [];
      perPayer := map[];
    }

    /** Records a transaction if the checks allow it; otherwise changes
        nothing. */
    method Add(payer: Payer, points: int, timestamp: Timestamp) returns (r: Outcome<AddError>)
      requires Valid()
      modifies this
      ensures Valid()
      ensures r == CheckAdd(old(total), old(perPayer), payer, points)
      ensures r.Fail? ==> total == old(total) && log == old(log) && perPayer == old(perPayer)
      ensures r.Pass? ==>
                && total == old(total) + points
                && log == old(log) + [Txn(payer, points, timestamp)]
                && perPayer.Keys == old(perPayer).Keys + {payer}
                && perPayer[payer] == Lookup(old(perPayer), payer) + points
                && (forall q :: q in old(perPayer) && q != payer ==> perPayer[q] == old(perPayer)[q])
    {
      if points == 0 {
        return Fail(ZeroPoints);
      }
      if total + points < 0 {
        return Fail(NegativeTotalBalance);
      }
      if (payer !in perPayer && points < 0) || (payer in perPayer && perPayer[payer] + points < 0) {
        return Fail(NegativePayerBalance);
      } else if payer in perPayer {
        perPayer := perPayer[payer := perPayer[payer] + points];
      } else {
        perPayer := perPayer[payer := points];
      }
      AddKeepsConsistent(total, log, old(perPayer), payer, points, timestamp);
      total := total + points;
      log := log + [Txn(payer, points, timestamp)];
      r := Pass;
    }

    /** The per-payer balances, which add up to the total. */
    method Balances() returns (b: map<Payer, int>)
      requires Valid()
      ensures b == perPayer
      ensures SumValues(b) == total
    {
      TotalIsSumOfBalances(total, log, perPayer);
      b := perPayer;
    }

    /** Spends `amount` points oldest first and reports what was deducted
        from each payer; refuses, changing nothing, when the total is short. */
    method Spend(amount: int) returns (r: Result<map<Payer, int>, SpendError>)
      requires Valid()
      modifies this
      ensures Valid()
      ensures amount > old(total) ==>
                r == Failure(InsufficientBalance(old(total)))
                && total == old(total) && log == old(log) && perPayer == old(perPayer)
      ensures amount <= old(total) && old(log) == [] ==>
                r == Failure(EmptyLogFault)
                && total == old(total) && log == old(log) && perPayer == old(perPayer)
      ensures amount <= old(total) && old(log) != [] ==>
                var w := OldestFirstSpend(old(log), amount);
                && r == Success(w.spent)
                && total == old(total) - amount
                && log == w.log
                && w.spent.Keys <= old(perPayer).Keys
                && perPayer == ApplyDeductions(old(perPayer), w.spent)
    {
      var pointsToSpend := amount;
      if pointsToSpend > total {
        return Failure(InsufficientBalance(total));
      }
      if log == [] {
        // `pop()` yields undefined here and reading its points throws
        return Failure(EmptyLogFault);
      }
      SpendKeepsConsistent(total, log, perPayer, amount);
      var sorted := SortNewestFirst(log);
      SortSortsNewestFirst(log);
      PermutationKeepsPoints(sorted, log);
      log := sorted;
      var spent := Deplete(pointsToSpend);
      Settle(spent);
      r := Success(spent);
    }

    /** The spend loop over the sorted log: takes the oldest transaction
        until one covers what is still due. */
    method Deplete(amount: int) returns (spent: map<Payer, int>)
      requires log != [] && amount <= total && total == Points(log)
      modifies this`log, this`total
      ensures var w := WalkOldestFirst(old(log), amount, map[]);
              log == w.log && spent == w.spent && total == old(total) - amount
    {
      ghost var plan := WalkOldestFirst(log, amount, map[]);
      var pointsToSpend := amount;
      spent := map[];
      while true
        invariant log != [] && pointsToSpend <= Points(log)
        invariant WalkOldestFirst(log, pointsToSpend, spent) == plan
        invariant total - pointsToSpend == old(total) - amount
        decreases |log|
      {
        var covered;
        covered, pointsToSpend, spent := TakeOldest(pointsToSpend, spent);
        if covered {
          break;
        }
      }
    }

    /** One turn of the spend loop: pops the oldest transaction; if it covers
        what is due, reduces it by that, pushes it back and reports the loop
        done; otherwise consumes it whole. Either way the total drops by what
        was taken and the payer's deduction grows by it. */
    method TakeOldest(due: int, spent: map<Payer, int>) returns (covered: bool, due': int, spent': map<Payer, int>)
      requires log != [] && due <= Points(log)
      modifies this`log, this`total
      ensures covered ==> Walk(log, spent') == WalkOldestFirst(old(log), due, spent) && total == old(total) - due
      ensures !covered ==> && log != [] && |log| < |old(log)| && due' <= Points(log)
                           && WalkOldestFirst(log, due', spent') == WalkOldestFirst(old(log), due, spent)
                           && total - due' == old(total) - due
    {
      ghost var before := log;
      var oldest := log[|log| - 1];
      log := log[..|log| - 1];
      if oldest.points >= due {
        WalkStops(before, due, spent);
        spent' := Credit(spent, oldest.payer, -due);
        total := total - due;
        log := log + [oldest.(points := oldest.points - due)];
        covered, due' := true, 0;
      } else {
        PopLeavesEnough(before, due);
        WalkContinues(before, due, spent);
        due' := due - oldest.points;
        total := total - oldest.points;
        spent' := Credit(spent, oldest.payer, -oldest.points);
        covered := false;
      }
    }

    /** Adds each payer's deduction to that payer's balance. */
    method Settle(spent: map<Payer, int>)
      requires spent.Keys <= perPayer.Keys
      modifies this`perPayer
      ensures perPayer == ApplyDeductions(old(perPayer), spent)
    {
      var pending := spent.Keys;
      while pending != {}
        invariant pending <= spent.Keys
        invariant perPayer.Keys == old(perPayer).Keys
        invariant forall p :: p in perPayer ==>
                    perPayer[p] == old(perPayer)[p] + (if p in spent && p !in pending then spent[p] else 0)
        decreases pending
      {
        var p :| p in pending;
        perPayer := perPayer[p := perPayer[p] + spent[p]];
        pending := pending - {p};
      }
    }
  }
}
