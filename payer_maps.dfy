/** Per-payer point maps: the ledger's `perPayer` balances and the per-payer
    deductions a spend reports. A payer that is not a key is distinct from a
    payer whose entry is zero; `Lookup` reads an absent payer as zero. */
module PayerMaps {
  import opened Transactions

  function Lookup(m: map<Payer, int>, p: Payer): int
  {
    if p in m then m[p] else 0
  }

  /** Adds `x` to payer `p`'s entry, creating the entry when `p` is absent:
      the `m[p] += x` / `m[p] = x` pair of branches the handlers use. */
  function Credit(m: map<Payer, int>, p: Payer, x: int): (r: map<Payer, int>)
  {
    if p in m then m[p := m[p] + x] else m[p := x]
  }

  /** A credit adds `p` to the keys and `x` to `p`'s entry, and leaves every
      other entry as it was. */
  lemma CreditEntries(m: map<Payer, int>, p: Payer, x: int)
    ensures Credit(m, p, x).Keys == m.Keys + {p}
    ensures Credit(m, p, x)[p] == Lookup(m, p) + x
    ensures forall q :: q in m && q != p ==> Credit(m, p, x)[q] == m[q]
  {
  }

  /** Reading through a credit: only the credited payer's entry moves. */
  lemma LookupCredit(m: map<Payer, int>, p: Payer, x: int)
    ensures forall q :: Lookup(Credit(m, p, x), q) == Lookup(m, q) + (if q == p then x else 0)
  {
  }

  /** The balances after each payer of `spent` has had its (signed)
      deduction added; payers without a deduction keep their balance. */
  function ApplyDeductions(perPayer: map<Payer, int>, spent: map<Payer, int>): (r: map<Payer, int>)
    requires spent.Keys <= perPayer.Keys
    ensures r.Keys == perPayer.Keys
    ensures forall p :: p in perPayer ==> r[p] == perPayer[p] + Lookup(spent, p)
  {
    map p | p in perPayer :: perPayer[p] + Lookup(spent, p)
  }

  /** Sum of the values of a map, taken over its keys in an arbitrary order. */
  ghost function SumValues(m: map<Payer, int>): int
    decreases |m|
  {
    if m == map[] then 0
    else
      var k :| k in m;
      assert |m - {k}| < |m| by { assert (m - {k}).Keys == m.Keys - {k}; }
      m[k] + SumValues(m - {k})
  }

  /** Any key may be taken out first: the sum does not depend on the order. */
  lemma {:induction false} SumValuesRemove(m: map<Payer, int>, k: Payer)
    requires k in m
    ensures SumValues(m) == m[k] + SumValues(m - {k})
    decreases |m|
  {
    var j :| j in m && SumValues(m) == m[j] + SumValues(m - {j});
    if j != k {
      assert (m - {j}).Keys == m.Keys - {j};
      assert (m - {k}).Keys == m.Keys - {k};
      SumValuesRemove(m - {j}, k);
      SumValuesRemove(m - {k}, j);
      assert m - {j} - {k} == m - {k} - {j};
    }
  }

  /** Changing one entry changes the sum by the difference. */
  lemma SumValuesCredit(m: map<Payer, int>, p: Payer, x: int)
    ensures SumValues(Credit(m, p, x)) == SumValues(m) + x
  {
    var r := Credit(m, p, x);
    SumValuesRemove(r, p);
    if p in m {
      SumValuesRemove(m, p);
      assert r - {p} == m - {p};
    } else {
      assert r - {p} == m;
    }
  }

  /** A map all of whose values are zero sums to zero. */
  lemma {:induction false} SumValuesZero(m: map<Payer, int>)
    requires forall p :: p in m ==> m[p] == 0
    ensures SumValues(m) == 0
    decreases |m|
  {
    if m != map[] {
      var k :| k in m;
      SumValuesRemove(m, k);
      assert (m - {k}).Keys == m.Keys - {k};
      SumValuesZero(m - {k});
    }
  }

  /** Folding the deductions into the balances changes their sum by the sum
      of the deductions. */
  lemma {:induction false} ApplyDeductionsSum(perPayer: map<Payer, int>, spent: map<Payer, int>)
    requires spent.Keys <= perPayer.Keys
    ensures SumValues(ApplyDeductions(perPayer, spent)) == SumValues(perPayer) + SumValues(spent)
    decreases |spent|
  {
    if spent == map[] {
      assert ApplyDeductions(perPayer, spent) == perPayer;
    } else {
      var k :| k in spent;
      var rest := spent - {k};
      assert rest.Keys == spent.Keys - {k};
      ApplyDeductionsSum(perPayer, rest);
      ApplyDeductionsPeel(perPayer, spent, k);
      SumValuesCredit(ApplyDeductions(perPayer, rest), k, spent[k]);
      SumValuesRemove(spent, k);
    }
  }

  /** One payer's deduction can be folded in last. */
  lemma ApplyDeductionsPeel(perPayer: map<Payer, int>, spent: map<Payer, int>, k: Payer)
    requires spent.Keys <= perPayer.Keys && k in spent
    ensures ApplyDeductions(perPayer, spent) == Credit(ApplyDeductions(perPayer, spent - {k}), k, spent[k])
  {
    var a := ApplyDeductions(perPayer, spent);
    var b := ApplyDeductions(perPayer, spent - {k});
    CreditEntries(b, k, spent[k]);
    var c := Credit(b, k, spent[k]);
    assert a.Keys == c.Keys;
    forall p | p in a ensures a[p] == c[p] {
      if p != k {
        assert Lookup(spent, p) == Lookup(spent - {k}, p);
      }
    }
  }

  /** The balances a log determines for the payers in `keys`. */
  function BalancesOf(log: seq<Txn>, keys: set<Payer>): map<Payer, int>
  {
    map p | p in keys :: PayerPoints(log, p)
  }

  /** When every transaction's payer is among `keys`, the per-payer balances
      the log determines add up to the log's total. */
  lemma {:induction false} BalancesAddUpToTotal(log: seq<Txn>, keys: set<Payer>)
    requires forall i :: 0 <= i < |log| ==> log[i].payer in keys
    ensures SumValues(BalancesOf(log, keys)) == Points(log)
    decreases |log|
  {
    if log == [] {
      SumValuesZero(BalancesOf(log, keys));
    } else {
      var n := |log| - 1;
      var t := log[n];
      BalancesAddUpToTotal(log[..n], keys);
      assert BalancesOf(log, keys) == Credit(BalancesOf(log[..n], keys), t.payer, t.points);
      SumValuesCredit(BalancesOf(log[..n], keys), t.payer, t.points);
    }
  }
}
