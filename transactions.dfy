/** The transaction record of the ledger and the sums taken over a log of them. */
module Transactions {

  /** Payers are named by their (already canonicalised) string. */
  type Payer = string

  /** The spend handler orders timestamps by comparing the strings
      themselves, so an integer stands for a timestamp's rank in string
      order, which need not be its order in time. */
  type Timestamp = int

  /** One point-earning (or correcting) event attributed to a payer. */
  datatype Txn = Txn(payer: Payer, points: int, timestamp: Timestamp)

  /** Sum of the points of every transaction in the log. */
  function Points(s: seq<Txn>): int
  {
    if s == [] then 0 else Points(s[..|s| - 1]) + s[|s| - 1].points
  }

  /** Sum of the points of the transactions credited to payer `p`. */
  function PayerPoints(s: seq<Txn>, p: Payer): int
  {
    if s == [] then 0
    else PayerPoints(s[..|s| - 1], p) + (if s[|s| - 1].payer == p then s[|s| - 1].points else 0)
  }

  /** The payers credited by the transactions from `s[k]` on. */
  function PayersFrom(s: seq<Txn>, k: nat): set<Payer>
    decreases |s| - k
  {
    if k >= |s| then {} else {s[k].payer} + PayersFrom(s, k + 1)
  }

  /** A payer is in `PayersFrom(s, k)` exactly when a transaction from `s[k]`
      on is theirs. */
  lemma {:induction false} PayersFromMembers(s: seq<Txn>, k: nat)
    ensures forall q :: q in PayersFrom(s, k) <==> exists j :: k <= j < |s| && s[j].payer == q
    decreases |s| - k
  {
    if k < |s| {
      PayersFromMembers(s, k + 1);
    }
  }

  /** Dropping the last transaction drops its payer, unless an earlier one
      from `s[k]` on is theirs too. */
  lemma {:induction false} PayersFromPop(s: seq<Txn>, k: nat)
    requires k < |s|
    ensures PayersFrom(s, k) == PayersFrom(s[..|s| - 1], k) + {s[|s| - 1].payer}
    decreases |s| - k
  {
    if k < |s| - 1 {
      PayersFromPop(s, k + 1);
    }
  }

  /** Both sums distribute over concatenation. */
  lemma {:induction false} PointsConcat(u: seq<Txn>, v: seq<Txn>)
    ensures Points(u + v) == Points(u) + Points(v)
    ensures forall p :: PayerPoints(u + v, p) == PayerPoints(u, p) + PayerPoints(v, p)
    decreases |v|
  {
    if v == [] {
      assert u + v == u;
    } else {
      var v' := v[..|v| - 1];
      assert (u + v)[..|u + v| - 1] == u + v';
      PointsConcat(u, v');
    }
  }

  /** A payer with no transaction in the log has contributed nothing. */
  lemma {:induction false} PayerPointsAbsent(s: seq<Txn>, p: Payer)
    requires forall i :: 0 <= i < |s| ==> s[i].payer != p
    ensures PayerPoints(s, p) == 0
    decreases |s|
  {
    if s != [] {
      PayerPointsAbsent(s[..|s| - 1], p);
    }
  }

  /** Taking one transaction out of a log takes its points off the sums. */
  lemma PointsRemoveAt(b: seq<Txn>, i: int)
    requires 0 <= i < |b|
    ensures Points(b) == Points(b[..i] + b[i + 1..]) + b[i].points
    ensures forall p :: PayerPoints(b, p) == PayerPoints(b[..i] + b[i + 1..], p) + (if b[i].payer == p then b[i].points else 0)
  {
    var x := b[i];
    assert b == (b[..i] + [x]) + b[i + 1..];
    PointsConcat(b[..i], [x]);
    PointsConcat(b[..i] + [x], b[i + 1..]);
    PointsConcat(b[..i], b[i + 1..]);
    assert [x][..0] == [];
  }

  /** Reordering a log changes none of its sums. */
  lemma {:induction false} PermutationKeepsPoints(a: seq<Txn>, b: seq<Txn>)
    requires multiset(a) == multiset(b)
    ensures Points(a) == Points(b)
    ensures forall p :: PayerPoints(a, p) == PayerPoints(b, p)
    decreases |a|
  {
    if a == [] {
      assert |b| == |multiset(b)| == 0;
    } else {
      var i := MatchLast(a, b);
      PermutationKeepsPoints(a[..|a| - 1], b[..i] + b[i + 1..]);
      PointsRemoveAt(b, i);
    }
  }

  /** The last transaction of `a` sits somewhere in its reordering `b`, and
      the rest of `a` is a reordering of what is left of `b` without it. */
  lemma MatchLast(a: seq<Txn>, b: seq<Txn>) returns (i: int)
    requires a != [] && multiset(a) == multiset(b)
    ensures 0 <= i < |b| && b[i] == a[|a| - 1]
    ensures multiset(a[..|a| - 1]) == multiset(b[..i] + b[i + 1..])
  {
    var x := a[|a| - 1];
    assert x in multiset(b);
    i :| 0 <= i < |b| && b[i] == x;
    assert b == b[..i] + [x] + b[i + 1..];
    assert a == a[..|a| - 1] + [x];
    assert multiset(b[..i] + b[i + 1..]) == multiset(b) - multiset{x};
    assert multiset(a[..|a| - 1]) == multiset(a) - multiset{x};
  }

  /** Some transaction of the log is credited to payer `q`. */
  predicate Credits(s: seq<Txn>, q: Payer)
  {
    exists j :: 0 <= j < |s| && s[j].payer == q
  }

  /** Reordering a log keeps the payers it credits. */
  lemma PermutationKeepsPayers(a: seq<Txn>, b: seq<Txn>)
    requires multiset(a) == multiset(b)
    ensures forall q :: Credits(a, q) ==> Credits(b, q)
  {
    forall q | Credits(a, q) ensures Credits(b, q) {
      var j :| 0 <= j < |a| && a[j].payer == q;
      assert a[j] in multiset(b);
      var i :| 0 <= i < |b| && b[i] == a[j];
    }
  }

  /** Cutting a log in two splits its multiset of transactions in two. */
  lemma SplitKeepsMultiset(s: seq<Txn>, n: int)
    requires 0 <= n <= |s|
    ensures multiset(s) == multiset(s[..n]) + multiset(s[n..])
  {
    assert s == s[..n] + s[n..];
  }
}
