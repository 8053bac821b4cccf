/** The timestamp order the spend handler puts the log in before walking it:
    newest first, so that the oldest transaction sits at the end where
    popping takes it from. */
module Ordering {
  import opened Transactions

  /** No transaction is newer than one placed before it. */
  predicate NewestFirst(s: seq<Txn>)
  {
    forall i, j :: 0 <= i < j < |s| ==> s[i].timestamp >= s[j].timestamp
  }

  /** Places `x` before the first transaction not newer than it; since `x`
      was logged before every element of `s`, equal timestamps keep their
      log order, as a stable sort does. */
  function InsertNewestFirst(x: Txn, s: seq<Txn>): (r: seq<Txn>)
    ensures |r| == |s| + 1
    decreases |s|
  {
    if s == [] || x.timestamp >= s[0].timestamp then [x] + s
    else [s[0]] + InsertNewestFirst(x, s[1..])
  }

  /** Inserting into a newest-first log keeps it newest first and adds
      exactly `x`; the result starts with `x` or with the old first entry. */
  lemma {:induction false} InsertKeepsNewestFirst(x: Txn, s: seq<Txn>)
    requires NewestFirst(s)
    ensures var r := InsertNewestFirst(x, s);
            && NewestFirst(r)
            && multiset(r) == multiset(s) + multiset{x}
            && (r[0] == x || (s != [] && r[0] == s[0]))
    decreases |s|
  {
    if s != [] && x.timestamp < s[0].timestamp {
      assert s == [s[0]] + s[1..];
      InsertKeepsNewestFirst(x, s[1..]);
    }
  }

  /** The log sorted newest first, by insertion. */
  function SortNewestFirst(s: seq<Txn>): (r: seq<Txn>)
    ensures |r| == |s|
    decreases |s|
  {
    if s == [] then []
    else InsertNewestFirst(s[0], SortNewestFirst(s[1..]))
  }

  /** The sort returns a permutation of the log in timestamp order. */
  lemma {:induction false} SortSortsNewestFirst(s: seq<Txn>)
    ensures NewestFirst(SortNewestFirst(s))
    ensures multiset(SortNewestFirst(s)) == multiset(s)
    decreases |s|
  {
    if s != [] {
      SortSortsNewestFirst(s[1..]);
      InsertKeepsNewestFirst(s[0], SortNewestFirst(s[1..]));
      assert s == [s[0]] + s[1..];
    }
  }
}
