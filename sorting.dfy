/**
 * The orderings used to list expenses and one in-place sort over them.
 * The server hands its ordering to the database (`.sort(sortOptions)`) and the
 * client to `Array.prototype.sort`; both are modelled by `SortInPlace`.
 */
module Sorting {
  import opened Calendar
  import opened ExpenseModel
  import opened Query

  /** `a` may be listed before `b` under key `k`. */
  function InOrder(k: SortKey, a: Expense, b: Expense): (r: bool)
    ensures a == b ==> r
    ensures (k.DateThenCreated? || k.DateOnly?) && Earlier(a.date, b.date) ==> (r <==> !k.descending)
  {
    match k
    case DateThenCreated(true) =>
      Earlier(b.date, a.date) || (a.date == b.date && a.createdAt >= b.createdAt)
    case DateThenCreated(false) =>
      Earlier(a.date, b.date) || (a.date == b.date && a.createdAt <= b.createdAt)
    case NewestFirst =>
      a.createdAt >= b.createdAt
    case DateOnly(true) =>
      NotLater(b.date, a.date)
    case DateOnly(false) =>
      NotLater(a.date, b.date)
  }

  /** Every key is a total preorder: any two records compare, and order chains. */
  lemma InOrderTotal(k: SortKey, a: Expense, b: Expense)
    ensures InOrder(k, a, b) || InOrder(k, b, a)
  {
  }

  lemma InOrderTransitive(k: SortKey, a: Expense, b: Expense, c: Expense)
    requires InOrder(k, a, b) && InOrder(k, b, c)
    ensures InOrder(k, a, c)
  {
  }

  predicate SortedBy(k: SortKey, s: seq<Expense>)
  {
    forall i, j :: 0 <= i < j < |s| ==> InOrder(k, s[i], s[j])
  }

  /**
   * Under `date_desc` a later day comes first and, on the same day, the record
   * entered later; under `date_asc` the reverse.
   */
  lemma SameDayTieBreak(k: SortKey, s: seq<Expense>, i: int, j: int)
    requires k.DateThenCreated? && SortedBy(k, s)
    requires 0 <= i < j < |s| && s[i].date == s[j].date
    ensures k.descending ==> s[i].createdAt >= s[j].createdAt
    ensures !k.descending ==> s[i].createdAt <= s[j].createdAt
  {
  }

  /** The elements of `a` from `lo` to `hi` (exclusive) are ordered under `k`. */
  ghost predicate SortedRange(k: SortKey, a: array<Expense>, lo: int, hi: int)
    reads a
    requires 0 <= lo <= hi <= a.Length
  {
    forall p, r :: lo <= p < r < hi ==> InOrder(k, a[p], a[r])
  }

  /**
   * Sorts `a` in place under `k` by insertion. The result is ordered and a
   * permutation of the input.
   */
  method SortInPlace(a: array<Expense>, k: SortKey)
    modifies a
    ensures SortedBy(k, a[..])
    ensures multiset(a[..]) == multiset(old(a[..]))
  {
    var i := 0;
    while i < a.Length
      invariant 0 <= i <= a.Length
      invariant SortedRange(k, a, 0, i)
      invariant multiset(a[..]) == multiset(old(a[..]))
    {
      InsertLast(a, i, k);
      i := i + 1;
    }
  }

  /** Moves `a[i]` down into the sorted prefix `a[..i]`, leaving `a[..i+1]` sorted. */
  method InsertLast(a: array<Expense>, i: int, k: SortKey)
    requires 0 <= i < a.Length
    requires SortedRange(k, a, 0, i)
    modifies a
    ensures SortedRange(k, a, 0, i + 1)
    ensures multiset(a[..]) == multiset(old(a[..]))
  {
    var j := i;
    while j > 0 && !InOrder(k, a[j - 1], a[j])
      invariant 0 <= j <= i
      invariant multiset(a[..]) == multiset(old(a[..]))
      invariant forall p, r :: 0 <= p < r <= i && p != j && r != j ==> InOrder(k, a[p], a[r])
      invariant forall r :: j < r <= i ==> InOrder(k, a[j], a[r])
    {
      InOrderTotal(k, a[j - 1], a[j]);
      Swap(a, j);
      j := j - 1;
    }
    forall p, r | 0 <= p < r <= i
      ensures InOrder(k, a[p], a[r])
    {
      if r == j && p < j - 1 {
        InOrderTransitive(k, a[p], a[j - 1], a[j]);
      }
    }
  }

  /** Exchanges `a[j - 1]` and `a[j]`. */
  method Swap(a: array<Expense>, j: int)
    requires 0 < j < a.Length
    modifies a
    ensures a[j - 1] == old(a[j]) && a[j] == old(a[j - 1])
    ensures forall m :: 0 <= m < a.Length && m != j - 1 && m != j ==> a[m] == old(a[m])
    ensures multiset(a[..]) == multiset(old(a[..]))
  {
    a[j - 1], a[j] := a[j], a[j - 1];
  }
}
