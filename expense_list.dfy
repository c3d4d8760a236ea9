/**
 * The non-visual logic of the client's expense list
 * (frontend/src/components/ExpenseList.jsx): the query parameters it sends,
 * the in-place date sort of what comes back, and the total it shows.
 */
module ExpenseList {
  import opened Wrappers
  import opened Calendar
  import opened ExpenseModel
  import opened Query
  import opened Sorting

  /** The query parameters `fetchExpenses` sends: only ever a category. */
  datatype Params = Params(category: Option<string>)

  /** `params.category` is set to the filter unless the filter is 'All'. */
  function BuildParams(filterCategory: string): (p: Params)
    ensures p.category.Some? <==> filterCategory != "All"
    ensures p.category.Some? ==> p.category.value == filterCategory
  {
    if filterCategory != "All" then Params(Some(filterCategory)) else Params(None)
  }

  /** The server's query for these parameters: no date window and its default sort. */
  function ServerQuery(p: Params): ListQuery
  {
    ListQuery(p.category, None, None, NoMonth, None)
  }

  /**
   * End to end, the server keeps every record when the filter is 'All' and
   * exactly the records of that category otherwise.
   */
  lemma FilterReachesServer(filterCategory: string, e: Expense)
    requires filterCategory != ""
    ensures Matches(ServerQuery(BuildParams(filterCategory)), e) <==>
              filterCategory == "All" || e.category == filterCategory
  {
  }

  /** The key of the client's comparator: `dateB - dateA` for 'date_desc', `dateA - dateB` otherwise. */
  function ClientKey(sortOrder: string): SortKey
  {
    DateOnly(sortOrder == "date_desc")
  }

  /**
   * `data.sort(...)` on the fetched array: afterwards the dates are
   * non-increasing under 'date_desc' and non-decreasing under any other
   * order, and the array holds the same records as before.
   */
  method SortFetched(data: array<Expense>, sortOrder: string)
    modifies data
    ensures multiset(data[..]) == multiset(old(data[..]))
    ensures sortOrder == "date_desc" ==>
              forall i, j :: 0 <= i < j < data.Length ==> NotLater(data[j].date, data[i].date)
    ensures sortOrder != "date_desc" ==>
              forall i, j :: 0 <= i < j < data.Length ==> NotLater(data[i].date, data[j].date)
  {
    SortInPlace(data, ClientKey(sortOrder));
    assert forall i :: 0 <= i < data.Length ==> data[..][i] == data[i];
  }

  /** `expenses.reduce((sum, expense) => sum + expense.amount, 0)`, a left fold. */
  function TotalAmount(xs: seq<Expense>): (t: int)
    ensures xs == [] ==> t == 0
    ensures (forall i :: 0 <= i < |xs| ==> xs[i].amount > 0) ==> t >= |xs|
  {
    if xs == [] then 0 else TotalAmount(xs[..|xs| - 1]) + xs[|xs| - 1].amount
  }

  /** The total of a concatenation is the sum of the totals. */
  lemma {:induction false} TotalAppend(xs: seq<Expense>, ys: seq<Expense>)
    ensures TotalAmount(xs + ys) == TotalAmount(xs) + TotalAmount(ys)
  {
    if ys == [] {
      assert xs + ys == xs;
    } else {
      var init := ys[..|ys| - 1];
      assert (xs + ys)[..|xs + ys| - 1] == xs + init;
      assert (xs + ys)[|xs + ys| - 1] == ys[|ys| - 1];
      TotalAppend(xs, init);
    }
  }

  /** Taking one expense out of a list lowers the total by its amount. */
  lemma TotalWithout(a: seq<Expense>, x: Expense, b: seq<Expense>)
    ensures TotalAmount(a + [x] + b) == TotalAmount(a + b) + x.amount
  {
    assert TotalAmount([x]) == x.amount by {
      assert [x][..0] == [];
    }
    TotalAppend(a + [x], b);
    TotalAppend(a, [x]);
    TotalAppend(a, b);
  }

  /** The total does not depend on the order: sorting the list leaves it unchanged. */
  lemma {:induction false} TotalOfPermutation(xs: seq<Expense>, ys: seq<Expense>)
    requires multiset(xs) == multiset(ys)
    ensures TotalAmount(xs) == TotalAmount(ys)
    decreases |xs|
  {
    if xs != [] {
      var n := |xs| - 1;
      var last := xs[n];
      assert xs == xs[..n] + [last];
      assert last in multiset(ys);
      var j :| 0 <= j < |ys| && ys[j] == last;
      var rest := ys[..j] + ys[j + 1..];
      assert ys == ys[..j] + [last] + ys[j + 1..];
      assert multiset(xs[..n]) == multiset(xs) - multiset{last};
      assert multiset(rest) == multiset(ys) - multiset{last};
      TotalOfPermutation(xs[..n], rest);
      TotalWithout(ys[..j], last, ys[j + 1..]);
    }
  }
}
