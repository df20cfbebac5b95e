/**
  Runs of the review under budgets that may repeat. The benchmark then gathers a row once for each pair
  of occurrences of its budget, the validator once for each occurrence; either way two runs have the
  same timing-free projection exactly when they have the same projected rows.
 */
module ReviewRepeats {
  import opened Wrappers
  import opened ReviewBudget
  import opened ReviewPipeline
  import opened Statistics

  /** The rows without run and wall time, in the order given. */
  function Projected(rows: seq<ReviewRow>): (r: seq<ReviewRow>)
    ensures |r| == |rows|
  {
    seq(|rows|, i requires 0 <= i < |rows| => Project(rows[i]))
  }

  lemma ProjectedConcat(a: seq<ReviewRow>, b: seq<ReviewRow>)
    ensures Projected(a + b) == Projected(a) + Projected(b)
  {
  }

  // ---------------------------------------------------------------- counting projected rows

  /** Of a run's projected rows, gathering one budget meets those with that budget. */
  lemma {:induction false} BudgetProjected(rows: seq<ReviewRow>, key: GroupKey, budget: int, y: ReviewRow)
    ensures multiset(Projected(BudgetRows(rows, key, budget)))[y]
         == if y.row.budget == budget then multiset(Projected(RunRows(rows, key)))[y] else 0
  {
    if rows != [] {
      BudgetProjected(rows[1..], key, budget, y);
      var first := rows[0];
      var whole, some := RunRows(rows[1..], key), BudgetRows(rows[1..], key, budget);
      var here := if InGroup(first, key) then [first] else [];
      var kept := if InGroup(first, key) && first.row.budget == budget then [first] else [];
      assert RunRows(rows, key) == here + whole && BudgetRows(rows, key, budget) == kept + some;
      ProjectedConcat(here, whole);
      ProjectedConcat(kept, some);
      assert Projected([first]) == [Project(first)];
      assert Project(first).row.budget == first.row.budget;
    }
  }

  /** Gathering budget by budget meets each projected row as often as its budget occurs. */
  lemma {:induction false} ByBudgetProjected(rows: seq<ReviewRow>, key: GroupKey, budgets: seq<int>, y: ReviewRow)
    ensures multiset(Projected(RunRowsByBudget(rows, key, budgets)))[y]
         == multiset(budgets)[y.row.budget] * multiset(Projected(RunRows(rows, key)))[y]
  {
    if budgets != [] {
      var rest := budgets[1..];
      ByBudgetProjected(rows, key, rest, y);
      BudgetProjected(rows, key, budgets[0], y);
      GatheredCount(rows, key, budgets, y);
      OccursOnceMore(budgets, y.row.budget);
      OneMoreTime(multiset(rest)[y.row.budget], multiset(Projected(RunRows(rows, key)))[y], y.row.budget == budgets[0]);
    }
  }

  lemma GatheredCount(rows: seq<ReviewRow>, key: GroupKey, budgets: seq<int>, y: ReviewRow)
    requires budgets != []
    ensures multiset(Projected(RunRowsByBudget(rows, key, budgets)))[y]
         == multiset(Projected(BudgetRows(rows, key, budgets[0])))[y]
            + multiset(Projected(RunRowsByBudget(rows, key, budgets[1..])))[y]
  {
    ProjectedConcat(BudgetRows(rows, key, budgets[0]), RunRowsByBudget(rows, key, budgets[1..]));
  }

  // ---------------------------------------------------------------- projections as multisets

  function Without<T>(s: seq<T>, j: nat): seq<T>
    requires j < |s|
  {
    s[..j] + s[j + 1..]
  }

  lemma CountsWithout<T>(s: seq<T>, j: nat)
    requires j < |s|
    ensures multiset(s) == multiset{s[j]} + multiset(Without(s, j))
    ensures multiset(Without(s, j)) == multiset(s) - multiset{s[j]}
  {
    assert s == s[..j] + [s[j]] + s[j + 1..];
  }

  lemma ProjectedWithout(s: seq<ReviewRow>, j: nat)
    requires j < |s|
    ensures Projected(Without(s, j)) == Without(Projected(s), j)
  {
  }

  lemma {:induction false} ProjectedPermutation(a: seq<ReviewRow>, b: seq<ReviewRow>)
    requires multiset(a) == multiset(b)
    ensures multiset(Projected(a)) == multiset(Projected(b))
    decreases |a|
  {
    if a == [] {
      assert |multiset(b)| == 0;
    } else {
      assert a[0] in multiset(b);
      var j :| 0 <= j < |b| && b[j] == a[0];
      CountsWithout(a, 0);
      CountsWithout(b, j);
      ProjectedPermutation(Without(a, 0), Without(b, j));
      ProjectedWithout(a, 0);
      ProjectedWithout(b, j);
      CountsWithout(Projected(a), 0);
      CountsWithout(Projected(b), j);
    }
  }

  /** Rows of one run that share ordinal and budget are equal. */
  ghost predicate Untied(rows: seq<ReviewRow>) {
    NoTies(rows, ByOrdinalAndBudget)
  }

  lemma ProjectionIsOrdered(rows: seq<ReviewRow>)
    requires Untied(rows)
    ensures multiset(Projection(rows)) == multiset(Projected(rows))
    ensures Ordered(Projection(rows), ByOrdinalAndBudget) && Untied(Projection(rows))
  {
    var ordered := SortBy(rows, ByOrdinalAndBudget);
    SortByIsPermutation(rows, ByOrdinalAndBudget);
    OrdinalOrderIsTotal();
    SortByOrders(rows, ByOrdinalAndBudget);
    assert Projection(rows) == Projected(ordered);
    ProjectedPermutation(ordered, rows);
    forall x, y | x in Projection(rows) && y in Projection(rows) && ByOrdinalAndBudget(x, y) && ByOrdinalAndBudget(y, x)
      ensures x == y
    {
      var i :| 0 <= i < |ordered| && Project(ordered[i]) == x;
      var j :| 0 <= j < |ordered| && Project(ordered[j]) == y;
      assert ordered[i] in multiset(rows) && ordered[j] in multiset(rows);
      assert ordered[i] in rows && ordered[j] in rows;
    }
  }

  /** Two runs have the same projection exactly when they have the same projected rows, as often. */
  lemma SameProjectionIff(a: seq<ReviewRow>, b: seq<ReviewRow>)
    requires Untied(a) && Untied(b)
    ensures Projection(a) == Projection(b) <==> multiset(Projected(a)) == multiset(Projected(b))
  {
    ProjectionIsOrdered(a);
    ProjectionIsOrdered(b);
    OrdinalOrderIsTotal();
    if multiset(Projected(a)) == multiset(Projected(b)) {
      OrderedUnique(Projection(a), Projection(b), ByOrdinalAndBudget);
    }
  }

  // ---------------------------------------------------------------- both gatherings decide alike

  ghost predicate BudgetsKnown(rows: seq<ReviewRow>, budgets: seq<int>) {
    forall x :: x in rows ==> x.row.budget in budgets
  }

  lemma GatheredIsUntied(rows: seq<ReviewRow>, key: GroupKey, budgets: seq<int>)
    requires RowsDistinct(rows)
    ensures Untied(RunRows(rows, key)) && Untied(RunRowsByBudget(rows, key, budgets))
  {
    RunRowsHaveNoTies(rows, key);
    forall x | x in RunRowsByBudget(rows, key, budgets) ensures x in RunRows(rows, key) {
      GatheredIsInRun(rows, key, budgets, x);
    }
  }

  lemma {:induction false} SelectHasAll(rows: seq<ReviewRow>, keep: ReviewRow -> bool, x: ReviewRow)
    requires x in rows && keep(x)
    ensures x in Select(rows, keep)
  {
    if x != rows[0] { SelectHasAll(rows[1..], keep, x); }
  }

  lemma {:induction false} GatheredIsInRun(rows: seq<ReviewRow>, key: GroupKey, budgets: seq<int>, x: ReviewRow)
    requires x in RunRowsByBudget(rows, key, budgets)
    ensures x in RunRows(rows, key)
  {
    if x in BudgetRows(rows, key, budgets[0]) {
      SelectHasAll(rows, (row: ReviewRow) => InGroup(row, key), x);
    } else {
      GatheredIsInRun(rows, key, budgets[1..], x);
    }
  }

  lemma ProjectedBudgetKnown(rows: seq<ReviewRow>, y: ReviewRow, budgets: seq<int>)
    requires BudgetsKnown(rows, budgets) && y.row.budget !in budgets
    ensures multiset(Projected(rows))[y] == 0
  {
    forall i | 0 <= i < |rows| ensures Projected(rows)[i] != y {
      assert rows[i] in rows && Projected(rows)[i].row.budget == rows[i].row.budget;
    }
    assert y !in Projected(rows);
  }

  lemma CancelTimes(n: nat, a: nat, b: nat)
    requires n > 0 && n * a == n * b
    ensures a == b
  {
    if a < b { TimesLess(n, a, b); }
    if b < a { TimesLess(n, b, a); }
  }

  lemma TimesLess(n: nat, a: nat, b: nat)
    requires n > 0 && a < b
    ensures n * a < n * b
  {
  }

  /** One projected row is met equally often by two runs in one gathering exactly when in the other. */
  lemma CountsAgree(rows: seq<ReviewRow>, k: GroupKey, l: GroupKey, budgets: seq<int>, y: ReviewRow)
    requires BudgetsKnown(rows, budgets)
    ensures multiset(Projected(RunRowsByBudget(rows, k, budgets)))[y]
         == multiset(Projected(RunRowsByBudget(rows, l, budgets)))[y]
       <==> multiset(Projected(RunRows(rows, k)))[y] == multiset(Projected(RunRows(rows, l)))[y]
  {
    ByBudgetProjected(rows, k, budgets, y);
    ByBudgetProjected(rows, l, budgets, y);
    var n := multiset(budgets)[y.row.budget];
    var a, b := multiset(Projected(RunRows(rows, k)))[y], multiset(Projected(RunRows(rows, l)))[y];
    if y.row.budget in budgets {
      assert n > 0;
      if n * a == n * b { CancelTimes(n, a, b); }
    } else {
      ProjectedBudgetKnown(RunRows(rows, k), y, budgets);
      ProjectedBudgetKnown(RunRows(rows, l), y, budgets);
    }
  }

  /** The projections of both gatherings are equal exactly when the budget of every row occurs exactly once. */
  lemma ProjectionsAgree(rows: seq<ReviewRow>, key: GroupKey, budgets: seq<int>)
    requires RowsDistinct(rows)
    ensures Projection(RunRowsByBudget(rows, key, budgets)) == Projection(RunRows(rows, key)) <==>
      OnceEach(rows, key, budgets)
  {
    var gathered, run := RunRowsByBudget(rows, key, budgets), RunRows(rows, key);
    GatheringsAgree(rows, key, budgets);
    if OnceEach(rows, key, budgets) {
      OrdinalOrderIsTotal();
      RunRowsHaveNoTies(rows, key);
      SortIgnoresOrder(run, gathered, ByOrdinalAndBudget);
    }
    if Projection(gathered) == Projection(run) {
      GatheredIsUntied(rows, key, budgets);
      SameProjectionIff(gathered, run);
      forall x | x in run ensures multiset(budgets)[x.row.budget] == 1 {
        ProjectedOnce(rows, key, budgets, x);
      }
    }
  }

  lemma ProjectedOnce(rows: seq<ReviewRow>, key: GroupKey, budgets: seq<int>, x: ReviewRow)
    requires x in RunRows(rows, key)
    requires multiset(Projected(RunRowsByBudget(rows, key, budgets))) == multiset(Projected(RunRows(rows, key)))
    ensures multiset(budgets)[x.row.budget] == 1
  {
    var run, y := RunRows(rows, key), Project(x);
    var i :| 0 <= i < |run| && run[i] == x;
    assert Projected(run)[i] == y;
    assert y in multiset(Projected(run));
    ByBudgetProjected(rows, key, budgets, y);
    TimesItself(multiset(budgets)[y.row.budget], multiset(Projected(run))[y]);
  }

  /** Two runs look the same in one gathering exactly when they look the same in the other. */
  lemma GatheringsDecideAlike(rows: seq<ReviewRow>, k: GroupKey, l: GroupKey, budgets: seq<int>)
    requires RowsDistinct(rows) && BudgetsKnown(rows, budgets)
    ensures Projection(RunRowsByBudget(rows, k, budgets)) == Projection(RunRowsByBudget(rows, l, budgets))
       <==> Projection(RunRows(rows, k)) == Projection(RunRows(rows, l))
  {
    GatheredIsUntied(rows, k, budgets);
    GatheredIsUntied(rows, l, budgets);
    SameProjectionIff(RunRowsByBudget(rows, k, budgets), RunRowsByBudget(rows, l, budgets));
    SameProjectionIff(RunRows(rows, k), RunRows(rows, l));
    forall y
      ensures multiset(Projected(RunRowsByBudget(rows, k, budgets)))[y]
           == multiset(Projected(RunRowsByBudget(rows, l, budgets)))[y]
         <==> multiset(Projected(RunRows(rows, k)))[y] == multiset(Projected(RunRows(rows, l)))[y]
    {
      CountsAgree(rows, k, l, budgets, y);
    }
    SameCounts(multiset(Projected(RunRowsByBudget(rows, k, budgets))),
               multiset(Projected(RunRowsByBudget(rows, l, budgets))),
               multiset(Projected(RunRows(rows, k))), multiset(Projected(RunRows(rows, l))));
  }

  lemma SameCounts(a: multiset<ReviewRow>, b: multiset<ReviewRow>, c: multiset<ReviewRow>, d: multiset<ReviewRow>)
    requires forall y :: a[y] == b[y] <==> c[y] == d[y]
    ensures a == b <==> c == d
  {
  }
}
