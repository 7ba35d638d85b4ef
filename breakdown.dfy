/**
 * `expenseCategories` of src/services/finance.service.ts: the expense records
 * grouped by category (exact string match), summed per category, and sorted
 * by the summed value, largest first.
 */
module Breakdown {
  import opened Ledger
  import opened Aggregates

  /** One entry of the breakdown, `{ category, value }`. */
  datatype CategoryTotal = CategoryTotal(category: string, value: real)

  /** The records of one category, in ledger order. */
  function InCategory(l: seq<Transaction>, c: string): seq<Transaction>
  {
    if l == [] then []
    else (if l[0].category == c then [l[0]] else []) + InCategory(l[1..], c)
  }

  /** The sum of the expense amounts filed under category `c`. */
  function CategorySum(l: seq<Transaction>, c: string): real
  {
    Total(InCategory(OfKind(l, Expense), c))
  }

  /** The categories that occur among the expense records. */
  function ExpenseCategorySet(l: seq<Transaction>): set<string>
  {
    set t | t in OfKind(l, Expense) :: t.category
  }

  predicate NoDuplicates(s: seq<string>)
  {
    forall i, j :: 0 <= i < j < |s| ==> s[i] != s[j]
  }

  /** The categories that occur in `e`. */
  function CategoriesIn(e: seq<Transaction>): set<string>
  {
    set t | t in e :: t.category
  }

  lemma CategoriesInSnoc(e: seq<Transaction>, t: Transaction)
    ensures CategoriesIn(e + [t]) == CategoriesIn(e) + {t.category}
  {
    assert t in e + [t];
    forall c | c in CategoriesIn(e + [t]) ensures c in CategoriesIn(e) + {t.category} {
      var u :| u in e + [t] && u.category == c;
      if u != t { assert u in e; }
    }
    forall c | c in CategoriesIn(e) ensures c in CategoriesIn(e + [t]) {
      var u :| u in e && u.category == c;
      assert u in e + [t];
    }
  }

  /**
   * The distinct categories of `e` in order of first appearance: the key order
   * that the accumulator object of the grouping ends up with.
   */
  function CategoriesOf(e: seq<Transaction>): seq<string>
  {
    if e == [] then []
    else
      var p := CategoriesOf(e[..|e| - 1]);
      var c := e[|e| - 1].category;
      if c in p then p else p + [c]
  }

  /** Each category of `e` is listed once, and nothing else is. */
  lemma {:induction false} CategoriesOfSpec(e: seq<Transaction>)
    ensures NoDuplicates(CategoriesOf(e))
    ensures forall c :: c in CategoriesOf(e) <==> c in CategoriesIn(e)
  {
    if e != [] {
      var pre, t := e[..|e| - 1], e[|e| - 1];
      assert e == pre + [t];
      CategoriesOfSpec(pre);
      CategoriesInSnoc(pre, t);
    }
  }

  /** `Object.entries` of the accumulator whose keys are `cats`: each category with its sum over `e`. */
  function Entries(cats: seq<string>, e: seq<Transaction>): (r: seq<CategoryTotal>)
    ensures |r| == |cats|
    ensures forall k :: 0 <= k < |cats| ==> r[k] == CategoryTotal(cats[k], Total(InCategory(e, cats[k])))
  {
    if cats == [] then []
    else [CategoryTotal(cats[0], Total(InCategory(e, cats[0])))] + Entries(cats[1..], e)
  }

  function SumValues(es: seq<CategoryTotal>): real
  {
    if es == [] then 0.0 else es[0].value + SumValues(es[1..])
  }

  /** Non-increasing by value: what `sort((a, b) => b.value - a.value)` establishes. */
  predicate SortedByValue(es: seq<CategoryTotal>)
  {
    forall i, j :: 0 <= i < j < |es| ==> es[i].value >= es[j].value
  }

  function CategorySetOf(es: seq<CategoryTotal>): set<string>
  {
    set x | x in es :: x.category
  }

  predicate DistinctCategories(es: seq<CategoryTotal>)
  {
    forall i, j :: 0 <= i < j < |es| ==> es[i].category != es[j].category
  }

  /** Puts `x` in front of the first entry whose value is not larger than its own. */
  function Insert(x: CategoryTotal, es: seq<CategoryTotal>): (r: seq<CategoryTotal>)
    ensures multiset(r) == multiset{x} + multiset(es)
  {
    if es == [] || x.value >= es[0].value then [x] + es
    else
      assert es == [es[0]] + es[1..];
      [es[0]] + Insert(x, es[1..])
  }

  /** Inserting into a sorted sequence keeps it sorted. */
  lemma {:induction false} InsertSorted(x: CategoryTotal, es: seq<CategoryTotal>)
    requires SortedByValue(es)
    ensures SortedByValue(Insert(x, es))
  {
    if es != [] && x.value < es[0].value {
      var rest := Insert(x, es[1..]);
      InsertSorted(x, es[1..]);
      forall y | y in rest ensures es[0].value >= y.value {
        assert y in multiset(rest);
        if y != x {
          assert y in es[1..];
        }
      }
    }
  }

  /** The stable sort by value, largest first, as an insertion sort. */
  function SortByValue(es: seq<CategoryTotal>): (r: seq<CategoryTotal>)
    ensures multiset(r) == multiset(es)
    ensures SortedByValue(r)
  {
    if es == [] then []
    else
      assert es == [es[0]] + es[1..];
      InsertSorted(es[0], SortByValue(es[1..]));
      Insert(es[0], SortByValue(es[1..]))
  }

  lemma {:induction false} InCategoryConcat(a: seq<Transaction>, b: seq<Transaction>, c: string)
    ensures InCategory(a + b, c) == InCategory(a, c) + InCategory(b, c)
  {
    if a == [] {
      assert a + b == b;
    } else {
      assert (a + b)[1..] == a[1..] + b;
      InCategoryConcat(a[1..], b, c);
    }
  }

  lemma InCategorySingleton(t: Transaction, c: string)
    ensures InCategory([t], c) == if t.category == c then [t] else []
  {
    assert [t][1..] == [];
  }

  /** Appending a record adds its amount to the sum of its own category only. */
  lemma CategoryTotalSnoc(e: seq<Transaction>, t: Transaction, c: string)
    ensures Total(InCategory(e + [t], c)) == Total(InCategory(e, c)) + (if t.category == c then t.amount else 0.0)
  {
    InCategoryConcat(e, [t], c);
    assert [t][1..] == [];
    TotalConcat(InCategory(e, c), InCategory([t], c));
  }

  /** A category that does not occur has nothing filed under it. */
  lemma {:induction false} InCategoryAbsent(e: seq<Transaction>, c: string)
    requires c !in CategoriesIn(e)
    ensures InCategory(e, c) == []
  {
    if e != [] {
      assert e[0] in e;
      assert c !in CategoriesIn(e[1..]) by {
        forall t | t in e[1..] ensures t.category != c {
          assert t in e;
        }
      }
      InCategoryAbsent(e[1..], c);
    }
  }

  /** Summing the entries of `p` after appending a record to `e`. */
  lemma {:induction false} EntriesSumSnoc(p: seq<string>, e: seq<Transaction>, t: Transaction)
    requires NoDuplicates(p)
    ensures SumValues(Entries(p, e + [t])) == SumValues(Entries(p, e)) + (if t.category in p then t.amount else 0.0)
  {
    if p != [] {
      assert NoDuplicates(p[1..]) by {
        forall i, j | 0 <= i < j < |p| - 1 ensures p[1..][i] != p[1..][j] {
          assert p[1..][i] == p[i + 1] && p[1..][j] == p[j + 1];
        }
      }
      EntriesSumSnoc(p[1..], e, t);
      CategoryTotalSnoc(e, t, p[0]);
      assert t.category in p <==> t.category == p[0] || t.category in p[1..] by {
        assert p == [p[0]] + p[1..];
      }
      assert p[0] !in p[1..];
    }
  }

  /** Summing the entries of `p + [c]`. */
  lemma {:induction false} EntriesSumAppend(p: seq<string>, c: string, e: seq<Transaction>)
    ensures SumValues(Entries(p + [c], e)) == SumValues(Entries(p, e)) + Total(InCategory(e, c))
  {
    if p == [] {
      assert [c][1..] == [];
    } else {
      assert (p + [c])[1..] == p[1..] + [c];
      EntriesSumAppend(p[1..], c, e);
    }
  }

  /** Grouping by category and summing loses nothing: the group sums add up to the total. */
  lemma {:induction false} GroupSumsAddUp(e: seq<Transaction>)
    ensures SumValues(Entries(CategoriesOf(e), e)) == Total(e)
  {
    if e != [] {
      var pre, t := e[..|e| - 1], e[|e| - 1];
      assert e == pre + [t];
      var p := CategoriesOf(pre);
      CategoriesOfSpec(pre);
      GroupSumsAddUp(pre);
      EntriesSumSnoc(p, pre, t);
      TotalConcat(pre, [t]);
      assert Total([t]) == t.amount by {
        assert [t][1..] == [];
      }
      if t.category !in p {
        EntriesSumAppend(p, t.category, e);
        CategoryTotalSnoc(pre, t, t.category);
        InCategoryAbsent(pre, t.category);
      }
    }
  }

  lemma {:induction false} SumValuesInsert(x: CategoryTotal, es: seq<CategoryTotal>)
    ensures SumValues(Insert(x, es)) == x.value + SumValues(es)
  {
    if es != [] && x.value < es[0].value {
      SumValuesInsert(x, es[1..]);
    }
  }

  /** Sorting does not change the sum of the values. */
  lemma {:induction false} SumValuesSort(es: seq<CategoryTotal>)
    ensures SumValues(SortByValue(es)) == SumValues(es)
  {
    if es != [] {
      SumValuesSort(es[1..]);
      SumValuesInsert(es[0], SortByValue(es[1..]));
    }
  }

  /** Inserting an entry of a new category keeps the categories distinct. */
  lemma {:induction false} InsertDistinct(x: CategoryTotal, es: seq<CategoryTotal>)
    requires DistinctCategories(es) && x.category !in CategorySetOf(es)
    ensures DistinctCategories(Insert(x, es))
  {
    if es == [] || x.value >= es[0].value {
      forall j | 1 <= j < |es| + 1 ensures ([x] + es)[j].category != x.category {
        assert ([x] + es)[j] == es[j - 1] && es[j - 1] in es;
      }
    } else {
      assert DistinctCategories(es[1..]) by {
        forall i, j | 0 <= i < j < |es| - 1 ensures es[1..][i].category != es[1..][j].category {
          assert es[1..][i] == es[i + 1] && es[1..][j] == es[j + 1];
        }
      }
      assert x.category !in CategorySetOf(es[1..]);
      InsertDistinct(x, es[1..]);
      var rest := Insert(x, es[1..]);
      forall j | 0 <= j < |rest| ensures rest[j].category != es[0].category {
        assert rest[j] in multiset(rest);
        if rest[j] != x {
          assert rest[j] in es[1..];
          var k :| 0 <= k < |es| - 1 && es[1..][k] == rest[j];
          assert es[k + 1] == rest[j];
        } else {
          assert es[0] in es;
        }
      }
    }
  }

  /** Sorting keeps the categories distinct. */
  lemma {:induction false} SortDistinct(es: seq<CategoryTotal>)
    requires DistinctCategories(es)
    ensures DistinctCategories(SortByValue(es))
  {
    if es != [] {
      assert DistinctCategories(es[1..]) by {
        forall i, j | 0 <= i < j < |es| - 1 ensures es[1..][i].category != es[1..][j].category {
          assert es[1..][i] == es[i + 1] && es[1..][j] == es[j + 1];
        }
      }
      SortDistinct(es[1..]);
      var sorted := SortByValue(es[1..]);
      forall y | y in sorted ensures y.category != es[0].category {
        assert y in multiset(sorted);
      }
      InsertDistinct(es[0], sorted);
    }
  }

  /** The specification of `expenseCategories`. */
  function CategoryBreakdown(l: seq<Transaction>): seq<CategoryTotal>
  {
    var e := OfKind(l, Expense);
    SortByValue(Entries(CategoriesOf(e), e))
  }

  /** Sorting keeps exactly the entries it was given. */
  lemma SortKeepsEntries(es: seq<CategoryTotal>)
    ensures forall x :: x in SortByValue(es) <==> x in es
  {
    var r := SortByValue(es);
    forall x ensures x in r <==> x in es {
      assert x in r <==> x in multiset(r);
      assert x in es <==> x in multiset(es);
    }
  }

  /** The unsorted groups: distinct categories, exactly the expense categories, each with its sum. */
  lemma GroupsOfLedger(l: seq<Transaction>)
    ensures var e := OfKind(l, Expense); var g := Entries(CategoriesOf(e), e);
      && DistinctCategories(g)
      && CategorySetOf(g) == ExpenseCategorySet(l)
      && (forall x :: x in g ==> x.value == CategorySum(l, x.category))
  {
    var e := OfKind(l, Expense);
    var cats := CategoriesOf(e);
    var g := Entries(cats, e);
    CategoriesOfSpec(e);
    forall x | x in g ensures x.category in cats && x.value == CategorySum(l, x.category) {
      var k :| 0 <= k < |g| && g[k] == x;
    }
    forall c | c in cats ensures c in CategorySetOf(g) {
      var k :| 0 <= k < |cats| && cats[k] == c;
      assert g[k] in g;
    }
  }

  /**
   * The breakdown is sorted by value, largest first; it has one entry per
   * distinct expense category and no other; each entry holds the sum of its
   * category's expense amounts; and the entries add up to the total expense.
   */
  lemma BreakdownIsGroupedExpenses(l: seq<Transaction>)
    ensures SortedByValue(CategoryBreakdown(l))
    ensures DistinctCategories(CategoryBreakdown(l))
    ensures CategorySetOf(CategoryBreakdown(l)) == ExpenseCategorySet(l)
    ensures forall x :: x in CategoryBreakdown(l) ==> x.value == CategorySum(l, x.category)
    ensures SumValues(CategoryBreakdown(l)) == TotalExpense(l)
  {
    var e := OfKind(l, Expense);
    var g := Entries(CategoriesOf(e), e);
    GroupsOfLedger(l);
    SortDistinct(g);
    SortKeepsEntries(g);
    assert CategorySetOf(SortByValue(g)) == CategorySetOf(g);
    GroupSumsAddUp(e);
    SumValuesSort(g);
  }

  /** Keeping the records of a kind twice is keeping them once. */
  lemma {:induction false} OfKindIdempotent(l: seq<Transaction>, kind: string)
    ensures OfKind(OfKind(l, kind), kind) == OfKind(l, kind)
  {
    if l != [] {
      OfKindIdempotent(l[1..], kind);
      OfKindConcat(OfKind([l[0]], kind), OfKind(l[1..], kind), kind);
      assert [l[0]][1..] == [];
      assert OfKind(l, kind) == OfKind([l[0]], kind) + OfKind(l[1..], kind);
    }
  }

  /** Only expense records contribute: the breakdown of a ledger is that of its expenses alone. */
  lemma BreakdownIgnoresNonExpenses(l: seq<Transaction>)
    ensures CategoryBreakdown(l) == CategoryBreakdown(OfKind(l, Expense))
  {
    OfKindIdempotent(l, Expense);
  }

  /** A ledger without expenses, in particular an empty or income-only one, has an empty breakdown. */
  lemma BreakdownEmptyWithoutExpenses(l: seq<Transaction>)
    requires forall t :: t in l ==> t.kind != Expense
    ensures CategoryBreakdown(l) == []
  {
  }

  /**
   * The accumulator after folding `e`: its keys, in the order they were first
   * set, are the categories of `e`, and each holds the sum of its category.
   */
  ghost predicate Folded(e: seq<Transaction>, keys: seq<string>, acc: map<string, real>)
  {
    && keys == CategoriesOf(e)
    && (forall c :: c in acc <==> c in keys)
    && (forall c :: c in acc ==> acc[c] == Total(InCategory(e, c)))
  }

  /**
   * The `reduce` of `expenseCategories`: folds the expenses into an accumulator
   * keyed by category, here a map plus the order in which its keys were first
   * set (the order `Object.entries` lists them in).
   */
  method GroupByCategory(expenses: seq<Transaction>) returns (keys: seq<string>, acc: map<string, real>)
    ensures keys == CategoriesOf(expenses)
    ensures forall c :: c in acc <==> c in keys
    ensures forall c :: c in acc ==> acc[c] == Total(InCategory(expenses, c))
  {
    acc, keys := map[], [];
    ghost var folded: seq<Transaction> := [];
    for i := 0 to |expenses|
      invariant folded == expenses[..i]
      invariant Folded(folded, keys, acc)
    {
      var t := expenses[i];
      ghost var keys0, acc0 := keys, acc;
      var current := 0.0;
      if t.category in acc {
        current := acc[t.category];
      } else {
        keys := keys + [t.category];
      }
      acc := acc[t.category := current + t.amount];
      FoldSnoc(folded, t, keys0, acc0, keys, acc);
      folded := folded + [t];
    }
    assert expenses[..|expenses|] == expenses;
  }

  /** Folding one more expense into the accumulator. */
  lemma FoldSnoc(pre: seq<Transaction>, t: Transaction, keys: seq<string>, acc: map<string, real>,
                 keys': seq<string>, acc': map<string, real>)
    requires Folded(pre, keys, acc)
    requires keys' == if t.category in acc then keys else keys + [t.category]
    requires acc' == acc[t.category := (if t.category in acc then acc[t.category] else 0.0) + t.amount]
    ensures Folded(pre + [t], keys', acc')
  {
    FoldStepKeys(pre, t, keys, acc);
    FoldStepSums(pre, t, keys, acc);
  }

  lemma FoldStepKeys(pre: seq<Transaction>, t: Transaction, keys: seq<string>, acc: map<string, real>)
    requires Folded(pre, keys, acc)
    ensures CategoriesOf(pre + [t]) == if t.category in acc then keys else keys + [t.category]
  {
    assert (pre + [t])[..|pre|] == pre;
  }

  lemma FoldStepSums(pre: seq<Transaction>, t: Transaction, keys: seq<string>, acc: map<string, real>)
    requires Folded(pre, keys, acc)
    ensures var acc' := acc[t.category := (if t.category in acc then acc[t.category] else 0.0) + t.amount];
      forall c :: c in acc' ==> acc'[c] == Total(InCategory(pre + [t], c))
  {
    var acc' := acc[t.category := (if t.category in acc then acc[t.category] else 0.0) + t.amount];
    forall c | c in acc' ensures acc'[c] == Total(InCategory(pre + [t], c)) {
      CategoryTotalSnoc(pre, t, c);
      if c == t.category && t.category !in acc {
        CategoriesOfSpec(pre);
        InCategoryAbsent(pre, t.category);
      }
    }
  }

  /**
   * `expenseCategories`: the expenses grouped by category, as entries sorted
   * by value, largest first.
   */
  method ExpenseCategories(l: seq<Transaction>) returns (r: seq<CategoryTotal>)
    ensures r == CategoryBreakdown(l)
    ensures SortedByValue(r) && DistinctCategories(r)
    ensures CategorySetOf(r) == ExpenseCategorySet(l)
    ensures forall x :: x in r ==> x.value == CategorySum(l, x.category)
    ensures SumValues(r) == TotalExpense(l)
  {
    var expenses := OfKind(l, Expense);
    var keys, acc := GroupByCategory(expenses);
    var entries := seq(|keys|, k requires 0 <= k < |keys| => CategoryTotal(keys[k], acc[keys[k]]));
    assert entries == Entries(keys, expenses);
    r := SortByValue(entries);
    BreakdownIsGroupedExpenses(l);
  }

  /** The seed ledger's breakdown: Rent 800, Food 120, Transport 50. */
  lemma DefaultDataBreakdown(now: int)
    ensures CategoryBreakdown(DefaultData(now))
         == [CategoryTotal("Rent", 800.0), CategoryTotal("Food", 120.0), CategoryTotal("Transport", 50.0)]
  {
    var l := DefaultData(now);
    DefaultDataByKind(now);
    DefaultExpenseGroups(now);
    var food, transport, rent := CategoryTotal("Food", 120.0), CategoryTotal("Transport", 50.0), CategoryTotal("Rent", 800.0);
    assert CategoryBreakdown(l) == SortByValue([food, transport, rent]);
    SortThreeGroups(food, transport, rent);
  }

  /** The insertion sort on the seed ledger's three groups. */
  lemma SortThreeGroups(food: CategoryTotal, transport: CategoryTotal, rent: CategoryTotal)
    requires food.value == 120.0 && transport.value == 50.0 && rent.value == 800.0
    ensures SortByValue([food, transport, rent]) == [rent, food, transport]
  {
    assert [food, transport, rent][1..] == [transport, rent];
    assert [transport, rent][1..] == [rent];
    assert [rent][1..] == [];
    assert SortByValue([rent]) == [rent];
    assert SortByValue([transport, rent]) == [rent, transport];
    assert [rent, transport][1..] == [transport];
    assert Insert(food, [rent, transport]) == [rent, food, transport];
  }

  /** The seed ledger's expenses, grouped in order of first appearance. */
  lemma DefaultExpenseGroups(now: int)
    ensures var e := DefaultData(now)[1..];
      Entries(CategoriesOf(e), e)
      == [CategoryTotal("Food", 120.0), CategoryTotal("Transport", 50.0), CategoryTotal("Rent", 800.0)]
  {
    var l := DefaultData(now);
    assert l[1..] == [l[1], l[2], l[3]];
    assert "Food"[0] != "Transport"[0] && "Food"[0] != "Rent"[0] && "Transport"[0] != "Rent"[0];
    GroupsOfThree(l[1], l[2], l[3]);
  }

  /** Three records of three different categories form three groups of one, in order. */
  lemma GroupsOfThree(a: Transaction, b: Transaction, c: Transaction)
    requires a.category != b.category && a.category != c.category && b.category != c.category
    ensures Entries(CategoriesOf([a, b, c]), [a, b, c])
         == [CategoryTotal(a.category, a.amount), CategoryTotal(b.category, b.amount), CategoryTotal(c.category, c.amount)]
  {
    var e := [a, b, c];
    CategoriesOfThree(a, b, c);
    InCategoryOfThree(a, b, c);
    TotalSingleton(a);
    TotalSingleton(b);
    TotalSingleton(c);
    var r := Entries(CategoriesOf(e), e);
    assert r[0] == CategoryTotal(a.category, a.amount);
    assert r[1] == CategoryTotal(b.category, b.amount);
    assert r[2] == CategoryTotal(c.category, c.amount);
  }

  lemma CategoriesOfThree(a: Transaction, b: Transaction, c: Transaction)
    requires a.category != b.category && a.category != c.category && b.category != c.category
    ensures CategoriesOf([a, b, c]) == [a.category, b.category, c.category]
  {
    var e := [a, b, c];
    assert e[..2] == [a, b] && e[..2][..1] == [a] && [a][..0] == [];
    assert CategoriesOf([a]) == [a.category];
    assert CategoriesOf([a, b]) == [a.category, b.category];
  }

  lemma InCategoryOfThree(a: Transaction, b: Transaction, c: Transaction)
    requires a.category != b.category && a.category != c.category && b.category != c.category
    ensures InCategory([a, b, c], a.category) == [a]
    ensures InCategory([a, b, c], b.category) == [b]
    ensures InCategory([a, b, c], c.category) == [c]
  {
    var e := [a, b, c];
    assert e[1..] == [b, c] && [b, c][1..] == [c];
    InCategorySingleton(c, a.category);
    InCategorySingleton(c, b.category);
    InCategorySingleton(c, c.category);
    assert InCategory([b, c], a.category) == [];
    assert InCategory([b, c], b.category) == [b];
    assert InCategory([b, c], c.category) == [c];
  }
}
