/**
 * The derived totals of src/services/finance.service.ts: `totalIncome`,
 * `totalExpense` and `balance`, each a pure function of the current ledger.
 */
module Aggregates {
  import opened Ledger

  /** `filter(t => t.type === kind)`: the records of one kind, in ledger order. */
  function OfKind(l: seq<Transaction>, kind: string): (r: seq<Transaction>)
    ensures |r| <= |l|
    ensures forall t :: t in r <==> t in l && t.kind == kind
  {
    if l == [] then []
    else (if l[0].kind == kind then [l[0]] else []) + OfKind(l[1..], kind)
  }

  /** `reduce((sum, t) => sum + t.amount, 0)`: the sum of the amounts. */
  function Total(l: seq<Transaction>): real
  {
    if l == [] then 0.0 else l[0].amount + Total(l[1..])
  }

  function TotalIncome(l: seq<Transaction>): real
  {
    Total(OfKind(l, Income))
  }

  function TotalExpense(l: seq<Transaction>): real
  {
    Total(OfKind(l, Expense))
  }

  function Balance(l: seq<Transaction>): real
  {
    TotalIncome(l) - TotalExpense(l)
  }

  /** What one record adds to the balance: its amount if income, minus it if expense, else nothing. */
  function SignedAmount(t: Transaction): real
  {
    if t.kind == Income then t.amount
    else if t.kind == Expense then -t.amount
    else 0.0
  }

  /** The balance computed record by record, without splitting by kind. */
  function SignedSum(l: seq<Transaction>): real
  {
    if l == [] then 0.0 else SignedAmount(l[0]) + SignedSum(l[1..])
  }

  lemma {:induction false} OfKindConcat(a: seq<Transaction>, b: seq<Transaction>, kind: string)
    ensures OfKind(a + b, kind) == OfKind(a, kind) + OfKind(b, kind)
  {
    if a == [] {
      assert a + b == b;
    } else {
      assert (a + b)[1..] == a[1..] + b;
      OfKindConcat(a[1..], b, kind);
    }
  }

  /** The sum of a concatenation is the sum of the sums. */
  lemma {:induction false} TotalConcat(a: seq<Transaction>, b: seq<Transaction>)
    ensures Total(a + b) == Total(a) + Total(b)
  {
    if a == [] {
      assert a + b == b;
    } else {
      assert (a + b)[1..] == a[1..] + b;
      TotalConcat(a[1..], b);
    }
  }

  /** Amounts that are all non-negative have a non-negative sum. */
  lemma {:induction false} TotalNonNegative(l: seq<Transaction>)
    requires forall t :: t in l ==> t.amount >= 0.0
    ensures Total(l) >= 0.0
  {
    if l != [] {
      assert l[0] in l;
      TotalNonNegative(l[1..]);
    }
  }

  /** An empty ledger has all three totals zero. */
  lemma EmptyLedgerTotals()
    ensures TotalIncome([]) == 0.0 && TotalExpense([]) == 0.0 && Balance([]) == 0.0
  {
  }

  /** `balance` is income minus expense, and that is the signed sum over the ledger. */
  lemma {:induction false} BalanceIsSignedSum(l: seq<Transaction>)
    ensures Balance(l) == SignedSum(l)
  {
    if l != [] {
      BalanceIsSignedSum(l[1..]);
      TotalsOfPrepend(l[0], l[1..]);
      assert l == [l[0]] + l[1..];
    }
  }

  /** When every record is an income or an expense, the two totals together are the sum of all amounts. */
  lemma {:induction false} TotalsPartitionLedger(l: seq<Transaction>)
    requires forall t :: t in l ==> t.kind == Income || t.kind == Expense
    ensures TotalIncome(l) + TotalExpense(l) == Total(l)
  {
    if l != [] {
      assert l[0] in l;
      TotalsPartitionLedger(l[1..]);
      TotalsOfPrepend(l[0], l[1..]);
      assert l == [l[0]] + l[1..];
    }
  }

  lemma TotalSingleton(t: Transaction)
    ensures Total([t]) == t.amount
  {
    assert [t][1..] == [];
  }

  /** The records of one kind in a one-record ledger. */
  lemma OfKindSingleton(t: Transaction, kind: string)
    ensures OfKind([t], kind) == if t.kind == kind then [t] else []
  {
    assert [t][1..] == [];
  }

  /** Prepending a record adds its amount to the total of its own kind only. */
  lemma TotalsOfPrepend(t: Transaction, l: seq<Transaction>)
    ensures TotalIncome([t] + l) == TotalIncome(l) + (if t.kind == Income then t.amount else 0.0)
    ensures TotalExpense([t] + l) == TotalExpense(l) + (if t.kind == Expense then t.amount else 0.0)
  {
    KindsDiffer();
    OfKindConcat([t], l, Income);
    OfKindConcat([t], l, Expense);
    OfKindSingleton(t, Income);
    OfKindSingleton(t, Expense);
    TotalConcat(OfKind([t], Income), OfKind(l, Income));
    TotalConcat(OfKind([t], Expense), OfKind(l, Expense));
  }

  /** With distinct ids, deleting record `i` takes its amount off the total of its own kind only. */
  lemma TotalsAfterDelete(l: seq<Transaction>, i: nat)
    requires DistinctIds(l) && i < |l|
    ensures TotalIncome(WithoutId(l, l[i].id)) == TotalIncome(l) - (if l[i].kind == Income then l[i].amount else 0.0)
    ensures TotalExpense(WithoutId(l, l[i].id)) == TotalExpense(l) - (if l[i].kind == Expense then l[i].amount else 0.0)
  {
    WithoutIdRemovesOne(l, i);
    KindsDiffer();
    TotalOfKindAroundOne(l, i, Income);
    TotalOfKindAroundOne(l, i, Expense);
  }

  /** The total of one kind over a ledger, split at record `i`. */
  lemma TotalOfKindAroundOne(l: seq<Transaction>, i: nat, kind: string)
    requires i < |l|
    ensures Total(OfKind(l, kind))
         == Total(OfKind(l[..i] + l[i + 1..], kind)) + (if l[i].kind == kind then l[i].amount else 0.0)
  {
    assert l == l[..i] + ([l[i]] + l[i + 1..]);
    OfKindConcat(l[..i], [l[i]] + l[i + 1..], kind);
    OfKindConcat([l[i]], l[i + 1..], kind);
    OfKindConcat(l[..i], l[i + 1..], kind);
    OfKindSingleton(l[i], kind);
    var a, b := OfKind(l[..i], kind), OfKind(l[i + 1..], kind);
    TotalConcat(a, OfKind([l[i]], kind) + b);
    TotalConcat(OfKind([l[i]], kind), b);
    TotalConcat(a, b);
    assert Total([l[i]]) == l[i].amount by {
      assert [l[i]][1..] == [];
    }
  }

  /** The seed ledger holds one income, first, and then its three expenses. */
  lemma DefaultDataByKind(now: int)
    ensures OfKind(DefaultData(now), Income) == DefaultData(now)[..1]
    ensures OfKind(DefaultData(now), Expense) == DefaultData(now)[1..]
  {
    var l := DefaultData(now);
    KindsDiffer();
    assert l[0].kind == Income && l[1].kind == Expense && l[2].kind == Expense && l[3].kind == Expense;
    var e := [l[1], l[2], l[3]];
    assert l[1..] == e && e[1..] == [l[2], l[3]] && e[2..] == [l[3]] && e[3..] == [];
    assert OfKind([l[3]], Income) == [] && OfKind([l[2], l[3]], Income) == [];
    assert OfKind([l[3]], Expense) == [l[3]];
    assert OfKind([l[2], l[3]], Expense) == [l[2], l[3]];
  }

  /** The seed ledger's totals: income 5000, expense 970, balance 4030. */
  lemma DefaultDataTotals(now: int)
    ensures TotalIncome(DefaultData(now)) == 5000.0
    ensures TotalExpense(DefaultData(now)) == 970.0
    ensures Balance(DefaultData(now)) == 4030.0
  {
    var l := DefaultData(now);
    DefaultDataByKind(now);
    assert l[..1] == [l[0]] && [l[0]][1..] == [];
    var e := l[1..];
    assert e == [l[1], l[2], l[3]] && e[1..] == [l[2], l[3]] && e[2..] == [l[3]] && e[3..] == [];
    assert Total(e[2..]) == 800.0;
    assert Total(e[1..]) == 850.0;
  }
}
