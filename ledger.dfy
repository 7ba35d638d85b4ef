/**
 * The ledger: the `Transaction` record of src/services/finance.service.ts, the
 * seed ledger `getDefaultData`, and the filter-by-id that `deleteTransaction`
 * applies to the list.
 */
module Ledger {

  /** What `new Date(...)` holds: milliseconds since the epoch, or the invalid date. */
  datatype Date = At(millis: int) | InvalidDate

  /** The two values of the `type` field that the store gives meaning to. */
  const Income: string := "income"
  const Expense: string := "expense"

  /** The two kinds are different strings. */
  lemma KindsDiffer()
    ensures Income != Expense
  {
    assert Income[0] != Expense[0];
  }

  /**
   * One ledger entry. `kind` is the source's `type` field, kept as the string it
   * is: a record read back from storage keeps whatever `type` it was stored with.
   */
  datatype Transaction = Transaction(
    id: string,
    kind: string,
    amount: real,
    category: string,
    description: string,
    date: Date)

  /** The ids occurring in a ledger. */
  function Ids(l: seq<Transaction>): set<string>
  {
    set t | t in l :: t.id
  }

  /** No two records of the ledger share an id. */
  predicate DistinctIds(l: seq<Transaction>)
  {
    forall i, j :: 0 <= i < j < |l| ==> l[i].id != l[j].id
  }

  /**
   * The seed ledger: one income and three expenses. Every `new Date()` of the
   * source is the single instant `now`.
   */
  function DefaultData(now: int): (r: seq<Transaction>)
    ensures |r| == 4 && DistinctIds(r)
    ensures Ids(r) == {"1", "2", "3", "4"}
    ensures forall t :: t in r ==> t.date == At(now)
  {
    var r := [
      Transaction("1", Income, 5000.0, "Salary", "Monthly Salary", At(now)),
      Transaction("2", Expense, 120.0, "Food", "Groceries", At(now)),
      Transaction("3", Expense, 50.0, "Transport", "Uber", At(now)),
      Transaction("4", Expense, 800.0, "Rent", "Monthly Rent", At(now))
    ];
    assert r[0] in r && r[1] in r && r[2] in r && r[3] in r;
    r
  }

  /** `prev.filter(t => t.id !== id)`: the records whose id is not `id`, in order. */
  function WithoutId(l: seq<Transaction>, id: string): (r: seq<Transaction>)
    ensures |r| <= |l|
    ensures forall t :: t in r <==> t in l && t.id != id
  {
    if l == [] then []
    else (if l[0].id == id then [] else [l[0]]) + WithoutId(l[1..], id)
  }

  /** Filtering distributes over concatenation, so it keeps the relative order of what it keeps. */
  lemma {:induction false} WithoutIdConcat(a: seq<Transaction>, b: seq<Transaction>, id: string)
    ensures WithoutId(a + b, id) == WithoutId(a, id) + WithoutId(b, id)
  {
    if a == [] {
      assert a + b == b;
    } else {
      assert (a + b)[1..] == a[1..] + b;
      WithoutIdConcat(a[1..], b, id);
    }
  }

  /** Deleting an id that no record has leaves the ledger unchanged. */
  lemma {:induction false} WithoutIdAbsent(l: seq<Transaction>, id: string)
    requires id !in Ids(l)
    ensures WithoutId(l, id) == l
  {
    if l != [] {
      assert l[0] in l;
      assert Ids(l[1..]) <= Ids(l) by {
        forall x | x in Ids(l[1..]) ensures x in Ids(l) {
          var t :| t in l[1..] && t.id == x;
          assert t in l;
        }
      }
      WithoutIdAbsent(l[1..], id);
      assert l == [l[0]] + l[1..];
    }
  }

  /** Deleting the same id twice is deleting it once. */
  lemma WithoutIdIdempotent(l: seq<Transaction>, id: string)
    ensures WithoutId(WithoutId(l, id), id) == WithoutId(l, id)
  {
    WithoutIdAbsent(WithoutId(l, id), id);
  }

  /** With distinct ids, deleting the id of record `i` removes exactly that record. */
  lemma {:induction false} WithoutIdRemovesOne(l: seq<Transaction>, i: nat)
    requires DistinctIds(l) && i < |l|
    ensures WithoutId(l, l[i].id) == l[..i] + l[i + 1..]
  {
    var id := l[i].id;
    if i == 0 {
      assert id !in Ids(l[1..]);
      WithoutIdAbsent(l[1..], id);
    } else {
      assert l[0].id != id;
      assert DistinctIds(l[1..]) by {
        forall a, b | 0 <= a < b < |l| - 1 ensures l[1..][a].id != l[1..][b].id {
          assert l[1..][a] == l[a + 1] && l[1..][b] == l[b + 1];
        }
      }
      WithoutIdRemovesOne(l[1..], i - 1);
      assert l[1..][i - 1] == l[i];
      assert l[..i] == [l[0]] + l[1..][..i - 1];
      assert l[i + 1..] == l[1..][i..];
    }
  }

  /** With distinct ids, deleting an id that occurs shortens the ledger by exactly one. */
  lemma DeleteShortensByOne(l: seq<Transaction>, id: string)
    requires DistinctIds(l) && id in Ids(l)
    ensures |WithoutId(l, id)| == |l| - 1
  {
    var t :| t in l && t.id == id;
    var i :| 0 <= i < |l| && l[i] == t;
    WithoutIdRemovesOne(l, i);
  }

  /** Deleting keeps the ids distinct. */
  lemma {:induction false} WithoutIdKeepsDistinct(l: seq<Transaction>, id: string)
    requires DistinctIds(l)
    ensures DistinctIds(WithoutId(l, id))
  {
    if l != [] {
      WithoutIdKeepsDistinct(l[1..], id);
      var rest := WithoutId(l[1..], id);
      if l[0].id != id {
        forall k | 0 <= k < |rest| ensures rest[k].id != l[0].id {
          assert rest[k] in l[1..];
          var j :| 0 <= j < |l| - 1 && l[1..][j] == rest[k];
          assert l[1 + j] == rest[k];
        }
        assert WithoutId(l, id) == [l[0]] + rest;
      }
    }
  }

  /** Prepending a record whose id is new keeps the ids distinct. */
  lemma PrependFreshKeepsDistinct(t: Transaction, l: seq<Transaction>)
    requires DistinctIds(l) && t.id !in Ids(l)
    ensures DistinctIds([t] + l)
  {
    forall i, j | 0 <= i < j < |[t] + l| ensures ([t] + l)[i].id != ([t] + l)[j].id {
      if i == 0 {
        assert ([t] + l)[j] == l[j - 1] && l[j - 1] in l;
      }
    }
  }

  /** Deleting the id of a record just prepended, when that id was new, restores the ledger. */
  lemma DeleteUndoesAdd(t: Transaction, l: seq<Transaction>)
    requires t.id !in Ids(l)
    ensures WithoutId([t] + l, t.id) == l
  {
    assert ([t] + l)[1..] == l;
    WithoutIdAbsent(l, t.id);
  }
}
