# Walleto ledger store, modelled in Dafny

This project models `FinanceService`, the ledger store of the Walleto personal
finance app (src/services/finance.service.ts). The store does four things:

- It holds the list of transactions, newest first. `addTransaction` puts a new
  record in front, and `deleteTransaction` keeps the records whose id differs.
- It derives totals from the list: `totalIncome`, `totalExpense` and `balance`.
  It also derives `expenseCategories`, a breakdown of expenses by category that
  is summed per category and sorted by value, largest first.
- At startup, `loadInitialData` picks the first ledger. It uses the stored
  list if browser storage holds a usable one. Otherwise it falls back to a
  four-record seed ledger (`getDefaultData`), and on a failed parse it also
  asks storage to remove the key.
- An effect writes the list to storage under `walleto_transactions` whenever
  the list changes.

Modules, one per part of the store:

- `Wrappers`: `Option`.
- `Ledger`: the `Transaction` record, the seed ledger, and deletion by id.
- `Aggregates`: the three totals.
- `Breakdown`: `expenseCategories`. The grouping `reduce` is a method with a
  loop over an accumulator map. Its specification is the function
  `CategoryBreakdown`.
- `Startup`: `loadInitialData`. The storage read, `JSON.parse` and
  `new Date(text)` are inputs.
- `Service`: the `FinanceService` class. It holds the list and the stored
  copy, and keeps the invariant `Persisted()`: storage holds the current list
  whenever storage exists.

Amounts are `real`, so sums are exact. A record's `type` is kept as the
string the source compares against (`"income"`, `"expense"`), because a
record reloaded from storage keeps whatever `type` it was saved with.

## Model

| member | source | states |
|---|---|---|
| Ledger.DefaultData | src/services/finance.service.ts:17-24 | the seed ledger has four records with the distinct ids "1" to "4", all dated at the instant of the call |
| Ledger.WithoutId | src/services/finance.service.ts:106-108 | the filtered list keeps exactly the records whose id differs from the given one, and is no longer than the input |
| Ledger.WithoutIdConcat | src/services/finance.service.ts:107 | the filter works record by record: filtering a concatenation filters each part and keeps their order |
| Ledger.WithoutIdAbsent | src/services/finance.service.ts:107 | deleting an id no record has leaves the list unchanged |
| Ledger.WithoutIdIdempotent | src/services/finance.service.ts:107 | deleting the same id twice equals deleting it once |
| Ledger.WithoutIdRemovesOne | src/services/finance.service.ts:107 | with distinct ids, deleting the id of record i removes exactly that record and keeps the others in order |
| Ledger.DeleteShortensByOne | src/services/finance.service.ts:107 | with distinct ids, deleting an id that is present shortens the list by exactly one |
| Ledger.WithoutIdKeepsDistinct | src/services/finance.service.ts:107 | deletion keeps ids distinct |
| Ledger.PrependFreshKeepsDistinct | src/services/finance.service.ts:98-103 | prepending a record with a fresh id keeps ids distinct |
| Ledger.DeleteUndoesAdd | src/services/finance.service.ts:97-108 | deleting a freshly added record's id gives back the list as it was before the add |
| Aggregates.OfKind | src/services/finance.service.ts:62 | the filter by type keeps exactly the records of that type and is no longer than the input |
| Aggregates.OfKindConcat | src/services/finance.service.ts:62 | the filter by type keeps ledger order across a concatenation |
| Aggregates.TotalConcat | src/services/finance.service.ts:63 | the reduce-sum of a concatenation is the sum of the two sums |
| Aggregates.TotalNonNegative | src/services/finance.service.ts:63 | non-negative amounts have a non-negative sum |
| Aggregates.EmptyLedgerTotals | src/services/finance.service.ts:60-72 | an empty ledger has income, expense and balance all zero |
| Aggregates.BalanceIsSignedSum | src/services/finance.service.ts:60-72 | the balance (income minus expense) equals the sum over the ledger of each income amount and each negated expense amount; records of any other type count for nothing |
| Aggregates.TotalsPartitionLedger | src/services/finance.service.ts:60-70 | when every record is an income or an expense, total income plus total expense is the sum of all amounts |
| Aggregates.TotalsOfPrepend | src/services/finance.service.ts:60-70 | adding a record raises the total of its own type by its amount and leaves the other total alone |
| Aggregates.TotalsAfterDelete | src/services/finance.service.ts:60-70 | with distinct ids, deleting a record lowers the total of its own type by its amount and leaves the other total alone |
| Aggregates.TotalOfKindAroundOne | src/services/finance.service.ts:60-70 | the total of one type over a ledger is the total without record i plus that record's amount when it has that type |
| Aggregates.DefaultDataByKind | src/services/finance.service.ts:17-24 | the seed ledger's one income is its first record and its expenses are the other three, in order |
| Aggregates.DefaultDataTotals | src/services/finance.service.ts:17-24 | the seed ledger has total income 5000, total expense 970 and balance 4030 |
| Breakdown.CategoriesInSnoc | src/services/finance.service.ts:76-80 | one more expense adds its category to the set of categories seen |
| Breakdown.CategoriesOfSpec | src/services/finance.service.ts:76-82 | the accumulator's keys, in first-appearance order, have no duplicates and are exactly the categories of the expenses |
| Breakdown.Entries | src/services/finance.service.ts:82-83 | there is one entry per key, in key order, and each carries the sum of that category's amounts |
| Breakdown.Insert | src/services/finance.service.ts:84 | inserting an entry into the sorted list adds exactly that entry |
| Breakdown.InsertSorted | src/services/finance.service.ts:84 | inserting into a list sorted by value, largest first, keeps it sorted |
| Breakdown.SortByValue | src/services/finance.service.ts:84 | the sort is a permutation of its input and sorts by value, largest first |
| Breakdown.InCategoryConcat | src/services/finance.service.ts:77-78 | selecting one category's records keeps order across a concatenation |
| Breakdown.InCategorySingleton | src/services/finance.service.ts:77-78 | a single record is selected exactly when its category matches |
| Breakdown.CategoryTotalSnoc | src/services/finance.service.ts:77-78 | one more expense adds its amount to its own category's sum and to no other |
| Breakdown.InCategoryAbsent | src/services/finance.service.ts:77 | a category absent from the expenses has no records, so `?? 0` applies |
| Breakdown.EntriesSumSnoc | src/services/finance.service.ts:76-83 | one more expense raises the sum over a fixed duplicate-free key list by its amount exactly when its category is a key |
| Breakdown.EntriesSumAppend | src/services/finance.service.ts:82-83 | one more key adds that category's sum to the sum over the entries |
| Breakdown.GroupSumsAddUp | src/services/finance.service.ts:76-83 | the per-category sums add up to the sum over all the expenses |
| Breakdown.SumValuesInsert | src/services/finance.service.ts:84 | inserting an entry adds its value to the sum of values |
| Breakdown.SumValuesSort | src/services/finance.service.ts:84 | sorting keeps the sum of values |
| Breakdown.InsertDistinct | src/services/finance.service.ts:84 | inserting an entry with a new category keeps categories distinct |
| Breakdown.SortDistinct | src/services/finance.service.ts:84 | sorting keeps categories distinct |
| Breakdown.SortKeepsEntries | src/services/finance.service.ts:84 | the sorted list holds exactly the entries it was given |
| Breakdown.GroupsOfLedger | src/services/finance.service.ts:74-83 | before sorting, the entries have distinct categories, one per expense category, each valued at that category's expense sum |
| Breakdown.BreakdownIsGroupedExpenses | src/services/finance.service.ts:74-84 | the breakdown is sorted by value, largest first. It has one entry per distinct expense category, each valued at that category's expense sum, and the values add up to total expense |
| Breakdown.OfKindIdempotent | src/services/finance.service.ts:75 | filtering by type twice is filtering once |
| Breakdown.BreakdownIgnoresNonExpenses | src/services/finance.service.ts:75 | the breakdown depends only on the expense records |
| Breakdown.BreakdownEmptyWithoutExpenses | src/services/finance.service.ts:74-85 | a ledger with no expenses, whether empty or income only, has an empty breakdown |
| Breakdown.GroupByCategory | src/services/finance.service.ts:76-80 | the reduce loop's accumulator has exactly the expense categories as keys, in first-appearance order, and maps each to the sum of its amounts |
| Breakdown.FoldSnoc | src/services/finance.service.ts:77-78 | one step of the reduce keeps the accumulator equal to the grouping of the expenses read so far |
| Breakdown.FoldStepKeys | src/services/finance.service.ts:77-78 | a step adds the category as a new key exactly when it was not yet a key |
| Breakdown.FoldStepSums | src/services/finance.service.ts:77-78 | a step adds the amount to its category's running sum, starting from 0 for a new key |
| Breakdown.ExpenseCategories | src/services/finance.service.ts:74-85 | the breakdown is sorted by value, largest first, and has distinct categories: exactly the expense categories. Each value is its category's expense sum, and the values add up to total expense |
| Breakdown.DefaultDataBreakdown | src/services/finance.service.ts:17-24 | the seed ledger's breakdown is Rent 800, Food 120, Transport 50 |
| Breakdown.SortThreeGroups | src/services/finance.service.ts:84 | entries of 120, 50 and 800 sort to 800, 120, 50 |
| Breakdown.DefaultExpenseGroups | src/services/finance.service.ts:20-22 | the seed expenses group into Food 120, Transport 50, Rent 800, in first-appearance order |
| Breakdown.GroupsOfThree | src/services/finance.service.ts:76-83 | three expenses with distinct categories give three entries, one each, in order |
| Breakdown.CategoriesOfThree | src/services/finance.service.ts:76-82 | three distinct categories become three keys in first-appearance order |
| Breakdown.InCategoryOfThree | src/services/finance.service.ts:77-78 | among three records with distinct categories, each category selects its own record only |
| Startup.CoerceAmount | src/services/finance.service.ts:45 | `Number(amount) \|\| 0` is zero exactly when the number is NaN or zero, and otherwise is the number itself |
| Startup.LoadInitialData | src/services/finance.service.ts:27-54 | the seed ledger is used, and the key left alone, when storage is missing, the stored value is unusable, or it does not parse to an array. The key is removed, and the seed ledger used, exactly when the read throws, the parse throws or an element is null. Otherwise the result has the parsed array's length and order, with each amount coerced and each date rebuilt |
| Startup.StoredLedgerReloads | src/services/finance.service.ts:27-54 | a ledger written by the effect, whose dates are all valid and read back from their text, loads back unchanged and in order at the next startup, and the key is left alone |
| Service.FinanceService.constructor | src/services/finance.service.ts:57 | the store starts from the ledger `loadInitialData` chooses, and the first run of the effect leaves that ledger in storage |
| Service.FinanceService.AddTransaction | src/services/finance.service.ts:97-104 | the new record, with the given fresh id and instant, is the head and the old list follows unchanged. Storage holds the new list, and a fresh id keeps ids distinct |
| Service.FinanceService.DeleteTransaction | src/services/finance.service.ts:106-108 | the list becomes the id-filtered list, and is unchanged when the id is absent. Storage holds the new list, and ids stay distinct |

## Left out

- Browser storage and JSON are outside the model. `localStorage.getItem` is the input `StorageRead`, and `JSON.parse` is the function input `parse`. `JSON.stringify` is represented by keeping the list itself as the stored value (`stored`). `Startup.Encode`, the record as written and read back, is used only by the round-trip lemma.
- `crypto.randomUUID()` and `new Date()` are parameters (`id`, `now`). The source does not check that the id is fresh, so freshness is a hypothesis of the id-distinctness clauses, not a precondition. The four `new Date()` calls of the seed ledger are taken to read one instant.
- `new Date(text)` is the function input `dateOf`. Whether a date's text reads back as the same date is a hypothesis of `Startup.StoredLedgerReloads`, not a proved fact.
- Angular reactivity is not modelled. `signal`, `computed` and `effect` are modelled as pure functions of the current list, and the effect as a write that happens synchronously at the end of each mutation. Change detection and the effect's scheduling are not modelled.
- Service.FinanceService.constructor: the catch path's `removeItem` is reported by `Startup.LoadResult.clearsStored`, not kept in `stored`. When storage exists, the effect's first write overwrites the key right after.
- Storage writes are modelled as always succeeding. The source does not catch a failing `setItem` (for example, over quota), so such a failure would propagate out of the effect.
- JavaScript floating point is not modelled. Amounts are exact reals, so the sums do not round and overflow to `Infinity` is not modelled.
- Breakdown.ExpenseCategories: `Object.entries` lists integer-like keys first, in ascending numeric order. The model keeps every key in first-appearance order, which matches the source only when no category name is an array index. Ties in the sort keep that order.
- Breakdown.ExpenseCategories: the accumulator is a plain object `{}`. Two kinds of category name break it. For `__proto__`, `??` reads `Object.prototype`, and adding the amount gives a string. The accumulator's prototype setter receives that string, ignores it, and no own key is made, so that category drops out of the breakdown. For a name inherited from `Object.prototype`, such as `toString` or `constructor`, `??` reads the inherited function. Adding the amount then gives the function's source text followed by the amount, so the entry's value is a string. The model treats every category name as an ordinary key that starts at 0.
- Startup.LoadInitialData: where the browser blocks storage, evaluating `typeof localStorage` (src/services/finance.service.ts:29) throws a SecurityError outside the `try`. `loadInitialData` then throws and the store is never built. `StorageRead` has no case for this, so the model always yields a ledger. The same test in the effect (line 91) would throw there too.
- Startup.StoredLedgerReloads: it is stated only for ledgers whose dates are all valid. `JSON.stringify` writes an invalid date (one that `new Date(text)` at line 46 made from text that does not parse) as `null`, and `new Date(null)` is the epoch. So such a record reloads dated 1970-01-01, not unchanged.
- Startup.LoadInitialData: a parsed array element is modelled as an object with the six fields or as `null`. Other primitives, missing fields and extra fields that the spread `...t` copies are not modelled. A non-string stored date is not modelled either.
- The `console.warn` on the catch path is not modelled: it is logging only.
- The UI components (the transaction form, the list, the pie chart) and the app component are not part of this model. They call the store or render its values.
