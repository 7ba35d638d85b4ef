/**
 * The store of src/services/finance.service.ts: the `transactions` state, its
 * two mutations, and the effect that writes the list to storage whenever it
 * changes. The derived values `totalIncome`, `totalExpense`, `balance` and
 * `expenseCategories` are the functions of module Aggregates and the method
 * of module Breakdown, applied to `transactions`.
 */
module Service {
  import opened Wrappers
  import opened Ledger
  import opened Startup

  class FinanceService {
    /** The ledger, newest first. */
    var transactions: seq<Transaction>
    /** `typeof localStorage !== 'undefined'`, fixed for the session. */
    const hasStorage: bool
    /** What the storage key holds: the serialisation of this list, or nothing. */
    var stored: Option<seq<Transaction>>

    /** The persisting effect has run on the current list. */
    ghost predicate Persisted()
      reads this
    {
      stored == if hasStorage then Some(transactions) else None
    }

    /**
     * Field initialisation runs `loadInitialData`; then the effect registered
     * in the constructor runs once and writes the chosen list. (A removal of
     * the key on the catch path, `Startup.clearsStored`, is overwritten by
     * that first write whenever storage exists.)
     */
    constructor (read: StorageRead, parse: string -> ParseOutcome, dateOf: string -> Date, now: int)
      ensures transactions == LoadInitialData(read, parse, dateOf, now).ledger
      ensures hasStorage == !read.NoStorage?
      ensures Persisted()
    {
      var start := LoadInitialData(read, parse, dateOf, now);
      var available := !read.NoStorage?;
      transactions := start.ledger;
      hasStorage := available;
      stored := if available then Some(start.ledger) else None;
    }

    /**
     * `addTransaction`: the new record, with the fresh id `id` and the
     * creation instant `now`, goes in front of the list; then the effect
     * writes the list.
     */
    method AddTransaction(kind: string, amount: real, category: string, description: string, id: string, now: int)
      requires Persisted()
      modifies this
      ensures transactions == [Transaction(id, kind, amount, category, description, At(now))] + old(transactions)
      ensures Persisted()
      ensures DistinctIds(old(transactions)) && id !in Ids(old(transactions)) ==> DistinctIds(transactions)
    {
      var t := Transaction(id, kind, amount, category, description, At(now));
      if DistinctIds(transactions) && id !in Ids(transactions) {
        PrependFreshKeepsDistinct(t, transactions);
      }
      transactions := [t] + transactions;
      if hasStorage {
        stored := Some(transactions);
      }
    }

    /** `deleteTransaction`: keep the records whose id is not `id`; then the effect writes the list. */
    method DeleteTransaction(id: string)
      requires Persisted()
      modifies this
      ensures transactions == WithoutId(old(transactions), id)
      ensures Persisted()
      ensures id !in Ids(old(transactions)) ==> transactions == old(transactions)
      ensures DistinctIds(old(transactions)) ==> DistinctIds(transactions)
    {
      if id !in Ids(transactions) {
        WithoutIdAbsent(transactions, id);
      }
      if DistinctIds(transactions) {
        WithoutIdKeepsDistinct(transactions, id);
      }
      transactions := WithoutId(transactions, id);
      if hasStorage {
        stored := Some(transactions);
      }
    }
  }
}
