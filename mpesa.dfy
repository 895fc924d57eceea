/** The M-Pesa credit transaction monitor
    (src/components/services/mpesa/MpesaTransactionMonitor.tsx): the start of
    the date range, the query filters, the search box and the summary cards.
    Times are milliseconds since the epoch; the clock reading is an input. */
module Mpesa {
  import opened Common
  import opened DateRange

  /** A `credit_transactions` row; `reference` and `description` may be null. */
  datatype CreditTransaction = CreditTransaction(
    id: string,
    amount: int,
    kind: string,
    description: Option<string>,
    reference: Option<string>,
    status: string,
    createdAt: int)

  /** The rows the query selects: on or after the start, and of the chosen
      type unless the type filter is 'all'. The order is the database's. */
  predicate Selected(t: CreditTransaction, start: int, typeFilter: string) {
    t.createdAt >= start && (typeFilter == "all" || t.kind == typeFilter)
  }

  function QueryRows(rows: seq<CreditTransaction>, start: int, typeFilter: string): (r: seq<CreditTransaction>)
    ensures forall i :: 0 <= i < |r| ==> r[i] in rows && Selected(r[i], start, typeFilter)
    ensures forall i :: 0 <= i < |rows| && Selected(rows[i], start, typeFilter) ==> rows[i] in r
  {
    Filter(rows, (t: CreditTransaction) => Selected(t, start, typeFilter))
  }

  /** With the 'all' filter no row is excluded on its type. */
  lemma AllTypesKeepsEveryType(rows: seq<CreditTransaction>, start: int)
    ensures forall i :: 0 <= i < |rows| && rows[i].createdAt >= start ==> rows[i] in QueryRows(rows, start, "all")
  {
  }

  /** `!searchTerm || reference?.includes(searchTerm) || description?.includes(searchTerm)`. */
  predicate MatchesSearch(t: CreditTransaction, term: string) {
    term == ""
    || (t.reference.Some? && Contains(t.reference.value, term))
    || (t.description.Some? && Contains(t.description.value, term))
  }

  function FilteredTransactions(transactions: seq<CreditTransaction>, term: string): (r: seq<CreditTransaction>)
    ensures |r| <= |transactions|
    ensures forall i :: 0 <= i < |r| ==> r[i] in transactions && MatchesSearch(r[i], term)
    ensures forall i :: 0 <= i < |transactions| && MatchesSearch(transactions[i], term) ==> transactions[i] in r
  {
    Filter(transactions, (t: CreditTransaction) => MatchesSearch(t, term))
  }

  /** The search keeps the order of the list. */
  lemma SearchKeepsOrder(transactions: seq<CreditTransaction>, term: string)
    ensures IsSubsequence(FilteredTransactions(transactions, term), transactions)
  {
    FilterIsSubsequence(transactions, (t: CreditTransaction) => MatchesSearch(t, term));
  }

  /** An empty search keeps every transaction. */
  lemma EmptySearchKeepsAll(transactions: seq<CreditTransaction>)
    ensures FilteredTransactions(transactions, "") == transactions
  {
    FilterAll(transactions, (t: CreditTransaction) => MatchesSearch(t, ""));
  }

  datatype TransactionStats = TransactionStats(
    totalAmount: int,
    totalTransactions: nat,
    successfulTransactions: nat,
    pendingTransactions: nat)

  function Amount(t: CreditTransaction): int { t.amount }
  predicate IsCompleted(t: CreditTransaction) { t.status == "completed" }
  predicate IsPending(t: CreditTransaction) { t.status == "pending" }

  /** The summary cards over the transactions the search keeps. */
  function Stats(transactions: seq<CreditTransaction>, term: string): (s: TransactionStats)
    ensures s.totalTransactions == |FilteredTransactions(transactions, term)| <= |transactions|
  {
    var f := FilteredTransactions(transactions, term);
    TransactionStats(Sum(f, Amount), |f|, Count(f, IsCompleted), Count(f, IsPending))
  }

  /** A transaction is not both completed and pending, so the two cards
      together never exceed the total. */
  lemma StatsBounded(transactions: seq<CreditTransaction>, term: string)
    ensures var s := Stats(transactions, term);
      s.successfulTransactions + s.pendingTransactions <= s.totalTransactions
  {
    CountDisjoint2(FilteredTransactions(transactions, term), IsCompleted, IsPending);
  }

  /** One more transaction that the search keeps adds its amount to the total
      and counts once more. */
  lemma StatsOfAppended(transactions: seq<CreditTransaction>, term: string, t: CreditTransaction)
    requires MatchesSearch(t, term)
    ensures var before, after := Stats(transactions, term), Stats(transactions + [t], term);
      after.totalAmount == before.totalAmount + t.amount
      && after.totalTransactions == before.totalTransactions + 1
      && after.successfulTransactions == before.successfulTransactions + (if IsCompleted(t) then 1 else 0)
      && after.pendingTransactions == before.pendingTransactions + (if IsPending(t) then 1 else 0)
  {
    var p := (x: CreditTransaction) => MatchesSearch(x, term);
    FilterAppend(transactions, t, p);
    var f := FilteredTransactions(transactions, term);
    SumAppend(f, t, Amount);
    CountAppend(f, t, IsCompleted);
    CountAppend(f, t, IsPending);
  }
}
