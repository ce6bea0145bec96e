/** The ledger page's filter (`useFiltered`) and the category choices it
    offers (app/page.tsx). Date bounds are local calendar days. */
module Filtering {
  import opened Wrappers
  import opened Seqs
  import opened Text
  import opened Time
  import opened Ledger

  /** `kind`: `'all'`, or one flow type. */
  datatype KindFilter = AnyKind | OnlyKind(kind: Kind)

  /** The category value that switches the category clause off. */
  const AllCategories: string := "all"

  /** The filter record of the filter panel. `from` and `to` are local day
      numbers; `None` stands for an absent or empty date field. */
  datatype Filters = Filters(
    search: string,
    kind: KindFilter,
    category: string,
    from: Option<int>,
    to: Option<int>)

  /** The page's initial filters. */
  function DefaultFilters(): Filters
  {
    Filters("", AnyKind, AllCategories, None, None)
  }

  /** The text the search looks in: label, description (empty when absent) and
      category, separated by spaces. */
  function Haystack(tx: Transaction): string
  {
    tx.labelText + " " + (match tx.description case Some(d) => d case None => "") + " " + tx.category
  }

  predicate KindClause(tx: Transaction, f: Filters)
  {
    f.kind.AnyKind? || tx.kind == f.kind.kind
  }

  predicate CategoryClause(tx: Transaction, f: Filters)
  {
    f.category == AllCategories || tx.category == f.category
  }

  predicate FromClause(tx: Transaction, f: Filters, offset: int)
  {
    f.from.None? || tx.occurredAt >= StartOfDay(f.from.value, offset)
  }

  predicate ToClause(tx: Transaction, f: Filters, offset: int)
  {
    f.to.None? || tx.occurredAt <= EndOfDay(f.to.value, offset)
  }

  /** The text clause for an already lower-cased query. */
  predicate SearchClause(tx: Transaction, query: string)
  {
    |query| == 0 || Includes(Lower(Haystack(tx)), query)
  }

  /** The filter callback: every clause must accept the record. */
  predicate Matches(tx: Transaction, f: Filters, offset: int)
  {
    && KindClause(tx, f)
    && CategoryClause(tx, f)
    && FromClause(tx, f, offset)
    && ToClause(tx, f, offset)
    && SearchClause(tx, Lower(f.search))
  }

  function Keeps(f: Filters, offset: int): Transaction -> bool
  {
    (tx: Transaction) => Matches(tx, f, offset)
  }

  /** `useFiltered`: the records that pass the filter, in ledger order. */
  function Filtered(txs: seq<Transaction>, f: Filters, offset: int): seq<Transaction>
  {
    Filter(txs, Keeps(f, offset))
  }

  /** The view keeps the ledger's order: it is a subsequence of the ledger. */
  lemma FilteredIsSubsequence(txs: seq<Transaction>, f: Filters, offset: int)
    ensures IsSubsequence(Filtered(txs, f, offset), txs)
  {
    FilterIsSubsequence(txs, Keeps(f, offset));
  }

  /** A record is in the view exactly when it is in the ledger and passes the filter. */
  lemma FilteredIsExactlyTheMatches(txs: seq<Transaction>, f: Filters, offset: int, tx: Transaction)
    ensures tx in Filtered(txs, f, offset) <==> tx in txs && Matches(tx, f, offset)
  {
  }

  /** Every record in the view satisfies each active clause. */
  lemma FilteredRecordsSatisfyClauses(txs: seq<Transaction>, f: Filters, offset: int, tx: Transaction)
    requires tx in Filtered(txs, f, offset)
    ensures f.kind.OnlyKind? ==> tx.kind == f.kind.kind
    ensures f.category != AllCategories ==> tx.category == f.category
    ensures f.from.Some? ==> tx.occurredAt >= StartOfDay(f.from.value, offset) && DayOf(tx.occurredAt, offset) >= f.from.value
    ensures f.to.Some? ==> tx.occurredAt <= EndOfDay(f.to.value, offset) && DayOf(tx.occurredAt, offset) <= f.to.value
    ensures Includes(Lower(Haystack(tx)), Lower(f.search))
  {
    if f.from.Some? {
      AtOrAfterStartOfDay(tx.occurredAt, f.from.value, offset);
    }
    if f.to.Some? {
      AtOrBeforeEndOfDay(tx.occurredAt, f.to.value, offset);
    }
    SearchIsCaseInsensitiveSubstring(tx, f.search);
  }

  /** Both date bounds are inclusive: a record passes them exactly when its
      local day lies between the two days, ends included. */
  lemma DateBoundsAreInclusiveDays(tx: Transaction, f: Filters, offset: int)
    ensures FromClause(tx, f, offset) <==> f.from.None? || DayOf(tx.occurredAt, offset) >= f.from.value
    ensures ToClause(tx, f, offset) <==> f.to.None? || DayOf(tx.occurredAt, offset) <= f.to.value
  {
    if f.from.Some? {
      AtOrAfterStartOfDay(tx.occurredAt, f.from.value, offset);
    }
    if f.to.Some? {
      AtOrBeforeEndOfDay(tx.occurredAt, f.to.value, offset);
    }
  }

  /** An empty search accepts every record. */
  lemma EmptySearchAcceptsAll(tx: Transaction, f: Filters)
    requires f.search == ""
    ensures SearchClause(tx, Lower(f.search))
  {
  }

  /** The text clause is a case-insensitive substring test over the haystack. */
  lemma SearchIsCaseInsensitiveSubstring(tx: Transaction, search: string)
    ensures SearchClause(tx, Lower(search)) <==> Includes(Lower(Haystack(tx)), Lower(search))
  {
    if |search| == 0 {
      assert Lower(search) <= Lower(Haystack(tx));
    }
  }

  /** With the page's initial filters the view is the whole ledger. */
  lemma DefaultFiltersKeepAll(txs: seq<Transaction>, offset: int)
    ensures Filtered(txs, DefaultFilters(), offset) == txs
  {
    FilterAllPass(txs, Keeps(DefaultFilters(), offset));
  }

  /** Strictly increasing in the default string order. */
  predicate StrictlyAscending(s: seq<string>)
  {
    forall i, j :: 0 <= i < j < |s| ==> Less(s[i], s[j])
  }

  /** Strictly increasing lists hold no repeats. */
  lemma StrictlyAscendingIsDistinct(s: seq<string>)
    requires StrictlyAscending(s)
    ensures Distinct(s)
  {
    forall i, j | 0 <= i < j < |s| ensures s[i] != s[j] {
      LessIrreflexive(s[i]);
    }
  }

  /** Adds `c` to a sorted list of distinct strings, unless it is there already. */
  function InsertSorted(c: string, s: seq<string>): (r: seq<string>)
    requires StrictlyAscending(s)
    ensures StrictlyAscending(r)
    ensures forall x :: x in r <==> x == c || x in s
  {
    if |s| == 0 then [c]
    else if c == s[0] then s
    else if Less(c, s[0]) then
      assert forall j :: 0 <= j < |s| ==> Less(c, s[j]) by {
        forall j | 0 <= j < |s| ensures Less(c, s[j]) {
          if j > 0 { LessTransitive(c, s[0], s[j]); }
        }
      }
      [c] + s
    else
      LessTotal(c, s[0]);
      var rest := InsertSorted(c, s[1..]);
      assert forall x :: x in rest ==> Less(s[0], x);
      [s[0]] + rest
  }

  /** `Array.from(new Set(categories)).sort()`: the distinct categories of
      the ledger in ascending order. */
  function CategoryOptions(txs: seq<Transaction>): (r: seq<string>)
    ensures StrictlyAscending(r)
    ensures forall c :: c in r <==> c in Categories(txs)
  {
    if |txs| == 0 then []
    else
      var r := InsertSorted(txs[0].category, CategoryOptions(txs[1..]));
      assert Categories(txs) == {txs[0].category} + Categories(txs[1..]) by {
        assert txs == [txs[0]] + txs[1..];
      }
      r
  }
}
