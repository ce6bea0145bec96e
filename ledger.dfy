/** The ledger store: the transaction record, the store's state and the
    reducer that applies one action to it (components/transactions-store.tsx).
    The store's fresh ids (`nanoid()`) and clock (`new Date()`) are parameters. */
module Ledger {
  import opened Wrappers
  import opened Seqs

  datatype Kind = Credit | Debit

  /** One ledger entry. `occurredAt` is when the event happened (chosen by the
      user), `createdAt` when the store recorded it; both are timestamps in
      milliseconds. The sign of a movement is carried by `kind`. */
  datatype Transaction = Transaction(
    id: string,
    labelText: string,
    description: Option<string>,
    amount: real,
    kind: Kind,
    category: string,
    occurredAt: int,
    createdAt: int)

  /** A transaction before the store has given it an id and a creation time. */
  datatype Draft = Draft(
    labelText: string,
    description: Option<string>,
    amount: real,
    kind: Kind,
    category: string,
    occurredAt: int)

  /** The ledger, newest insertion first, and when it last changed. */
  datatype State = State(transactions: seq<Transaction>, lastSyncedAt: Option<int>)

  /** `initialState`: no records and no sync time. */
  function Initial(): State
  {
    State([], None)
  }

  datatype Action =
    | Add(draft: Draft)
    | Remove(id: string)
    | Hydrate(items: seq<Transaction>)
    | Purge

  /** The record `add` builds: the draft's fields plus an id and a creation time. */
  function Stamp(d: Draft, id: string, createdAt: int): (tx: Transaction)
  {
    Transaction(id, d.labelText, d.description, d.amount, d.kind, d.category, d.occurredAt, createdAt)
  }

  /** The predicate `remove` filters with. */
  function OtherThan(id: string): Transaction -> bool
  {
    (tx: Transaction) => tx.id != id
  }

  /** The reducer. `freshId` is the id `nanoid()` returns and `now` the clock
      reading, both used only where the source calls them. */
  function Apply(state: State, action: Action, freshId: string, now: int): (r: State)
  {
    match action
    case Add(d) => State([Stamp(d, freshId, now)] + state.transactions, Some(now))
    case Remove(id) => State(Filter(state.transactions, OtherThan(id)), state.lastSyncedAt)
    case Hydrate(items) => State(items, Some(now))
    case Purge => Initial()
  }

  function Ids(txs: seq<Transaction>): set<string>
  {
    set tx | tx in txs :: tx.id
  }

  /** The categories that occur in the ledger. */
  function Categories(txs: seq<Transaction>): set<string>
  {
    set tx | tx in txs :: tx.category
  }

  /** No two records of the ledger share an id. */
  predicate UniqueIds(txs: seq<Transaction>)
  {
    |txs| == 0 || (txs[0].id !in Ids(txs[1..]) && UniqueIds(txs[1..]))
  }

  /** The ledger's data invariant: ids are unique and every amount is positive. */
  predicate ValidLedger(txs: seq<Transaction>)
  {
    UniqueIds(txs) && forall tx :: tx in txs ==> tx.amount > 0.0
  }

  /** `add` prepends the stamped draft, keeps the old list as the tail and
      records the new record's creation time as the sync time. */
  lemma AddPrepends(state: State, d: Draft, id: string, now: int)
    ensures var r := Apply(state, Add(d), id, now);
      && |r.transactions| == |state.transactions| + 1
      && r.transactions[0] == Stamp(d, id, now)
      && r.transactions[1..] == state.transactions
      && r.lastSyncedAt == Some(r.transactions[0].createdAt)
  {
  }

  /** The head of the list after `add` carries the draft's fields. */
  lemma AddKeepsDraftFields(state: State, d: Draft, id: string, now: int)
    ensures var head := Apply(state, Add(d), id, now).transactions[0];
      && head.id == id && head.createdAt == now
      && Draft(head.labelText, head.description, head.amount, head.kind, head.category, head.occurredAt) == d
  {
  }

  /** `add` with an id not yet in the ledger keeps ids unique. */
  lemma AddKeepsIdsUnique(state: State, d: Draft, id: string, now: int)
    requires UniqueIds(state.transactions)
    requires id !in Ids(state.transactions)
    ensures UniqueIds(Apply(state, Add(d), id, now).transactions)
  {
    var r := Apply(state, Add(d), id, now).transactions;
    assert r[1..] == state.transactions;
  }

  /** `remove(id)` keeps exactly the records with another id, in their order,
      and leaves the sync time alone. */
  lemma RemoveKeepsOthersInOrder(state: State, id: string, now: int, newId: string)
    ensures var r := Apply(state, Remove(id), newId, now);
      && (forall tx :: tx in r.transactions <==> tx in state.transactions && tx.id != id)
      && IsSubsequence(r.transactions, state.transactions)
      && r.lastSyncedAt == state.lastSyncedAt
  {
    FilterIsSubsequence(state.transactions, OtherThan(id));
  }

  /** Removing the same id twice is the same as removing it once. */
  lemma RemoveIdempotent(state: State, id: string, now: int, newId: string)
    ensures var once := Apply(state, Remove(id), newId, now);
      Apply(once, Remove(id), newId, now) == once
  {
    FilterIdempotent(state.transactions, OtherThan(id));
  }

  /** Removing an id that is not in the ledger changes nothing. */
  lemma RemoveAbsentIsNoop(state: State, id: string, now: int, newId: string)
    requires id !in Ids(state.transactions)
    ensures Apply(state, Remove(id), newId, now) == state
  {
    FilterAllPass(state.transactions, OtherThan(id));
  }

  /** In a ledger with unique ids, removing a present id drops exactly one record. */
  lemma {:induction false} RemovePresentDropsOne(txs: seq<Transaction>, id: string)
    requires UniqueIds(txs)
    requires id in Ids(txs)
    ensures |Filter(txs, OtherThan(id))| == |txs| - 1
  {
    if txs[0].id == id {
      FilterAllPass(txs[1..], OtherThan(id));
    } else {
      assert id in Ids(txs[1..]);
      RemovePresentDropsOne(txs[1..], id);
    }
  }

  /** A subsequence of a ledger with unique ids has unique ids. */
  lemma {:induction false} FilterKeepsIdsUnique(txs: seq<Transaction>, p: Transaction -> bool)
    requires UniqueIds(txs)
    ensures UniqueIds(Filter(txs, p))
  {
    if |txs| > 0 {
      FilterKeepsIdsUnique(txs[1..], p);
      var r := Filter(txs, p);
      if p(txs[0]) {
        assert r[0] == txs[0] && r[1..] == Filter(txs[1..], p);
        assert Ids(r[1..]) <= Ids(txs[1..]) by {
          forall x | x in Ids(r[1..]) ensures x in Ids(txs[1..]) {
            var tx :| tx in r[1..] && tx.id == x;
            assert tx in txs[1..];
          }
        }
      } else {
        assert r == Filter(txs[1..], p);
      }
    }
  }

  /** `hydrate(items)` makes the ledger exactly `items`. */
  lemma HydrateReplaces(state: State, items: seq<Transaction>, now: int, newId: string)
    ensures Apply(state, Hydrate(items), newId, now).transactions == items
  {
  }

  /** `purge` returns the initial state whatever came before. */
  lemma PurgeResets(state: State, now: int, newId: string)
    ensures Apply(state, Purge, newId, now).transactions == []
    ensures Apply(state, Purge, newId, now).lastSyncedAt == None
  {
  }

  /** Every action keeps the data invariant, given a fresh id and a positive
      amount for `add` and a valid list for `hydrate`. */
  lemma ApplyKeepsLedgerValid(state: State, action: Action, freshId: string, now: int)
    requires ValidLedger(state.transactions)
    requires action.Add? ==> freshId !in Ids(state.transactions) && action.draft.amount > 0.0
    requires action.Hydrate? ==> ValidLedger(action.items)
    ensures ValidLedger(Apply(state, action, freshId, now).transactions)
  {
    match action
    case Add(d) => AddKeepsIdsUnique(state, d, freshId, now);
    case Remove(id) => FilterKeepsIdsUnique(state.transactions, OtherThan(id));
    case Hydrate(_) =>
    case Purge =>
  }

  /** The provider's start-up step: the persisted list replaces the ledger
      only when it holds at least one record. */
  function OnLoaded(state: State, items: seq<Transaction>, now: int, newId: string): (r: State)
    ensures |items| == 0 ==> r == state
    ensures |items| > 0 ==> r.transactions == items && r.lastSyncedAt == Some(now)
  {
    if |items| > 0 then Apply(state, Hydrate(items), newId, now) else state
  }

  const OutsideProviderMessage: string := "useTransactions must be used within a TransactionsProvider"

  /** `useTransactions`: reading the store outside its provider fails at once. */
  function UseTransactions(context: Option<State>): (r: Result<State, string>)
    ensures r.Failure? <==> context.None?
    ensures r.Failure? ==> r.error == OutsideProviderMessage
    ensures r.Success? ==> r.value == context.value
  {
    match context
    case None => Failure(OutsideProviderMessage)
    case Some(s) => Success(s)
  }
}
