/** The summary cards: credit and debit totals, balance, latest activity and
    the per-day velocity (components/summary-cards.tsx). */
module Summary {
  import opened Wrappers
  import opened Seqs
  import opened Time
  import opened Ledger

  /** What one record adds to the total of flow `k`. */
  function AmountIn(tx: Transaction, k: Kind): real
  {
    if tx.kind == k then tx.amount else 0.0
  }

  /** The summed amounts of the records of flow `k`. */
  function KindTotal(txs: seq<Transaction>, k: Kind): real
  {
    if |txs| == 0 then 0.0 else AmountIn(txs[0], k) + KindTotal(txs[1..], k)
  }

  /** The summed amounts of all records, whatever their flow. */
  function AmountSum(txs: seq<Transaction>): real
  {
    if |txs| == 0 then 0.0 else txs[0].amount + AmountSum(txs[1..])
  }

  function HasKind(k: Kind): Transaction -> bool
  {
    (tx: Transaction) => tx.kind == k
  }

  lemma {:induction false} KindTotalConcat(a: seq<Transaction>, b: seq<Transaction>, k: Kind)
    ensures KindTotal(a + b, k) == KindTotal(a, k) + KindTotal(b, k)
  {
    if |a| == 0 {
      assert a + b == b;
    } else {
      assert (a + b)[1..] == a[1..] + b;
      KindTotalConcat(a[1..], b, k);
    }
  }

  /** The total of flow `k` is the sum of the amounts of exactly the records of that flow. */
  lemma {:induction false} KindTotalSumsThatFlow(txs: seq<Transaction>, k: Kind)
    ensures KindTotal(txs, k) == AmountSum(Filter(txs, HasKind(k)))
  {
    if |txs| > 0 {
      KindTotalSumsThatFlow(txs[1..], k);
      var r := Filter(txs, HasKind(k));
      if txs[0].kind == k {
        assert r[0] == txs[0] && r[1..] == Filter(txs[1..], HasKind(k));
      } else {
        assert r == Filter(txs[1..], HasKind(k));
      }
    }
  }

  /** Credit and debit split the ledger: together they account for every amount once. */
  lemma {:induction false} CreditAndDebitPartitionAmounts(txs: seq<Transaction>)
    ensures KindTotal(txs, Credit) + KindTotal(txs, Debit) == AmountSum(txs)
  {
    if |txs| > 0 {
      CreditAndDebitPartitionAmounts(txs[1..]);
    }
  }

  /** With no negative amounts, neither total is negative. */
  lemma {:induction false} TotalsNonNegative(txs: seq<Transaction>, k: Kind)
    requires forall tx :: tx in txs ==> tx.amount >= 0.0
    ensures KindTotal(txs, k) >= 0.0
  {
    if |txs| > 0 {
      TotalsNonNegative(txs[1..], k);
    }
  }

  /** The summing loop of `SummaryCards` and `computeVelocity`: one pass, each
      record's amount going to `credit` or, otherwise, to `debit`. */
  method SumByKind(txs: seq<Transaction>) returns (credit: real, debit: real)
    ensures credit == KindTotal(txs, Credit)
    ensures debit == KindTotal(txs, Debit)
  {
    credit, debit := 0.0, 0.0;
    for i := 0 to |txs|
      invariant credit == KindTotal(txs[..i], Credit)
      invariant debit == KindTotal(txs[..i], Debit)
    {
      KindTotalConcat(txs[..i], [txs[i]], Credit);
      KindTotalConcat(txs[..i], [txs[i]], Debit);
      assert txs[..i + 1] == txs[..i] + [txs[i]];
      if txs[i].kind == Credit {
        credit := credit + txs[i].amount;
      } else {
        debit := debit + txs[i].amount;
      }
    }
    assert txs[..|txs|] == txs;
  }

  /** `sorted[0].occurredAt`: the earliest event time. */
  function Earliest(txs: seq<Transaction>): (t: int)
    requires |txs| > 0
    ensures exists i :: 0 <= i < |txs| && txs[i].occurredAt == t
    ensures forall i :: 0 <= i < |txs| ==> t <= txs[i].occurredAt
  {
    if |txs| == 1 then txs[0].occurredAt
    else
      var rest := Earliest(txs[1..]);
      assert forall i :: 1 <= i < |txs| ==> txs[i] == txs[1..][i - 1];
      if txs[0].occurredAt <= rest then txs[0].occurredAt else rest
  }

  /** `sorted[sorted.length - 1].occurredAt`: the latest event time. */
  function Latest(txs: seq<Transaction>): (t: int)
    requires |txs| > 0
    ensures exists i :: 0 <= i < |txs| && txs[i].occurredAt == t
    ensures forall i :: 0 <= i < |txs| ==> txs[i].occurredAt <= t
  {
    if |txs| == 1 then txs[0].occurredAt
    else
      var rest := Latest(txs[1..]);
      assert forall i :: 1 <= i < |txs| ==> txs[i] == txs[1..][i - 1];
      if txs[0].occurredAt >= rest then txs[0].occurredAt else rest
  }

  /** The number of days the velocity is averaged over: the calendar-day
      distance from the earliest to the latest event, at least one. */
  function Span(txs: seq<Transaction>, offset: int): (days: int)
    requires |txs| > 0
    ensures days >= 1
  {
    var diff := CalendarDayDiff(Latest(txs), Earliest(txs), offset);
    if diff > 1 then diff else 1
  }

  /** The calendar-day distance from the `j`-th event to the `i`-th, or 0 off the ledger. */
  function DaysApart(txs: seq<Transaction>, i: int, j: int, offset: int): int
  {
    if 0 <= i < |txs| && 0 <= j < |txs| then CalendarDayDiff(txs[i].occurredAt, txs[j].occurredAt, offset) else 0
  }

  /** No two events of the ledger are further apart than `Span` calendar days,
      and when the span exceeds one day some pair is exactly that far apart. */
  lemma SpanCoversAllEvents(txs: seq<Transaction>, offset: int)
    requires |txs| > 0
    ensures forall i, j :: 0 <= i < |txs| && 0 <= j < |txs| ==>
      CalendarDayDiff(txs[i].occurredAt, txs[j].occurredAt, offset) <= Span(txs, offset)
    ensures Span(txs, offset) > 1 ==> exists i, j :: DaysApart(txs, i, j, offset) == Span(txs, offset)
  {
    var last :| 0 <= last < |txs| && txs[last].occurredAt == Latest(txs);
    var first :| 0 <= first < |txs| && txs[first].occurredAt == Earliest(txs);
    assert Span(txs, offset) > 1 ==> DaysApart(txs, last, first, offset) == Span(txs, offset);
    forall i, j | 0 <= i < |txs| && 0 <= j < |txs|
      ensures CalendarDayDiff(txs[i].occurredAt, txs[j].occurredAt, offset) <= Span(txs, offset)
    {
      DayOfMonotone(txs[i].occurredAt, Latest(txs), offset);
      DayOfMonotone(Earliest(txs), txs[j].occurredAt, offset);
    }
  }

  datatype Velocity = Velocity(avgCredit: real, avgDebit: real, dailyNet: real)

  /** `computeVelocity`: zero for an empty ledger, otherwise the totals and the
      net divided by the span. */
  function VelocityOf(txs: seq<Transaction>, offset: int): Velocity
  {
    if |txs| == 0 then Velocity(0.0, 0.0, 0.0)
    else
      Averages(KindTotal(txs, Credit), KindTotal(txs, Debit), Span(txs, offset) as real)
  }

  /** The credit, debit and net per day over `days` days. */
  function Averages(credit: real, debit: real, days: real): (v: Velocity)
    requires days > 0.0
    ensures v.avgCredit * days == credit
    ensures v.avgDebit * days == debit
    ensures v.dailyNet == v.avgCredit - v.avgDebit
  {
    Velocity(credit / days, debit / days, (credit - debit) / days)
  }

  method ComputeVelocity(txs: seq<Transaction>, offset: int) returns (v: Velocity)
    ensures v == VelocityOf(txs, offset)
  {
    if |txs| == 0 {
      return Velocity(0.0, 0.0, 0.0);
    }
    var span := Span(txs, offset);
    var credit, debit := SumByKind(txs);
    v := Averages(credit, debit, span as real);
  }

  /** What the cards show. `lastActivity` is `None` for the `'—'` placeholder. */
  datatype Cards = Cards(
    credit: real,
    debit: real,
    balance: real,
    lastActivity: Option<int>,
    metrics: Velocity)

  function SummaryOf(txs: seq<Transaction>, offset: int): Cards
  {
    var credit := KindTotal(txs, Credit);
    var debit := KindTotal(txs, Debit);
    Cards(credit, debit, credit - debit,
      if |txs| > 0 then Some(txs[0].occurredAt) else None,
      VelocityOf(txs, offset))
  }

  /** The summary `SummaryCards` computes from the ledger, assembled from the
      summing loop `SumByKind` and `ComputeVelocity`; it exists to run those
      loops, and `SummaryOf` is what it is proved to compute. */
  method Summarize(txs: seq<Transaction>, offset: int) returns (s: Cards)
    ensures s == SummaryOf(txs, offset)
  {
    var credit, debit := SumByKind(txs);
    var lastActivity := if |txs| > 0 then Some(txs[0].occurredAt) else None;
    var metrics := ComputeVelocity(txs, offset);
    s := Cards(credit, debit, credit - debit, lastActivity, metrics);
  }

  /** The summary's totals are the flow totals of the ledger, the balance their
      difference, and the latest activity the head record's event time. */
  lemma SummaryAccountsForLedger(txs: seq<Transaction>, offset: int)
    ensures var s := SummaryOf(txs, offset);
      && s.credit == AmountSum(Filter(txs, HasKind(Credit)))
      && s.debit == AmountSum(Filter(txs, HasKind(Debit)))
      && s.balance == s.credit - s.debit
      && s.credit + s.debit == AmountSum(txs)
      && (s.lastActivity.Some? <==> |txs| > 0)
      && (|txs| > 0 ==> s.lastActivity.value == txs[0].occurredAt)
  {
    KindTotalSumsThatFlow(txs, Credit);
    KindTotalSumsThatFlow(txs, Debit);
    CreditAndDebitPartitionAmounts(txs);
  }

  /** In a valid ledger both totals are non-negative. */
  lemma SummaryTotalsNonNegative(txs: seq<Transaction>, offset: int)
    requires ValidLedger(txs)
    ensures SummaryOf(txs, offset).credit >= 0.0 && SummaryOf(txs, offset).debit >= 0.0
  {
    TotalsNonNegative(txs, Credit);
    TotalsNonNegative(txs, Debit);
  }

  /** An empty ledger: zero totals, no latest activity, zero velocity. */
  lemma EmptyLedgerSummary(offset: int)
    ensures SummaryOf([], offset) == Cards(0.0, 0.0, 0.0, None, Velocity(0.0, 0.0, 0.0))
  {
  }

  datatype Accent = Positive | Negative

  /** The balance card's accent. */
  function BalanceAccent(s: Cards): Accent
  {
    if s.balance >= 0.0 then Positive else Negative
  }

  /** The balance card is positive exactly when credits cover debits. */
  lemma BalanceCardPositiveIffCovered(txs: seq<Transaction>, offset: int)
    ensures BalanceAccent(SummaryOf(txs, offset)) == Positive <==> KindTotal(txs, Credit) >= KindTotal(txs, Debit)
  {
  }
}
