/** The highlights panel (`computeInsights`, components/insights-panel.tsx):
    per-category totals, the top debit and credit categories, the busiest
    hour of the day and the newest record. */
module Insights {
  import opened Seqs
  import opened Time
  import opened Ledger
  import opened Summary

  /** A category's running credit and debit totals. */
  datatype Bucket = Bucket(credit: real, debit: real)

  function InCategory(c: string): Transaction -> bool
  {
    (tx: Transaction) => tx.category == c
  }

  /** The bucket `Tally` holds for category `c` once the records of `txs` have
      been added in order: each record of `c` raises the total of its flow. */
  function BucketOf(txs: seq<Transaction>, c: string): Bucket
  {
    if |txs| == 0 then Bucket(0.0, 0.0)
    else
      var b := BucketOf(txs[..|txs| - 1], c);
      var tx := txs[|txs| - 1];
      if tx.category == c then Bucket(b.credit + AmountIn(tx, Credit), b.debit + AmountIn(tx, Debit)) else b
  }

  /** A bucket's total of flow `k`. */
  function Flow(b: Bucket, k: Kind): real
  {
    if k == Credit then b.credit else b.debit
  }

  /** The categories in the order they are first met walking the ledger: the
      iteration order of the `categories` map. */
  function CategoryOrder(txs: seq<Transaction>): (r: seq<string>)
    ensures Distinct(r)
    ensures forall c :: c in r <==> c in Categories(txs)
  {
    if |txs| == 0 then []
    else
      var prev := CategoryOrder(txs[..|txs| - 1]);
      var c := txs[|txs| - 1].category;
      assert Categories(txs) == Categories(txs[..|txs| - 1]) + {c} by {
        assert txs == txs[..|txs| - 1] + [txs[|txs| - 1]];
      }
      if c in prev then prev else prev + [c]
  }

  /** Some record of category `a` comes before every record of category `b`. */
  predicate SeenBefore(txs: seq<Transaction>, a: string, b: string)
  {
    exists p :: 0 <= p < |txs| && txs[p].category == a && forall q :: 0 <= q <= p ==> txs[q].category != b
  }

  /** `CategoryOrder` lists the categories in first-seen order: whenever one
      category comes before another, some record of the first precedes every
      record of the second. */
  lemma {:induction false} CategoryOrderIsFirstSeen(txs: seq<Transaction>)
    ensures forall i, j :: 0 <= i < j < |CategoryOrder(txs)| ==>
      SeenBefore(txs, CategoryOrder(txs)[i], CategoryOrder(txs)[j])
  {
    if |txs| > 0 {
      var s, x := txs[..|txs| - 1], txs[|txs| - 1];
      assert txs == s + [x];
      CategoryOrderIsFirstSeen(s);
      var prev, r := CategoryOrder(s), CategoryOrder(txs);
      assert r == prev || r == prev + [x.category];
      forall i, j | 0 <= i < j < |r| ensures SeenBefore(txs, r[i], r[j]) {
        if j < |prev| {
          assert r[i] == prev[i] && r[j] == prev[j];
          assert SeenBefore(s, prev[i], prev[j]);
          var p :| 0 <= p < |s| && s[p].category == prev[i] && forall q :: 0 <= q <= p ==> s[q].category != prev[j];
          assert txs[p] == s[p];
          assert forall q :: 0 <= q <= p ==> txs[q] == s[q];
        } else {
          assert r == prev + [x.category] && r[j] == x.category && x.category !in Categories(s);
          assert prev[i] in Categories(s);
          var tx :| tx in s && tx.category == prev[i];
          var p :| 0 <= p < |s| && s[p] == tx;
          assert txs[p] == s[p];
          forall q | 0 <= q <= p ensures txs[q].category != r[j] {
            assert txs[q] == s[q] && s[q] in s;
          }
        }
      }
    }
  }

  function AtHour(h: int, offset: int): Transaction -> bool
  {
    (tx: Transaction) => HourOf(tx.occurredAt, offset) == h
  }

  /** How many records happened during local hour `h`. */
  function CountAtHour(txs: seq<Transaction>, h: int, offset: int): nat
  {
    |Filter(txs, AtHour(h, offset))|
  }

  /** The 24-slot histogram `byHour`. */
  function HourCounts(txs: seq<Transaction>, offset: int): seq<nat>
  {
    seq(24, h => CountAtHour(txs, h, offset))
  }

  /** The bucket of `c` holds the credit and debit totals of exactly the
      records filed under `c`. */
  lemma {:induction false} BucketIsCategoryTotals(txs: seq<Transaction>, c: string, k: Kind)
    ensures Flow(BucketOf(txs, c), k) == KindTotal(Filter(txs, InCategory(c)), k)
  {
    if |txs| > 0 {
      var s, x := txs[..|txs| - 1], txs[|txs| - 1];
      assert txs == s + [x];
      BucketIsCategoryTotals(s, c, k);
      FilterAppend(s, x, InCategory(c));
      var inC := Filter(s, InCategory(c));
      if x.category == c {
        KindTotalConcat(inC, [x], k);
        assert [x][1..] == [];
      } else {
        assert inC + [] == inC;
      }
    }
  }

  /** A category no record carries has an empty bucket. */
  lemma {:induction false} BucketOfAbsent(txs: seq<Transaction>, c: string)
    requires c !in Categories(txs)
    ensures BucketOf(txs, c) == Bucket(0.0, 0.0)
  {
    if |txs| > 0 {
      assert Categories(txs[..|txs| - 1]) <= Categories(txs);
      assert txs[|txs| - 1].category in Categories(txs);
      BucketOfAbsent(txs[..|txs| - 1], c);
    }
  }

  /** Adding a record raises the slot of its hour by one and leaves the
      others alone. */
  lemma HourCountsStep(s: seq<Transaction>, x: Transaction, offset: int)
    ensures var h := HourOf(x.occurredAt, offset);
      HourCounts(s + [x], offset) == HourCounts(s, offset)[h := HourCounts(s, offset)[h] + 1]
  {
    forall h | 0 <= h < 24 {
      CountStep(s, x, h, offset);
    }
  }

  lemma CountStep(s: seq<Transaction>, x: Transaction, h: int, offset: int)
    ensures CountAtHour(s + [x], h, offset) == CountAtHour(s, h, offset) + (if HourOf(x.occurredAt, offset) == h then 1 else 0)
  {
    FilterAppend(s, x, AtHour(h, offset));
  }

  /** The bucket half of one turn of the `computeInsights` loop: the record's
      amount goes to its category's bucket, a new one on first sight. */
  method FileRecord(order: seq<string>, buckets: map<string, Bucket>, tx: Transaction, ghost prefix: seq<Transaction>)
    returns (order': seq<string>, buckets': map<string, Bucket>)
    requires order == CategoryOrder(prefix)
    requires forall c :: c in buckets <==> c in order
    requires forall c :: c in buckets ==> buckets[c] == BucketOf(prefix, c)
    ensures order' == CategoryOrder(prefix + [tx])
    ensures forall c :: c in buckets' <==> c in order'
    ensures forall c :: c in buckets' ==> buckets'[c] == BucketOf(prefix + [tx], c)
  {
    var bucket := if tx.category in buckets then buckets[tx.category] else Bucket(0.0, 0.0);
    if tx.kind == Credit {
      bucket := bucket.(credit := bucket.credit + tx.amount);
    } else {
      bucket := bucket.(debit := bucket.debit + tx.amount);
    }
    assert (prefix + [tx])[..|prefix|] == prefix;
    order' := order;
    if tx.category !in buckets {
      BucketOfAbsent(prefix, tx.category);
      order' := order + [tx.category];
    }
    buckets' := buckets[tx.category := bucket];
  }

  /** The main loop of `computeInsights`: one pass that adds each record to its
      category's bucket (creating the bucket on first sight) and counts it in
      the slot of its hour. */
  method Tally(txs: seq<Transaction>, offset: int) returns (order: seq<string>, buckets: map<string, Bucket>, hist: seq<nat>)
    ensures order == CategoryOrder(txs)
    ensures forall c :: c in buckets <==> c in Categories(txs)
    ensures forall c :: c in buckets ==> buckets[c] == BucketOf(txs, c)
    ensures hist == HourCounts(txs, offset)
  {
    order, buckets := [], map[];
    var byHour := new nat[24](_ => 0);
    for i := 0 to |txs|
      invariant order == CategoryOrder(txs[..i])
      invariant forall c :: c in buckets <==> c in order
      invariant forall c :: c in buckets ==> buckets[c] == BucketOf(txs[..i], c)
      invariant byHour[..] == HourCounts(txs[..i], offset)
    {
      var tx := txs[i];
      assert txs[..i + 1] == txs[..i] + [tx];
      order, buckets := FileRecord(order, buckets, tx, txs[..i]);
      var hour := HourOf(tx.occurredAt, offset);
      byHour[hour] := byHour[hour] + 1;
      HourCountsStep(txs[..i], tx, offset);
    }
    assert txs[..|txs|] == txs;
    hist := byHour[..];
  }

  /** The index a stable descending sort puts first: a largest score, and the
      earliest one among equals. */
  function FirstMaxIndex(scores: seq<real>): (k: nat)
    requires |scores| > 0
    ensures k < |scores|
    ensures forall i :: 0 <= i < |scores| ==> scores[i] <= scores[k]
    ensures forall i :: 0 <= i < k ==> scores[i] < scores[k]
  {
    if |scores| == 1 then 0
    else
      var k := FirstMaxIndex(scores[..|scores| - 1]);
      if scores[|scores| - 1] > scores[k] then |scores| - 1 else k
  }

  datatype HourCount = HourCount(hour: nat, count: nat)

  /** `byHour.reduce(...)` from `{ hour: 0, count: 0 }`: a slot replaces the
      accumulator only when its count is strictly larger. */
  function Busiest(hist: seq<nat>): (p: HourCount)
    ensures |hist| == 0 ==> p == HourCount(0, 0)
    ensures |hist| > 0 ==> p.hour < |hist| && hist[p.hour] == p.count
    ensures forall h :: 0 <= h < |hist| ==> hist[h] <= p.count
    ensures forall h :: 0 <= h < p.hour && h < |hist| ==> hist[h] < p.count
  {
    if |hist| == 0 then HourCount(0, 0)
    else
      var acc := Busiest(hist[..|hist| - 1]);
      if hist[|hist| - 1] > acc.count then HourCount(|hist| - 1, hist[|hist| - 1]) else acc
  }

  /** One highlight. Currency and date formatting of the details is not modelled. */
  datatype Insight =
    | TopDebitSink(category: string, debit: real)
    | PrimaryCreditSource(category: string, credit: real)
    | PeakActivityHour(hour: nat, movements: nat)
    | LatestRecorded(labelText: string, occurredAt: int)

  function DebitScores(txs: seq<Transaction>): (r: seq<real>)
    ensures |r| == |CategoryOrder(txs)|
  {
    var order := CategoryOrder(txs);
    seq(|order|, i requires 0 <= i < |order| => BucketOf(txs, order[i]).debit)
  }

  function CreditScores(txs: seq<Transaction>): (r: seq<real>)
    ensures |r| == |CategoryOrder(txs)|
  {
    var order := CategoryOrder(txs);
    seq(|order|, i requires 0 <= i < |order| => BucketOf(txs, order[i]).credit)
  }

  /** The highlights of a ledger: none when it is empty, otherwise the top debit
      category, the top credit category, the busiest hour and the newest record. */
  function InsightsOf(txs: seq<Transaction>, offset: int): seq<Insight>
  {
    if |txs| == 0 then []
    else
      var order := CategoryOrder(txs);
      assert txs[0].category in Categories(txs);
      var d := FirstMaxIndex(DebitScores(txs));
      var c := FirstMaxIndex(CreditScores(txs));
      var peak := Busiest(HourCounts(txs, offset));
      [ TopDebitSink(order[d], DebitScores(txs)[d]),
        PrimaryCreditSource(order[c], CreditScores(txs)[c]),
        PeakActivityHour(peak.hour, peak.count),
        LatestRecorded(txs[0].labelText, txs[0].occurredAt) ]
  }

  /** `computeInsights`, assembled from the loop `Tally`; it exists to run
      that loop, and `InsightsOf` is what it is proved to compute. */
  method ComputeInsights(txs: seq<Transaction>, offset: int) returns (r: seq<Insight>)
    ensures r == InsightsOf(txs, offset)
  {
    if |txs| == 0 {
      return [];
    }
    var order, buckets, hist := Tally(txs, offset);
    assert txs[0].category in Categories(txs);
    var debits := seq(|order|, i requires 0 <= i < |order| => buckets[order[i]].debit);
    var credits := seq(|order|, i requires 0 <= i < |order| => buckets[order[i]].credit);
    assert debits == DebitScores(txs) && credits == CreditScores(txs);
    var d := FirstMaxIndex(debits);
    var c := FirstMaxIndex(credits);
    var busiest := Busiest(hist);
    var newest := txs[0];
    r := [ TopDebitSink(order[d], debits[d]),
           PrimaryCreditSource(order[c], credits[c]),
           PeakActivityHour(busiest.hour, busiest.count),
           LatestRecorded(newest.labelText, newest.occurredAt) ];
  }

  /** An empty ledger has no highlights. */
  lemma EmptyLedgerHasNoInsights(offset: int)
    ensures InsightsOf([], offset) == []
  {
  }

  /** A non-empty ledger has exactly four highlights, in a fixed order, the
      last naming the head record. */
  lemma FourInsightsInOrder(txs: seq<Transaction>, offset: int)
    requires |txs| > 0
    ensures var r := InsightsOf(txs, offset);
      && |r| == 4
      && r[0].TopDebitSink? && r[1].PrimaryCreditSource? && r[2].PeakActivityHour?
      && r[3] == LatestRecorded(txs[0].labelText, txs[0].occurredAt)
  {
  }

  /** The top debit sink is a ledger category whose debit total is the largest;
      every category met earlier in the ledger has a strictly smaller total. */
  lemma TopDebitSinkIsLargest(txs: seq<Transaction>, offset: int)
    requires |txs| > 0
    ensures var top := InsightsOf(txs, offset)[0]; var order := CategoryOrder(txs);
      && top.category in Categories(txs)
      && top.debit == BucketOf(txs, top.category).debit
      && (forall c :: c in Categories(txs) ==> BucketOf(txs, c).debit <= top.debit)
      && (forall i, j :: 0 <= i < j < |order| && order[j] == top.category ==> BucketOf(txs, order[i]).debit < top.debit)
  {
    var order := CategoryOrder(txs);
    var scores := DebitScores(txs);
    assert txs[0].category in Categories(txs);
    var d := FirstMaxIndex(scores);
    forall c | c in Categories(txs) ensures BucketOf(txs, c).debit <= scores[d] {
      var i :| 0 <= i < |order| && order[i] == c;
      assert scores[i] == BucketOf(txs, c).debit;
    }
    forall i, j | 0 <= i < j < |order| && order[j] == order[d] ensures BucketOf(txs, order[i]).debit < scores[d] {
      assert j == d;
      assert scores[i] == BucketOf(txs, order[i]).debit;
    }
  }

  /** The primary credit source is a ledger category whose credit total is the
      largest; every category met earlier has a strictly smaller total. */
  lemma PrimaryCreditSourceIsLargest(txs: seq<Transaction>, offset: int)
    requires |txs| > 0
    ensures var top := InsightsOf(txs, offset)[1]; var order := CategoryOrder(txs);
      && top.category in Categories(txs)
      && top.credit == BucketOf(txs, top.category).credit
      && (forall c :: c in Categories(txs) ==> BucketOf(txs, c).credit <= top.credit)
      && (forall i, j :: 0 <= i < j < |order| && order[j] == top.category ==> BucketOf(txs, order[i]).credit < top.credit)
  {
    var order := CategoryOrder(txs);
    var scores := CreditScores(txs);
    assert txs[0].category in Categories(txs);
    var k := FirstMaxIndex(scores);
    forall c | c in Categories(txs) ensures BucketOf(txs, c).credit <= scores[k] {
      var i :| 0 <= i < |order| && order[i] == c;
      assert scores[i] == BucketOf(txs, c).credit;
    }
    forall i, j | 0 <= i < j < |order| && order[j] == order[k] ensures BucketOf(txs, order[i]).credit < scores[k] {
      assert j == k;
      assert scores[i] == BucketOf(txs, order[i]).credit;
    }
  }

  /** The sum over `keys` of each category's bucket total of flow `k`. */
  function CategorySum(keys: seq<string>, txs: seq<Transaction>, k: Kind): real
  {
    if |keys| == 0 then 0.0 else Flow(BucketOf(txs, keys[0]), k) + CategorySum(keys[1..], txs, k)
  }

  lemma {:induction false} CategorySumSplitsHead(keys: seq<string>, x: Transaction, rest: seq<Transaction>, k: Kind)
    requires Distinct(keys)
    ensures CategorySum(keys, [x] + rest, k) == CategorySum(keys, rest, k) + (if x.category in keys then AmountIn(x, k) else 0.0)
  {
    if |keys| > 0 {
      assert ([x] + rest)[1..] == rest;
      assert Distinct(keys[1..]) by {
        forall i, j | 0 <= i < j < |keys[1..]| ensures keys[1..][i] != keys[1..][j] {
          assert keys[1..][i] == keys[i + 1] && keys[1..][j] == keys[j + 1];
        }
      }
      CategorySumSplitsHead(keys[1..], x, rest, k);
      var f := Filter(rest, InCategory(keys[0]));
      BucketIsCategoryTotals([x] + rest, keys[0], k);
      BucketIsCategoryTotals(rest, keys[0], k);
      if keys[0] == x.category {
        assert x.category !in keys[1..];
        assert Filter([x] + rest, InCategory(keys[0])) == [x] + f;
        assert ([x] + f)[1..] == f;
      } else {
        assert Filter([x] + rest, InCategory(keys[0])) == f;
      }
    }
  }

  /** Summing the buckets of any repeat-free list of categories that covers the
      ledger gives the ledger's total. */
  lemma {:induction false} CategorySumCovers(keys: seq<string>, txs: seq<Transaction>, k: Kind)
    requires Distinct(keys)
    requires forall c :: c in Categories(txs) ==> c in keys
    ensures CategorySum(keys, txs, k) == KindTotal(txs, k)
  {
    if |txs| == 0 {
      EmptyCategorySum(keys, k);
    } else {
      assert txs == [txs[0]] + txs[1..];
      assert Categories(txs[1..]) <= Categories(txs);
      assert txs[0].category in Categories(txs);
      CategorySumSplitsHead(keys, txs[0], txs[1..], k);
      CategorySumCovers(keys, txs[1..], k);
    }
  }

  lemma {:induction false} EmptyCategorySum(keys: seq<string>, k: Kind)
    ensures CategorySum(keys, [], k) == 0.0
  {
    if |keys| > 0 {
      EmptyCategorySum(keys[1..], k);
    }
  }

  /** The buckets partition the ledger: over all categories, their credit (or
      debit) totals add up to the ledger's credit (or debit) total. */
  lemma BucketsPartitionTotals(txs: seq<Transaction>, k: Kind)
    ensures CategorySum(CategoryOrder(txs), txs, k) == KindTotal(txs, k)
  {
    CategorySumCovers(CategoryOrder(txs), txs, k);
  }

  function NatSum(s: seq<nat>): nat
  {
    if |s| == 0 then 0 else s[0] + NatSum(s[1..])
  }

  lemma {:induction false} NatSumBump(s: seq<nat>, h: int)
    requires 0 <= h < |s|
    ensures NatSum(s[h := s[h] + 1]) == NatSum(s) + 1
  {
    if h > 0 {
      assert s[h := s[h] + 1][1..] == s[1..][h - 1 := s[1..][h - 1] + 1];
      NatSumBump(s[1..], h - 1);
    }
  }

  /** The histogram has 24 slots and counts every record exactly once. */
  lemma {:induction false} HistogramCountsEveryRecord(txs: seq<Transaction>, offset: int)
    ensures |HourCounts(txs, offset)| == 24
    ensures NatSum(HourCounts(txs, offset)) == |txs|
  {
    if |txs| == 0 {
      assert HourCounts(txs, offset) == seq(24, h => 0);
      NatSumZeros(24);
    } else {
      var x, rest := txs[0], txs[1..];
      var hx := HourOf(x.occurredAt, offset);
      HistogramCountsEveryRecord(rest, offset);
      assert HourCounts(txs, offset) == HourCounts(rest, offset)[hx := HourCounts(rest, offset)[hx] + 1] by {
        forall h | 0 <= h < 24 ensures CountAtHour(txs, h, offset) == CountAtHour(rest, h, offset) + (if hx == h then 1 else 0) {
          assert Filter(txs, AtHour(h, offset)) == (if hx == h then [x] else []) + Filter(rest, AtHour(h, offset));
        }
      }
      NatSumBump(HourCounts(rest, offset), hx);
    }
  }

  lemma {:induction false} NatSumZeros(n: nat)
    ensures NatSum(seq(n, h => 0)) == 0
  {
    if n > 0 {
      assert seq(n, h => 0)[1..] == seq(n - 1, h => 0);
      NatSumZeros(n - 1);
    }
  }

  /** The peak hour is the earliest hour with the largest count, and in a
      non-empty ledger that count is at least one. */
  lemma PeakHourIsEarliestBusiest(txs: seq<Transaction>, offset: int)
    requires |txs| > 0
    ensures var p := InsightsOf(txs, offset)[2]; var counts := HourCounts(txs, offset);
      && p.hour < 24 && counts[p.hour] == p.movements
      && (forall h :: 0 <= h < 24 ==> counts[h] <= p.movements)
      && (forall h :: 0 <= h < p.hour ==> counts[h] < p.movements)
      && p.movements >= 1
  {
    var counts := HourCounts(txs, offset);
    var p := Busiest(counts);
    HistogramCountsEveryRecord(txs, offset);
    if p.count == 0 {
      AllZeroSumsToZero(counts);
    }
  }

  lemma {:induction false} AllZeroSumsToZero(s: seq<nat>)
    requires forall i :: 0 <= i < |s| ==> s[i] <= 0
    ensures NatSum(s) == 0
  {
    if |s| > 0 {
      AllZeroSumsToZero(s[1..]);
    }
  }
}
