/** The timeline panel (components/transaction-timeline.tsx): the 40 newest
    records, grouped by local calendar day, newest day first and newest record
    first within a day. */
module Timeline {
  import opened Wrappers
  import opened Seqs
  import opened Time
  import opened Ledger

  /** How many records of the ledger's head the panel shows. */
  const Window: nat := 40

  /** One day of the timeline: the day number and that day's records. */
  datatype DayGroup = DayGroup(day: int, entries: seq<Transaction>)

  function OnDay(d: int, offset: int): Transaction -> bool
  {
    (tx: Transaction) => DayOf(tx.occurredAt, offset) == d
  }

  /** The local days on which the records happened. */
  function DaysOf(txs: seq<Transaction>, offset: int): set<int>
  {
    set tx | tx in txs :: DayOf(tx.occurredAt, offset)
  }

  /** The days the groups stand for. */
  function GroupDays(groups: seq<DayGroup>): set<int>
  {
    set g | g in groups :: g.day
  }

  /** The sort keys: a record's timestamp and a group's day. */
  function TimeKey(tx: Transaction): int
  {
    tx.occurredAt
  }

  function DayKey(g: DayGroup): int
  {
    g.day
  }

  predicate NonIncreasingBy<T>(s: seq<T>, key: T -> int)
  {
    forall i, j :: 0 <= i < j < |s| ==> key(s[i]) >= key(s[j])
  }

  /** What `groupByDay` promises: one group per day on which something
      happened, days strictly newest first, and each group holding exactly that
      day's records, newest first. */
  predicate IsDayGrouping(txs: seq<Transaction>, offset: int, groups: seq<DayGroup>)
  {
    && (forall i, j :: 0 <= i < j < |groups| ==> groups[i].day > groups[j].day)
    && GroupDays(groups) == DaysOf(txs, offset)
    && (forall i :: 0 <= i < |groups| ==>
          && NonIncreasingBy(groups[i].entries, TimeKey)
          && multiset(groups[i].entries) == multiset(Filter(txs, OnDay(groups[i].day, offset))))
  }

  /** `Array.prototype.sort` with a comparator that puts larger keys first,
      as an in-place insertion sort. Records with equal keys may come out in
      any order. */
  method SortDescendingBy<T>(a: array<T>, key: T -> int)
    modifies a
    ensures NonIncreasingBy(a[..], key)
    ensures multiset(a[..]) == multiset(old(a[..]))
  {
    for i := 0 to a.Length
      invariant forall p, q :: 0 <= p < q < i ==> key(a[p]) >= key(a[q])
      invariant multiset(a[..]) == multiset(old(a[..]))
    {
      InsertAt(a, i, key);
    }
  }

  /** One pass of the insertion sort: moves `a[i]` left past the smaller keys
      so that the first `i + 1` slots are in order. */
  method InsertAt<T>(a: array<T>, i: int, key: T -> int)
    requires 0 <= i < a.Length
    requires forall p, q :: 0 <= p < q < i ==> key(a[p]) >= key(a[q])
    modifies a
    ensures forall p, q :: 0 <= p < q <= i ==> key(a[p]) >= key(a[q])
    ensures multiset(a[..i + 1]) == multiset(old(a[..i + 1]))
    ensures a[i + 1..] == old(a[i + 1..])
    ensures multiset(a[..]) == multiset(old(a[..]))
  {
    var j := i;
    while j > 0 && key(a[j - 1]) < key(a[j])
      invariant 0 <= j <= i
      invariant multiset(a[..]) == multiset(old(a[..]))
      invariant a[i + 1..] == old(a[i + 1..])
      invariant forall p, q :: 0 <= p < q <= i && p != j && q != j ==> key(a[p]) >= key(a[q])
      invariant forall q :: j < q <= i ==> key(a[j]) > key(a[q])
    {
      Swap(a, j - 1, j);
      j := j - 1;
    }
    SplitPermutation(old(a[..]), a[..], i + 1);
  }

  /** Two permutations of each other that agree from `n` on are permutations
      of each other up to `n`. */
  lemma SplitPermutation<T>(s: seq<T>, t: seq<T>, n: nat)
    requires n <= |s| == |t|
    requires multiset(s) == multiset(t)
    requires s[n..] == t[n..]
    ensures multiset(s[..n]) == multiset(t[..n])
  {
    assert s == s[..n] + s[n..] && t == t[..n] + t[n..];
    var x, y, z := multiset(s[..n]), multiset(t[..n]), multiset(s[n..]);
    assert x + z == y + z;
    assert forall e :: x[e] == (x + z)[e] - z[e] == (y + z)[e] - z[e] == y[e];
  }

  method Swap<T>(a: array<T>, i: int, j: int)
    requires 0 <= i < j < a.Length
    modifies a
    ensures a[i] == old(a[j]) && a[j] == old(a[i])
    ensures forall k :: 0 <= k < a.Length && k != i && k != j ==> a[k] == old(a[k])
    ensures multiset(a[..]) == multiset(old(a[..]))
  {
    a[i], a[j] := a[j], a[i];
  }

  /** The first loop of `groupByDay`: each record is appended to the list of
      its day, a new list (added after the others) on first sight. */
  method BucketByDay(txs: seq<Transaction>, offset: int) returns (days: seq<int>, buckets: map<int, seq<Transaction>>)
    ensures Distinct(days)
    ensures forall d :: d in buckets <==> d in days
    ensures forall d :: d in days <==> d in DaysOf(txs, offset)
    ensures forall d :: d in buckets ==> buckets[d] == Filter(txs, OnDay(d, offset))
  {
    days, buckets := [], map[];
    for i := 0 to |txs|
      invariant Distinct(days)
      invariant forall d :: d in buckets <==> d in days
      invariant forall d :: d in days <==> d in DaysOf(txs[..i], offset)
      invariant forall d :: d in buckets ==> buckets[d] == Filter(txs[..i], OnDay(d, offset))
    {
      assert txs[..i + 1] == txs[..i] + [txs[i]];
      days, buckets := FileByDay(days, buckets, txs[i], txs[..i], offset);
    }
    assert txs[..|txs|] == txs;
  }

  /** One turn of that loop. */
  method FileByDay(days: seq<int>, buckets: map<int, seq<Transaction>>, tx: Transaction,
                   ghost prefix: seq<Transaction>, offset: int)
    returns (days': seq<int>, buckets': map<int, seq<Transaction>>)
    requires Distinct(days)
    requires forall d :: d in buckets <==> d in days
    requires forall d :: d in days <==> d in DaysOf(prefix, offset)
    requires forall d :: d in buckets ==> buckets[d] == Filter(prefix, OnDay(d, offset))
    ensures Distinct(days')
    ensures forall d :: d in buckets' <==> d in days'
    ensures forall d :: d in days' <==> d in DaysOf(prefix + [tx], offset)
    ensures forall d :: d in buckets' ==> buckets'[d] == Filter(prefix + [tx], OnDay(d, offset))
  {
    var day := DayOf(tx.occurredAt, offset);
    var entries := if day in buckets then buckets[day] else [];
    entries := entries + [tx];
    days' := days;
    if day !in buckets {
      days' := days + [day];
    }
    buckets' := buckets[day := entries];
    assert DaysOf(prefix + [tx], offset) == DaysOf(prefix, offset) + {day};
    forall d | d in buckets' ensures buckets'[d] == Filter(prefix + [tx], OnDay(d, offset)) {
      FilterAppend(prefix, tx, OnDay(d, offset));
      if d !in buckets {
        FilterRejectsAll(prefix, OnDay(d, offset));
      }
    }
  }

  /** `groupByDay`: bucket by day, order the days newest first, and order each
      day's records newest first. */
  method GroupByDay(txs: seq<Transaction>, offset: int) returns (groups: seq<DayGroup>)
    ensures IsDayGrouping(txs, offset, groups)
  {
    var days, buckets := BucketByDay(txs, offset);
    var ordered := OrderDays(days, buckets);
    groups := OrderEntries(ordered);
    forall i | 0 <= i < |groups|
      ensures multiset(groups[i].entries) == multiset(Filter(txs, OnDay(groups[i].day, offset)))
    {
      assert ordered[i] in ordered;
    }
    assert GroupDays(groups) == DaysOf(txs, offset) by {
      forall d | d in DaysOf(txs, offset) ensures d in GroupDays(groups) {
        var i :| 0 <= i < |ordered| && ordered[i] == DayGroup(d, buckets[d]);
        assert groups[i] in groups;
      }
      forall d | d in GroupDays(groups) ensures d in DaysOf(txs, offset) {
        var i :| 0 <= i < |groups| && groups[i].day == d;
        assert ordered[i] in ordered;
      }
    }
  }

  /** `Array.from(buckets.entries()).sort(...)`: the day lists, newest day
      first. */
  method OrderDays(days: seq<int>, buckets: map<int, seq<Transaction>>) returns (ordered: seq<DayGroup>)
    requires Distinct(days)
    requires forall d :: d in buckets <==> d in days
    ensures forall i, j :: 0 <= i < j < |ordered| ==> ordered[i].day > ordered[j].day
    ensures forall g :: g in ordered ==> g.day in buckets && g.entries == buckets[g.day]
    ensures forall d :: d in days ==> d in buckets && DayGroup(d, buckets[d]) in ordered
  {
    forall k | 0 <= k < |days| ensures days[k] in buckets {
      assert days[k] in days;
    }
    var unsorted := seq(|days|, k requires 0 <= k < |days| => DayGroup(days[k], buckets[days[k]]));
    assert Distinct(unsorted);
    var pairs := new DayGroup[|unsorted|](k requires 0 <= k < |unsorted| => unsorted[k]);
    assert pairs[..] == unsorted;
    SortDescendingBy(pairs, DayKey);
    ordered := pairs[..];
    DistinctPermutation(unsorted, ordered);
    forall g | g in ordered ensures g.day in buckets && g == DayGroup(g.day, buckets[g.day]) {
      assert g in multiset(unsorted);
    }
    DistinctDayLists(ordered, buckets);
    forall d | d in days ensures d in buckets && DayGroup(d, buckets[d]) in ordered {
      var k :| 0 <= k < |days| && days[k] == d;
      assert unsorted[k] in multiset(ordered);
    }
  }

  /** Day lists sorted by day with no list twice, each the list of its own
      day, have strictly decreasing days. */
  lemma DistinctDayLists(ordered: seq<DayGroup>, buckets: map<int, seq<Transaction>>)
    requires NonIncreasingBy(ordered, DayKey)
    requires Distinct(ordered)
    requires forall g :: g in ordered ==> g.day in buckets && g == DayGroup(g.day, buckets[g.day])
    ensures forall i, j :: 0 <= i < j < |ordered| ==> ordered[i].day > ordered[j].day
  {
    forall i, j | 0 <= i < j < |ordered| ensures ordered[i].day > ordered[j].day {
      assert ordered[i] in ordered && ordered[j] in ordered;
      assert DayKey(ordered[i]) >= DayKey(ordered[j]);
    }
  }

  /** The `.map(...)` that sorts each day's records newest first. */
  method OrderEntries(ordered: seq<DayGroup>) returns (groups: seq<DayGroup>)
    ensures |groups| == |ordered|
    ensures forall i :: 0 <= i < |groups| ==>
      && groups[i].day == ordered[i].day
      && NonIncreasingBy(groups[i].entries, TimeKey)
      && multiset(groups[i].entries) == multiset(ordered[i].entries)
  {
    groups := [];
    for k := 0 to |ordered|
      invariant |groups| == k
      invariant forall m :: 0 <= m < k ==>
        && groups[m].day == ordered[m].day
        && NonIncreasingBy(groups[m].entries, TimeKey)
        && multiset(groups[m].entries) == multiset(ordered[m].entries)
    {
      var e := ordered[k].entries;
      var sorted := new Transaction[|e|](n requires 0 <= n < |e| => e[n]);
      assert sorted[..] == e;
      SortDescendingBy(sorted, TimeKey);
      groups := groups + [DayGroup(ordered[k].day, sorted[..])];
    }
  }

  /** The timeline component: nothing for an empty ledger; otherwise the day
      grouping of the first `Window` records. */
  method TimelineOf(txs: seq<Transaction>, offset: int) returns (r: Option<seq<DayGroup>>)
    ensures r.None? <==> |txs| == 0
    ensures r.Some? ==> IsDayGrouping(Recent(txs), offset, r.value)
  {
    if |txs| == 0 {
      return None;
    }
    var groups := GroupByDay(Recent(txs), offset);
    r := Some(groups);
  }

  /** `transactions.slice(0, 40)`. */
  function Recent(txs: seq<Transaction>): (r: seq<Transaction>)
    ensures |r| == if |txs| < Window then |txs| else Window
    ensures r <= txs
  {
    if |txs| < Window then txs else txs[..Window]
  }

  /** The groups one after the other. */
  function Flatten(groups: seq<DayGroup>): seq<Transaction>
  {
    if |groups| == 0 then [] else groups[0].entries + Flatten(groups[1..])
  }

  /** The records of `txs` that fall on the days of `groups`, day by day. */
  function SpreadOver(groups: seq<DayGroup>, txs: seq<Transaction>, offset: int): multiset<Transaction>
  {
    if |groups| == 0 then multiset{}
    else multiset(Filter(txs, OnDay(groups[0].day, offset))) + SpreadOver(groups[1..], txs, offset)
  }

  lemma {:induction false} FlattenIsSpread(groups: seq<DayGroup>, txs: seq<Transaction>, offset: int)
    requires forall i :: 0 <= i < |groups| ==> multiset(groups[i].entries) == multiset(Filter(txs, OnDay(groups[i].day, offset)))
    ensures multiset(Flatten(groups)) == SpreadOver(groups, txs, offset)
  {
    if |groups| > 0 {
      FlattenIsSpread(groups[1..], txs, offset);
    }
  }

  lemma {:induction false} SpreadSplitsHead(groups: seq<DayGroup>, x: Transaction, rest: seq<Transaction>, offset: int)
    requires forall i, j :: 0 <= i < j < |groups| ==> groups[i].day > groups[j].day
    ensures SpreadOver(groups, [x] + rest, offset) ==
      SpreadOver(groups, rest, offset) + (if DayOf(x.occurredAt, offset) in GroupDays(groups) then multiset{x} else multiset{})
  {
    if |groups| > 0 {
      var d := groups[0].day;
      assert ([x] + rest)[1..] == rest;
      SpreadSplitsHead(groups[1..], x, rest, offset);
      assert GroupDays(groups) == {d} + GroupDays(groups[1..]);
      if DayOf(x.occurredAt, offset) == d {
        assert d !in GroupDays(groups[1..]);
        assert Filter([x] + rest, OnDay(d, offset)) == [x] + Filter(rest, OnDay(d, offset));
      } else {
        assert Filter([x] + rest, OnDay(d, offset)) == Filter(rest, OnDay(d, offset));
      }
    }
  }

  lemma {:induction false} SpreadOverEmpty(groups: seq<DayGroup>, offset: int)
    ensures SpreadOver(groups, [], offset) == multiset{}
  {
    if |groups| > 0 {
      SpreadOverEmpty(groups[1..], offset);
    }
  }

  lemma {:induction false} SpreadCovers(groups: seq<DayGroup>, txs: seq<Transaction>, offset: int)
    requires forall i, j :: 0 <= i < j < |groups| ==> groups[i].day > groups[j].day
    requires DaysOf(txs, offset) <= GroupDays(groups)
    ensures SpreadOver(groups, txs, offset) == multiset(txs)
  {
    if |txs| == 0 {
      SpreadOverEmpty(groups, offset);
    } else {
      assert txs == [txs[0]] + txs[1..];
      assert DaysOf(txs[1..], offset) <= DaysOf(txs, offset);
      assert DayOf(txs[0].occurredAt, offset) in DaysOf(txs, offset);
      SpreadSplitsHead(groups, txs[0], txs[1..], offset);
      SpreadCovers(groups, txs[1..], offset);
    }
  }

  /** A day grouping neither drops nor repeats a record: read group after
      group, it is a rearrangement of the records it was built from, and every
      record sits in the group of its own day. */
  lemma GroupingPartitions(txs: seq<Transaction>, offset: int, groups: seq<DayGroup>)
    requires IsDayGrouping(txs, offset, groups)
    ensures multiset(Flatten(groups)) == multiset(txs)
    ensures forall i, tx :: 0 <= i < |groups| && tx in groups[i].entries ==> DayOf(tx.occurredAt, offset) == groups[i].day
    ensures forall i :: 0 <= i < |groups| ==> |groups[i].entries| > 0
  {
    FlattenIsSpread(groups, txs, offset);
    SpreadCovers(groups, txs, offset);
    forall i | 0 <= i < |groups| {
      GroupHoldsItsDay(txs, offset, groups, i);
    }
  }

  lemma GroupHoldsItsDay(txs: seq<Transaction>, offset: int, groups: seq<DayGroup>, i: int)
    requires IsDayGrouping(txs, offset, groups)
    requires 0 <= i < |groups|
    ensures forall tx :: tx in groups[i].entries ==> DayOf(tx.occurredAt, offset) == groups[i].day
    ensures |groups[i].entries| > 0
  {
    var d := groups[i].day;
    var inD := Filter(txs, OnDay(d, offset));
    assert multiset(groups[i].entries) == multiset(inD);
    forall tx | tx in groups[i].entries ensures DayOf(tx.occurredAt, offset) == d {
      assert tx in multiset(inD);
      assert tx in inD;
    }
    assert groups[i] in groups;
    assert d in DaysOf(txs, offset);
    var tx :| tx in txs && DayOf(tx.occurredAt, offset) == d;
    assert tx in inD;
    assert tx in multiset(groups[i].entries);
  }

  /** The timeline shows each of the `Window` newest records exactly once and
      nothing else. */
  lemma TimelineShowsRecentWindow(txs: seq<Transaction>, offset: int, groups: seq<DayGroup>)
    requires IsDayGrouping(Recent(txs), offset, groups)
    ensures multiset(Flatten(groups)) == multiset(Recent(txs))
    ensures |Flatten(groups)| == if |txs| < Window then |txs| else Window
  {
    GroupingPartitions(Recent(txs), offset, groups);
    assert |Flatten(groups)| == |multiset(Flatten(groups))|;
  }
}
