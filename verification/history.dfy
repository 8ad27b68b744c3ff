/** The query history (logger/query_history.py): one record per query, read
    back as the most recent records, and summarised as the number of queries,
    the number of queries that found tickets, and the ten trains most often
    found with tickets. The history file is held in memory. */
module History {
  import opened Wrappers

  /** The limit `get_recent` uses when none is given. */
  const RECENT_LIMIT: int := 100
  const STATISTICS_WINDOW: int := 1000
  const TOP_COUNT: nat := 10

  /** One line of the history. */
  datatype HistoryRecord = HistoryRecord(
    timestamp: string,
    fromStation: string,
    toStation: string,
    date: string,
    totalCount: int,
    availableCount: int,
    availableTrains: seq<string>)

  /** The count of trains with tickets agrees with the list of them. */
  predicate Consistent(r: HistoryRecord) {
    r.availableCount == |r.availableTrains|
  }

  /** The record `record` writes for one query; the timestamp is the caller's. */
  function MakeRecord(fromStation: string, toStation: string, date: string, totalCount: int,
                      availableTrains: seq<string>, timestamp: string): (r: HistoryRecord)
    ensures Consistent(r)
    ensures r.totalCount == totalCount && r.availableTrains == availableTrains
    ensures r.availableCount > 0 <==> availableTrains != []
  {
    HistoryRecord(timestamp, fromStation, toStation, date, totalCount, |availableTrains|, availableTrains)
  }

  // ---------------------------------------------------------------------
  // get_recent
  // ---------------------------------------------------------------------

  function Min(a: int, b: int): int {
    if a <= b then a else b
  }

  /** Python's `s[-limit:]`. */
  function Tail<T>(s: seq<T>, limit: int): seq<T> {
    var k := -limit;
    var start := if k < 0 then (if |s| + k < 0 then 0 else |s| + k) else Min(k, |s|);
    s[start..]
  }

  /** A positive limit keeps the last `min(limit, n)` records in their order; a
      limit of 0 keeps them all (`s[-0:]` is `s[0:]`); a negative limit drops
      the first `-limit` records. */
  lemma TailShape<T>(s: seq<T>, limit: int)
    ensures limit > 0 ==> |Tail(s, limit)| == Min(limit, |s|) && Tail(s, limit) == s[|s| - Min(limit, |s|)..]
    ensures limit == 0 ==> Tail(s, limit) == s
    ensures limit < 0 ==> Tail(s, limit) == s[Min(-limit, |s|)..]
  {
  }

  // ---------------------------------------------------------------------
  // The tally of trains
  // ---------------------------------------------------------------------

  /** All the trains of the records, in record order, repeats included. */
  function Flatten(rs: seq<HistoryRecord>): seq<string> {
    if rs == [] then [] else Flatten(rs[..|rs| - 1]) + rs[|rs| - 1].availableTrains
  }

  lemma FlattenStep(rs: seq<HistoryRecord>, i: nat)
    requires i < |rs|
    ensures Flatten(rs[..i + 1]) == Flatten(rs[..i]) + rs[i].availableTrains
  {
    assert rs[..i + 1][..i] == rs[..i];
  }

  /** The distinct elements of `xs` in order of first occurrence (the key order
      of a Python dictionary filled from `xs`). */
  function FirstSeen(xs: seq<string>): seq<string> {
    if xs == [] then []
    else
      var p := xs[..|xs| - 1];
      var x := xs[|xs| - 1];
      if x in p then FirstSeen(p) else FirstSeen(p) + [x]
  }

  function Get(m: map<string, nat>, k: string): nat {
    if k in m then m[k] else 0
  }

  /** `counts[x] = counts.get(x, 0) + 1` for each `x` of `xs` in turn. */
  function Tally(xs: seq<string>): map<string, nat> {
    if xs == [] then map[]
    else
      var t := Tally(xs[..|xs| - 1]);
      var x := xs[|xs| - 1];
      t[x := Get(t, x) + 1]
  }

  /** One more train: a new key is appended to the first-seen order, and the
      train's tally goes up by one. */
  lemma TallyStep(xs: seq<string>, x: string)
    ensures FirstSeen(xs + [x]) == if x in Tally(xs) then FirstSeen(xs) else FirstSeen(xs) + [x]
    ensures Tally(xs + [x]) == Tally(xs)[x := Get(Tally(xs), x) + 1]
  {
    assert (xs + [x])[..|xs|] == xs;
  }

  /** Every train's tally is the number of its occurrences. */
  lemma {:induction false} TallyCounts(xs: seq<string>)
    ensures forall x :: x in Tally(xs) <==> x in xs
    ensures forall x :: x in Tally(xs) ==> Tally(xs)[x] == multiset(xs)[x]
    decreases |xs|
  {
    if xs != [] {
      var p := xs[..|xs| - 1];
      TallyCounts(p);
      assert xs == p + [xs[|xs| - 1]];
    }
  }

  /** The position of the first occurrence of `x`. */
  function FirstIndex(xs: seq<string>, x: string): (i: nat)
    requires x in xs
    ensures i < |xs| && xs[i] == x && x !in xs[..i]
  {
    if xs[0] == x then 0
    else
      var i := FirstIndex(xs[1..], x);
      assert xs[..i + 1] == [xs[0]] + xs[1..][..i];
      1 + i
  }

  /** Appending leaves the first occurrences of the elements already present. */
  lemma FirstIndexAppend(p: seq<string>, y: string, x: string)
    requires x in p
    ensures FirstIndex(p + [y], x) == FirstIndex(p, x)
  {
    var i := FirstIndex(p, x);
    var j := FirstIndex(p + [y], x);
    assert (p + [y])[..i] == p[..i];
    var q := p + [y];
    assert q[i] == x && q[j] == x;
    assert forall k :: 0 <= k < j ==> q[..j][k] == q[k];
    assert forall k :: 0 <= k < i ==> p[..i][k] == q[k];
    assert forall k :: 0 <= k < j ==> q[k] != x;
    assert forall k :: 0 <= k < i ==> q[k] != x;
  }

  /** The first-seen order holds every element of `xs` once, ordered by first
      occurrence. */
  lemma {:induction false} FirstSeenOrder(xs: seq<string>)
    ensures forall x :: x in FirstSeen(xs) <==> x in xs
    ensures forall i, j :: 0 <= i < j < |FirstSeen(xs)| ==> FirstSeen(xs)[i] != FirstSeen(xs)[j]
    ensures forall i, j :: 0 <= i < j < |FirstSeen(xs)| ==>
      FirstIndex(xs, FirstSeen(xs)[i]) < FirstIndex(xs, FirstSeen(xs)[j])
    decreases |xs|
  {
    if xs != [] {
      var p := xs[..|xs| - 1];
      var x := xs[|xs| - 1];
      FirstSeenOrder(p);
      assert xs == p + [x];
      var f := FirstSeen(p);
      forall y | y in p ensures FirstIndex(xs, y) == FirstIndex(p, y) {
        FirstIndexAppend(p, x, y);
      }
      if x !in p {
        assert FirstIndex(xs, x) == |p| by {
          assert xs[..|p|] == p;
        }
        forall i | 0 <= i < |f| ensures FirstIndex(xs, f[i]) < |p| {
          assert f[i] in p;
        }
      }
    }
  }

  // ---------------------------------------------------------------------
  // The stable sort by count, largest first
  // ---------------------------------------------------------------------

  /** A train with its tally. */
  type Item = (string, nat)

  /** The items of a tally in the order of its keys (`dict.items()`). */
  function ItemsOf(keys: seq<string>, counts: map<string, nat>): (items: seq<Item>)
    ensures |items| == |keys|
  {
    seq(|keys|, i requires 0 <= i < |keys| => (keys[i], Get(counts, keys[i])))
  }

  predicate NonIncreasing(s: seq<Item>) {
    forall i, j :: 0 <= i < j < |s| ==> s[i].1 >= s[j].1
  }

  predicate DistinctKeys(s: seq<Item>) {
    forall i, j :: 0 <= i < j < |s| ==> s[i].0 != s[j].0
  }

  /** The items with count `c`, in their order. */
  function WithCount(s: seq<Item>, c: nat): seq<Item> {
    if s == [] then [] else (if s[0].1 == c then [s[0]] else []) + WithCount(s[1..], c)
  }

  /** `x` placed after every item with a larger count and before the rest. */
  function InsertDesc(x: Item, s: seq<Item>): seq<Item> {
    if s == [] || s[0].1 <= x.1 then [x] + s else [s[0]] + InsertDesc(x, s[1..])
  }

  /** `sorted(items, key=count, reverse=True)`: Python's sort is stable, so
      items with equal counts keep their order. */
  function SortDesc(items: seq<Item>): seq<Item> {
    if items == [] then [] else InsertDesc(items[0], SortDesc(items[1..]))
  }

  /** Inserting adds exactly `x`. */
  lemma {:induction false} InsertDescMultiset(x: Item, s: seq<Item>)
    ensures multiset(InsertDesc(x, s)) == multiset(s) + multiset{x}
    decreases |s|
  {
    if s != [] && s[0].1 > x.1 {
      InsertDescMultiset(x, s[1..]);
      assert s == [s[0]] + s[1..];
    }
  }

  lemma {:induction false} InsertDescSorted(x: Item, s: seq<Item>)
    requires NonIncreasing(s)
    ensures NonIncreasing(InsertDesc(x, s))
    decreases |s|
  {
    if s != [] && s[0].1 > x.1 {
      var t := s[1..];
      InsertDescSorted(x, t);
      InsertDescMultiset(x, t);
      var r := InsertDesc(x, t);
      forall j | 0 <= j < |r| ensures s[0].1 >= r[j].1 {
        assert r[j] in multiset(r);
        if r[j] != x {
          var k :| 0 <= k < |t| && t[k] == r[j];
          assert t[k] == s[k + 1];
        }
      }
      assert InsertDesc(x, s) == [s[0]] + r;
    }
  }

  /** Among the items of one count, `x` comes first, then the others in order. */
  lemma {:induction false} InsertDescWithCount(x: Item, s: seq<Item>, c: nat)
    ensures WithCount(InsertDesc(x, s), c) == (if x.1 == c then [x] else []) + WithCount(s, c)
    decreases |s|
  {
    var mine: seq<Item> := if x.1 == c then [x] else [];
    if s == [] || s[0].1 <= x.1 {
      assert InsertDesc(x, s) == [x] + s;
      assert ([x] + s)[1..] == s;
    } else {
      var t := s[1..];
      var r := InsertDesc(x, t);
      InsertDescWithCount(x, t, c);
      var head: seq<Item> := if s[0].1 == c then [s[0]] else [];
      assert InsertDesc(x, s) == [s[0]] + r;
      assert ([s[0]] + r)[1..] == r;
      assert WithCount(InsertDesc(x, s), c) == head + (mine + WithCount(t, c));
      assert WithCount(s, c) == head + WithCount(t, c);
      assert head == [] || mine == [];
    }
  }

  lemma {:induction false} InsertDescDistinct(x: Item, s: seq<Item>)
    requires DistinctKeys(s)
    requires forall i :: 0 <= i < |s| ==> s[i].0 != x.0
    ensures DistinctKeys(InsertDesc(x, s))
    decreases |s|
  {
    if s != [] && s[0].1 > x.1 {
      var t := s[1..];
      InsertDescDistinct(x, t);
      InsertDescMultiset(x, t);
      var r := InsertDesc(x, t);
      forall j | 0 <= j < |r| ensures s[0].0 != r[j].0 {
        assert r[j] in multiset(r);
        if r[j] != x {
          var k :| 0 <= k < |t| && t[k] == r[j];
          assert t[k] == s[k + 1];
        }
      }
      assert InsertDesc(x, s) == [s[0]] + r;
    }
  }

  /** The sort is a permutation. */
  lemma {:induction false} SortDescMultiset(items: seq<Item>)
    ensures multiset(SortDesc(items)) == multiset(items)
    decreases |items|
  {
    if items != [] {
      SortDescMultiset(items[1..]);
      InsertDescMultiset(items[0], SortDesc(items[1..]));
      assert items == [items[0]] + items[1..];
    }
  }

  /** The sort puts larger counts first. */
  lemma {:induction false} SortDescSorted(items: seq<Item>)
    ensures NonIncreasing(SortDesc(items))
    decreases |items|
  {
    if items != [] {
      SortDescSorted(items[1..]);
      InsertDescSorted(items[0], SortDesc(items[1..]));
    }
  }

  /** The sort is stable: the items of each count keep their original order. */
  lemma {:induction false} SortDescStable(items: seq<Item>, c: nat)
    ensures WithCount(SortDesc(items), c) == WithCount(items, c)
    decreases |items|
  {
    if items != [] {
      SortDescStable(items[1..], c);
      InsertDescWithCount(items[0], SortDesc(items[1..]), c);
    }
  }

  /** The sort keeps distinct trains distinct. */
  lemma {:induction false} SortDescDistinct(items: seq<Item>)
    requires DistinctKeys(items)
    ensures DistinctKeys(SortDesc(items))
    decreases |items|
  {
    if items != [] {
      var rest := items[1..];
      assert DistinctKeys(rest) by {
        assert forall i :: 0 <= i < |rest| ==> rest[i] == items[i + 1];
      }
      SortDescDistinct(rest);
      SortDescMultiset(rest);
      var r := SortDesc(rest);
      forall i | 0 <= i < |r| ensures r[i].0 != items[0].0 {
        assert r[i] in multiset(rest);
        var k :| 0 <= k < |rest| && rest[k] == r[i];
        assert rest[k] == items[k + 1];
      }
      InsertDescDistinct(items[0], r);
    }
  }

  // ---------------------------------------------------------------------
  // get_statistics
  // ---------------------------------------------------------------------

  /** `sum(1 for r in records if r['available_count'] > 0)`. */
  function CountWithTickets(rs: seq<HistoryRecord>): (n: nat)
    ensures n <= |rs|
    ensures n == 0 <==> forall i :: 0 <= i < |rs| ==> rs[i].availableCount <= 0
    ensures n == |rs| <==> forall i :: 0 <= i < |rs| ==> rs[i].availableCount > 0
  {
    if rs == [] then 0
    else
      assert forall i :: 0 < i < |rs| ==> rs[i] == rs[1..][i - 1];
      (if rs[0].availableCount > 0 then 1 else 0) + CountWithTickets(rs[1..])
  }

  /** All trains of the records ranked by tally, largest first, ties in order
      of first appearance. */
  function Ranking(rs: seq<HistoryRecord>): seq<Item> {
    var xs := Flatten(rs);
    SortDesc(ItemsOf(FirstSeen(xs), Tally(xs)))
  }

  /** `s[:n]`. */
  function Take(s: seq<Item>, n: nat): seq<Item> {
    s[..Min(n, |s|)]
  }

  datatype Statistics =
    | NoStats
    | Stats(totalQueries: nat, totalWithTickets: nat, topTrains: seq<Item>)

  /** The tally items of the records, in first-seen order, are the distinct
      trains, each with its number of occurrences. */
  lemma TallyItems(rs: seq<HistoryRecord>)
    ensures var xs := Flatten(rs); var items := ItemsOf(FirstSeen(xs), Tally(xs));
      && DistinctKeys(items)
      && (forall i :: 0 <= i < |items| ==> items[i].0 in xs && items[i].1 == multiset(xs)[items[i].0])
      && (forall x :: x in xs ==> exists i :: 0 <= i < |items| && items[i].0 == x)
  {
    var xs := Flatten(rs);
    FirstSeenOrder(xs);
    TallyCounts(xs);
    var f := FirstSeen(xs);
    var items := ItemsOf(f, Tally(xs));
    forall x | x in xs ensures exists i :: 0 <= i < |items| && items[i].0 == x {
      var i :| 0 <= i < |f| && f[i] == x;
      assert items[i].0 == x;
    }
  }

  /** Each ranked train appears once, with its number of occurrences in the
      records. */
  lemma RankingCounts(rs: seq<HistoryRecord>)
    ensures var r := Ranking(rs); var xs := Flatten(rs);
      && DistinctKeys(r)
      && forall i :: 0 <= i < |r| ==> r[i].0 in xs && r[i].1 == multiset(xs)[r[i].0]
  {
    var xs := Flatten(rs);
    var items := ItemsOf(FirstSeen(xs), Tally(xs));
    var r := SortDesc(items);
    TallyItems(rs);
    SortDescMultiset(items);
    SortDescDistinct(items);
    forall i | 0 <= i < |r| ensures r[i].0 in xs && r[i].1 == multiset(xs)[r[i].0] {
      assert r[i] in multiset(items);
      var j :| 0 <= j < |items| && items[j] == r[i];
    }
  }

  /** Every train of the records is ranked. */
  lemma RankingComplete(rs: seq<HistoryRecord>, x: string)
    requires x in Flatten(rs)
    ensures exists i :: 0 <= i < |Ranking(rs)| && Ranking(rs)[i].0 == x
  {
    var xs := Flatten(rs);
    var items := ItemsOf(FirstSeen(xs), Tally(xs));
    var r := SortDesc(items);
    TallyItems(rs);
    SortDescMultiset(items);
    var j :| 0 <= j < |items| && items[j].0 == x;
    assert items[j] in multiset(r);
    var i :| 0 <= i < |r| && r[i] == items[j];
    assert r == Ranking(rs);
  }

  /** The ranking has one entry per distinct train, counts never increase
      along it, and trains with equal counts keep their first-seen order. */
  lemma RankingOrder(rs: seq<HistoryRecord>, c: nat)
    ensures var r := Ranking(rs); var xs := Flatten(rs);
      && |r| == |FirstSeen(xs)|
      && NonIncreasing(r)
      && WithCount(r, c) == WithCount(ItemsOf(FirstSeen(xs), Tally(xs)), c)
  {
    var xs := Flatten(rs);
    var items := ItemsOf(FirstSeen(xs), Tally(xs));
    SortDescMultiset(items);
    SortDescSorted(items);
    SortDescStable(items, c);
    assert |SortDesc(items)| == |items| by {
      assert |multiset(SortDesc(items))| == |multiset(items)|;
    }
  }

  /** The top list is the first (at most ten) trains of the ranking, each with
      its number of occurrences, largest first. */
  lemma TopTrainsShape(rs: seq<HistoryRecord>)
    ensures var top := Take(Ranking(rs), TOP_COUNT); var xs := Flatten(rs);
      && |top| == Min(TOP_COUNT, |FirstSeen(xs)|)
      && NonIncreasing(top)
      && forall i :: 0 <= i < |top| ==> top[i].1 == multiset(xs)[top[i].0]
  {
    var r := Ranking(rs);
    RankingCounts(rs);
    RankingOrder(rs, 0);
    var top := Take(r, TOP_COUNT);
    assert forall i :: 0 <= i < |top| ==> top[i] == r[i];
  }

  /** A train of the records left out of the top list was found with tickets
      no more often than any train in it. */
  lemma TopTrainsDominate(rs: seq<HistoryRecord>, x: string)
    requires x in Flatten(rs)
    requires forall i :: 0 <= i < |Take(Ranking(rs), TOP_COUNT)| ==> Take(Ranking(rs), TOP_COUNT)[i].0 != x
    ensures forall i :: 0 <= i < |Take(Ranking(rs), TOP_COUNT)| ==>
      multiset(Flatten(rs))[x] <= Take(Ranking(rs), TOP_COUNT)[i].1
  {
    var r := Ranking(rs);
    var top := Take(r, TOP_COUNT);
    RankingComplete(rs, x);
    RankingCounts(rs);
    RankingOrder(rs, 0);
    var j :| 0 <= j < |r| && r[j].0 == x;
    assert forall i :: 0 <= i < |top| ==> top[i] == r[i];
    assert j >= |top|;
  }

  /** The tally loops of `get_statistics`: every train of every record, in
      order, bumps its count, a train met for the first time becoming the
      last key. The result is the trains in first-seen order and the number
      of times each occurs. */
  method TrainCounts(window: seq<HistoryRecord>) returns (order: seq<string>, counts: map<string, nat>)
    ensures order == FirstSeen(Flatten(window))
    ensures counts == Tally(Flatten(window))
  {
    order := [];
    counts := map[];
    var i := 0;
    while i < |window|
      invariant 0 <= i <= |window|
      invariant order == FirstSeen(Flatten(window[..i]))
      invariant counts == Tally(Flatten(window[..i]))
    {
      FlattenStep(window, i);
      order, counts := CountTrains(window[i].availableTrains, order, counts, Flatten(window[..i]));
      i := i + 1;
    }
    assert window[..i] == window;
  }

  /** The inner loop of the tally, over the trains of one record: the order and
      the counts go from those of `before` to those of `before + trains`. */
  method CountTrains(trains: seq<string>, order0: seq<string>, counts0: map<string, nat>, ghost before: seq<string>)
    returns (order: seq<string>, counts: map<string, nat>)
    requires order0 == FirstSeen(before) && counts0 == Tally(before)
    ensures order == FirstSeen(before + trains) && counts == Tally(before + trains)
  {
    order, counts := order0, counts0;
    ghost var acc := before;
    var j := 0;
    while j < |trains|
      invariant 0 <= j <= |trains|
      invariant acc == before + trains[..j]
      invariant order == FirstSeen(acc) && counts == Tally(acc)
    {
      var train := trains[j];
      TallyStep(acc, train);
      if train !in counts {
        order := order + [train];
      }
      counts := counts[train := Get(counts, train) + 1];
      acc := acc + [train];
      assert trains[..j + 1] == trains[..j] + [train];
      j := j + 1;
    }
    assert trains[..j] == trains;
  }

  // ---------------------------------------------------------------------
  // The history
  // ---------------------------------------------------------------------

  class QueryHistory {
    /** The records of the history file, or None while the file does not exist. */
    var file: Option<seq<HistoryRecord>>

    /** A history over whatever the history file holds at start-up. */
    constructor (existing: Option<seq<HistoryRecord>>)
      ensures file == existing
    {
      file := existing;
    }

    /** The records, none when the file does not exist. */
    function Contents(): seq<HistoryRecord>
      reads this
    {
      file.GetOr([])
    }

    /** `record`: appends the record of one query when the write succeeds (the
        file is created if needed); a failed write is ignored. */
    method Record(fromStation: string, toStation: string, date: string, totalCount: int,
                  availableTrains: seq<string>, timestamp: string, writeSucceeds: bool)
      modifies this
      ensures writeSucceeds ==>
        file == Some(old(Contents()) + [MakeRecord(fromStation, toStation, date, totalCount, availableTrains, timestamp)])
      ensures !writeSucceeds ==> file == old(file)
    {
      if writeSucceeds {
        var r := MakeRecord(fromStation, toStation, date, totalCount, availableTrains, timestamp);
        file := Some(Contents() + [r]);
      }
    }

    /** `get_recent`: reads every record, then keeps `records[-limit:]`; a
        missing file gives no records. */
    method GetRecent(limit: int := RECENT_LIMIT) returns (records: seq<HistoryRecord>)
      ensures file.None? ==> records == []
      ensures records == Tail(Contents(), limit)
    {
      if file.None? {
        return [];
      }
      var lines := file.value;
      var all: seq<HistoryRecord> := [];
      var i := 0;
      while i < |lines|
        invariant 0 <= i <= |lines|
        invariant all == lines[..i]
      {
        all := all + [lines[i]];
        i := i + 1;
      }
      assert lines[..i] == lines;
      records := Tail(all, limit);
    }

    /** `get_statistics` over the last thousand records: nothing when there is
        no record; otherwise the number of records, the number that found
        tickets, and the first ten of the ranking, the tally being built by
        one pass over every train of every record. */
    method GetStatistics() returns (stats: Statistics)
      ensures var w := Tail(Contents(), STATISTICS_WINDOW);
        && (stats.NoStats? <==> w == [])
        && (stats.Stats? ==>
              && stats.totalQueries == |w| <= STATISTICS_WINDOW
              && stats.totalWithTickets == CountWithTickets(w)
              && stats.topTrains == Take(Ranking(w), TOP_COUNT))
    {
      var window := GetRecent(STATISTICS_WINDOW);
      if window == [] {
        return NoStats;
      }
      var order, counts := TrainCounts(window);
      TailShape(Contents(), STATISTICS_WINDOW);
      stats := Stats(|window|, CountWithTickets(window), Take(SortDesc(ItemsOf(order, counts)), TOP_COUNT));
    }
  }
}
