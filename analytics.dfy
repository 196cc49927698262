/** The profit and loss page: the period filter over the stored sales, the
    month-by-month buckets with their sums and transaction counts, the
    summary totals and the profit margin, and the list of recent
    transactions. The current time is a parameter. */
module Analytics {
  import opened Common
  import opened Calendar
  import opened Entities
  import opened Store

  /** How many filtered sales the recent-transactions table shows. */
  const RecentCount := 10

  /** A sale as this page reads it back from the store. A total that the
      record lacks (or that is not a number) is None; `x || 0` reads it as 0. */
  datatype SaleRow = SaleRow(
    id: string,
    customerName: string,
    date: Instant,
    totalAmount: Option<int>,
    totalCost: Option<int>,
    profit: Option<int>)

  /** A record written by the sales page carries all three totals. */
  function AsRow(s: Sale): SaleRow
  {
    SaleRow(s.id, s.customerName, s.date, Some(s.totalAmount), Some(s.totalCost), Some(s.profit))
  }

  function AsRows(ss: seq<Sale>): (r: seq<SaleRow>)
    ensures |r| == |ss|
    ensures forall j :: 0 <= j < |ss| ==> r[j] == AsRow(ss[j])
  {
    seq(|ss|, j requires 0 <= j < |ss| => AsRow(ss[j]))
  }

  /** The period selector. A custom period holds the two date inputs, each
      parsed to midnight of its day, or None while the input is empty. */
  datatype Period =
    | All
    | ThisMonth
    | LastMonth
    | ThisYear
    | Custom(start: Option<Instant>, end: Option<Instant>)

  /** Whether the period filter keeps a sale made at t, judged at now. */
  predicate Keep(p: Period, now: Instant, t: Instant)
    requires 1 <= now.month <= 12
  {
    match p
    case Custom(s, e) =>
      if s.Some? && e.Some? then NotAfter(s.value, t) && NotAfter(t, e.value) else true
    case ThisMonth => NotAfter(StartOfMonth(MonthOf(now)), t)
    case LastMonth =>
      var ym := PrevMonth(MonthOf(now));
      NotAfter(StartOfMonth(ym), t) && NotAfter(t, LastDayOfMonth(ym))
    case ThisYear => NotAfter(Instant(now.year, 1, 1, 0), t)
    case All => true
  }

  /** filterSalesData: the sales the period keeps, in their stored order. */
  function FilterSales(rows: seq<SaleRow>, p: Period, now: Instant): (r: seq<SaleRow>)
    requires 1 <= now.month <= 12
    ensures IsSubseq(r, rows)
    ensures forall x :: x in r <==> x in rows && Keep(p, now, x.date)
    ensures forall x :: multiset(r)[x] == if Keep(p, now, x.date) then multiset(rows)[x] else 0
    ensures p.All? || (p.Custom? && (p.start.None? || p.end.None?)) ==> r == rows
  {
    Filter(rows, (x: SaleRow) => Keep(p, now, x.date))
  }

  /** This month: every valid instant in the current month or a later one. */
  lemma ThisMonthKeeps(now: Instant, t: Instant)
    requires 1 <= now.month <= 12
    requires ValidInstant(t)
    ensures Keep(ThisMonth, now, t) <==> !MonthBefore(MonthOf(t), MonthOf(now))
  {
    AtOrAfterMonthStart(t, MonthOf(now));
  }

  /** Last month: the previous calendar month (December of the year before
      in January), but on its last day only the instant of midnight, since
      the upper bound is midnight of that day. */
  lemma LastMonthKeeps(now: Instant, t: Instant)
    requires 1 <= now.month <= 12
    requires ValidInstant(t)
    ensures Keep(LastMonth, now, t) <==>
            var ym := PrevMonth(MonthOf(now));
            MonthOf(t) == ym && (t.day < DaysInMonth(ym.year, ym.month) || t.ms == 0)
  {
    WithinMonthMidnights(t, PrevMonth(MonthOf(now)));
  }

  /** A sale in the afternoon of the last day of last month is not kept. */
  lemma LastDayAfternoonExcluded()
    ensures !Keep(LastMonth, Instant(2024, 3, 10, 0), Instant(2024, 2, 29, 54000000))
    ensures Keep(LastMonth, Instant(2024, 3, 10, 0), Instant(2024, 2, 28, 54000000))
    ensures Keep(LastMonth, Instant(2024, 1, 15, 0), Instant(2023, 12, 5, 0))
  {
  }

  /** This year: every valid instant from 1 January of the current year on. */
  lemma ThisYearKeeps(now: Instant, t: Instant)
    requires 1 <= now.month <= 12
    requires ValidInstant(t)
    ensures Keep(ThisYear, now, t) <==> t.year >= now.year
  {
  }

  /** The quantities the page adds up; Count adds one per sale. */
  datatype Measure = Amount | Cost | Profit | Count

  function Field(x: SaleRow, f: Measure): int
  {
    match f
    case Amount => OrZero(x.totalAmount)
    case Cost => OrZero(x.totalCost)
    case Profit => OrZero(x.profit)
    case Count => 1
  }

  /** rows.reduce((sum, sale) => sum + (field || 0), 0). */
  function Sum(rows: seq<SaleRow>, f: Measure): int
  {
    if rows == [] then 0 else Sum(rows[..|rows| - 1], f) + Field(rows[|rows| - 1], f)
  }

  /** Counting adds up to the number of sales. */
  lemma {:induction false} SumCountIsLength(rows: seq<SaleRow>)
    ensures Sum(rows, Count) == |rows|
  {
    if rows != [] {
      SumCountIsLength(rows[..|rows| - 1]);
    }
  }

  /** One row of the monthly table: the month's sums and its number of
      sales. The page labels the row with the month's name. */
  datatype MonthRow = MonthRow(month: YearMonth, sales: int, cost: int, profit: int, transactions: int)

  function Measured(b: MonthRow, f: Measure): int
  {
    match f
    case Amount => b.sales
    case Cost => b.cost
    case Profit => b.profit
    case Count => b.transactions
  }

  /** The bucket created on the first sale of a month. */
  function NewBucket(ym: YearMonth): MonthRow
  {
    MonthRow(ym, 0, 0, 0, 0)
  }

  /** The in-place increments for one more sale of the bucket's month. */
  function AddSale(b: MonthRow, x: SaleRow): (r: MonthRow)
    ensures r.month == b.month
    ensures forall f :: Measured(r, f) == Measured(b, f) + Field(x, f)
  {
    MonthRow(b.month, b.sales + OrZero(x.totalAmount), b.cost + OrZero(x.totalCost),
             b.profit + OrZero(x.profit), b.transactions + 1)
  }

  /** The sum of one measure over the sales made in month ym. */
  function SumIn(rows: seq<SaleRow>, ym: YearMonth, f: Measure): int
  {
    if rows == [] then 0
    else SumIn(rows[..|rows| - 1], ym, f)
         + (if MonthOf(rows[|rows| - 1].date) == ym then Field(rows[|rows| - 1], f) else 0)
  }

  /** What the bucket of month ym holds once every sale has been seen. */
  function BucketOf(rows: seq<SaleRow>, ym: YearMonth): MonthRow
  {
    MonthRow(ym, SumIn(rows, ym, Amount), SumIn(rows, ym, Cost), SumIn(rows, ym, Profit), SumIn(rows, ym, Count))
  }

  /** One more sale changes only its own month's bucket, by AddSale. */
  lemma BucketStep(rows: seq<SaleRow>, x: SaleRow, ym: YearMonth)
    ensures BucketOf(rows + [x], ym)
            == if MonthOf(x.date) == ym then AddSale(BucketOf(rows, ym), x) else BucketOf(rows, ym)
  {
    assert (rows + [x])[..|rows|] == rows;
  }

  /** A month has sales exactly when its count is positive. */
  lemma {:induction false} CountMeansPresent(rows: seq<SaleRow>, ym: YearMonth)
    ensures SumIn(rows, ym, Count) >= 0
    ensures SumIn(rows, ym, Count) > 0 <==> exists j :: 0 <= j < |rows| && MonthOf(rows[j].date) == ym
  {
    if rows != [] {
      var init := rows[..|rows| - 1];
      CountMeansPresent(init, ym);
      assert forall j :: 0 <= j < |init| ==> init[j] == rows[j];
      if SumIn(rows, ym, Count) > 0 && MonthOf(rows[|rows| - 1].date) != ym {
        var j :| 0 <= j < |init| && MonthOf(init[j].date) == ym;
        assert rows[j] == init[j];
      }
    }
  }

  /** The months of the buckets, in table order. */
  function Months(bs: seq<MonthRow>): (ks: seq<YearMonth>)
    ensures |ks| == |bs|
    ensures forall j :: 0 <= j < |bs| ==> ks[j] == bs[j].month
  {
    seq(|bs|, j requires 0 <= j < |bs| => bs[j].month)
  }

  /** Months strictly ascending: chronological and one bucket per month. */
  predicate Chronological(bs: seq<MonthRow>)
  {
    forall i, j :: 0 <= i < j < |bs| ==> MonthBefore(bs[i].month, bs[j].month)
  }

  /** At most one bucket per month. */
  predicate DistinctMonths(s: seq<MonthRow>)
  {
    forall i, j :: 0 <= i < j < |s| ==> s[i].month != s[j].month
  }

  lemma SameMembers(a: seq<MonthRow>, b: seq<MonthRow>)
    requires multiset(a) == multiset(b)
    ensures forall x :: x in a <==> x in b
  {
    forall x ensures x in a <==> x in b {
      assert x in a <==> x in multiset(a);
    }
  }

  lemma DistinctTail(s: seq<MonthRow>)
    requires s != [] && DistinctMonths(s)
    ensures DistinctMonths(s[1..])
    ensures forall x :: x in s[1..] ==> x.month != s[0].month
  {
    forall x | x in s[1..] ensures x.month != s[0].month {
      var j :| 0 <= j < |s[1..]| && s[1..][j] == x;
      assert s[j + 1] == x;
    }
  }

  /** A bucket earlier than every bucket of an ordered table can go in front. */
  lemma ChronologicalCons(b: MonthRow, t: seq<MonthRow>)
    requires Chronological(t)
    requires forall x :: x in t ==> MonthBefore(b.month, x.month)
    ensures Chronological([b] + t)
  {
    forall i, j | 0 <= i < j < |t| + 1 ensures MonthBefore(([b] + t)[i].month, ([b] + t)[j].month) {
      assert ([b] + t)[j] == t[j - 1];
      if i > 0 { assert ([b] + t)[i] == t[i - 1]; }
    }
  }

  /** The bucket placed before the first bucket of a later month. */
  function InsertByMonth(b: MonthRow, s: seq<MonthRow>): (r: seq<MonthRow>)
    ensures multiset(r) == multiset(s) + multiset{b}
    decreases |s|
  {
    if s == [] then [b]
    else if MonthBefore(b.month, s[0].month) then [b] + s
    else
      assert s == [s[0]] + s[1..];
      [s[0]] + InsertByMonth(b, s[1..])
  }

  /** Inserting a bucket of a month not yet present keeps the table in order. */
  lemma {:induction false} InsertKeepsOrder(b: MonthRow, s: seq<MonthRow>)
    requires Chronological(s)
    requires forall x :: x in s ==> x.month != b.month
    ensures Chronological(InsertByMonth(b, s))
    decreases |s|
  {
    if s == [] {
    } else if MonthBefore(b.month, s[0].month) {
      assert forall x :: x in s ==> MonthBefore(b.month, x.month) by {
        forall j | 0 <= j < |s| ensures MonthBefore(b.month, s[j].month) {
          if j > 0 { assert MonthBefore(s[0].month, s[j].month); }
        }
      }
      ChronologicalCons(b, s);
    } else {
      var rest := InsertByMonth(b, s[1..]);
      InsertKeepsOrder(b, s[1..]);
      SameMembers(rest, s[1..] + [b]);
      forall x | x in rest ensures MonthBefore(s[0].month, x.month) {
        if x != b {
          var j :| 0 <= j < |s[1..]| && s[1..][j] == x;
          assert s[j + 1] == x;
        }
      }
      ChronologicalCons(s[0], rest);
    }
  }

  /** Array.prototype.sort of the bucket values by month (an insertion sort
      stands for the engine's sort; only its result matters). */
  function SortByMonth(s: seq<MonthRow>): (r: seq<MonthRow>)
    ensures multiset(r) == multiset(s)
    decreases |s|
  {
    if s == [] then []
    else
      assert s == [s[0]] + s[1..];
      InsertByMonth(s[0], SortByMonth(s[1..]))
  }

  /** With one bucket per month the sorted table is strictly chronological. */
  lemma {:induction false} SortOrders(s: seq<MonthRow>)
    requires DistinctMonths(s)
    ensures Chronological(SortByMonth(s))
    decreases |s|
  {
    if s != [] {
      DistinctTail(s);
      var rest := SortByMonth(s[1..]);
      SortOrders(s[1..]);
      SameMembers(rest, s[1..]);
      InsertKeepsOrder(s[0], rest);
    }
  }

  /** A measure summed over the buckets of the table. */
  function BucketsSum(bs: seq<MonthRow>, f: Measure): int
  {
    if bs == [] then 0 else BucketsSum(bs[..|bs| - 1], f) + Measured(bs[|bs| - 1], f)
  }

  /** A measure summed over the months ks, month by month. */
  function SumOverMonths(rows: seq<SaleRow>, ks: seq<YearMonth>, f: Measure): int
  {
    if ks == [] then 0 else SumOverMonths(rows, ks[..|ks| - 1], f) + SumIn(rows, ks[|ks| - 1], f)
  }

  lemma {:induction false} BucketsSumByMonth(rows: seq<SaleRow>, bs: seq<MonthRow>, f: Measure)
    requires forall j :: 0 <= j < |bs| ==> bs[j] == BucketOf(rows, bs[j].month)
    ensures BucketsSum(bs, f) == SumOverMonths(rows, Months(bs), f)
  {
    if bs != [] {
      var init := bs[..|bs| - 1];
      assert Months(bs)[..|bs| - 1] == Months(init);
      BucketsSumByMonth(rows, init, f);
    }
  }

  /** One more sale adds its value once if its month is among distinct ks. */
  lemma {:induction false} SumOverMonthsStep(rows: seq<SaleRow>, x: SaleRow, ks: seq<YearMonth>, f: Measure)
    requires forall i, j :: 0 <= i < j < |ks| ==> ks[i] != ks[j]
    ensures SumOverMonths(rows + [x], ks, f)
            == SumOverMonths(rows, ks, f) + (if MonthOf(x.date) in ks then Field(x, f) else 0)
  {
    if ks != [] {
      var init := ks[..|ks| - 1];
      SumOverMonthsStep(rows, x, init, f);
      assert (rows + [x])[..|rows|] == rows;
      assert MonthOf(x.date) in ks <==> MonthOf(x.date) in init || MonthOf(x.date) == ks[|ks| - 1];
      if MonthOf(x.date) in init {
        var i :| 0 <= i < |init| && init[i] == MonthOf(x.date);
        assert ks[i] == init[i];
      }
    }
  }

  /** Adding up per-month sums over distinct months that cover every sale
      gives the plain sum. */
  lemma {:induction false} SumOverMonthsCovers(rows: seq<SaleRow>, ks: seq<YearMonth>, f: Measure)
    requires forall i, j :: 0 <= i < j < |ks| ==> ks[i] != ks[j]
    requires forall j :: 0 <= j < |rows| ==> MonthOf(rows[j].date) in ks
    ensures SumOverMonths(rows, ks, f) == Sum(rows, f)
  {
    if rows == [] {
      ZeroOverMonths(ks, f);
    } else {
      var init := rows[..|rows| - 1];
      var x := rows[|rows| - 1];
      assert rows == init + [x];
      SumOverMonthsCovers(init, ks, f);
      SumOverMonthsStep(init, x, ks, f);
    }
  }

  lemma {:induction false} ZeroOverMonths(ks: seq<YearMonth>, f: Measure)
    ensures SumOverMonths([], ks, f) == 0
  {
    if ks != [] {
      ZeroOverMonths(ks[..|ks| - 1], f);
    }
  }

  /** Every bucket holds exactly its month's sums and at least one sale. */
  predicate BucketsOfRows(rows: seq<SaleRow>, bs: seq<MonthRow>)
  {
    forall j :: 0 <= j < |bs| ==> bs[j] == BucketOf(rows, bs[j].month) && bs[j].transactions > 0
  }

  /** Every sale's month has a bucket. */
  predicate CoversRows(rows: seq<SaleRow>, bs: seq<MonthRow>)
  {
    forall j :: 0 <= j < |rows| ==> MonthOf(rows[j].date) in Months(bs)
  }

  /** The bucket totals add up to the totals over all the sales: the monthly
      table and the summary cards agree, and the transaction counts add up
      to the number of sales. */
  lemma BucketsAddUp(rows: seq<SaleRow>, bs: seq<MonthRow>, f: Measure)
    requires Chronological(bs) && BucketsOfRows(rows, bs) && CoversRows(rows, bs)
    ensures BucketsSum(bs, f) == Sum(rows, f)
    ensures f == Count ==> BucketsSum(bs, f) == |rows|
  {
    BucketsSumByMonth(rows, bs, f);
    var ks := Months(bs);
    assert forall i, j :: 0 <= i < j < |ks| ==> ks[i] != ks[j] by {
      forall i, j | 0 <= i < j < |ks| ensures ks[i] != ks[j] {
        assert MonthBefore(bs[i].month, bs[j].month);
      }
    }
    SumOverMonthsCovers(rows, ks, f);
    SumCountIsLength(rows);
  }

  /** The forEach of generateMonthlyData: a map from month to bucket,
      with the months in the order their first sale came (the insertion
      order of the Map, which Array.from of its values follows). */
  method Accumulate(rows: seq<SaleRow>) returns (totals: map<YearMonth, MonthRow>, order: seq<YearMonth>)
    ensures forall k :: k in totals <==> k in order
    ensures forall a, b :: 0 <= a < b < |order| ==> order[a] != order[b]
    ensures forall k :: k in totals ==> totals[k] == BucketOf(rows, k) && totals[k].transactions > 0
    ensures forall j :: 0 <= j < |rows| ==> MonthOf(rows[j].date) in totals
    ensures forall a :: 0 <= a < |order| ==> FirstSale(rows, order[a]) < |rows|
    ensures forall a, b :: 0 <= a < b < |order| ==> FirstSale(rows, order[a]) < FirstSale(rows, order[b])
  {
    totals, order := map[], [];
    var i := 0;
    while i < |rows|
      invariant LoopState(rows, i, totals, order)
    {
      var x := rows[i];
      var ym := MonthOf(x.date);
      ghost var totals0, order0 := totals, order;
      if ym !in totals {
        totals := totals[ym := NewBucket(ym)];
        order := order + [ym];
      }
      ghost var withBucket := totals;
      totals := totals[ym := AddSale(totals[ym], x)];
      TallyTurn(rows, i, totals0, order0, withBucket, totals, order);
      i := i + 1;
    }
    LoopDone(rows, i, totals, order);
  }

  lemma PrefixGrows<T>(s: seq<T>, i: nat)
    requires i < |s|
    ensures s[..i + 1] == s[..i] + [s[i]]
  {
  }

  /** The position of the first sale of month k in rows, or |rows| when
      the month has none. */
  function FirstSale(rows: seq<SaleRow>, k: YearMonth): (n: nat)
    ensures n <= |rows|
    ensures n < |rows| ==> MonthOf(rows[n].date) == k
    ensures forall j :: 0 <= j < n ==> MonthOf(rows[j].date) != k
  {
    if rows == [] then 0
    else if MonthOf(rows[0].date) == k then 0
    else
      var n := 1 + FirstSale(rows[1..], k);
      assert forall j :: 1 <= j < n ==> rows[j] == rows[1..][j - 1];
      n
  }

  /** One more sale moves no month's first sale, and gives a month without
      sales its first one at the end. */
  lemma FirstSaleSnoc(rows: seq<SaleRow>, x: SaleRow, k: YearMonth)
    ensures FirstSale(rows, k) < |rows| ==> FirstSale(rows + [x], k) == FirstSale(rows, k)
    ensures FirstSale(rows, k) == |rows| && MonthOf(x.date) == k ==> FirstSale(rows + [x], k) == |rows|
  {
    var n, n1 := FirstSale(rows, k), FirstSale(rows + [x], k);
    assert forall j :: 0 <= j < |rows| ==> (rows + [x])[j] == rows[j];
    if n < |rows| {
      assert (rows + [x])[n] == rows[n];
    } else if MonthOf(x.date) == k {
      assert (rows + [x])[|rows|] == x;
    }
  }

  /** The months of order have sales in seen, and are listed in the order
      of their first sale. */
  ghost predicate FirstSeenOrder(seen: seq<SaleRow>, order: seq<YearMonth>)
  {
    && (forall a :: 0 <= a < |order| ==> FirstSale(seen, order[a]) < |seen|)
    && (forall a, b :: 0 <= a < b < |order| ==> FirstSale(seen, order[a]) < FirstSale(seen, order[b]))
  }

  /** One turn of the loop keeps the first-seen order: a month met for the
      first time goes to the end of the order. */
  lemma OrderStep(seen: seq<SaleRow>, x: SaleRow, totals: map<YearMonth, MonthRow>,
                  order: seq<YearMonth>, order1: seq<YearMonth>)
    requires forall j :: 0 <= j < |seen| ==> MonthOf(seen[j].date) in totals
    requires FirstSeenOrder(seen, order)
    requires var ym := MonthOf(x.date); order1 == if ym in totals then order else order + [ym]
    ensures FirstSeenOrder(seen + [x], order1)
  {
    var ym := MonthOf(x.date);
    if ym in totals {
      KnownMonthsStay(seen, x, order);
    } else {
      FirstSaleSnoc(seen, x, ym);
      NewMonthLast(seen, x, order, ym);
    }
  }

  /** Months already seen keep their first sales after one more sale. */
  lemma KnownMonthsStay(seen: seq<SaleRow>, x: SaleRow, order: seq<YearMonth>)
    requires FirstSeenOrder(seen, order)
    ensures FirstSeenOrder(seen + [x], order)
    ensures forall a :: 0 <= a < |order| ==> FirstSale(seen + [x], order[a]) == FirstSale(seen, order[a])
  {
    forall a | 0 <= a < |order| ensures FirstSale(seen + [x], order[a]) == FirstSale(seen, order[a]) {
      FirstSaleSnoc(seen, x, order[a]);
    }
  }

  /** A month first met at the end of seen + [x] goes after every month
      met before. */
  lemma NewMonthLast(seen: seq<SaleRow>, x: SaleRow, order: seq<YearMonth>, ym: YearMonth)
    requires FirstSeenOrder(seen, order) && FirstSale(seen + [x], ym) == |seen|
    ensures FirstSeenOrder(seen + [x], order + [ym])
  {
    KnownMonthsStay(seen, x, order);
    var order1 := order + [ym];
    assert forall a :: 0 <= a < |order| ==> order1[a] == order[a];
  }

  /** The state of that loop after the sales in seen: the map holds one
      bucket per month seen, each the sums of its month, and the order
      lists those months once each. */
  ghost predicate Tallied(seen: seq<SaleRow>, totals: map<YearMonth, MonthRow>, order: seq<YearMonth>)
  {
    KeysListed(totals, order) && BucketsOfSeen(seen, totals)
  }

  ghost predicate KeysListed(totals: map<YearMonth, MonthRow>, order: seq<YearMonth>)
  {
    && (forall k :: k in totals <==> k in order)
    && (forall a, b :: 0 <= a < b < |order| ==> order[a] != order[b])
  }

  ghost predicate BucketsOfSeen(seen: seq<SaleRow>, totals: map<YearMonth, MonthRow>)
  {
    && (forall k :: k in totals ==> totals[k] == BucketOf(seen, k) && totals[k].transactions > 0)
    && (forall k :: k !in totals ==> BucketOf(seen, k) == NewBucket(k))
    && (forall j :: 0 <= j < |seen| ==> MonthOf(seen[j].date) in totals)
  }

  /** The loop's state after the first i sales. */
  ghost predicate LoopState(rows: seq<SaleRow>, i: int, totals: map<YearMonth, MonthRow>, order: seq<YearMonth>)
  {
    0 <= i <= |rows| && Tallied(rows[..i], totals, order) && FirstSeenOrder(rows[..i], order)
  }

  /** One turn of the loop keeps both the buckets and the first-seen order. */
  lemma TallyTurn(rows: seq<SaleRow>, i: int, totals: map<YearMonth, MonthRow>, order: seq<YearMonth>,
                  withBucket: map<YearMonth, MonthRow>, totals1: map<YearMonth, MonthRow>, order1: seq<YearMonth>)
    requires LoopState(rows, i, totals, order) && i < |rows|
    requires var ym := MonthOf(rows[i].date);
      && withBucket == (if ym in totals then totals else totals[ym := NewBucket(ym)])
      && order1 == (if ym in totals then order else order + [ym])
      && totals1 == withBucket[ym := AddSale(withBucket[ym], rows[i])]
    ensures LoopState(rows, i + 1, totals1, order1)
  {
    var seen, x := rows[..i], rows[i];
    TallyStep(seen, x, totals, order, withBucket, totals1, order1);
    OrderStep(seen, x, totals, order, order1);
    PrefixGrows(rows, i);
  }

  /** The loop's state at the end of the sales gives Accumulate's promises. */
  lemma LoopDone(rows: seq<SaleRow>, i: int, totals: map<YearMonth, MonthRow>, order: seq<YearMonth>)
    requires LoopState(rows, i, totals, order) && i >= |rows|
    ensures forall k :: k in totals <==> k in order
    ensures forall a, b :: 0 <= a < b < |order| ==> order[a] != order[b]
    ensures forall k :: k in totals ==> totals[k] == BucketOf(rows, k) && totals[k].transactions > 0
    ensures forall j :: 0 <= j < |rows| ==> MonthOf(rows[j].date) in totals
    ensures FirstSeenOrder(rows, order)
  {
    assert rows[..i] == rows;
  }

  /** One turn of the loop: a new month gets a zero bucket at the end of
      the order, then the sale is added to its month's bucket. */
  lemma TallyStep(seen: seq<SaleRow>, x: SaleRow, totals: map<YearMonth, MonthRow>, order: seq<YearMonth>,
                  withBucket: map<YearMonth, MonthRow>, totals1: map<YearMonth, MonthRow>, order1: seq<YearMonth>)
    requires Tallied(seen, totals, order)
    requires var ym := MonthOf(x.date);
      && withBucket == (if ym in totals then totals else totals[ym := NewBucket(ym)])
      && order1 == (if ym in totals then order else order + [ym])
      && totals1 == withBucket[ym := AddSale(withBucket[ym], x)]
    ensures Tallied(seen + [x], totals1, order1)
  {
    var ym := MonthOf(x.date);
    TallyKeys(totals, order, ym, totals1, order1);
    TallyBuckets(seen, x, totals, totals1);
  }

  lemma TallyKeys(totals: map<YearMonth, MonthRow>, order: seq<YearMonth>, ym: YearMonth,
                  totals1: map<YearMonth, MonthRow>, order1: seq<YearMonth>)
    requires KeysListed(totals, order)
    requires totals1.Keys == totals.Keys + {ym}
    requires order1 == if ym in totals then order else order + [ym]
    ensures KeysListed(totals1, order1)
  {
  }

  lemma TallyBuckets(seen: seq<SaleRow>, x: SaleRow, totals: map<YearMonth, MonthRow>,
                     totals1: map<YearMonth, MonthRow>)
    requires BucketsOfSeen(seen, totals)
    requires var ym := MonthOf(x.date);
      totals1 == totals[ym := AddSale(if ym in totals then totals[ym] else NewBucket(ym), x)]
    ensures BucketsOfSeen(seen + [x], totals1)
  {
    var ym := MonthOf(x.date);
    assert (if ym in totals then totals[ym] else NewBucket(ym)) == BucketOf(seen, ym);
    forall k {
      BucketStep(seen, x, k);
    }
    forall j | 0 <= j < |seen + [x]| ensures MonthOf((seen + [x])[j].date) in totals1 {
      if j < |seen| { assert (seen + [x])[j] == seen[j]; }
    }
  }

  /** Array.from(monthlyMap.values()): the buckets in the map's order. */
  function ValuesInOrder(totals: map<YearMonth, MonthRow>, order: seq<YearMonth>): (vs: seq<MonthRow>)
    requires forall k :: k in order ==> k in totals
    ensures |vs| == |order|
    ensures forall j :: 0 <= j < |order| ==> vs[j] == totals[order[j]]
  {
    seq(|order|, j requires 0 <= j < |order| => totals[order[j]])
  }

  /** The accumulated map, read out in its order, is a table of the rows
      with one bucket per month. */
  lemma ValuesFormTable(rows: seq<SaleRow>, totals: map<YearMonth, MonthRow>, order: seq<YearMonth>)
    requires forall k :: k in totals <==> k in order
    requires forall a, b :: 0 <= a < b < |order| ==> order[a] != order[b]
    requires forall k :: k in totals ==> totals[k] == BucketOf(rows, k) && totals[k].transactions > 0
    requires forall j :: 0 <= j < |rows| ==> MonthOf(rows[j].date) in totals
    ensures DistinctMonths(ValuesInOrder(totals, order))
    ensures BucketsOfRows(rows, ValuesInOrder(totals, order))
    ensures CoversRows(rows, ValuesInOrder(totals, order))
  {
    var vs := ValuesInOrder(totals, order);
    forall j | 0 <= j < |order| ensures vs[j].month == order[j] {
      assert totals[order[j]] == BucketOf(rows, order[j]);
    }
    forall j | 0 <= j < |rows| ensures MonthOf(rows[j].date) in Months(vs) {
      var a :| 0 <= a < |order| && order[a] == MonthOf(rows[j].date);
      assert Months(vs)[a] == order[a];
    }
  }

  /** Reordering a table keeps it a table of the same rows. */
  lemma PermutedTable(rows: seq<SaleRow>, vs: seq<MonthRow>, bs: seq<MonthRow>)
    requires multiset(vs) == multiset(bs)
    requires BucketsOfRows(rows, vs) && CoversRows(rows, vs)
    ensures BucketsOfRows(rows, bs) && CoversRows(rows, bs)
  {
    SameMembers(vs, bs);
    forall j | 0 <= j < |bs| ensures bs[j] == BucketOf(rows, bs[j].month) && bs[j].transactions > 0 {
      assert bs[j] in vs;
      var a :| 0 <= a < |vs| && vs[a] == bs[j];
    }
    forall j | 0 <= j < |rows| ensures MonthOf(rows[j].date) in Months(bs) {
      assert MonthOf(rows[j].date) in Months(vs);
      var a :| 0 <= a < |vs| && Months(vs)[a] == MonthOf(rows[j].date);
      assert vs[a] in bs;
      var b :| 0 <= b < |bs| && bs[b] == vs[a];
      assert Months(bs)[b] == MonthOf(rows[j].date);
    }
  }

  /** generateMonthlyData: one bucket per month that has sales, created on
      the month's first sale and incremented in place for each sale, then
      sorted chronologically; the bucket columns add up to the totals. */
  method MonthlyData(rows: seq<SaleRow>) returns (buckets: seq<MonthRow>)
    ensures Chronological(buckets)
    ensures BucketsOfRows(rows, buckets)
    ensures CoversRows(rows, buckets)
    ensures forall f :: BucketsSum(buckets, f) == Sum(rows, f)
    ensures BucketsSum(buckets, Count) == |rows|
  {
    var totals, order := Accumulate(rows);
    var values := ValuesInOrder(totals, order);
    ValuesFormTable(rows, totals, order);
    buckets := SortByMonth(values);
    SortOrders(values);
    PermutedTable(rows, values, buckets);
    forall f {
      BucketsAddUp(rows, buckets, f);
    }
  }

  /** The profit margin in percent: profit over sales times 100, and 0 when
      there are no sales to divide by. */
  function Margin(profit: int, sales: int): (m: real)
    ensures sales > 0 ==> m * sales as real == profit as real * 100.0
    ensures sales <= 0 ==> m == 0.0
  {
    if sales > 0 then (profit as real / sales as real) * 100.0 else 0.0
  }

  /** Multiplying by a positive number keeps the order. */
  lemma ScaleKeepsOrder(a: real, c: real, b: real)
    requires b > 0.0
    ensures a <= c <==> a * b <= c * b
  {
    if a <= c { assert (c - a) * b >= 0.0; } else { assert (a - c) * b > 0.0; }
  }

  /** The margin is shown green exactly when there is no loss, and it
      reaches 100 percent only when the profit is the whole sales. */
  lemma MarginSign(profit: int, sales: int)
    ensures Margin(profit, sales) >= 0.0 <==> sales <= 0 || profit >= 0
    ensures sales > 0 ==> (Margin(profit, sales) <= 100.0 <==> profit <= sales)
  {
    var m := Margin(profit, sales);
    if sales > 0 {
      var s := sales as real;
      assert m * s == profit as real * 100.0;
      ScaleKeepsOrder(0.0, m, s);
      ScaleKeepsOrder(m, 100.0, s);
    }
  }

  /** The three summary cards and the margin card. */
  datatype Summary = Summary(totalSales: int, totalCost: int, totalProfit: int, profitMargin: real)

  function Summarize(rows: seq<SaleRow>): Summary
  {
    var s := Sum(rows, Amount);
    var p := Sum(rows, Profit);
    Summary(s, Sum(rows, Cost), p, Margin(p, s))
  }

  /** The summary agrees with the monthly table: each total is the sum of
      the bucket column, and the margin is that of the column sums. */
  lemma SummaryMatchesTable(rows: seq<SaleRow>, bs: seq<MonthRow>)
    requires Chronological(bs) && BucketsOfRows(rows, bs) && CoversRows(rows, bs)
    ensures Summarize(rows).totalSales == BucketsSum(bs, Amount)
    ensures Summarize(rows).totalCost == BucketsSum(bs, Cost)
    ensures Summarize(rows).totalProfit == BucketsSum(bs, Profit)
    ensures Summarize(rows).profitMargin == Margin(BucketsSum(bs, Profit), BucketsSum(bs, Amount))
  {
    BucketsAddUp(rows, bs, Amount);
    BucketsAddUp(rows, bs, Cost);
    BucketsAddUp(rows, bs, Profit);
  }

  /** filteredSales.slice(0, 10): the first ten filtered sales, or all of
      them when there are fewer. */
  function Recent(rows: seq<SaleRow>): (r: seq<SaleRow>)
    ensures r <= rows
    ensures |r| == Min(RecentCount, |rows|)
  {
    rows[..Min(RecentCount, |rows|)]
  }

  /** The page's state: the loaded sales, the chosen period, and what the
      filter and the bucketing last produced. */
  class PnlPage {
    var sales: seq<SaleRow>
    var period: Period
    var filteredSales: seq<SaleRow>
    var monthlyData: seq<MonthRow>

    constructor ()
      ensures sales == [] && period == All && filteredSales == [] && monthlyData == []
    {
      sales, period, filteredSales, monthlyData := [], All, [], [];
    }

    /** loadSalesData: every stored sale, in the order the store lists them. */
    method LoadSalesData(db: Database)
      modifies this`sales
      ensures exists ss :: Listing(ss, db.sales) && sales == AsRows(ss)
    {
      var ss := db.ListSales();
      sales := AsRows(ss);
    }

    method SelectPeriod(p: Period)
      modifies this`period
      ensures period == p
    {
      period := p;
    }

    /** filterSalesData followed by generateMonthlyData on its result. */
    method FilterSalesData(now: Instant)
      requires 1 <= now.month <= 12
      modifies this`filteredSales, this`monthlyData
      ensures filteredSales == FilterSales(sales, period, now)
      ensures Chronological(monthlyData)
      ensures BucketsOfRows(filteredSales, monthlyData)
      ensures CoversRows(filteredSales, monthlyData)
      ensures BucketsSum(monthlyData, Count) == |filteredSales|
      ensures BucketsSum(monthlyData, Amount) == Summarize(filteredSales).totalSales
    {
      var filtered := FilterSales(sales, period, now);
      filteredSales := filtered;
      monthlyData := MonthlyData(filtered);
    }
  }
}
