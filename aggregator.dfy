/** Per-customer RFM metrics (main.py:72-79): group the cleaned lines by customer in
    ascending id order; recency is whole days from the reference time back to the
    customer's latest line, frequency the number of distinct invoices, monetary the sum
    of line revenues; customers whose monetary total is not positive are dropped. */
module Aggregator {
  import opened Seqs
  import opened Cleaner

  const MINUTES_PER_DAY: int := 1440

  /** One row of the RFM table. */
  datatype Metrics = Metrics(customer: int, recency: int, frequency: int, monetary: int)

  function CustomerSet(rows: seq<Txn>): set<int>
  {
    set t | t in rows :: t.customer
  }

  /** Adds an id to a strictly ascending list of ids. */
  function InsertId(c: int, ids: seq<int>): (r: seq<int>)
    requires Increasing(ids)
    ensures Increasing(r)
    ensures forall x :: x in r <==> x == c || x in ids
  {
    if ids == [] || c < ids[0] then
      [c] + ids
    else if c == ids[0] then
      ids
    else
      var tail := InsertId(c, ids[1..]);
      assert forall x :: x in tail ==> ids[0] < x;
      IncreasingCons(ids[0], tail);
      [ids[0]] + tail
  }

  /** The group keys, as pandas' groupby yields them: each customer once, ascending. */
  function CustomerIds(rows: seq<Txn>): (ids: seq<int>)
    ensures Increasing(ids)
    ensures forall c :: c in ids <==> c in CustomerSet(rows)
  {
    if rows == [] then
      []
    else
      assert CustomerSet(rows) == {rows[0].customer} + CustomerSet(rows[1..]) by {
        assert rows == [rows[0]] + rows[1..];
      }
      InsertId(rows[0].customer, CustomerIds(rows[1..]))
  }

  /** The lines of one customer, in their original order. */
  function RowsOf(rows: seq<Txn>, c: int): (r: seq<Txn>)
    ensures forall t :: t in r <==> t in rows && t.customer == c
  {
    Filter((t: Txn) => t.customer == c, rows)
  }

  /** The latest timestamp of a non-empty group. */
  function Latest(rows: seq<Txn>): (d: int)
    requires rows != []
    ensures exists t :: t in rows && t.invoiceDate == d
    ensures forall t :: t in rows ==> t.invoiceDate <= d
  {
    if |rows| == 1 then
      rows[0].invoiceDate
    else
      var rest := Latest(rows[1..]);
      assert rows == [rows[0]] + rows[1..];
      if rows[0].invoiceDate >= rest then rows[0].invoiceDate else rest
  }

  /** Whole days of a time difference, rounded down as a timedelta's day count is. */
  function DaysSince(today: int, latest: int): (days: int)
    ensures days * MINUTES_PER_DAY <= today - latest < (days + 1) * MINUTES_PER_DAY
  {
    (today - latest) / MINUTES_PER_DAY
  }

  /** The distinct invoice numbers of a group. */
  function Invoices(rows: seq<Txn>): set<string>
  {
    set t | t in rows :: t.invoice
  }

  /** The sum of line revenues. */
  function Revenue(rows: seq<Txn>): int
  {
    if rows == [] then 0 else rows[0].totalPrice + Revenue(rows[1..])
  }

  lemma GroupIsNonEmpty(rows: seq<Txn>, c: int)
    requires c in CustomerSet(rows)
    ensures RowsOf(rows, c) != [] && |Invoices(RowsOf(rows, c))| >= 1
  {
    var t :| t in rows && t.customer == c;
    assert t in RowsOf(rows, c);
    assert t.invoice in Invoices(RowsOf(rows, c));
  }

  /** The RFM row of one customer present in the table. */
  function MetricsOf(rows: seq<Txn>, c: int, today: int): (m: Metrics)
    requires c in CustomerSet(rows)
    ensures m.customer == c
    ensures m.frequency >= 1
    ensures m.frequency == |Invoices(RowsOf(rows, c))|
    ensures m.monetary == Revenue(RowsOf(rows, c))
    ensures exists t :: (t in rows && t.customer == c &&
      m.recency * MINUTES_PER_DAY <= today - t.invoiceDate < (m.recency + 1) * MINUTES_PER_DAY)
    ensures forall t :: t in rows && t.customer == c ==> m.recency * MINUTES_PER_DAY <= today - t.invoiceDate
  {
    var mine := RowsOf(rows, c);
    GroupIsNonEmpty(rows, c);
    var latest := Latest(mine);
    Metrics(c, DaysSince(today, latest), |Invoices(mine)|, Revenue(mine))
  }

  function MetricsFor(rows: seq<Txn>, ids: seq<int>, today: int): (table: seq<Metrics>)
    requires forall c :: c in ids ==> c in CustomerSet(rows)
    ensures |table| == |ids|
    ensures forall i :: 0 <= i < |ids| ==> table[i] == MetricsOf(rows, ids[i], today)
  {
    if ids == [] then [] else [MetricsOf(rows, ids[0], today)] + MetricsFor(rows, ids[1..], today)
  }

  predicate ByCustomer(table: seq<Metrics>)
  {
    forall i, j :: 0 <= i < j < |table| ==> table[i].customer < table[j].customer
  }

  /** Row i of the grouped table belongs to the i-th group key. */
  lemma GroupKeys(rows: seq<Txn>, today: int)
    ensures var ids := CustomerIds(rows);
            var table := MetricsFor(rows, ids, today);
            |table| == |ids| && forall i :: 0 <= i < |ids| ==> table[i].customer == ids[i]
  {
    var ids := CustomerIds(rows);
    var table := MetricsFor(rows, ids, today);
    forall i | 0 <= i < |ids| ensures table[i].customer == ids[i] {
      assert table[i] == MetricsOf(rows, ids[i], today);
    }
  }

  lemma GroupFacts(rows: seq<Txn>, today: int)
    ensures var table := MetricsFor(rows, CustomerIds(rows), today);
            && ByCustomer(table)
            && (forall c :: c in CustomerSet(rows) <==> exists i :: 0 <= i < |table| && table[i].customer == c)
            && (forall i :: 0 <= i < |table| ==> table[i] == MetricsOf(rows, table[i].customer, today))
  {
    var ids := CustomerIds(rows);
    var table := MetricsFor(rows, ids, today);
    GroupKeys(rows, today);
    forall c ensures c in CustomerSet(rows) <==> exists i :: 0 <= i < |table| && table[i].customer == c {
      if c in CustomerSet(rows) {
        var i :| 0 <= i < |ids| && ids[i] == c;
        assert table[i].customer == c;
      }
      if exists i :: 0 <= i < |table| && table[i].customer == c {
        var i :| 0 <= i < |table| && table[i].customer == c;
        assert ids[i] in ids;
      }
    }
  }

  /** The grouped table (main.py:74-78): one row per distinct customer, ascending by id. */
  function GroupByCustomer(rows: seq<Txn>, today: int): (table: seq<Metrics>)
    ensures ByCustomer(table)
    ensures forall c :: c in CustomerSet(rows) <==> exists i :: 0 <= i < |table| && table[i].customer == c
    ensures forall i :: 0 <= i < |table| ==> table[i] == MetricsOf(rows, table[i].customer, today)
  {
    GroupFacts(rows, today);
    MetricsFor(rows, CustomerIds(rows), today)
  }

  /** The monetary filter (main.py:79). */
  function KeepPositive(table: seq<Metrics>): (r: seq<Metrics>)
    ensures forall m :: m in r <==> m in table && m.monetary > 0
  {
    Filter((m: Metrics) => m.monetary > 0, table)
  }

  lemma {:induction false} KeepPositiveByCustomer(table: seq<Metrics>)
    requires ByCustomer(table)
    ensures ByCustomer(KeepPositive(table))
  {
    if table != [] {
      var rest := KeepPositive(table[1..]);
      assert ByCustomer(table[1..]);
      KeepPositiveByCustomer(table[1..]);
      forall m | m in rest ensures table[0].customer < m.customer {
        var j :| 0 <= j < |table[1..]| && table[1..][j] == m;
        assert table[j + 1] == m;
      }
    }
  }

  /** The RFM table: exactly the customers of the cleaned lines whose revenue sums to a
      positive amount, ascending by id, each with its own metrics. */
  function Aggregate(rows: seq<Txn>, today: int): (table: seq<Metrics>)
    ensures ByCustomer(table)
    ensures forall m :: m in table ==> m.monetary > 0 && m.frequency >= 1
    ensures forall m :: m in table ==> m.customer in CustomerSet(rows) && m == MetricsOf(rows, m.customer, today)
    ensures forall c :: c in CustomerSet(rows) && MetricsOf(rows, c, today).monetary > 0 ==>
      MetricsOf(rows, c, today) in table
  {
    var grouped := GroupByCustomer(rows, today);
    KeepPositiveByCustomer(grouped);
    assert forall m :: m in grouped ==> m.customer in CustomerSet(rows) && m == MetricsOf(rows, m.customer, today);
    KeepPositive(grouped)
  }

  /** The sum over a list of customers of each one's revenue. */
  function RevenueByCustomer(rows: seq<Txn>, ids: seq<int>): int
  {
    if ids == [] then 0 else Revenue(RowsOf(rows, ids[0])) + RevenueByCustomer(rows, ids[1..])
  }

  function TotalMonetary(table: seq<Metrics>): int
  {
    if table == [] then 0 else table[0].monetary + TotalMonetary(table[1..])
  }

  lemma {:induction false} RevenueOfNone(ids: seq<int>)
    ensures RevenueByCustomer([], ids) == 0
  {
    if ids != [] {
      RevenueOfNone(ids[1..]);
    }
  }

  /** Splitting off the first line adds its revenue to exactly one customer. */
  lemma {:induction false} RevenueByCustomerCons(t: Txn, rest: seq<Txn>, ids: seq<int>)
    requires Distinct(ids)
    ensures RevenueByCustomer([t] + rest, ids) ==
      (if t.customer in ids then t.totalPrice else 0) + RevenueByCustomer(rest, ids)
  {
    if ids != [] {
      var c := ids[0];
      assert ([t] + rest)[1..] == rest;
      var mine := (if t.customer == c then [t] else []) + RowsOf(rest, c);
      assert RowsOf([t] + rest, c) == mine;
      if t.customer == c {
        assert mine[0] == t && mine[1..] == RowsOf(rest, c);
        assert Revenue(mine) == t.totalPrice + Revenue(RowsOf(rest, c));
      } else {
        assert mine == RowsOf(rest, c);
      }
      assert ids == [c] + ids[1..];
      assert Distinct(ids[1..]);
      RevenueByCustomerCons(t, rest, ids[1..]);
      assert t.customer == c ==> t.customer !in ids[1..];
    }
  }

  lemma {:induction false} RevenueIsPartitioned(rows: seq<Txn>, ids: seq<int>)
    requires Distinct(ids)
    requires forall c :: c in CustomerSet(rows) ==> c in ids
    ensures RevenueByCustomer(rows, ids) == Revenue(rows)
  {
    if rows == [] {
      RevenueOfNone(ids);
    } else {
      assert rows == [rows[0]] + rows[1..];
      assert CustomerSet(rows[1..]) <= CustomerSet(rows);
      RevenueIsPartitioned(rows[1..], ids);
      RevenueByCustomerCons(rows[0], rows[1..], ids);
      assert rows[0].customer in CustomerSet(rows);
    }
  }

  lemma {:induction false} TotalOfMetricsFor(rows: seq<Txn>, ids: seq<int>, today: int)
    requires forall c :: c in ids ==> c in CustomerSet(rows)
    ensures TotalMonetary(MetricsFor(rows, ids, today)) == RevenueByCustomer(rows, ids)
  {
    if ids != [] {
      TotalOfMetricsFor(rows, ids[1..], today);
      assert MetricsFor(rows, ids, today)[1..] == MetricsFor(rows, ids[1..], today);
    }
  }

  /** Grouping neither loses nor double-counts revenue: the monetary column of the grouped
      table sums to the revenue of all cleaned lines. */
  lemma MonetaryIsConserved(rows: seq<Txn>, today: int)
    ensures TotalMonetary(GroupByCustomer(rows, today)) == Revenue(rows)
  {
    var ids := CustomerIds(rows);
    TotalOfMetricsFor(rows, ids, today);
    RevenueIsPartitioned(rows, ids);
  }

  /** The reference time of main.py:72, 2011-12-11 00:00, in minutes after the epoch
      2011-12-01 00:00 used by the examples below. */
  const TODAY: int := 10 * MINUTES_PER_DAY

  /** The latest line of the sheet, 2011-12-09 12:50, is one whole day before the
      reference time. */
  lemma LatestLineExample()
    ensures DaysSince(TODAY, 8 * MINUTES_PER_DAY + 12 * 60 + 50) == 1
  {
  }

  /** Three lines of customer 100 with revenues 10, 20 and 30 on invoices A, A and B,
      all five days before the reference time. */
  function ThreeLines(): seq<Txn>
  {
    var day := TODAY - 5 * MINUTES_PER_DAY;
    [Txn("A", "p1", "d1", 1, day, 10, 100, "UK", 10),
     Txn("A", "p2", "d2", 2, day, 10, 100, "UK", 20),
     Txn("B", "p3", "d3", 3, day, 10, 100, "UK", 30)]
  }

  lemma ThreeLinesGroup()
    ensures CustomerSet(ThreeLines()) == {100}
    ensures RowsOf(ThreeLines(), 100) == ThreeLines()
    ensures CustomerIds(ThreeLines()) == [100]
  {
    var rows := ThreeLines();
    FilterAll((t: Txn) => t.customer == 100, rows);
    assert CustomerIds(rows[1..][1..]) == [100];
    assert CustomerIds(rows[1..]) == [100];
  }

  lemma ThreeLinesInvoices()
    ensures |Invoices(ThreeLines())| == 2
  {
    assert Invoices(ThreeLines()) == {"A", "B"};
  }

  lemma ThreeLinesLatest()
    ensures Latest(ThreeLines()) == TODAY - 5 * MINUTES_PER_DAY
  {
    var rows := ThreeLines();
    assert rows[1..][1..] == [rows[2]];
  }

  lemma ThreeLinesRevenue()
    ensures Revenue(ThreeLines()) == 60
  {
    var rows := ThreeLines();
    assert rows[1..][1..] == [rows[2]];
    assert Revenue(rows[1..][1..]) == 30;
    assert Revenue(rows[1..]) == 50;
  }

  lemma ThreeLinesMetrics()
    ensures MetricsOf(ThreeLines(), 100, TODAY) == Metrics(100, 5, 2, 60)
  {
    ThreeLinesGroup();
    ThreeLinesInvoices();
    ThreeLinesLatest();
    ThreeLinesRevenue();
  }

  /** The three lines aggregate to recency 5, frequency 2, monetary 60. */
  lemma ThreeLineExample()
    ensures Aggregate(ThreeLines(), TODAY) == [Metrics(100, 5, 2, 60)]
  {
    var m := Metrics(100, 5, 2, 60);
    ThreeLinesGroup();
    ThreeLinesMetrics();
    var table := Aggregate(ThreeLines(), TODAY);
    assert m in table;
    assert forall x :: x in table ==> x == m;
    assert |table| == 1 by {
      assert table[0] in table;
    }
  }
}
