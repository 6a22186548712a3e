/**
 Per-customer features, CLTV_Prediction.py lines 88-100: group the cleaned
 rows by customer id, aggregate each group into recency and T (whole days),
 frequency (distinct invoices) and the summed total price, then turn days
 into weeks and the sum into a mean per invoice, and keep the customers
 with more than one invoice.
 */
module Features {
  import opened Transactions
  import opened Sequences

  /** One group of `df.groupby('Customer ID')`: the key and that customer's
      rows in their original order. */
  datatype Group = Group(customerId: int, rows: seq<Row>)

  /** One row of `cltv_df`, indexed by customer id. Straight out of the
      aggregation `recency` and `t` hold whole days and `monetary` the summed
      total; after `WeeklyUnits` they hold weeks and the mean per invoice. */
  datatype CustomerRow = CustomerRow(customerId: int, recency: real, t: real, frequency: nat, monetary: real)

  // ---------------------------------------------------------------------------
  // The rows of one customer and what is aggregated over them

  /** The rows of customer `c`, in their original order. */
  function RowsOf(rows: seq<Row>, c: int): seq<Row>
  {
    Filter(rows, (r: Row) => r.customerId == c)
  }

  /** `date.min()`. */
  function FirstDate(s: seq<Row>): (d: int)
    requires |s| > 0
    ensures forall i :: 0 <= i < |s| ==> d <= s[i].invoiceDate
    ensures exists i :: 0 <= i < |s| && d == s[i].invoiceDate
  {
    if |s| == 1 then s[0].invoiceDate
    else
      var d0 := FirstDate(s[..|s| - 1]);
      if s[|s| - 1].invoiceDate < d0 then s[|s| - 1].invoiceDate else d0
  }

  /** `date.max()`. */
  function LastDate(s: seq<Row>): (d: int)
    requires |s| > 0
    ensures forall i :: 0 <= i < |s| ==> s[i].invoiceDate <= d
    ensures exists i :: 0 <= i < |s| && d == s[i].invoiceDate
  {
    if |s| == 1 then s[0].invoiceDate
    else
      var d0 := LastDate(s[..|s| - 1]);
      if s[|s| - 1].invoiceDate > d0 then s[|s| - 1].invoiceDate else d0
  }

  /** The distinct invoice numbers; `num.nunique()` is its size. */
  function Invoices(s: seq<Row>): (inv: set<string>)
    ensures forall x :: x in inv <==> exists i :: 0 <= i < |s| && s[i].invoice == x
  {
    set r | r in s :: r.invoice
  }

  /** Appending a row adds its invoice number to the distinct ones. */
  lemma InvoicesSnoc(s: seq<Row>, r: Row)
    ensures Invoices(s + [r]) == Invoices(s) + {r.invoice}
  {
  }

  /** There are never more distinct invoices than invoice lines, and a
      customer with a line has at least one invoice. */
  lemma {:induction false} InvoicesAtMostRows(s: seq<Row>)
    ensures |Invoices(s)| <= |s|
    ensures |s| > 0 ==> |Invoices(s)| >= 1
  {
    if |s| > 0 {
      var init := s[..|s| - 1];
      assert s == init + [s[|s| - 1]];
      InvoicesAtMostRows(init);
      InvoicesSnoc(init, s[|s| - 1]);
    }
  }

  /** `TotalPrice.sum()`. */
  function SumTotalPrice(s: seq<Row>): real
  {
    if |s| == 0 then 0.0 else SumTotalPrice(s[..|s| - 1]) + TotalPrice(s[|s| - 1])
  }

  /** The aggregation of one group, as `agg` computes it. */
  function AggregateGroup(g: Group, today: int): (c: CustomerRow)
    requires |g.rows| > 0
    ensures c.customerId == g.customerId
    ensures c.frequency >= 1
    ensures c.recency >= 0.0
    ensures (forall i :: 0 <= i < |g.rows| ==> g.rows[i].invoiceDate <= today) ==> c.recency <= c.t
  {
    var first, last := FirstDate(g.rows), LastDate(g.rows);
    assert g.rows[0].invoice in Invoices(g.rows);
    CustomerRow(
      g.customerId,
      WholeDays(last - first) as real,
      WholeDays(today - first) as real,
      |Invoices(g.rows)|,
      SumTotalPrice(g.rows))
  }

  // ---------------------------------------------------------------------------
  // The group-by, as a fold that inserts each row into a list of groups
  // kept in ascending key order (pandas sorts the group keys)

  ghost predicate AscendingKeys(gs: seq<Group>)
  {
    forall i, j :: 0 <= i < j < |gs| ==> gs[i].customerId < gs[j].customerId
  }

  ghost predicate NonEmptyGroups(gs: seq<Group>)
  {
    forall i :: 0 <= i < |gs| ==> |gs[i].rows| > 0
  }

  /** The rows filed under key `c`, or none. */
  function GroupRows(gs: seq<Group>, c: int): seq<Row>
  {
    if |gs| == 0 then []
    else if gs[0].customerId == c then gs[0].rows
    else GroupRows(gs[1..], c)
  }

  /** File row `r` under its customer, after the rows already there. */
  function Insert(gs: seq<Group>, r: Row): (res: seq<Group>)
    ensures |res| > 0
    ensures res[0].customerId ==
      if |gs| == 0 || r.customerId < gs[0].customerId then r.customerId else gs[0].customerId
    ensures NonEmptyGroups(gs) ==> NonEmptyGroups(res)
  {
    if |gs| == 0 then [Group(r.customerId, [r])]
    else if r.customerId == gs[0].customerId then [Group(gs[0].customerId, gs[0].rows + [r])] + gs[1..]
    else if r.customerId < gs[0].customerId then [Group(r.customerId, [r])] + gs
    else [gs[0]] + Insert(gs[1..], r)
  }

  /** `df.groupby('Customer ID')`. */
  function GroupByCustomer(rows: seq<Row>): (gs: seq<Group>)
    ensures NonEmptyGroups(gs)
  {
    if |rows| == 0 then []
    else Insert(GroupByCustomer(rows[..|rows| - 1]), rows[|rows| - 1])
  }

  lemma {:induction false} GroupRowsAbsent(gs: seq<Group>, c: int)
    requires forall i :: 0 <= i < |gs| ==> gs[i].customerId != c
    ensures GroupRows(gs, c) == []
  {
    if |gs| > 0 {
      GroupRowsAbsent(gs[1..], c);
    }
  }

  /** In an ascending list, looking up a group's own key finds that group. */
  lemma {:induction false} GroupRowsAt(gs: seq<Group>, i: nat)
    requires AscendingKeys(gs) && i < |gs|
    ensures GroupRows(gs, gs[i].customerId) == gs[i].rows
  {
    if i > 0 {
      GroupRowsAt(gs[1..], i - 1);
    }
  }

  /** A key with rows filed under it is the key of some group. */
  lemma {:induction false} GroupRowsPresent(gs: seq<Group>, c: int)
    requires GroupRows(gs, c) != []
    ensures exists i :: 0 <= i < |gs| && gs[i].customerId == c
  {
    if gs[0].customerId != c {
      GroupRowsPresent(gs[1..], c);
      var i :| 0 <= i < |gs[1..]| && gs[1..][i].customerId == c;
      assert gs[i + 1].customerId == c;
    }
  }

  /** Inserting keeps the keys ascending and the groups non-empty, and adds
      `r` at the end of its own customer's rows and nowhere else. */
  lemma {:induction false} InsertFilesRow(gs: seq<Group>, r: Row)
    requires AscendingKeys(gs) && NonEmptyGroups(gs)
    ensures AscendingKeys(Insert(gs, r)) && NonEmptyGroups(Insert(gs, r))
    ensures forall c :: GroupRows(Insert(gs, r), c) == GroupRows(gs, c) + (if c == r.customerId then [r] else [])
  {
    var res := Insert(gs, r);
    if |gs| == 0 {
    } else if r.customerId == gs[0].customerId {
      assert res[1..] == gs[1..];
      assert forall i :: 0 <= i < |res| ==> res[i].customerId == gs[i].customerId;
    } else if r.customerId < gs[0].customerId {
      assert res[1..] == gs;
      GroupRowsAbsent(gs, r.customerId);
    } else {
      var tail := gs[1..];
      InsertFilesRow(tail, r);
      assert res[1..] == Insert(tail, r);
      forall c
        ensures GroupRows(res, c) == GroupRows(gs, c) + (if c == r.customerId then [r] else [])
      {
        if c == gs[0].customerId {
          assert c != r.customerId;
        }
      }
    }
  }

  /** The group-by has one group per customer, in ascending key order, and
      each group holds exactly that customer's rows in their original order. */
  lemma {:induction false} GroupByCustomerSpec(rows: seq<Row>)
    ensures AscendingKeys(GroupByCustomer(rows)) && NonEmptyGroups(GroupByCustomer(rows))
    ensures forall c :: GroupRows(GroupByCustomer(rows), c) == RowsOf(rows, c)
  {
    if |rows| > 0 {
      var init, r := rows[..|rows| - 1], rows[|rows| - 1];
      GroupByCustomerSpec(init);
      InsertFilesRow(GroupByCustomer(init), r);
      forall c
        ensures GroupRows(GroupByCustomer(rows), c) == RowsOf(rows, c)
      {
      }
    }
  }

  /** The groups seen by index: each is its customer's rows, and every
      customer of the table has a group. */
  lemma GroupsAreCustomers(rows: seq<Row>)
    ensures var g := GroupByCustomer(rows);
      && AscendingKeys(g)
      && (forall i :: 0 <= i < |g| ==> |g[i].rows| > 0 && g[i].rows == RowsOf(rows, g[i].customerId))
      && (forall k :: 0 <= k < |rows| ==> exists i :: 0 <= i < |g| && g[i].customerId == rows[k].customerId)
  {
    var g := GroupByCustomer(rows);
    GroupByCustomerSpec(rows);
    forall i | 0 <= i < |g|
      ensures g[i].rows == RowsOf(rows, g[i].customerId)
    {
      GroupRowsAt(g, i);
    }
    forall k | 0 <= k < |rows|
      ensures exists i :: 0 <= i < |g| && g[i].customerId == rows[k].customerId
    {
      var c := rows[k].customerId;
      FilterMembers(rows, (r: Row) => r.customerId == c, rows[k]);
      assert rows[k] in RowsOf(rows, c);
      GroupRowsPresent(g, c);
    }
  }

  // ---------------------------------------------------------------------------
  // The aggregated table and its post-processing

  /** `df.groupby('Customer ID').agg(...)`: one row per group, in key order. */
  function Aggregate(rows: seq<Row>, today: int): seq<CustomerRow>
  {
    var g := GroupByCustomer(rows);
    seq(|g|, i requires 0 <= i < |g| => AggregateGroup(g[i], today))
  }

  /** Lines 97-99 on one row: monetary per invoice, recency and T in weeks. */
  function WeeklyRow(c: CustomerRow): (w: CustomerRow)
    requires c.frequency >= 1
    ensures w.customerId == c.customerId && w.frequency == c.frequency
    ensures w.monetary * c.frequency as real == c.monetary
    ensures w.recency * 7.0 == c.recency && w.t * 7.0 == c.t
  {
    c.(monetary := c.monetary / c.frequency as real, recency := c.recency / 7.0, t := c.t / 7.0)
  }

  /** Lines 97-99 on the whole table. */
  function WeeklyUnits(s: seq<CustomerRow>): (w: seq<CustomerRow>)
    requires forall i :: 0 <= i < |s| ==> s[i].frequency >= 1
    ensures |w| == |s|
    ensures forall i :: 0 <= i < |s| ==>
      && w[i].customerId == s[i].customerId
      && w[i].frequency == s[i].frequency
      && w[i].monetary * w[i].frequency as real == s[i].monetary
      && w[i].recency * 7.0 == s[i].recency
      && w[i].t * 7.0 == s[i].t
  {
    seq(|s|, i requires 0 <= i < |s| => WeeklyRow(s[i]))
  }

  /** Lines 97-99, overwriting the columns of `cltv_df` in place. */
  method ToWeeklyUnits(cltv: array<CustomerRow>)
    requires forall i :: 0 <= i < cltv.Length ==> cltv[i].frequency >= 1
    modifies cltv
    ensures cltv[..] == WeeklyUnits(old(cltv[..]))
  {
    var i := 0;
    while i < cltv.Length
      invariant 0 <= i <= cltv.Length
      invariant forall k :: 0 <= k < i ==> old(cltv[k]).frequency >= 1 && cltv[k] == WeeklyRow(old(cltv[k]))
      invariant forall k :: i <= k < cltv.Length ==> cltv[k] == old(cltv[k])
    {
      var c := cltv[i];
      cltv[i] := c.(monetary := c.monetary / c.frequency as real);
      cltv[i] := cltv[i].(recency := cltv[i].recency / 7.0);
      cltv[i] := cltv[i].(t := cltv[i].t / 7.0);
      i := i + 1;
    }
  }

  /** `cltv_df['frequency'] > 1`. */
  predicate HasRepeatPurchase(c: CustomerRow)
  {
    c.frequency > 1
  }

  /** The final `cltv_df` as a function of the cleaned, capped rows. */
  function CustomerTable(rows: seq<Row>, today: int): seq<CustomerRow>
  {
    var agg := Aggregate(rows, today);
    Filter(WeeklyUnits(agg), HasRepeatPurchase)
  }

  // ---------------------------------------------------------------------------
  // Properties of the aggregated and of the final table

  /** Row `c` of the aggregated table describes the rows `s` of its customer:
      frequency is the number of distinct invoices, monetary the summed
      total price, recency and T the whole days from the first invoice to
      the last one and to `today`. */
  ghost predicate AggregatedFrom(c: CustomerRow, s: seq<Row>, today: int)
  {
    && |s| > 0
    && c.frequency == |Invoices(s)|
    && c.monetary == SumTotalPrice(s)
    && c.recency == WholeDays(LastDate(s) - FirstDate(s)) as real
    && c.t == WholeDays(today - FirstDate(s)) as real
  }

  lemma AggregateAt(rows: seq<Row>, today: int, i: nat)
    requires i < |GroupByCustomer(rows)|
    ensures |Aggregate(rows, today)| == |GroupByCustomer(rows)|
    ensures GroupByCustomer(rows)[i].rows != []
    ensures Aggregate(rows, today)[i] == AggregateGroup(GroupByCustomer(rows)[i], today)
  {
  }

  /** Before the frequency filter the aggregated table has one row per
      customer, in ascending id order. */
  lemma AggregateAscending(rows: seq<Row>, today: int)
    ensures var agg := Aggregate(rows, today);
      forall i, j :: 0 <= i < j < |agg| ==> agg[i].customerId < agg[j].customerId
  {
    var g := GroupByCustomer(rows);
    var agg := Aggregate(rows, today);
    GroupByCustomerSpec(rows);
    forall i, j | 0 <= i < j < |agg|
      ensures agg[i].customerId < agg[j].customerId
    {
      AggregateAt(rows, today, i);
      AggregateAt(rows, today, j);
    }
  }

  /** Every customer of the cleaned rows has a row in the aggregated table. */
  lemma AggregateCoversCustomers(rows: seq<Row>, today: int)
    ensures var agg := Aggregate(rows, today);
      forall k :: 0 <= k < |rows| ==> exists i :: 0 <= i < |agg| && agg[i].customerId == rows[k].customerId
  {
    var g := GroupByCustomer(rows);
    var agg := Aggregate(rows, today);
    GroupsAreCustomers(rows);
    forall k | 0 <= k < |rows|
      ensures exists i :: 0 <= i < |agg| && agg[i].customerId == rows[k].customerId
    {
      var i :| 0 <= i < |g| && g[i].customerId == rows[k].customerId;
      AggregateAt(rows, today, i);
      assert agg[i].customerId == rows[k].customerId;
    }
  }

  /** Each row of the aggregated table is aggregated from exactly its
      customer's rows, so it counts at least one invoice. */
  lemma AggregateDescribesCustomers(rows: seq<Row>, today: int)
    ensures var agg := Aggregate(rows, today);
      forall i :: 0 <= i < |agg| ==>
        agg[i].frequency >= 1 && AggregatedFrom(agg[i], RowsOf(rows, agg[i].customerId), today)
  {
    var g := GroupByCustomer(rows);
    var agg := Aggregate(rows, today);
    GroupsAreCustomers(rows);
    forall i | 0 <= i < |agg|
      ensures agg[i].frequency >= 1 && AggregatedFrom(agg[i], RowsOf(rows, agg[i].customerId), today)
    {
      AggregateAt(rows, today, i);
    }
  }

  /** Each row of the final table comes, in order, from the aggregated row
      at a kept position. */
  lemma CustomerTableAt(rows: seq<Row>, today: int, k: nat)
    requires k < |CustomerTable(rows, today)|
    ensures var agg := Aggregate(rows, today);
      exists j :: 0 <= j < |agg| && agg[j].frequency >= 1
        && CustomerTable(rows, today)[k] == WeeklyRow(agg[j])
  {
    var agg := Aggregate(rows, today);
    AggregateDescribesCustomers(rows, today);
    var w := WeeklyUnits(agg);
    FilterAtKeptIndices(w, HasRepeatPurchase);
    KeptIndicesExact(w, HasRepeatPurchase);
    var j := KeptIndices(w, HasRepeatPurchase)[k];
    assert CustomerTable(rows, today)[k] == w[j];
  }

  /** The final table has at most one row per customer, in ascending id order. */
  lemma CustomerTableAscending(rows: seq<Row>, today: int)
    ensures var t := CustomerTable(rows, today);
      forall i, j :: 0 <= i < j < |t| ==> t[i].customerId < t[j].customerId
  {
    var agg := Aggregate(rows, today);
    AggregateDescribesCustomers(rows, today);
    AggregateAscending(rows, today);
    var w := WeeklyUnits(agg);
    FilterKeepsAscending(w, HasRepeatPurchase, (c: CustomerRow) => c.customerId);
  }

  /** Row `c` of the final table describes the rows `s` of its customer:
      frequency is the number of distinct invoices, monetary times frequency
      gives back the summed total price, recency and T times seven are the
      whole days from the first invoice to the last one and to `today`. */
  ghost predicate DescribedInWeeks(c: CustomerRow, s: seq<Row>, today: int)
  {
    && |s| > 0
    && c.frequency == |Invoices(s)|
    && c.monetary * c.frequency as real == SumTotalPrice(s)
    && c.recency * 7.0 == WholeDays(LastDate(s) - FirstDate(s)) as real
    && c.t * 7.0 == WholeDays(today - FirstDate(s)) as real
  }

  /** Converting to weeks and to a mean keeps the description of the rows. */
  lemma WeeklyRowDescribes(c: CustomerRow, s: seq<Row>, today: int)
    requires c.frequency >= 1 && AggregatedFrom(c, s, today)
    ensures DescribedInWeeks(WeeklyRow(c), s, today)
  {
  }

  lemma CustomerTableRow(rows: seq<Row>, today: int, k: nat)
    requires k < |CustomerTable(rows, today)|
    ensures var c := CustomerTable(rows, today)[k];
      c.frequency >= 2 && DescribedInWeeks(c, RowsOf(rows, c.customerId), today)
  {
    var agg := Aggregate(rows, today);
    var t := CustomerTable(rows, today);
    AggregateDescribesCustomers(rows, today);
    var w := WeeklyUnits(agg);
    CustomerTableAt(rows, today, k);
    var j :| 0 <= j < |agg| && agg[j].frequency >= 1 && t[k] == WeeklyRow(agg[j]);
    assert t[k] == w[j];
    FilterMembers(w, HasRepeatPurchase, t[k]);
    WeeklyRowDescribes(agg[j], RowsOf(rows, agg[j].customerId), today);
  }

  /** Every row of the final table describes its customer's rows and has
      at least two distinct invoices. */
  lemma CustomerTableDescribesCustomers(rows: seq<Row>, today: int)
    ensures var t := CustomerTable(rows, today);
      forall k :: 0 <= k < |t| ==>
        t[k].frequency >= 2 && DescribedInWeeks(t[k], RowsOf(rows, t[k].customerId), today)
  {
    var t := CustomerTable(rows, today);
    forall k | 0 <= k < |t|
      ensures t[k].frequency >= 2 && DescribedInWeeks(t[k], RowsOf(rows, t[k].customerId), today)
    {
      CustomerTableRow(rows, today, k);
    }
  }

  /** An aggregated row with more than one invoice reaches the final table. */
  lemma RepeatRowKept(rows: seq<Row>, today: int, j: nat)
    requires j < |Aggregate(rows, today)| && Aggregate(rows, today)[j].frequency > 1
    ensures var t := CustomerTable(rows, today);
      exists i :: 0 <= i < |t| && t[i].customerId == Aggregate(rows, today)[j].customerId
  {
    var agg := Aggregate(rows, today);
    var t := CustomerTable(rows, today);
    var w := WeeklyUnits(agg);
    assert HasRepeatPurchase(w[j]);
    FilterMembers(w, HasRepeatPurchase, w[j]);
    var i :| 0 <= i < |t| && t[i] == w[j];
  }

  /** The customer of row `k` of the cleaned rows has at least one invoice,
      and is kept when they have more than one. */
  lemma RepeatCustomerKept(rows: seq<Row>, today: int, k: nat)
    requires k < |rows|
    ensures var s := RowsOf(rows, rows[k].customerId);
      |Invoices(s)| >= 1
    ensures var t, s := CustomerTable(rows, today), RowsOf(rows, rows[k].customerId);
      |Invoices(s)| > 1 ==> exists i :: 0 <= i < |t| && t[i].customerId == rows[k].customerId
  {
    var agg := Aggregate(rows, today);
    var c := rows[k].customerId;
    AggregateCoversCustomers(rows, today);
    var j :| 0 <= j < |agg| && agg[j].customerId == c;
    AggregateDescribesCustomers(rows, today);
    assert agg[j].frequency >= 1 && AggregatedFrom(agg[j], RowsOf(rows, c), today);
    if |Invoices(RowsOf(rows, c))| > 1 {
      RepeatRowKept(rows, today, j);
    }
  }

  /** Whether the customer of row `k` of the cleaned rows is kept. */
  lemma CustomerKeptIffRepeat(rows: seq<Row>, today: int, k: nat)
    requires k < |rows|
    ensures var t, s := CustomerTable(rows, today), RowsOf(rows, rows[k].customerId);
      && |Invoices(s)| >= 1
      && ((exists i :: 0 <= i < |t| && t[i].customerId == rows[k].customerId) <==> |Invoices(s)| > 1)
  {
    var t := CustomerTable(rows, today);
    var c := rows[k].customerId;
    RepeatCustomerKept(rows, today, k);
    if i :| 0 <= i < |t| && t[i].customerId == c {
      CustomerTableRow(rows, today, i);
    }
  }

  /** A customer of the cleaned rows is kept iff they have more than one
      distinct invoice; since every customer has at least one, the dropped
      customers are exactly those with a single invoice. */
  lemma CustomerTableKeepsRepeatCustomers(rows: seq<Row>, today: int)
    ensures var t := CustomerTable(rows, today);
      forall k :: 0 <= k < |rows| ==>
        && |Invoices(RowsOf(rows, rows[k].customerId))| >= 1
        && ((exists i :: 0 <= i < |t| && t[i].customerId == rows[k].customerId)
            <==> |Invoices(RowsOf(rows, rows[k].customerId))| > 1)
  {
    forall k | 0 <= k < |rows|
      ensures |Invoices(RowsOf(rows, rows[k].customerId))| >= 1
    {
      CustomerKeptIffRepeat(rows, today, k);
    }
    var t := CustomerTable(rows, today);
    forall k | 0 <= k < |rows|
      ensures (exists i :: 0 <= i < |t| && t[i].customerId == rows[k].customerId)
              <==> |Invoices(RowsOf(rows, rows[k].customerId))| > 1
    {
      CustomerKeptIffRepeat(rows, today, k);
    }
  }

  /** Recency and T of one row of the final table. */
  lemma RecencyWithinTAt(rows: seq<Row>, today: int, k: nat)
    requires k < |CustomerTable(rows, today)|
    ensures CustomerTable(rows, today)[k].recency >= 0.0
    ensures (forall m :: 0 <= m < |rows| ==> rows[m].invoiceDate <= today) ==>
      CustomerTable(rows, today)[k].recency <= CustomerTable(rows, today)[k].t
  {
    var c := CustomerTable(rows, today)[k];
    var s := RowsOf(rows, c.customerId);
    CustomerTableRow(rows, today, k);
    var first, last := FirstDate(s), LastDate(s);
    assert WholeDays(last - first) >= 0;
    if forall m :: 0 <= m < |rows| ==> rows[m].invoiceDate <= today {
      var i :| 0 <= i < |s| && last == s[i].invoiceDate;
      FilterMembers(rows, (r: Row) => r.customerId == c.customerId, s[i]);
      assert last <= today;
      assert WholeDays(last - first) <= WholeDays(today - first);
    }
  }

  /** Recency is never negative, and when no invoice is later than `today`
      recency is at most T. */
  lemma CustomerTableRecencyWithinT(rows: seq<Row>, today: int)
    ensures var t := CustomerTable(rows, today);
      forall k :: 0 <= k < |t| ==> t[k].recency >= 0.0
    ensures var t := CustomerTable(rows, today);
      (forall m :: 0 <= m < |rows| ==> rows[m].invoiceDate <= today) ==>
      forall k :: 0 <= k < |t| ==> t[k].recency <= t[k].t
  {
    var t := CustomerTable(rows, today);
    forall k | 0 <= k < |t|
      ensures t[k].recency >= 0.0
      ensures (forall m :: 0 <= m < |rows| ==> rows[m].invoiceDate <= today) ==> t[k].recency <= t[k].t
    {
      RecencyWithinTAt(rows, today, k);
    }
  }
}
