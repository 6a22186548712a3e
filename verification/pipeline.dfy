/**
 The data-preparation stage of the script end to end: clean the loaded
 rows, cap Quantity and then Price in place, and build `cltv_df` against
 the analysis date 2011-12-11. The quantiles of the two columns are
 inputs.
 */
module Pipeline {
  import opened Transactions
  import opened Sequences
  import opened Outliers
  import opened Cleaning
  import opened Features

  /** `df` after line 73: the cleaned rows with both columns capped. */
  function CappedRows(raw: seq<RawRow>, quantityQuantiles: Quantiles, priceQuantiles: Quantiles): seq<Row>
  {
    var cleaned := CleanedRows(raw);
    CapColumn(CapColumn(cleaned, Quantity, OutlierThresholds(quantityQuantiles)), Price, OutlierThresholds(priceQuantiles))
  }

  /** `cltv_df` after line 100. */
  function CltvTable(raw: seq<RawRow>, quantityQuantiles: Quantiles, priceQuantiles: Quantiles): seq<CustomerRow>
  {
    CustomerTable(CappedRows(raw, quantityQuantiles, priceQuantiles), TodayDate)
  }

  /** Lines 63-100 in the script's order, with the in-place steps on arrays. */
  method PrepareCltvTable(raw: seq<RawRow>, quantityQuantiles: Quantiles, priceQuantiles: Quantiles)
    returns (cltv: seq<CustomerRow>)
    ensures cltv == CltvTable(raw, quantityQuantiles, priceQuantiles)
    ensures forall k :: 0 <= k < |cltv| ==> cltv[k].frequency >= 2
  {
    var rows := CleanTransactions(raw);
    var df := new Row[|rows|](i requires 0 <= i < |rows| => rows[i]);
    assert df[..] == rows;
    ReplaceWithThresholds(df, Quantity, quantityQuantiles);
    ReplaceWithThresholds(df, Price, priceQuantiles);
    var agg := Aggregate(df[..], TodayDate);
    AggregateDescribesCustomers(df[..], TodayDate);
    var table := new CustomerRow[|agg|](i requires 0 <= i < |agg| => agg[i]);
    assert table[..] == agg;
    ToWeeklyUnits(table);
    cltv := Filter(table[..], HasRepeatPurchase);
    CustomerTableDescribesCustomers(df[..], TodayDate);
  }

  /** After capping, every quantity and every price lies within the limits
      computed from its quantiles, the table has the cleaned table's rows
      in order, and only the two capped columns differ from it. */
  lemma CappedRowsWithinLimits(raw: seq<RawRow>, quantityQuantiles: Quantiles, priceQuantiles: Quantiles)
    requires quantityQuantiles.q01 <= quantityQuantiles.q99 && priceQuantiles.q01 <= priceQuantiles.q99
    ensures var capped, cleaned := CappedRows(raw, quantityQuantiles, priceQuantiles), CleanedRows(raw);
      var ql, pl := OutlierThresholds(quantityQuantiles), OutlierThresholds(priceQuantiles);
      && |capped| == |cleaned|
      && forall i :: 0 <= i < |capped| ==>
           && ql.low <= capped[i].quantity <= ql.up
           && pl.low <= capped[i].price <= pl.up
           && capped[i] == cleaned[i].(quantity := capped[i].quantity, price := capped[i].price)
  {
  }

  /** The summed `TotalPrice` of a customer's rows is rebuilt by monetary
      times frequency, where the rows are the capped ones: the customer's
      capped quantity times capped price, summed. */
  lemma MonetaryTimesFrequencyIsCappedRevenue(raw: seq<RawRow>, quantityQuantiles: Quantiles, priceQuantiles: Quantiles)
    ensures var t, capped := CltvTable(raw, quantityQuantiles, priceQuantiles), CappedRows(raw, quantityQuantiles, priceQuantiles);
      forall k :: 0 <= k < |t| ==>
        t[k].monetary * t[k].frequency as real == SumTotalPrice(RowsOf(capped, t[k].customerId))
  {
    CustomerTableDescribesCustomers(CappedRows(raw, quantityQuantiles, priceQuantiles), TodayDate);
  }
}
