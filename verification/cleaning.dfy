/**
 Row cleaning, CLTV_Prediction.py lines 63-68: keep the United Kingdom
 rows, drop the rows with a missing cell, drop the rows whose invoice
 number contains a "C" anywhere (cancellations), keep the rows with a
 positive quantity. Each step is a boolean-mask selection, so the
 surviving rows keep their original relative order.
 */
module Cleaning {
  import opened Transactions
  import opened Sequences

  const UnitedKingdom: string := "United Kingdom"

  /** `df["Country"] == "United Kingdom"`; a missing country compares unequal. */
  predicate InUnitedKingdom(r: RawRow)
    ensures r.country.None? ==> !InUnitedKingdom(r)
  {
    r.country == Some(UnitedKingdom)
  }

  /** No cell of the row is missing. */
  predicate NoMissingCell(r: RawRow)
  {
    && r.invoice.Some?
    && r.stockCode.Some?
    && r.description.Some?
    && r.quantity.Some?
    && r.invoiceDate.Some?
    && r.price.Some?
    && r.customerId.Some?
    && r.country.Some?
  }

  /** The row with its cells unwrapped. */
  function Complete(r: RawRow): (row: Row)
    requires NoMissingCell(r)
    ensures RawRow(Some(row.invoice), Some(row.stockCode), Some(row.description), Some(row.quantity),
                   Some(row.invoiceDate), Some(row.price), Some(row.customerId), Some(row.country)) == r
  {
    Row(r.invoice.value, r.stockCode.value, r.description.value, r.quantity.value,
        r.invoiceDate.value, r.price.value, r.customerId.value, r.country.value)
  }

  /** `~df["Invoice"].str.contains("C")`: no "C" at any position, not only
      as a prefix. */
  predicate NotCancelled(r: Row)
    ensures NotCancelled(r) <==> forall i :: 0 <= i < |r.invoice| ==> r.invoice[i] != 'C'
    ensures |r.invoice| > 0 && r.invoice[0] == 'C' ==> !NotCancelled(r)
  {
    'C' !in r.invoice
  }

  /** The cancellation filter is wider than a prefix test: an invoice
      number with a "C" after its first character is dropped too. */
  lemma InnerCIsDropped(r: Row)
    requires r.invoice == "53C6"
    ensures r.invoice[0] != 'C' && !NotCancelled(r)
  {
  }

  /** `df["Quantity"] > 0`. */
  predicate PositiveQuantity(r: Row)
  {
    r.quantity > 0.0
  }

  /** `dropna`: the complete rows, unwrapped, in order. */
  function DropMissing(s: seq<RawRow>): (t: seq<Row>)
    ensures |t| <= |s|
    ensures forall x :: x in t <==> exists i :: 0 <= i < |s| && NoMissingCell(s[i]) && Complete(s[i]) == x
  {
    if |s| == 0 then []
    else DropMissing(s[..|s| - 1]) + (if NoMissingCell(s[|s| - 1]) then [Complete(s[|s| - 1])] else [])
  }

  /** All four filters at once, on a raw row. */
  predicate Survives(r: RawRow)
  {
    InUnitedKingdom(r) && NoMissingCell(r) && NotCancelled(Complete(r)) && PositiveQuantity(Complete(r))
  }

  /** The cleaned table described directly: the surviving raw rows,
      unwrapped, taken at their positions in increasing order. */
  function CleanedRows(raw: seq<RawRow>): seq<Row>
  {
    var idx := KeptIndices(raw, Survives);
    KeptIndicesExact(raw, Survives);
    seq(|idx|, k requires 0 <= k < |idx| => Complete(raw[idx[k]]))
  }

  /** The four steps, one at a time, as the script reassigns `df`. */
  method CleanTransactions(raw: seq<RawRow>) returns (df: seq<Row>)
    ensures df == CleanedRows(raw)
    ensures forall k :: 0 <= k < |df| ==>
      df[k].country == UnitedKingdom && 'C' !in df[k].invoice && df[k].quantity > 0.0
  {
    var uk := Filter(raw, InUnitedKingdom);
    df := DropMissing(uk);
    df := Filter(df, NotCancelled);
    df := Filter(df, PositiveQuantity);
    CleaningStepsAgree(raw);
    CleanedRowsAreSurvivorsInOrder(raw);
  }

  lemma {:induction false} DropMissingAppend(a: seq<RawRow>, b: seq<RawRow>)
    ensures DropMissing(a + b) == DropMissing(a) + DropMissing(b)
  {
    if |b| > 0 {
      var init := b[..|b| - 1];
      DropMissingAppend(a, init);
      assert (a + b)[..|a + b| - 1] == a + init;
    } else {
      assert a + b == a;
    }
  }

  /** Appending one raw row to the input appends its cleaned form, if it survives. */
  lemma CleanedRowsSnoc(init: seq<RawRow>, x: RawRow)
    ensures CleanedRows(init + [x]) == CleanedRows(init) + (if Survives(x) then [Complete(x)] else [])
  {
    var s := init + [x];
    assert s[..|s| - 1] == init;
    KeptIndicesExact(init, Survives);
    KeptIndicesExact(s, Survives);
  }

  /** Filtering step by step yields the cleaned table described by `CleanedRows`. */
  lemma {:induction false} CleaningStepsAgree(raw: seq<RawRow>)
    ensures Filter(Filter(DropMissing(Filter(raw, InUnitedKingdom)), NotCancelled), PositiveQuantity)
         == CleanedRows(raw)
  {
    if |raw| > 0 {
      var init, x := raw[..|raw| - 1], raw[|raw| - 1];
      assert raw == init + [x];
      CleaningStepsAgree(init);
      var uk := if InUnitedKingdom(x) then [x] else [];
      assert Filter(raw, InUnitedKingdom) == Filter(init, InUnitedKingdom) + uk;
      DropMissingAppend(Filter(init, InUnitedKingdom), uk);
      var dm := DropMissing(uk);
      assert dm == if InUnitedKingdom(x) && NoMissingCell(x) then [Complete(x)] else [] by {
        if InUnitedKingdom(x) {
          assert uk[..0] == [];
        }
      }
      FilterAppend(DropMissing(Filter(init, InUnitedKingdom)), dm, NotCancelled);
      var nc := Filter(dm, NotCancelled);
      assert nc == if InUnitedKingdom(x) && NoMissingCell(x) && NotCancelled(Complete(x)) then [Complete(x)] else [] by {
        if InUnitedKingdom(x) && NoMissingCell(x) {
          assert dm[..0] == [];
        }
      }
      FilterAppend(Filter(DropMissing(Filter(init, InUnitedKingdom)), NotCancelled), nc, PositiveQuantity);
      assert Filter(nc, PositiveQuantity) == if Survives(x) then [Complete(x)] else [] by {
        if InUnitedKingdom(x) && NoMissingCell(x) && NotCancelled(Complete(x)) {
          assert nc[..0] == [];
        }
      }
      CleanedRowsSnoc(init, x);
    }
  }

  /** A row survives iff all four conditions hold; the cleaned table holds
      exactly the survivors, unwrapped, in their original relative order. */
  lemma CleanedRowsAreSurvivorsInOrder(raw: seq<RawRow>)
    ensures var idx := KeptIndices(raw, Survives);
      && StrictlyIncreasing(idx)
      && (forall i :: 0 <= i < |raw| ==> (i in idx <==> Survives(raw[i])))
      && |CleanedRows(raw)| == |idx|
      && (forall k :: 0 <= k < |idx| ==> idx[k] < |raw| && Survives(raw[idx[k]]) && CleanedRows(raw)[k] == Complete(raw[idx[k]]))
    ensures forall k :: 0 <= k < |CleanedRows(raw)| ==>
      && CleanedRows(raw)[k].country == UnitedKingdom
      && 'C' !in CleanedRows(raw)[k].invoice
      && CleanedRows(raw)[k].quantity > 0.0
  {
  }

  /** A cleaned row is the unwrapped form of some surviving raw row, and
      every surviving raw row appears in the cleaned table. */
  lemma CleanedRowsMembers(raw: seq<RawRow>, row: Row)
    ensures row in CleanedRows(raw) <==> exists i :: 0 <= i < |raw| && Survives(raw[i]) && Complete(raw[i]) == row
  {
    CleanedRowsAreSurvivorsInOrder(raw);
    var idx := KeptIndices(raw, Survives);
    if i :| 0 <= i < |raw| && Survives(raw[i]) && Complete(raw[i]) == row {
      assert i in idx;
      var k :| 0 <= k < |idx| && idx[k] == i;
      assert CleanedRows(raw)[k] == row;
    }
  }
}
