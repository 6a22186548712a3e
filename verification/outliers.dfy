/**
 Outlier capping: `outlier_thresholds` and `replace_with_thresholds`.
 The 1% and 99% quantiles of the column are given (pandas' interpolation
 is not modelled); the limits widen them by one and a half times their
 spread on each side, and the column is then overwritten in place by two
 masked assignments.
 */
module Outliers {
  import opened Transactions

  /** The 1% and 99% quantiles of one column. */
  datatype Quantiles = Quantiles(q01: real, q99: real)

  /** The pair `(low_limit, up_limit)`. */
  datatype Limits = Limits(low: real, up: real)

  /** The outlier limits: an interval four spreads wide, centred on the
      midpoint of the two quantiles, that contains both of them. */
  function OutlierThresholds(q: Quantiles): (limits: Limits)
    ensures limits.up - limits.low == 4.0 * (q.q99 - q.q01)
    ensures limits.low + limits.up == q.q01 + q.q99
    ensures q.q01 <= q.q99 ==> limits.low <= q.q01 <= q.q99 <= limits.up
  {
    var interquantileRange := q.q99 - q.q01;
    Limits(q.q01 - 1.5 * interquantileRange, q.q99 + 1.5 * interquantileRange)
  }

  /** First masked assignment: a value below `low` becomes `low`. */
  function Raised(v: real, low: real): (w: real)
    ensures w >= low && w >= v
    ensures w == v || w == low
  {
    if v < low then low else v
  }

  /** Second masked assignment: a value above `up` becomes `up`. */
  function Lowered(v: real, up: real): (w: real)
    ensures w <= up && w <= v
    ensures w == v || w == up
  {
    if v > up then up else v
  }

  /** One cell after both assignments. With ordered limits this is the
      clamp: values inside stay, values below become `low`, values above
      become `up`. */
  function Capped(v: real, limits: Limits): (c: real)
    ensures limits.low <= limits.up ==> limits.low <= c <= limits.up
    ensures limits.low <= v <= limits.up ==> c == v
    ensures limits.low <= limits.up && v < limits.low ==> c == limits.low
    ensures v > limits.up ==> c == limits.up
  {
    Lowered(Raised(v, limits.low), limits.up)
  }

  /** Does row `after` differ from `before` at most in column `col`? */
  ghost predicate SameExcept(after: Row, before: Row, col: NumericColumn)
  {
    after == Set(before, col, Get(after, col))
  }

  /** The table after `replace_with_thresholds`: same rows in the same
      order, only the cells of `col` capped. */
  function CapColumn(s: seq<Row>, col: NumericColumn, limits: Limits): (t: seq<Row>)
    ensures |t| == |s|
    ensures forall i :: 0 <= i < |t| ==> SameExcept(t[i], s[i], col)
    ensures forall i :: 0 <= i < |t| ==> Get(t[i], col) == Capped(Get(s[i], col), limits)
    ensures limits.low <= limits.up ==>
      forall i :: 0 <= i < |t| ==> limits.low <= Get(t[i], col) <= limits.up
    ensures forall i :: 0 <= i < |t| && limits.low <= Get(s[i], col) <= limits.up ==> t[i] == s[i]
  {
    seq(|s|, i requires 0 <= i < |s| => Set(s[i], col, Capped(Get(s[i], col), limits)))
  }

  /** Capping twice with the same limits changes nothing more. With
      crossed limits (low > up) both passes leave every cell at `up`, and
      `up` stays `up`. */
  lemma CapColumnIdempotent(s: seq<Row>, col: NumericColumn, limits: Limits)
    ensures CapColumn(CapColumn(s, col, limits), col, limits) == CapColumn(s, col, limits)
  {
  }

  /** Capping one column leaves the other column's cells as they were. */
  lemma CapColumnKeepsOtherColumn(s: seq<Row>, col: NumericColumn, other: NumericColumn, limits: Limits)
    requires other != col
    ensures forall i :: 0 <= i < |s| ==> Get(CapColumn(s, col, limits)[i], other) == Get(s[i], other)
  {
  }

  /** `replace_with_thresholds(dataframe, variable)`: computes the limits
      from the quantiles and overwrites the column in place, first the
      cells below the lower limit, then the cells above the upper one. */
  method ReplaceWithThresholds(df: array<Row>, variable: NumericColumn, q: Quantiles)
    modifies df
    ensures df[..] == CapColumn(old(df[..]), variable, OutlierThresholds(q))
  {
    var limits := OutlierThresholds(q);
    var i := 0;
    while i < df.Length
      invariant 0 <= i <= df.Length
      invariant forall k :: 0 <= k < i ==>
        df[k] == Set(old(df[k]), variable, Raised(Get(old(df[k]), variable), limits.low))
      invariant forall k :: i <= k < df.Length ==> df[k] == old(df[k])
    {
      if Get(df[i], variable) < limits.low {
        df[i] := Set(df[i], variable, limits.low);
      }
      i := i + 1;
    }
    i := 0;
    while i < df.Length
      invariant 0 <= i <= df.Length
      invariant forall k :: 0 <= k < i ==>
        df[k] == Set(old(df[k]), variable, Capped(Get(old(df[k]), variable), limits))
      invariant forall k :: i <= k < df.Length ==>
        df[k] == Set(old(df[k]), variable, Raised(Get(old(df[k]), variable), limits.low))
    {
      if Get(df[i], variable) > limits.up {
        df[i] := Set(df[i], variable, limits.up);
      }
      i := i + 1;
    }
  }
}
