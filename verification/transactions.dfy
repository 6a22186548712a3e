/**
 The transaction table of the Online Retail II spreadsheet, one row per
 invoice line, before and after missing cells are dropped.
 Timestamps are whole seconds since 1970-01-01 (naive, no time zone);
 quantities and prices are exact reals standing for pandas' floats.
 */
module Transactions {

  datatype Option<T> = None | Some(value: T)

  /** A row as loaded: any cell may be missing (NaN / NaT). */
  datatype RawRow = RawRow(
    invoice: Option<string>,
    stockCode: Option<string>,
    description: Option<string>,
    quantity: Option<real>,
    invoiceDate: Option<int>,
    price: Option<real>,
    customerId: Option<int>,
    country: Option<string>)

  /** A row with every cell present. */
  datatype Row = Row(
    invoice: string,
    stockCode: string,
    description: string,
    quantity: real,
    invoiceDate: int,
    price: real,
    customerId: int,
    country: string)

  /** The numeric columns the outlier capping is applied to. */
  datatype NumericColumn = Quantity | Price

  function Get(r: Row, col: NumericColumn): real
  {
    match col
    case Quantity => r.quantity
    case Price => r.price
  }

  /** The row with the cell of column `col` overwritten by `v`. */
  function Set(r: Row, col: NumericColumn, v: real): (r': Row)
    ensures Get(r', col) == v
    ensures forall other :: other != col ==> Get(r', other) == Get(r, other)
    ensures r'.invoice == r.invoice && r'.invoiceDate == r.invoiceDate && r'.customerId == r.customerId
    ensures v == Get(r, col) ==> r' == r
  {
    match col
    case Quantity => r.(quantity := v)
    case Price => r.(price := v)
  }

  /** The derived `TotalPrice` column. */
  function TotalPrice(r: Row): real
  {
    r.quantity * r.price
  }

  const SecondsPerDay: int := 86400

  /** `timedelta.days`: the whole days in a span of seconds, rounded toward
      minus infinity (also for negative spans). */
  function WholeDays(seconds: int): (days: int)
    ensures days * SecondsPerDay <= seconds < (days + 1) * SecondsPerDay
  {
    seconds / SecondsPerDay
  }

  /** The analysis date 2011-12-11 00:00:00. */
  const TodayDate: int := 1323561600

  /** The days from 1970-01-01 to a date of the proleptic Gregorian
      calendar: whole 400-year eras of 146097 days, then the years of the
      era counted from March, so that February's length comes last. */
  function DaysFromCivil(year: int, month: int, day: int): int
    requires 1 <= month <= 12 && 1 <= day <= 31
  {
    var y := if month <= 2 then year - 1 else year;
    var era := y / 400;
    var yearOfEra := y - era * 400;
    var monthFromMarch := if month > 2 then month - 3 else month + 9;
    var dayOfYear := (153 * monthFromMarch + 2) / 5 + day - 1;
    var dayOfEra := yearOfEra * 365 + yearOfEra / 4 - yearOfEra / 100 + dayOfYear;
    era * 146097 + dayOfEra - 719468
  }

  /** `today_date = dt.datetime(2011, 12, 11)`: the timestamp is midnight
      starting 2011-12-11, counted in seconds from 1970-01-01. */
  lemma AnalysisDate()
    ensures DaysFromCivil(1970, 1, 1) == 0
    ensures TodayDate == DaysFromCivil(2011, 12, 11) * SecondsPerDay
    ensures WholeDays(TodayDate) == DaysFromCivil(2011, 12, 11)
  {
  }
}
