# CLTV data preparation, modelled in Dafny

`CLTV_Prediction.py` estimates customer lifetime value for the UK customers
of the Online Retail II data set. The modelling is done by the `lifetimes`
library. The script's own logic is the stage that prepares the model's input:

- it filters the transaction rows (lines 63-68);
- it caps outliers in Quantity and Price (lines 39-53, applied at 72-73);
- it derives `TotalPrice` (line 76);
- it builds the per-customer table `cltv_df` against the analysis date
  2011-12-11 (lines 79, 88-100).

This project models that stage and proves what it guarantees.

Modules, one per part of the stage:

- `Sequences`: boolean-mask selection on sequences (`Filter`), the positions
  it keeps (`KeptIndices`), and lemmas on order, membership and concatenation.
- `Transactions`: the loaded row with possibly missing cells (`RawRow`) and the
  complete row (`Row`). Also the numeric columns, `TotalPrice`, whole days
  (`WholeDays`, floor division by 86400, as `timedelta.days` rounds) and the
  analysis date `TodayDate` (2011-12-11 00:00:00 in seconds since 1970-01-01).
- `Outliers`: `outlier_thresholds` and `replace_with_thresholds`. The latter is
  an in-place method over an `array<Row>`. It does the two masked assignments
  one after the other, as the script does. Its result is tied to the function
  `CapColumn`.
- `Cleaning`: the four filters, applied one step at a time
  (`CleanTransactions`), proved equal to a direct description of the result
  (`CleanedRows`): the surviving rows, at their positions in increasing order.
- `Features`: the group-by. It is a fold that files each row under its
  customer in a list kept in ascending key order, as pandas sorts group keys.
  Also here: the per-group aggregation, the in-place conversion to weeks and
  to a mean per invoice (`ToWeeklyUnits`, a method over an array), and the
  `frequency > 1` filter.
- `Pipeline`: lines 63-100 end to end (`PrepareCltvTable`), proved equal to
  the specification function `CltvTable`.

Floats are modelled as exact `real`s. Timestamps are integer seconds. The 1%
and 99% quantiles of each capped column are inputs (`Quantiles`).

The model follows what the code does where its comments or names suggest otherwise:

- A row is treated as a cancellation when its invoice number contains "C" at
  any position (`str.contains`, line 67). The comment at line 26 says a
  cancellation's number starts with "C".
- `frequency` is the number of distinct invoices (`nunique`, line 90). The
  comment at line 85 calls it the number of repeat purchases.
- The limits widen the 1% and 99% quantiles (lines 40-41), although the
  variables holding them are named `quartile1` and `quartile3`.

## Model

| member | source | states |
|---|---|---|
| `Outliers.OutlierThresholds` | CLTV_Prediction.py:39-45 | the limits span four times the spread of the two quantiles and are centred on their midpoint; when q01 ≤ q99, low ≤ q01 ≤ q99 ≤ up |
| `Outliers.Raised` | CLTV_Prediction.py:52 | the first masked assignment: the result is at least the lower limit, at least the value, and is one of the two |
| `Outliers.Lowered` | CLTV_Prediction.py:53 | the second masked assignment: the result is at most the upper limit, at most the value, and is one of the two |
| `Outliers.Capped` | CLTV_Prediction.py:52-53 | with ordered limits, a cell ends up within them; a value inside is unchanged; one below becomes exactly low; one above becomes exactly up |
| `Outliers.CapColumn` | CLTV_Prediction.py:50-53 | same number of rows, same order; each row differs from its original only in the capped column; every capped cell lies within ordered limits; rows already within the limits are unchanged |
| `Outliers.CapColumnIdempotent` | CLTV_Prediction.py:52-53 | capping again with the same limits changes nothing, for any limits, crossed ones included |
| `Outliers.CapColumnKeepsOtherColumn` | CLTV_Prediction.py:52-53 | capping one numeric column leaves every cell of the other as it was |
| `Outliers.ReplaceWithThresholds` | CLTV_Prediction.py:50-53 | after the two in-place passes, the array holds exactly `CapColumn` of its old contents, with limits from `OutlierThresholds` |
| `Transactions.TotalPrice` | CLTV_Prediction.py:76 | quantity × price of one row (no contract of its own); `SumTotalPrice` sums it, and `MonetaryTimesFrequencyIsCappedRevenue` ties the sum to the capped rows |
| `Transactions.WholeDays` | CLTV_Prediction.py:88-89 | whole days of a span in seconds, rounded toward minus infinity: days·86400 ≤ span < (days+1)·86400 |
| `Transactions.AnalysisDate` | CLTV_Prediction.py:79 | `TodayDate` is midnight starting 2011-12-11: the civil-calendar day count from 1970-01-01 (which is day 0) times 86400, and `WholeDays` gives that day count back |
| `Sequences.Filter` | CLTV_Prediction.py:63-68 | the selection `df[mask]` of lines 63, 67, 68 and 100: never longer than its input; `FilterAtKeptIndices` and `FilterMembers` fix which elements it keeps and in what order |
| `Sequences.FilterAtKeptIndices` | CLTV_Prediction.py:63-68 | a mask selection yields the elements at the kept positions, in increasing position order |
| `Sequences.KeptIndicesExact` | CLTV_Prediction.py:63-68 | the kept positions are strictly increasing, lie in range, and are exactly the positions whose element passes the mask |
| `Sequences.FilterMembers` | CLTV_Prediction.py:100 | an element is selected iff it is in the input and passes the mask |
| `Sequences.FilterKeepsAscending` | CLTV_Prediction.py:100 | selecting from a table with strictly ascending keys keeps them strictly ascending |
| `Cleaning.InUnitedKingdom` | CLTV_Prediction.py:63 | the country mask; a row with a missing country is not selected |
| `Cleaning.NoMissingCell` | CLTV_Prediction.py:64 | the row `dropna` keeps: every one of the eight cells present (no contract of its own); `Complete` unwraps exactly these rows, and `DropMissing` states the selection |
| `Cleaning.Complete` | CLTV_Prediction.py:64 | unwrapping a row with no missing cell loses nothing: wrapping the cells back gives the raw row |
| `Cleaning.NotCancelled` | CLTV_Prediction.py:67 | the cancellation mask is "contains", not "starts with": a row is kept iff no position of its invoice number holds "C"; every number starting with "C" is dropped |
| `Cleaning.InnerCIsDropped` | CLTV_Prediction.py:67 | an invoice number with "C" only after its first character (`53C6`) is dropped as well, so the mask is wider than a prefix test |
| `Cleaning.PositiveQuantity` | CLTV_Prediction.py:68 | the quantity mask, strictly greater than zero (no contract of its own); `CleanTransactions` and `CleanedRowsAreSurvivorsInOrder` state it of every kept row |
| `Cleaning.Survives` | CLTV_Prediction.py:63-68 | the four masks on one raw row (no contract of its own); `CleanedRowsAreSurvivorsInOrder` proves a row is kept iff it holds |
| `Cleaning.CleanedRows` | CLTV_Prediction.py:63-68 | the cleaned table described directly, as the survivors at their increasing positions (no contract of its own); `CleaningStepsAgree` proves the four steps produce it |
| `Cleaning.DropMissing` | CLTV_Prediction.py:64 | `dropna` never lengthens the table, and a row is in its result iff it is the unwrapped form of some input row with no missing cell |
| `Cleaning.CleanTransactions` | CLTV_Prediction.py:63-68 | the four filters applied in turn give `CleanedRows`; every kept row is from the United Kingdom, has no "C" in its invoice number and has a positive quantity |
| `Cleaning.CleaningStepsAgree` | CLTV_Prediction.py:63-68 | country filter, then `dropna`, then the cancellation filter, then the quantity filter, equals the single description: the survivors of all four conditions, in order |
| `Cleaning.CleanedRowsAreSurvivorsInOrder` | CLTV_Prediction.py:63-68 | a raw row survives iff it is a UK row with no missing cell, no "C" anywhere in its invoice number and a positive quantity; the cleaned table lists the survivors in their original relative order |
| `Cleaning.CleanedRowsMembers` | CLTV_Prediction.py:63-68 | a row is in the cleaned table iff it is the unwrapped form of some surviving raw row |
| `Features.FirstDate` | CLTV_Prediction.py:88-89 | `date.min()`: no invoice date is earlier, and it is one of the dates |
| `Features.LastDate` | CLTV_Prediction.py:88 | `date.max()`: no invoice date is later, and it is one of the dates |
| `Features.Invoices` | CLTV_Prediction.py:90 | the distinct invoice numbers `nunique` counts: a number is in the set iff some row of the group carries it |
| `Features.InvoicesAtMostRows` | CLTV_Prediction.py:90 | a customer never has more distinct invoices than invoice lines, and has at least one when it has a line |
| `Features.SumTotalPrice` | CLTV_Prediction.py:91 | `TotalPrice.sum()` over a customer's rows (no contract of its own); `AggregateDescribesCustomers` and `MonetaryTimesFrequencyIsCappedRevenue` state the monetary column through it |
| `Features.AggregateGroup` | CLTV_Prediction.py:88-91 | one group's aggregate keeps its key, counts at least one invoice, has non-negative recency, and has recency ≤ T when no date is after the analysis date |
| `Features.Insert` | CLTV_Prediction.py:88 | filing a row gives a non-empty list whose first key is the smaller of the row's key and the old first key; groups stay non-empty |
| `Features.GroupByCustomer` | CLTV_Prediction.py:88 | every group of the group-by is non-empty |
| `Features.InsertFilesRow` | CLTV_Prediction.py:88 | filing a row keeps keys ascending and groups non-empty, and appends the row to its own customer's rows only |
| `Features.GroupByCustomerSpec` | CLTV_Prediction.py:88 | the group-by has ascending keys and non-empty groups; the rows under each key are exactly that customer's rows in original order |
| `Features.GroupsAreCustomers` | CLTV_Prediction.py:88 | each group is its customer's rows, and every customer in the cleaned rows has a group |
| `Features.Aggregate` | CLTV_Prediction.py:88-91 | the `agg` table, one aggregated row per group in key order (no contract of its own); `AggregateAscending`, `AggregateCoversCustomers` and `AggregateDescribesCustomers` fix it |
| `Features.AggregateAscending` | CLTV_Prediction.py:88-91 | the aggregated table has one row per customer, in strictly ascending id order |
| `Features.AggregateCoversCustomers` | CLTV_Prediction.py:88-91 | every customer in the cleaned rows has a row in the aggregated table |
| `Features.AggregateDescribesCustomers` | CLTV_Prediction.py:88-91 | each aggregated row is built from exactly its customer's rows: distinct invoices (at least one), summed total price, and whole days from first to last invoice and from first invoice to the analysis date |
| `Features.WeeklyRow` | CLTV_Prediction.py:97-99 | lines 97-99 on one row: id and frequency kept; new monetary × frequency gives back the summed total; new recency × 7 and new T × 7 give back the days |
| `Features.WeeklyUnits` | CLTV_Prediction.py:97-99 | ids and frequencies are kept; new monetary × frequency gives back the sum; new recency × 7 and new T × 7 give back the days |
| `Features.ToWeeklyUnits` | CLTV_Prediction.py:97-99 | overwriting the columns in place leaves the array equal to `WeeklyUnits` of its old contents |
| `Features.WeeklyRowDescribes` | CLTV_Prediction.py:97-99 | converting an aggregated row to weeks and to a mean keeps its description of the customer's rows |
| `Features.HasRepeatPurchase` | CLTV_Prediction.py:100 | the mask `frequency > 1` (no contract of its own); `CustomerTableKeepsRepeatCustomers` states the filter it drives, both ways |
| `Features.CustomerTable` | CLTV_Prediction.py:88-100 | `cltv_df` after line 100 as a function of the rows (no contract of its own); fixed by `CustomerTableAscending`, `CustomerTableDescribesCustomers`, `CustomerTableKeepsRepeatCustomers` and `CustomerTableRecencyWithinT` |
| `Features.CustomerTableAscending` | CLTV_Prediction.py:88-100 | the final table has at most one row per customer, in ascending id order |
| `Features.CustomerTableDescribesCustomers` | CLTV_Prediction.py:88-100 | every row has frequency equal to its customer's distinct invoices and at least 2; monetary × frequency equals the summed total price; recency × 7 and T × 7 are whole days from the first invoice to the last and to the analysis date |
| `Features.CustomerTableKeepsRepeatCustomers` | CLTV_Prediction.py:100 | every customer is kept iff they have more than one distinct invoice, so a customer is dropped iff they have exactly one |
| `Features.CustomerTableRecencyWithinT` | CLTV_Prediction.py:88-99 | recency ≥ 0 for every row, and recency ≤ T for every row when no invoice is after the analysis date |
| `Pipeline.CappedRows` | CLTV_Prediction.py:72-73 | `df` after both cappings (no contract of its own); `CappedRowsWithinLimits` states the bounds, the order and the unchanged cells |
| `Pipeline.CltvTable` | CLTV_Prediction.py:63-100 | `cltv_df` as a function of the loaded rows and the two pairs of quantiles (no contract of its own); `PrepareCltvTable` is proved to compute it and `MonetaryTimesFrequencyIsCappedRevenue` states its monetary column |
| `Pipeline.PrepareCltvTable` | CLTV_Prediction.py:63-100 | cleaning, capping Quantity then Price in place, aggregating, converting in place and filtering produce exactly `CltvTable`; every customer in it has at least two invoices |
| `Pipeline.CappedRowsWithinLimits` | CLTV_Prediction.py:72-73 | after both cappings, every quantity and price lies within its limits; the table has the cleaned rows in order; only the two capped cells of a row differ |
| `Pipeline.MonetaryTimesFrequencyIsCappedRevenue` | CLTV_Prediction.py:76-97 | for each kept customer, monetary × frequency is the sum over that customer's capped rows of quantity × price |

## Left out

- Reading the spreadsheet (line 56) is left out. The model starts from the loaded rows, given as a sequence of `RawRow`.
- The display and inspection lines are left out: `head`, `describe`, `sort_values`, `shape` and the pandas display options. They do not change the data.
- The 1% and 99% quantiles (lines 40-41) are inputs. pandas' linear interpolation between order statistics is not modelled.
- Floating-point rounding is left out. Reals are exact, so `monetary × frequency` equals the sum exactly rather than within rounding.
- The int-to-float dtype change that capping causes in the Quantity column is left out. Quantities are reals throughout.
- `TotalPrice` is not stored as an extra column. It is computed from each row (`Transactions.TotalPrice`) wherever it is summed, which gives the same values.
- pandas reads invoice numbers without a letter as integers, and `str.contains` gives no match for them. The model stores every invoice number as a string. An all-digit string contains no "C", so such rows are kept whenever the script gets past line 67.
- The error at line 67 is not modelled. When no invoice number left after lines 63-64 is a string (all are numeric, with no cancellation), `df["Invoice"].str` raises an error and the script stops. `Cleaning.CleanTransactions` instead returns every such row.
- Customer ids are integers (`int`). pandas holds `Customer ID` as float64, because the column has missing values before `dropna`. Every id that survives cleaning is integer-valued, so equality and the sorted group-by order are the same.
- Timestamps are whole seconds since 1970-01-01 without a time zone. Sub-second parts are not modelled.
- `Features.ToWeeklyUnits` requires every frequency to be at least one. The aggregation guarantees this, because every group has a row. pandas' handling of division by zero is therefore not modelled.
- The BG/NBD and Gamma-Gamma fits, predictions and lifetime-value projections (lines 103-141, 166-206) are left out. They are maximum-likelihood numerics of the `lifetimes` library.
- The `MinMaxScaler` rescaling (lines 155-158, 211-213) and the `pd.qcut` segmentation (line 215) are left out. They are calls into scikit-learn and pandas.
- The merges onto lifetime-value tables (lines 150, 175, 186, 208) and the segment summary (lines 220-221) are left out. They consume only the excluded model outputs.
