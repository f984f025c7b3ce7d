# Retail ETL teaching pipelines: a verified model of the transforms, extractors and schemas

The repository is a series of exercises that build small retail ETL pipelines in Python. Each pipeline
extracts sales, customer, product, order or weather tables (from S3 buckets or local files), cleans and
reshapes them with pandas, checks them against pandera schemas and loads them into PostgreSQL or back into
S3. This project models, in Dafny, the parts of those pipelines that compute something:

- the transform functions of five exercises: the ETL process exercise (`clean_data`, `remove_duplicates`,
  `merge_data`, `compute_derived_columns`, `segment_deliveries`, `categorize_products`), the Airflow exercise
  (`clean_*_data`, `merge_data`, `compute_monthly_aggregates`, `segment_customers`, `detect_sales_anomalies`,
  `forecast_sales`), the exam preparation (`transform_sales_data`, `transform_products_data`,
  `merge_sales_and_products`, `enrich_merged_data`, `seasonal_sales_pattern`, `revenue_concentration`), the
  exam (`transform_sales_data`, `transform_products_data`) and the file-formats lab (`transform_data`);
- the key handling of three extractors: which listed S3 keys are read, skipped or turned into paths, and
  when extraction fails;
- every pandera schema those steps validate against, with the validator functions that wrap them.

Each exercise keeps its own copy of the rules (the discount range, for one, is [1, 100] in the Airflow
exercise and [0, 1] in the exam), so each source file is its own Dafny module and the copies are not merged.

## How the model is built

- `Results`: the outcome of a step, `Ok(value)` or `Err(error)`, with the exception kinds the sources raise
  or meet: `KeyError`, `TypeError`, `ValueError`, `IndexError`, `AttributeError` (the `.str` accessor on a
  column holding no text), `FileNotFound`, pandera's `SchemaError` (non-lazy validation) and `SchemaErrors`
  (lazy validation).
- `Text`: the string operations the steps use (Python's `strip`, ASCII `lower`/`upper`, the three label
  normalisations the exercises write, `endswith`, substring tests, decimal rendering).
- `Frames`: a dataframe as a value: column labels, an integer row index and rows of cells. A cell is
  missing (`Null`, standing for NaN, NaT and None), an int, a float, text, a bool or a date. It holds the
  pandas operations the transforms call: column lookup (`KeyError` when absent), relabelling, `rename`,
  `dropna` (whole-row and on a subset), boolean masks and their `&`, `drop_duplicates` (whole rows or a
  subset, `keep="first"`/`"last"`/`False`), `reset_index`, column assignment, element-wise arithmetic and
  comparisons (`TypeError` on text), `to_datetime` with `errors="coerce"`, `.str` methods, projection and
  inner/left joins with pandas' suffixing of clashing labels.
- `DataFrames`: a class holding one dataframe whose methods change it in place (`df.columns = ...`,
  `rename(inplace=True)`, `dropna(inplace=True)`, `df[c] = ...`, `set_index`/`reset_index`). The transforms
  that mutate their argument are methods on it, each proved equal to a pure function of the old contents.
- `Grouping`: `groupby(...).agg(sum)` with pandas' sorted keys, `nunique`, `cumsum`, the trailing rolling
  mean, `pd.cut` with right-closed bins, and monthly bins labelled by their month end.
- `Patterns`: the regular expressions the schemas use, each as the set of strings it accepts.
- `Schemas`: a pandera schema as data (per column: dtype, nullability, uniqueness, coercion and checks;
  strictness) and `validate`, lazy or not; plus the "pre" validator pattern several exercises share.
- One module per source file for the rest, named after its exercise (`AirflowTransform`,
  `ExamPrepSalesSchema`, `FileFormatsLabTransform`, ...).

Date parsing, the S3 listing and the file reads are parameters: a `Parser` returns the date a text denotes
or nothing (so `errors="coerce"` turns it into a missing cell), and the extractors take the listed keys and
a `read` function.

For every schema the model proves an if-and-only-if that spells the schema out: the table passes exactly when
the declared columns are present (and, for a strict schema, no others), every row satisfies a predicate that
lists each column's checks and the type of each of its cells, and the unique columns hold no repeated value.
The type is read cell by cell, whereas pandas keeps one dtype per column; the two readings part on empty
columns and on columns whose cells are all missing (see "Left out"). For every transform
it proves what the output rows are in terms of the input rows, when the transform raises and which error,
and when its output passes the schema it is validated against.

Some of the proved facts are about how the exercises behave as written:

- `compute_monthly_aggregates` first holds the joined sales to the aggregates schema, and the joined table
  has no `unique_customers` column, so as written the step raises before it groups anything
  (`AirflowTransform.MonthlyPreValidateRaises`).
- The Airflow aggregates schema declares `unique_customers` a float column, but `nunique()` counts are
  integers, so `compute_monthly_aggregates` rejects every non-empty month table
  (`AirflowTransform.MonthlyAggregatesRejected`).
- The Airflow anomalies schema declares `order_id` a string, while the validated sales carry integer ids:
  `detect_sales_anomalies` raises as soon as one validated sale falls below the threshold
  (`AirflowTransform.ValidatedSalesAnomalyRejected`).
- In the Airflow, exam-preparation and exam transforms the dates are parsed after `dropna`, so a date that
  does not parse survives as a missing cell and the output schema rejects the whole table
  (`UnparsableOrderDateRejected`, `UnparsableSignupRejected`, `UnparsableRejected`,
  `UnparsableLaunchRejected`, `UnparsableForecastDateRejected`).
- The hourly-trend schema's region check counts rows, so an empty table with the right columns is rejected
  (`ExamPrepHourlySchema.EmptyHourlyRejected`); the file-formats customers check `>= 0` admits id 0 although
  its message says "greater than 0" (`FileFormatsCustomers.ZeroIdAccepted`).

The pre validators are evidently meant to be advisory: their `except SchemaErrors` branch logs a warning
and returns the frame unchanged (src/ApacheAirflowExercise/include/validations/sales_schema.py:48-50,
src/RegExam/include/validations/validate_inputs.py:26-28). They catch `SchemaErrors`, though, which a
non-lazy `validate` never raises, so a failed check still escapes as `SchemaError`; see Findings. The model
follows the code: `Schemas.PreValidate` lets the error through. The transforms use the advisory reading the handlers were written for,
`Schemas.AdvisoryPreValidate`, and `Schemas.PreValidateDisagrees` states exactly which inputs the two
readings treat differently.

## Model

| member | source | states |
|---|---|---|
| AirflowAggregatesSchema.ValidatePreAggregates | src/ApacheAirflowExercise/include/validations/aggregates_schema.py:26-39 | validate_pre_aggregates_schema: the table back when it conforms; the SchemaError escapes the handler otherwise. |
| AirflowAggregatesSchema.ValidatePostAggregates | src/ApacheAirflowExercise/include/validations/aggregates_schema.py:42-48 | validate_post_aggregates_schema: the table back when it conforms, SchemaError otherwise. |
| AirflowAggregatesSchema.AggregatesRowSpec | src/ApacheAirflowExercise/include/validations/aggregates_schema.py:18-23 | Row i passes the schema exactly when GoodAggregateRow holds of it. |
| AirflowAggregatesSchema.AggregatesSpec | src/ApacheAirflowExercise/include/validations/aggregates_schema.py:11-23 | The aggregate schema accepts a table exactly when the three columns are present and every row is a good aggregate row. |
| AirflowAggregatesSchema.CustomerCountRejected | src/ApacheAirflowExercise/include/validations/aggregates_schema.py:21 | A month counted with no customers fails, and so does a whole-number count: the column is declared float. |
| AirflowAnomaliesSchema.ValidateAnomalies | src/ApacheAirflowExercise/include/validations/anomalies_schema.py:21-26 | validate_post_anomalies_schema: the table back when it conforms, SchemaError otherwise. |
| AirflowAnomaliesSchema.AnomaliesRowSpec | src/ApacheAirflowExercise/include/validations/anomalies_schema.py:11-18 | Row i passes the schema exactly when GoodAnomalyRow holds of it. |
| AirflowAnomaliesSchema.AnomaliesSpec | src/ApacheAirflowExercise/include/validations/anomalies_schema.py:11-18 | The anomalies schema accepts a table exactly when the five columns are present and every row is a good anomaly row. |
| AirflowAnomaliesSchema.IntegerOrderIdRejected | src/ApacheAirflowExercise/include/validations/anomalies_schema.py:11-18 | A whole-number order_id, as the sales data carries it, fails the string dtype. |
| AirflowCustomersSchema.ValidatePreCustomers | src/ApacheAirflowExercise/include/validations/customers_schema.py:28-41 | validate_pre_customers_schema: the table back when it conforms; the SchemaError escapes the handler otherwise. |
| AirflowCustomersSchema.ValidatePostCustomers | src/ApacheAirflowExercise/include/validations/customers_schema.py:44-51 | validate_post_customers_schema: the table back when it conforms, SchemaError otherwise. |
| AirflowCustomersSchema.PreCustomersRowSpec | src/ApacheAirflowExercise/include/validations/customers_schema.py:11-17 | Row i passes the schema exactly when TypedCustomerRow holds of it. |
| AirflowCustomersSchema.PreCustomersSpec | src/ApacheAirflowExercise/include/validations/customers_schema.py:11-17 | The pre schema accepts a table exactly when the four columns are present, every cell has its column's dtype and customer_id is unique. |
| AirflowCustomersSchema.PostCustomersRowSpec | src/ApacheAirflowExercise/include/validations/customers_schema.py:19-25 | Row i passes the schema exactly when GoodCustomerRow holds of it. |
| AirflowCustomersSchema.PostCustomersSpec | src/ApacheAirflowExercise/include/validations/customers_schema.py:19-25 | The post schema accepts a table exactly when the four columns are present, every row is a good customer row and customer_id is unique. |
| AirflowExtract.ExtractDataFromS3 | src/ApacheAirflowExercise/include/etl/extract_data.py:26-58 | An empty listing is a ValueError; otherwise the result is Collect over the keys, whose success and failure cases CollectSpec and CollectFails state. |
| AirflowExtract.StaysFailed | src/ApacheAirflowExercise/include/etl/extract_data.py:47-54 | Once a read has failed, the extraction stays failed with that error. |
| AirflowExtract.CollectSpec | src/ApacheAirflowExercise/include/etl/extract_data.py:39-56 | On success the result maps exactly the CSV keys whose frames have data, each to the frame read from it; every key of the result was listed. |
| AirflowExtract.CollectFails | src/ApacheAirflowExercise/include/etl/extract_data.py:52-54 | A CSV key whose read fails makes the whole extraction fail. |
| AirflowForecastSchema.ValidateForecast | src/ApacheAirflowExercise/include/validations/forecast_schema.py:19-26 | validate_post_forecast_schema: the table back when it conforms, SchemaError otherwise. |
| AirflowForecastSchema.ForecastRowSpec | src/ApacheAirflowExercise/include/validations/forecast_schema.py:11-16 | Row i passes the schema exactly when GoodForecastRow holds of it. |
| AirflowForecastSchema.ForecastSpec | src/ApacheAirflowExercise/include/validations/forecast_schema.py:11-16 | The forecast schema accepts a table exactly when the three columns are present and every row is a good forecast row. |
| AirflowProductsSchema.ValidatePreProducts | src/ApacheAirflowExercise/include/validations/products_schema.py:28-41 | validate_pre_products_schema: the table back when it conforms; the SchemaError escapes the handler otherwise. |
| AirflowProductsSchema.ValidatePostProducts | src/ApacheAirflowExercise/include/validations/products_schema.py:44-50 | validate_post_products_schema as written. |
| AirflowProductsSchema.ValidateIntendedPostProducts | src/ApacheAirflowExercise/include/validations/products_schema.py:44-50 | validate_post_products_schema with the name bound the schema evidently means. |
| AirflowProductsSchema.PreProductsRowSpec | src/ApacheAirflowExercise/include/validations/products_schema.py:11-17 | Row i passes the schema exactly when TypedProductRow holds of it. |
| AirflowProductsSchema.PreProductsSpec | src/ApacheAirflowExercise/include/validations/products_schema.py:11-17 | The pre schema accepts a table exactly when the four columns are present, every cell has its column's dtype and product_id is unique. |
| AirflowProductsSchema.PostProductsRowSpec | src/ApacheAirflowExercise/include/validations/products_schema.py:19-25 | Row i passes the schema exactly when GoodProductRow holds of it. |
| AirflowProductsSchema.PostProductsSpec | src/ApacheAirflowExercise/include/validations/products_schema.py:19-25 | The written post schema accepts a table exactly when the four columns are present, every row has a positive id, a name of at least 100 characters and a non-negative price, and product_id is unique. |
| AirflowProductsSchema.IntendedPostProductsRowSpec | src/ApacheAirflowExercise/include/validations/products_schema.py:19-25 | Row i passes the schema exactly when IntendedProductRow holds of it. |
| AirflowProductsSchema.IntendedPostProductsSpec | src/ApacheAirflowExercise/include/validations/products_schema.py:19-25 | The intended post schema accepts a table exactly when the four columns are present, every row has a positive id, a name of at most 100 characters and a non-negative price, and product_id is unique. |
| AirflowProductsSchema.ShortNameRejected | src/ApacheAirflowExercise/include/validations/products_schema.py:22 | The written post schema rejects an ordinary product whose name is shorter than 100 characters. |
| AirflowProductsSchema.ShortNameAccepted | src/ApacheAirflowExercise/include/validations/products_schema.py:22 | The intended post schema accepts the same product. |
| AirflowProductsSchema.PenRow | src/ApacheAirflowExercise/include/validations/products_schema.py:19-25 | Example: every row of PenTable is a good product row under the intended schema, and its ids are distinct. |
| AirflowProductsSchema.IntendedNameBound | src/ApacheAirflowExercise/include/validations/products_schema.py:22 | Under the intended schema no accepted name is longer than 100 characters, and any name of at most 100 characters passes the name check. |
| AirflowSalesSchema.ValidatePreSales | src/ApacheAirflowExercise/include/validations/sales_schema.py:38-51 | validate_pre_sales_schema: the table back when it conforms; the SchemaError escapes the handler otherwise. |
| AirflowSalesSchema.ValidatePostSales | src/ApacheAirflowExercise/include/validations/sales_schema.py:54-60 | validate_post_sales_schema: the table back when it conforms, SchemaError otherwise. |
| AirflowSalesSchema.PreSalesRowSpec | src/ApacheAirflowExercise/include/validations/sales_schema.py:11-22 | Row i passes the schema exactly when TypedSalesRow holds of it. |
| AirflowSalesSchema.PreSalesSpec | src/ApacheAirflowExercise/include/validations/sales_schema.py:11-22 | The pre schema accepts a table exactly when all nine columns are present, every cell has its column's dtype and no two rows share an order_id. |
| AirflowSalesSchema.PostSalesRowSpec | src/ApacheAirflowExercise/include/validations/sales_schema.py:24-35 | Row i passes the schema exactly when GoodSalesRow holds of it. |
| AirflowSalesSchema.PostSalesSpec | src/ApacheAirflowExercise/include/validations/sales_schema.py:24-35 | The post schema accepts a table exactly when all nine columns are present, every row is a good sales row and no two rows share an order_id. |
| AirflowSalesSchema.ZeroDiscountRejected | src/ApacheAirflowExercise/include/validations/sales_schema.py:32 | A discount of 0 is rejected: the range check starts at 1. |
| AirflowSegmentedSchema.ValidateSegmented | src/ApacheAirflowExercise/include/validations/segmented_schema.py:20-27 | validate_post_segmented_schema: the table back when it conforms, SchemaError otherwise. |
| AirflowSegmentedSchema.SegmentedRowSpec | src/ApacheAirflowExercise/include/validations/segmented_schema.py:11-17 | Row i passes the schema exactly when GoodSegmentRow holds of it. |
| AirflowSegmentedSchema.SegmentedSpec | src/ApacheAirflowExercise/include/validations/segmented_schema.py:11-17 | The segmentation schema accepts a table exactly when the four columns are present, every row is a good segment row and customer_id is unique. |
| AirflowSegmentedSchema.MissingSegmentRejected | src/ApacheAirflowExercise/include/validations/segmented_schema.py:15-16 | A customer without a segment label (a missing cell) or without a segmentation date fails. |
| AirflowTransform.Relabelled | src/ApacheAirflowExercise/include/etl/transform.py:26 | The clean_* label rewrite: every label lower-cased with its blanks turned into underscores, nothing stripped. |
| AirflowTransform.RelabelInPlace | src/ApacheAirflowExercise/include/etl/transform.py:26 | The caller's frame ends up as Relabelled of its old contents: the labels lower-cased with blanks as underscores, the cells and index untouched. |
| AirflowTransform.Complete | src/ApacheAirflowExercise/include/etl/transform.py:26-27 | The complete rows of the relabelled frame: what every clean_* step works on after its dropna. |
| AirflowTransform.CompleteSpec | src/ApacheAirflowExercise/include/etl/transform.py:26-27 | The complete frame holds exactly the input rows without a missing cell, under the new labels. |
| AirflowTransform.CompleteCells | src/ApacheAirflowExercise/include/etl/transform.py:27 | Every cell of a complete row is present. |
| AirflowTransform.CleanSalesData | src/ApacheAirflowExercise/include/etl/transform.py:17-35 | The caller's frame ends up as SalesCleaned of its old contents (relabelled, complete rows only, order_date parsed, total_revenue written) and the result is the post schema's verdict on it; a failing step's error is returned. SalesCleanedSpec states what that frame holds. |
| AirflowTransform.SalesRowKept | src/ApacheAirflowExercise/include/etl/transform.py:28-29 | Cleaning a complete sales row leaves every cell but order_date and total_revenue as it was. |
| AirflowTransform.SalesRowCleaned | src/ApacheAirflowExercise/include/etl/transform.py:28-29 | Cleaning a complete sales row parses its order_date and writes amount * quantity as total_revenue. |
| AirflowTransform.SalesRowFrom | src/ApacheAirflowExercise/include/etl/transform.py:26-29 | One row of a cleaned sales frame: CleanedSaleRow holds, and every other cell is the present cell of the complete row. |
| AirflowTransform.SalesFromShape | src/ApacheAirflowExercise/include/etl/transform.py:26-29 | The shape of a cleaned sales frame: the rows and index of the complete frame, its columns plus total_revenue. |
| AirflowTransform.SalesCleanedSpec | src/ApacheAirflowExercise/include/etl/transform.py:26-29 | A cleaned sales frame keeps the complete rows in order (same index, same count), and every row is a CleanedSaleRow of the complete one. |
| AirflowTransform.UnparsableOrderDateRejected | src/ApacheAirflowExercise/include/etl/transform.py:27-31 | An order_date that does not parse survives dropna as a missing cell, and then fails the post schema. |
| AirflowTransform.CleanCustomersData | src/ApacheAirflowExercise/include/etl/transform.py:38-55 | The caller's frame ends up as CustomersCleaned of its old contents and the result is the post schema's verdict on it; CustomersCleanedSpec states what that frame holds. |
| AirflowTransform.CustomerRowFrom | src/ApacheAirflowExercise/include/etl/transform.py:47-49 | Row i of a cleaned customers frame: signup_date is the parsed cell, every other cell is the present cell of the complete row. |
| AirflowTransform.CustomersCleanedSpec | src/ApacheAirflowExercise/include/etl/transform.py:47-49 | A cleaned customers frame has the complete rows, same labels and index; signup_date is the parsed cell of each, every other cell the present cell of the complete row. |
| AirflowTransform.UnparsableSignupRejected | src/ApacheAirflowExercise/include/etl/transform.py:48-51 | A signup_date that does not parse survives dropna as a missing cell, and then fails the post schema. |
| AirflowTransform.CleanProductsData | src/ApacheAirflowExercise/include/etl/transform.py:58-74 | The caller's frame ends up as the complete rows of the relabelled input, and the result is the products post schema's verdict on that frame (with the name bound the schema means; see Findings). |
| AirflowTransform.ProductsCleanedSpec | src/ApacheAirflowExercise/include/etl/transform.py:67-70 | Cleaned products pass exactly when the labels are there, every complete row has the types and bounds of the post schema and no product_id repeats; a passing result is the complete frame itself, whose rows are the input rows with no missing cell. |
| AirflowTransform.JoinedSpec | src/ApacheAirflowExercise/include/etl/transform.py:84-85 | The joined rows are exactly the sale-customer pairs with equal customer_id, each extended by every product whose product_id equals the pair's. |
| AirflowTransform.MergeDataSpec | src/ApacheAirflowExercise/include/etl/transform.py:84-86 | Every merged row keeps the joined cells and gains profit_margin = profit / total_revenue (missing when either is missing or the revenue is zero). |
| AirflowTransform.MergeData | src/ApacheAirflowExercise/include/etl/transform.py:77-90 | merge_data: the two inner joins, then profit_margin; what its rows hold is stated by JoinedSpec and MergeDataSpec. |
| AirflowTransform.MonthRow | src/ApacheAirflowExercise/include/etl/transform.py:103-106 | The aggregate row of month k: its month-end date, the sum of that month's revenue and the number of distinct customers who bought in it. |
| AirflowTransform.MonthlyTableSpec | src/ApacheAirflowExercise/include/etl/transform.py:102-106 | The monthly table has one row per month of the span, which runs without a gap over every month holding a date; each row is that month's end, its revenue sum and its count of distinct customers. |
| AirflowTransform.MonthlyAggregatesSpec | src/ApacheAirflowExercise/include/etl/transform.py:102-106 | One row per calendar month from the earliest parsed order_date's to the latest's, with no gap and none missing; each labelled by its month end, with the month's revenue sum and its count of distinct customers. |
| AirflowTransform.MonthlyTotalsAddUp | src/ApacheAirflowExercise/include/etl/transform.py:103-104 | Summing the monthly totals gives the total revenue of the rows whose order_date parsed: no dated sale is counted twice or lost. |
| AirflowTransform.MonthlyTableCounts | src/ApacheAirflowExercise/include/etl/transform.py:105 | A monthly table over at least one date has a first row, whose distinct-customer count is an integer. |
| AirflowTransform.MonthlyAggregatesRejected | src/ApacheAirflowExercise/include/etl/transform.py:105-108 | As written, the post schema rejects every non-empty monthly table: nunique() yields integer counts, and the schema declares unique_customers a float column. |
| AirflowTransform.MonthlyPreValidateRaises | src/ApacheAirflowExercise/include/etl/transform.py:100 | As written, the pre validator of compute_monthly_aggregates raises SchemaError on any table without a unique_customers column, which the joined sales never have. |
| AirflowTransform.ComputeMonthlyAggregates | src/ApacheAirflowExercise/include/etl/transform.py:93-112 | compute_monthly_aggregates with the advisory pre step: the monthly table checked against the post schema. MonthlyAggregatesSpec and MonthlyTotalsAddUp state the table; MonthlyAggregatesRejected and MonthlyPreValidateRaises state how the step as written fails. |
| AirflowTransform.SpendingShape | src/ApacheAirflowExercise/include/etl/transform.py:122-123 | The spending table is the groupby sum with its sum column relabelled total_spent. |
| AirflowTransform.SpendingTotals | src/ApacheAirflowExercise/include/etl/transform.py:122 | Each spending row is a present customer_id and what that customer spent. |
| AirflowTransform.SpendingDistinct | src/ApacheAirflowExercise/include/etl/transform.py:122 | No customer_id has two spending rows. |
| AirflowTransform.SpendingCovers | src/ApacheAirflowExercise/include/etl/transform.py:122 | Every customer_id that occurs in sales has a spending row. |
| AirflowTransform.MergedSpendingRows | src/ApacheAirflowExercise/include/etl/transform.py:125 | Left-merging the spending into customers on customer_id joins each customer row with the spend of the spending rows carrying its customer_id, or pads it with a missing cell. |
| AirflowTransform.SpendingLabels | src/ApacheAirflowExercise/include/etl/transform.py:125 | The merged labels are the customer labels and total_spent last, unless customers already has a total_spent column (then both copies get suffixes and no total_spent is left). |
| AirflowTransform.Buyers | src/ApacheAirflowExercise/include/etl/transform.py:125-126 | customers left-merged with a spending table on customer_id, less the rows without a total_spent. |
| AirflowTransform.BuyersLabels | src/ApacheAirflowExercise/include/etl/transform.py:125-126 | Buyers keeps the customer labels and adds total_spent last; it fails unless customers has a customer_id column and no total_spent column of its own. |
| AirflowTransform.SpentPresent | src/ApacheAirflowExercise/include/etl/transform.py:126 | After dropna(subset=["total_spent"]) on a table whose last column is total_spent, row p is an input row whose last cell is present. |
| AirflowTransform.BuyersJoined | src/ApacheAirflowExercise/include/etl/transform.py:125-126 | Row p of Buyers is a row of the left join whose total_spent cell is present. |
| AirflowTransform.JoinedSpend | src/ApacheAirflowExercise/include/etl/transform.py:125 | A left-join row whose total_spent cell is present joins a customer row with a spending row carrying its customer_id. |
| AirflowTransform.BuyersRow | src/ApacheAirflowExercise/include/etl/transform.py:125-126 | Row p of Buyers is a customer row followed by the spend of a spending row with its customer_id: the merge pads a customer without sales with a missing total_spent, and dropna removes exactly those. |
| AirflowTransform.SpendingJoinKeeps | src/ApacheAirflowExercise/include/etl/transform.py:125 | A customer row joined with a spending row that carries its customer_id is among the left join's rows. |
| AirflowTransform.MergedKept | src/ApacheAirflowExercise/include/etl/transform.py:125 | The left merge joins a customer with each spending row carrying its customer_id. |
| AirflowTransform.BuyersKept | src/ApacheAirflowExercise/include/etl/transform.py:125-126 | Every customer whose customer_id has a spending row with a spend is kept, joined with that spend. |
| AirflowTransform.BuyersAt | src/ApacheAirflowExercise/include/etl/transform.py:125-126 | With one spending row per customer_id, Buyers row p is the customer at position index[p], the position it had in the merge (whose labels are 0..n-1), followed by its spend. |
| AirflowTransform.SegmentColumnCells | src/ApacheAirflowExercise/include/etl/transform.py:128-132 | Writing customer_segment into the buyers keeps every other cell: row p still holds customer i's cells and its total_spent. |
| AirflowTransform.BandedCells | src/ApacheAirflowExercise/include/etl/transform.py:128-132 | Banding the buyers keeps every other cell of a row, and labels the row with the band of its total_spent. |
| AirflowTransform.BuyerAt | src/ApacheAirflowExercise/include/etl/transform.py:122-126 | Row p of the buyers is the customer at position index[p] followed by what that customer spent. |
| AirflowTransform.SegmentsCustomer | src/ApacheAirflowExercise/include/etl/transform.py:122-132 | Row p of the banded buyers is the customer at position index[p]: every customer cell but a customer_segment of its own is kept. |
| AirflowTransform.SegmentsSpend | src/ApacheAirflowExercise/include/etl/transform.py:122-132 | Row p of the banded buyers carries what its customer spent and the band of that spend. |
| AirflowTransform.BuyersOk | src/ApacheAirflowExercise/include/etl/transform.py:125-126 | Merging a spending table in and dropping the customers without a spend fails exactly when customers has no customer_id column or already has a total_spent column. |
| AirflowTransform.SpentCell | src/ApacheAirflowExercise/include/etl/transform.py:126 | In a table whose last column is total_spent, the total_spent cell is the last cell. |
| AirflowTransform.BuyerSpendNum | src/ApacheAirflowExercise/include/etl/transform.py:122-126 | A buyer's total_spent is a number. |
| AirflowTransform.BandedOk | src/ApacheAirflowExercise/include/etl/transform.py:128-132 | Every buyer's total_spent is a number, so pd.cut never meets text. |
| AirflowTransform.SegmentsOk | src/ApacheAirflowExercise/include/etl/transform.py:122-132 | segment_customers fails before its date step exactly when the groupby fails, customers has no customer_id, or customers already has a total_spent column. |
| AirflowTransform.SegmentsLabels | src/ApacheAirflowExercise/include/etl/transform.py:122-132 | The banded buyers carry the customer labels and add total_spent and customer_segment. |
| AirflowTransform.BandedLabels | src/ApacheAirflowExercise/include/etl/transform.py:127-132 | Writing the pd.cut bands as customer_segment adds that label and no other. |
| AirflowTransform.SegmentDatedCells | src/ApacheAirflowExercise/include/etl/transform.py:134 | Writing segmentation_date from each row's own signup_date keeps every other cell. |
| AirflowTransform.SegmentDatedAsWrittenCells | src/ApacheAirflowExercise/include/etl/transform.py:134 | Writing segmentation_date as transform.py does keeps every other cell; row p gets the date held under its own index label in customers_df. |
| AirflowTransform.SegmentStateOk | src/ApacheAirflowExercise/include/etl/transform.py:134 | The date step fails only for a missing signup_date column, in either reading, so both readings of segment_customers reach the column selection on the same inputs. |
| AirflowTransform.SegmentBands | src/ApacheAirflowExercise/include/etl/transform.py:128-132 | pd.cut with bins [0, 1000, 5000, 10000, inf]: right-closed bands, and no band at or below 0. |
| AirflowTransform.SegmentRow | src/ApacheAirflowExercise/include/etl/transform.py:122-134 | Row p of segment_customers up to the column selection: the customer at position index[p], what it spent, the band of that spend and its own parsed signup_date. |
| AirflowTransform.SegmentOutputCells | src/ApacheAirflowExercise/include/etl/transform.py:135-136 | The column selection keeps the four segmentation cells of every row. |
| AirflowTransform.SegmentOutputOk | src/ApacheAirflowExercise/include/etl/transform.py:135-138 | The selected columns pass validate_post_segmented_schema exactly when every row has a positive customer_id, a non-negative float total_spent, one of the four labels and a date, and no customer_id repeats; otherwise the step raises SchemaError. |
| AirflowTransform.SegmentCustomersRow | src/ApacheAirflowExercise/include/etl/transform.py:115-142 | Row p of segment_customers is the customer at position index[p] with a positive id, what it spent (a non-negative float), the band of that spend and its own signup_date, parsed. |
| AirflowTransform.BuyerKeptAt | src/ApacheAirflowExercise/include/etl/transform.py:125-126 | With one spending row per customer_id, a customer with a spend is some Buyers row p, at the position index[p] of a customer row equal to its own. |
| AirflowTransform.SegmentsCover | src/ApacheAirflowExercise/include/etl/transform.py:122-132 | Every customer with a sale is among the banded buyers: some row p holds that customer's cells. |
| AirflowTransform.SegmentStateCovers | src/ApacheAirflowExercise/include/etl/transform.py:122-134 | Every customer with a sale gets a row up to the column selection, with what it spent, the band of that spend and its own parsed signup_date. |
| AirflowTransform.SegmentCustomersCovers | src/ApacheAirflowExercise/include/etl/transform.py:115-142 | Every customer with a sale is in the output of segment_customers, with what it spent, the band of that spend and its own signup_date. |
| AirflowTransform.SegmentCustomers | src/ApacheAirflowExercise/include/etl/transform.py:115-142 | segment_customers with each customer dated by its own signup_date; SegmentCustomersRow and SegmentCustomersCovers state its rows. |
| AirflowTransform.SegmentCustomersAsWritten | src/ApacheAirflowExercise/include/etl/transform.py:115-142 | segment_customers as written, the signup dates aligned by index label; SegmentRowAsWritten and SegmentationDateMisaligned state where it differs. |
| AirflowTransform.UnsegmentedCustomerRejected | src/ApacheAirflowExercise/include/etl/transform.py:128-138 | A customer with sales that add up to 0 or less falls in no band, and one whose signup_date does not parse gets no date; either makes segment_customers raise SchemaError. |
| AirflowTransform.SegmentRowAsWritten | src/ApacheAirflowExercise/include/etl/transform.py:134 | As written, row p (the customer at position index[p]) is dated with the signup_date held under the index label index[p] of customers_df, which need not be the same customer. |
| AirflowTransform.AlignedDates | src/ApacheAirflowExercise/include/etl/transform.py:134 | When each row's signup_date is that of the customer at position index[p] and customers_df is labelled 0..n-1 in order, the label-aligned dates are the rows' own. |
| AirflowTransform.SegmentsSignup | src/ApacheAirflowExercise/include/etl/transform.py:122-132 | Every banded buyer keeps the signup_date of the customer at position index[p]. |
| AirflowTransform.SegmentAlignedAgrees | src/ApacheAirflowExercise/include/etl/transform.py:134 | On a customers_df labelled 0..n-1 in order (as read, before any row is dropped), the label-aligned dates are each customer's own, and segment_customers as written agrees with the per-row reading. |
| AirflowTransform.DatedAligned | src/ApacheAirflowExercise/include/etl/transform.py:134 | On the buyers of a customers_df labelled 0..n-1 in order, dating by label alignment and dating each row from its own signup_date give the same result, including the same KeyError when signup_date is missing. |
| AirflowTransform.SegmentationDateMisaligned | src/ApacheAirflowExercise/include/etl/transform.py:134 | When every index label of customers_df is at least its length (a cleaned customers_df whose first rows were dropped), a customer with a sale finds no signup_date under its merge label, and segment_customers as written raises SchemaError. |
| AirflowTransform.AnomalyRowsSpec | src/ApacheAirflowExercise/include/etl/transform.py:153-155 | The anomalies are exactly the rows strictly below the threshold, in input order, cut down to the five columns: result row p is sales row AnomalySources[p], those positions ascend, and every row below the threshold is among them. |
| AirflowTransform.ValidatedSalesAnomalyRejected | src/ApacheAirflowExercise/include/etl/transform.py:153-157 | The cleaned sales table has integer order ids, but the anomaly schema declares them strings: as soon as one validated sale falls below the threshold, detect_sales_anomalies raises. |
| AirflowTransform.RowsFrom | src/ApacheAirflowExercise/include/etl/transform.py:153-155 | A result row picked from sales row i is its projection, and row i passed the mask. |
| AirflowTransform.DetectSalesAnomalies | src/ApacheAirflowExercise/include/etl/transform.py:145-161 | detect_sales_anomalies with the threshold as a parameter; AnomalyRowsSpec states its rows and ValidatedSalesAnomalyRejected its failure on validated sales. |
| AirflowTransform.ForecastSales | src/ApacheAirflowExercise/include/etl/transform.py:164-181 | The caller's frame ends up as the forecast state and the result is the forecast schema's verdict on the selected columns; a failing step's error is returned. ForecastedSpec states the window means. |
| AirflowTransform.ForecastedShape | src/ApacheAirflowExercise/include/etl/transform.py:171-176 | The forecast state has the input's rows relabelled 0..n-1, order_date first, and the forecast columns. |
| AirflowTransform.ForecastedRow | src/ApacheAirflowExercise/include/etl/transform.py:171-176 | Each row of the forecast state is a ForecastRow of the input. |
| AirflowTransform.ForecastedSpec | src/ApacheAirflowExercise/include/etl/transform.py:171-176 | The forecast keeps every row in place: same count, order_date the parsed cell, total_revenue unchanged, and sales_forecast[i] the mean of total_revenue over rows max(0, i-6)..i. |
| AirflowTransform.ForecastedOk | src/ApacheAirflowExercise/include/etl/transform.py:171-173 | The forecast state exists once both columns are there and total_revenue is numeric. |
| AirflowTransform.WindowMeanNonNegative | src/ApacheAirflowExercise/include/etl/transform.py:173 | A trailing window over non-negative floats has a non-negative float mean. |
| AirflowTransform.ForecastRowAccepted | src/ApacheAirflowExercise/include/etl/transform.py:173-178 | A forecast row whose order_date parses, over non-negative float revenues, is a good forecast row. |
| AirflowTransform.ForecastAccepted | src/ApacheAirflowExercise/include/etl/transform.py:171-178 | When every order_date parses and every total_revenue is a non-negative float, the forecast passes its schema: each window ends in a number, so its mean exists and is non-negative. |
| AirflowTransform.UnparsableForecastDateRejected | src/ApacheAirflowExercise/include/etl/transform.py:171-178 | A row whose order_date does not parse makes the forecast fail its schema. |
| EtlExtract.SlotOf | src/ETLProcessExercise/extract/extract_s3.py:36-39 | The first slot whose name occurs in the lower-cased key, if any. |
| EtlExtract.Step | src/ETLProcessExercise/extract/extract_s3.py:26-39 | One iteration of the extraction loop. |
| EtlExtract.Fill | src/ETLProcessExercise/extract/extract_s3.py:25-39 | The slots after the loop has visited the given keys. |
| EtlExtract.S3Extract | src/ETLProcessExercise/extract/extract_s3.py:10-41 | Fails, with FileNotFoundError for the prefix, exactly when the listing is empty; otherwise returns the slots Fill leaves after visiting every key in order. |
| EtlExtract.FillEmpty | src/ETLProcessExercise/extract/extract_s3.py:20-39 | A slot that no key lands in stays empty. |
| EtlExtract.FillLast | src/ETLProcessExercise/extract/extract_s3.py:36-39 | Slot j holds the frame of the last key that lands in it. |
| EtlExtract.SlotExamples | src/ETLProcessExercise/extract/extract_s3.py:26-39 | Example: keys are tried against the slots in order, case-insensitively: "Sales.CSV" goes to sales, "productsales.csv" to sales although it names a product too, and "a.csv" nowhere. |
| EtlTransform.NormalizeLabels | src/ETLProcessExercise/transform/transform.py:16 | Every label stripped, lower-cased and with blanks turned into underscores. |
| EtlTransform.CleanFrame | src/ETLProcessExercise/transform/transform.py:16-24 | The cleaning of one frame: the state it leaves and the error it raises; CleanFrameSpec states both. |
| EtlTransform.RenameIfPresent | src/ETLProcessExercise/transform/transform.py:18-19 | The rename is applied only when its old label is present. |
| EtlTransform.ParseDateColumn | src/ETLProcessExercise/transform/transform.py:22-24 | One date column parsed day-month-year when present, an unparsable cell becoming missing; fails, with ValueError, exactly when the label is carried by two columns, since df[col] is then a DataFrame; on success labels, index and row count are kept. |
| EtlTransform.ParseDateColumnsSpec | src/ETLProcessExercise/transform/transform.py:22-24 | Parsing distinct date columns raises, and only with ValueError, exactly when one of those labels is repeated; otherwise every cell under those labels is parsed and every other cell is left alone. |
| EtlTransform.CleanFrameSpec | src/ETLProcessExercise/transform/transform.py:16-24 | A cleaned frame keeps its rows and index; its labels are the normalised ones, renamed when the old label is among them; cleaning raises ValueError exactly when a date label is carried by two of those columns; otherwise each date column holds the parsed cells and every other cell is unchanged. |
| EtlTransform.ParsedCell | src/ETLProcessExercise/transform/transform.py:24 | Parsing a label that is not repeated rewrites exactly the cells of that one column. |
| EtlTransform.CollidingDatesRaise | src/ETLProcessExercise/transform/transform.py:16-24 | Example: a frame whose " Order Date" and "order_date" columns both normalise to order_date makes cleaning raise ValueError. |
| EtlTransform.CleanFrameInPlace | src/ETLProcessExercise/transform/transform.py:16-24 | The frame ends up in the state CleanFrame gives for its old contents (as far as the cleaning got before a raise), and the error returned is CleanFrame's. |
| EtlTransform.CleanData | src/ETLProcessExercise/transform/transform.py:5-29 | Succeeds exactly when no non-empty frame fails to clean, and then returns exactly the frames KeepMask keeps, in input order; otherwise it raises the error of the first failing frame. Frames up to that one end in their Outcome, later ones keep their entry state. |
| EtlTransform.CleanStep | src/ETLProcessExercise/transform/transform.py:11-27 | One pass of the loop: the picked prefix grows by frame i exactly when the keep flag of i is set; frame i moves to its Outcome while every earlier frame keeps its outcome and every later one its entry state; an error comes back exactly when frame i Fails, and it is CleanFrame's. |
| EtlTransform.Outcome | src/ETLProcessExercise/transform/transform.py:12-14 | An empty frame is left unchanged; any other frame is left in the state its cleaning reaches. |
| EtlTransform.FirstFailure | src/ETLProcessExercise/transform/transform.py:11-27 | The position of the first frame whose cleaning raises (the number of frames when none does): no frame before it fails, and the frame there does. |
| EtlTransform.Snapshots | src/ETLProcessExercise/transform/transform.py:11-12 | One state per input frame, equal to the frame's contents when it is present; a frame is skipped exactly when it is missing or its state is empty. |
| EtlTransform.Dedup | src/ETLProcessExercise/transform/transform.py:43 | drop_duplicates(subset, keep) followed by reset_index(drop=True). |
| EtlTransform.Deduplicated | src/ETLProcessExercise/transform/transform.py:32-49 | The frames remove_duplicates returns: each present, non-empty frame de-duplicated, in order; the first failure aborts. |
| EtlTransform.RemoveDuplicates | src/ETLProcessExercise/transform/transform.py:32-49 | Returns Deduplicated of the input: each kept frame de-duplicated on the subset and renumbered, in order, the first failure aborting. DedupFirstSpec states what a de-duplicated frame holds. |
| EtlTransform.DedupFirstSpec | src/ETLProcessExercise/transform/transform.py:43 | With keep="first", a de-duplicated frame has no two rows sharing a key, keeps every key of its input, and is numbered 0..n-1. |
| EtlTransform.DedupKeysDiffer | src/ETLProcessExercise/transform/transform.py:43 | drop_duplicates(keep="first") leaves no two output rows with the same key. |
| EtlTransform.DedupKeyKept | src/ETLProcessExercise/transform/transform.py:43 | drop_duplicates(keep="first") loses no key: the key of every input row is the key of some output row. |
| EtlTransform.MergeData | src/ETLProcessExercise/transform/transform.py:52-68 | Returns MergedAll of the frames: the left-to-right joins on merge_columns, with the ValueError and IndexError cases MergedAllSpec states. |
| EtlTransform.MergedAll | src/ETLProcessExercise/transform/transform.py:52-68 | merge_data as a function of the frames, key pairs and join kind; MergedAllSpec states its outcome. |
| EtlTransform.MergedAllSpec | src/ETLProcessExercise/transform/transform.py:56-65 | Fewer than two frames is a ValueError; too few key pairs an IndexError; two frames are one join. |
| EtlTransform.DiscountedPrice | src/ETLProcessExercise/transform/transform.py:81 | amount * (1 - discount / 100) on one row. |
| EtlTransform.DiscountedPriceSpec | src/ETLProcessExercise/transform/transform.py:81 | A discount in [0, 100] on a non-negative amount gives a price between 0 and the amount; 0 keeps the amount. |
| EtlTransform.ComputeDerivedColumns | src/ETLProcessExercise/transform/transform.py:71-83 | The frame ends up as Derived of its old contents; it fails exactly when Derived reports an error, which is returned. DerivedSpec states the written cells and the KeyError case. |
| EtlTransform.Derived | src/ETLProcessExercise/transform/transform.py:71-83 | compute_derived_columns as a function of the input: the frame it leaves and the error it raises; DerivedSpec states both. |
| EtlTransform.DerivedSpec | src/ETLProcessExercise/transform/transform.py:71-83 | On success every row holds total_revenue = quantity * amount, profit_margin = profit / total_revenue (missing where the revenue is zero or missing) and its discounted price; a missing input column is a KeyError naming the first one absent. |
| EtlTransform.DerivedRow | src/ETLProcessExercise/transform/transform.py:71-83 | Row i of a successful compute_derived_columns: its total_revenue, profit_margin and discounted_price cells in terms of the same row of the input. |
| EtlTransform.DeliveryCategorySpec | src/ETLProcessExercise/transform/transform.py:93-100 | "fast" exactly below the fast threshold, "slow" exactly above the slow one and not fast, "standard" otherwise (a missing day count included); with fast <= slow the category never gets faster as the days grow. |
| EtlTransform.SegmentDeliveries | src/ETLProcessExercise/transform/transform.py:86-102 | Fails exactly when shipping_days is missing (KeyError) or holds text (TypeError), leaving the frame unchanged; otherwise writes delivery_category as the per-cell DeliveryCategory of shipping_days. |
| EtlTransform.ProductCategorySpec | src/ETLProcessExercise/transform/transform.py:110-113 | "low" for (0, 50], "medium" for (50, 200], "high" above 200, missing for a missing amount or one <= 0. |
| EtlTransform.CategorizeProducts | src/ETLProcessExercise/transform/transform.py:105-115 | Fails exactly when amount is missing or holds text, leaving the frame unchanged; otherwise writes product_category as the per-cell ProductCategory of amount. |
| ExamPrepExtract.MatchingKeys | src/ExamPrep/include/etl/extract_data.py:23 | The keys that end in "." + fileType, in order. |
| ExamPrepExtract.ExtractSpec | src/ExamPrep/include/etl/extract_data.py:20-28 | Exactly the matching keys become paths; the call fails iff the listing is empty or nothing matches. |
| ExamPrepExtract.CaseSensitive | src/ExamPrep/include/etl/extract_data.py:23 | Example: the extension test is case-sensitive, so a ".CSV" key is not a csv file. |
| ExamPrepExtract.ExtractDataFromS3 | src/ExamPrep/include/etl/extract_data.py:9-28 | extract_data_from_s3 given the listed keys; ExtractSpec states its result. |
| ExamPrepHourlySchema.ValidateHourlyTrend | src/ExamPrep/include/validations/hourly_sales_schema.py:19-26 | validate_output_hourly_sales_trend_schema: the table back when it conforms, SchemaError otherwise. |
| ExamPrepHourlySchema.HourlyRowSpec | src/ExamPrep/include/validations/hourly_sales_schema.py:11-16 | Row i passes the schema exactly when GoodHourlyRow holds of it. |
| ExamPrepHourlySchema.HourlySpec | src/ExamPrep/include/validations/hourly_sales_schema.py:11-16 | The schema accepts a table exactly when the three columns are present, it has at least one row and every row is a good hourly row. |
| ExamPrepHourlySchema.EmptyHourlyRejected | src/ExamPrep/include/validations/hourly_sales_schema.py:13 | The region check is a row count: an empty table with the right columns is rejected. |
| ExamPrepProductsSchema.ValidateInputProducts | src/ExamPrep/include/validations/products_schema.py:25-38 | validate_input_products_schema: the table back when it conforms; the SchemaError escapes the handler otherwise. |
| ExamPrepProductsSchema.ValidateOutputProducts | src/ExamPrep/include/validations/products_schema.py:40-47 | validate_output_products_schema: the table back when it conforms, SchemaError otherwise. |
| ExamPrepProductsSchema.InputProductsRowSpec | src/ExamPrep/include/validations/products_schema.py:8-14 | Row i passes the schema exactly when TypedProductRow holds of it. |
| ExamPrepProductsSchema.InputProductsSpec | src/ExamPrep/include/validations/products_schema.py:8-14 | The input schema accepts a table exactly when the four columns are present and every cell has its column's dtype. |
| ExamPrepProductsSchema.OutputProductsRowSpec | src/ExamPrep/include/validations/products_schema.py:16-22 | Row i passes the schema exactly when GoodProductRow holds of it. |
| ExamPrepProductsSchema.OutputProductsSpec | src/ExamPrep/include/validations/products_schema.py:16-22 | The output schema accepts a table exactly when the four columns are present and every row is a good product row. |
| ExamPrepRankingSchema.ValidateRanking | src/ExamPrep/include/validations/ranking_product_schema.py:18-25 | validate_ranking_product_schema: the table back when it conforms, SchemaError otherwise. |
| ExamPrepRankingSchema.RankingRowSpec | src/ExamPrep/include/validations/ranking_product_schema.py:9-15 | Row i passes the schema exactly when GoodRankingRow holds of it. |
| ExamPrepRankingSchema.RankingSpec | src/ExamPrep/include/validations/ranking_product_schema.py:9-15 | The ranking schema accepts a table exactly when the four columns are present and every row is a good ranking row. |
| ExamPrepRevenueSchema.ValidateRevenueConcentration | src/ExamPrep/include/validations/revenue_concentration_schema.py:21-28 | validate_revenue_concentration_schema: the table back when it conforms, SchemaError otherwise. |
| ExamPrepRevenueSchema.RevenueRowSpec | src/ExamPrep/include/validations/revenue_concentration_schema.py:12-18 | Row i passes the schema exactly when GoodRevenueRow holds of it. |
| ExamPrepRevenueSchema.RevenueSpec | src/ExamPrep/include/validations/revenue_concentration_schema.py:12-18 | The schema accepts a table exactly when the four columns are present, it has at least one row and every row is a good revenue row. |
| ExamPrepRevenueSchema.CumulativeShareAboveOneRejected | src/ExamPrep/include/validations/revenue_concentration_schema.py:17 | A running share above 1 fails the schema. |
| ExamPrepSalesSchema.ValidateInputSales | src/ExamPrep/include/validations/sales_schema.py:31-44 | validate_input_sales_schema: the table back when it conforms; the SchemaError escapes the handler otherwise. |
| ExamPrepSalesSchema.ValidateOutputSales | src/ExamPrep/include/validations/sales_schema.py:46-53 | validate_output_sales_schema: the table back when it conforms, SchemaError otherwise. |
| ExamPrepSalesSchema.InputSalesRowSpec | src/ExamPrep/include/validations/sales_schema.py:8-17 | Row i passes the schema exactly when TypedSalesRow holds of it. |
| ExamPrepSalesSchema.InputSalesSpec | src/ExamPrep/include/validations/sales_schema.py:8-17 | The input schema accepts a table exactly when the seven columns are present and every cell has its column's dtype. |
| ExamPrepSalesSchema.OutputSalesRowSpec | src/ExamPrep/include/validations/sales_schema.py:19-28 | Row i passes the schema exactly when GoodSalesRow holds of it. |
| ExamPrepSalesSchema.OutputSalesSpec | src/ExamPrep/include/validations/sales_schema.py:19-28 | The output schema accepts a table exactly when the seven columns are present and every row is a good sales row. |
| ExamPrepSeasonalSchema.ValidateSeasonalPattern | src/ExamPrep/include/validations/seasonal_sales_schema.py:20-27 | validate_output_seasonal_sales_pattern_schema: the table back when it conforms, SchemaError otherwise. |
| ExamPrepSeasonalSchema.SeasonalRowSpec | src/ExamPrep/include/validations/seasonal_sales_schema.py:12-17 | Row i passes the schema exactly when GoodSeasonalRow holds of it. |
| ExamPrepSeasonalSchema.SeasonalSpec | src/ExamPrep/include/validations/seasonal_sales_schema.py:12-17 | The schema accepts a table exactly when the three columns are present and every row is a good seasonal row. |
| ExamPrepTransform.TransformSales | src/ExamPrep/include/etl/transform.py:14-35 | Returns TransformSalesData of the input (AttributeError when region holds no text); the caller's frame keeps the relabelling and, when region is a text column, the normalised region, and nothing else. SalesRow and SalesAccepted state what the result holds. |
| ExamPrepTransform.TransformSalesData | src/ExamPrep/include/etl/transform.py:14-35 | transform_sales_data as a function of the input; SalesProcessedOk, SalesRow and SalesAccepted state its outcome. |
| ExamPrepTransform.NormalizedCells | src/ExamPrep/include/etl/transform.py:25 | On a region column that holds text, normalising rewrites that column alone: text is stripped and lower-cased, a missing cell stays missing, and every other column and the labels are kept. |
| ExamPrepTransform.DropUnlisted | src/ExamPrep/include/etl/transform.py:26 | dropna(subset=["region", "timestamp"]) on the normalised frame keeps the Listed rows. |
| ExamPrepTransform.FilterOk | src/ExamPrep/include/etl/transform.py:27 | The comparisons run on the rows dropna keeps: they raise exactly when such a row has a price or a quantity that is neither a number nor missing. |
| ExamPrepTransform.FilterKeeps | src/ExamPrep/include/etl/transform.py:25-27 | The rows the two filters keep are those of the relabelled frame that are Sold, in order. |
| ExamPrepTransform.PositiveMaskRows | src/ExamPrep/include/etl/transform.py:27 | The mask (price > 0) & (quantity > 0) is true exactly at the rows whose price and quantity are both positive numbers. |
| ExamPrepTransform.SoldMaskRows | src/ExamPrep/include/etl/transform.py:24-27 | A row of the relabelled frame is Sold exactly when it survives dropna and its normalised row has a positive price and quantity. |
| ExamPrepTransform.StampedOk | src/ExamPrep/include/etl/transform.py:28-29 | Parsing timestamp and multiplying never fail once price and quantity hold numbers or missing cells; the rows and index stay. |
| ExamPrepTransform.StampedRow | src/ExamPrep/include/etl/transform.py:28-29 | Row p after SalesStamped: timestamp parsed, total_sales the product quantity * price, every other cell kept. |
| ExamPrepTransform.FilteredRow | src/ExamPrep/include/etl/transform.py:25-27 | Row p of the filtered frame is row Kept(SoldMask(u))[p] of the relabelled frame, a Sold row, with its region normalised and every other cell as it was. |
| ExamPrepTransform.FilteredPositive | src/ExamPrep/include/etl/transform.py:27 | Every row left by the filters has a positive price and a positive quantity. |
| ExamPrepTransform.SalesProcessedOk | src/ExamPrep/include/etl/transform.py:24-29 | Which relabelled frames get through transform_sales_data's steps: region, timestamp, price and quantity must be columns (KeyError otherwise), region must hold text (AttributeError from `.str` otherwise) and the comparisons with 0 must not raise (TypeError otherwise). The result keeps exactly the Sold rows, in order, with their index labels, and adds total_sales when it is new. |
| ExamPrepTransform.SalesRow | src/ExamPrep/include/etl/transform.py:24-29 | Row p of the processed frame comes from row Kept(SoldMask(u))[p] of the relabelled frame u: region normalised, timestamp parsed (format="mixed"), total_sales = quantity * price, the rest unchanged. |
| ExamPrepTransform.SalesPositive | src/ExamPrep/include/etl/transform.py:27-29 | Every row of the result has quantity > 0, price > 0 and so total_sales = quantity * price > 0: the value checks of the output sales schema cannot fail. |
| ExamPrepTransform.TimesPositive | src/ExamPrep/include/etl/transform.py:29 | The product of two positive numbers is a positive number. |
| ExamPrepTransform.StripLowerIsLower | src/ExamPrep/include/etl/transform.py:25 | A stripped and lower-cased string passes `str.islower` exactly when the original has a letter. |
| ExamPrepTransform.SaleAccepted | src/ExamPrep/include/etl/transform.py:25-31 | Row p of the processed frame is a good output sales row exactly when its source row is ReadySale. |
| ExamPrepTransform.SalesAccepted | src/ExamPrep/include/etl/transform.py:24-31 | validate_output_sales_schema accepts the processed frame exactly when sales_id and product_id are columns and every Sold row is ReadySale: the range checks (quantity > 0, price > 0, total_sales >= 0) always hold after the filters. |
| ExamPrepTransform.StripUpperIsUpper | src/ExamPrep/include/etl/transform.py:50 | A stripped and upper-cased string passes `str.isupper` exactly when the original has a letter. |
| ExamPrepTransform.TransformProducts | src/ExamPrep/include/etl/transform.py:38-58 | Returns TransformProductsData of the input; the caller's frame keeps the relabelling and the category and brand rewrites that ran before a failure (a missing column, or AttributeError on one without text), and nothing else. ProductsAccepted states when the result passes. |
| ExamPrepTransform.TransformProductsData | src/ExamPrep/include/etl/transform.py:38-58 | transform_products_data as a function of the input; ProductsProcessedOk and ProductsAccepted state its outcome. |
| ExamPrepTransform.ProductsNormalizedCells | src/ExamPrep/include/etl/transform.py:49-50 | When category and brand both hold text, normalising rewrites those two columns alone: text is stripped and re-cased, missing cells stay missing. |
| ExamPrepTransform.ProductsProcessedOk | src/ExamPrep/include/etl/transform.py:48-52 | transform_products_data's steps succeed exactly when category, brand, product_id and rating are columns and category and brand hold text; a missing column is a KeyError, a category or brand without text the AttributeError of `.str`. |
| ExamPrepTransform.ProductsNormalizedShape | src/ExamPrep/include/etl/transform.py:49-50 | Normalising fails exactly on a missing category or brand column (KeyError) or on one without text (AttributeError), and keeps the labels. |
| ExamPrepTransform.DeduplicatedSpec | src/ExamPrep/include/etl/transform.py:51-52 | dropna then drop_duplicates never fail once product_id and rating are columns, and leave each Identified row of the normalised frame exactly once. |
| ExamPrepTransform.DeduplicatedDistinct | src/ExamPrep/include/etl/transform.py:52 | drop_duplicates() over whole rows leaves no row twice. |
| ExamPrepTransform.DeduplicatedFrom | src/ExamPrep/include/etl/transform.py:51-52 | Every row drop_duplicates leaves is a row dropna kept, hence an Identified row. |
| ExamPrepTransform.DeduplicatedKeeps | src/ExamPrep/include/etl/transform.py:51-52 | Every Identified row survives dropna, and drop_duplicates leaves a row equal to it. |
| ExamPrepTransform.SameProductRow | src/ExamPrep/include/etl/transform.py:52-54 | Equal rows under the same labels are equally good product rows. |
| ExamPrepTransform.NormalizedProductRow | src/ExamPrep/include/etl/transform.py:49-54 | A normalised row is a good output product row exactly when its source row is ReadyProduct. |
| ExamPrepTransform.ProductsAccepted | src/ExamPrep/include/etl/transform.py:48-54 | validate_output_products_schema accepts the processed frame exactly when every input row with product_id and rating present is ReadyProduct: duplicates and rows dropped by dropna do not matter. |
| ExamPrepTransform.GoodRowsKept | src/ExamPrep/include/etl/transform.py:51-54 | When w holds exactly the Identified rows of n (each perhaps once), all rows of w are good product rows exactly when all Identified rows of n are. |
| ExamPrepTransform.MergeSalesAndProducts | src/ExamPrep/include/etl/transform.py:61-73 | merge_sales_and_products: sales.merge(products, on="product_id", how="inner"). |
| ExamPrepTransform.MergedRows | src/ExamPrep/include/etl/transform.py:69 | The merged frame holds exactly the pairs of a sale and a product with the same product_id; the key appears once among its labels and the rows are numbered 0..n-1. |
| ExamPrepTransform.BucketSpec | src/ExamPrep/include/etl/transform.py:90-94 | pd.cut with these bins puts a cell in (-1, 100] in "low", (100, 500] in "medium", above 500 in "high", and anything at or below -1 (or missing) in no bucket. |
| ExamPrepTransform.PositiveBucketed | src/ExamPrep/include/etl/transform.py:90-94 | A positive sale always lands in a bucket. |
| ExamPrepTransform.Hours | src/ExamPrep/include/etl/transform.py:88 | dt.hour.astype(int64): the hour of every date; a missing timestamp has no hour and the cast raises ValueError. |
| ExamPrepTransform.EnrichMergedData | src/ExamPrep/include/etl/transform.py:76-98 | Returns Enriched of the input; on success the frame holds the result, on failure it holds exactly what the steps before the failing one wrote. EnrichedOk and EnrichedRow state when it succeeds and what it holds. |
| ExamPrepTransform.Enriched | src/ExamPrep/include/etl/transform.py:84-94 | enrich_merged_data up to its output validator; EnrichedOk and EnrichedRow state its outcome. |
| ExamPrepTransform.EnrichedOk | src/ExamPrep/include/etl/transform.py:84-94 | enrich_merged_data succeeds exactly when timestamp is there and every timestamp parses, and total_sales is there and holds only numbers and missing cells; otherwise it raises KeyError, ValueError (a timestamp without an hour) or TypeError (pd.cut of text). |
| ExamPrepTransform.EnrichedFrames | src/ExamPrep/include/etl/transform.py:84-94 | What the two Assign steps of enrich_merged_data keep and write, cell by cell. |
| ExamPrepTransform.EnrichedRow | src/ExamPrep/include/etl/transform.py:84-94 | Row i of the enriched frame: its timestamp parsed, hour the hour of that timestamp, sales_bucket the bucket of its total_sales, every other column as it was; rows and labels stay in place. |
| ExamPrepTransform.QuarterOf | src/ExamPrep/include/etl/transform.py:147 | The quarter of the year a date falls in, 1 to 4. |
| ExamPrepTransform.QuarterLabelSpec | src/ExamPrep/include/etl/transform.py:147 | Two dates get the same quarter label exactly when they share year and quarter, and no date is labelled like a missing timestamp. |
| ExamPrepTransform.SeasonalSalesPattern | src/ExamPrep/include/etl/transform.py:138-152 | Returns SeasonalSalesPatternData of the input; the caller's frame ends up with timestamp parsed and quarter written when timestamp is a column, and unchanged otherwise. SeasonalRows states the groups. |
| ExamPrepTransform.SeasonCells | src/ExamPrep/include/etl/transform.py:148 | The total_sales cells of the rows in group key: every one is a cell of the total_sales column, and numeric or missing when that column is. |
| ExamPrepTransform.QuarteredShape | src/ExamPrep/include/etl/transform.py:146-147 | What the two Assign steps of seasonal_sales_pattern write and keep, cell by cell. |
| ExamPrepTransform.QuarteredFrame | src/ExamPrep/include/etl/transform.py:146-148 | The quartered frame seen through the grouping: row keys are the season keys and the summed column is the input's. |
| ExamPrepTransform.QuarteredCells | src/ExamPrep/include/etl/transform.py:148 | The cells a group sums are the season cells of its key. |
| ExamPrepTransform.SeasonalOk | src/ExamPrep/include/etl/transform.py:146-148 | The grouping succeeds exactly when timestamp, category and total_sales are there and total_sales holds only numbers and missing cells; otherwise it raises KeyError or TypeError. |
| ExamPrepTransform.SeasonalRows | src/ExamPrep/include/etl/transform.py:146-148 | One row per (quarter, category) pair that occurs with a category, none twice, holding the sum of that pair's total_sales; a row with an unparsable timestamp counts under quarter "NaT". |
| ExamPrepTransform.SeasonKeyPresent | src/ExamPrep/include/etl/transform.py:148 | The key of a quartered row is complete exactly when its category is present. |
| ExamPrepTransform.SeasonalGroupsOccur | src/ExamPrep/include/etl/transform.py:148 | Every group comes from a row of the input with a category. |
| ExamPrepTransform.SeasonalGroupsCover | src/ExamPrep/include/etl/transform.py:148 | Every row of the input with a category is counted in some group. |
| ExamPrepTransform.SeasonCellsNonNegative | src/ExamPrep/include/etl/transform.py:148 | A group of non-negative sales sums to a non-negative amount. |
| ExamPrepTransform.SeasonalTotals | src/ExamPrep/include/etl/transform.py:148-152 | Over float sales the group totals are floats, and over non-negative sales they are non-negative. |
| ExamPrepTransform.SeasonalLabels | src/ExamPrep/include/etl/transform.py:148 | The positions of the three labels of a seasonal frame. |
| ExamPrepTransform.SeasonalRowGood | src/ExamPrep/include/etl/transform.py:148-152 | Over float, non-negative sales, a group's row passes the seasonal schema exactly when its category is text. |
| ExamPrepTransform.SeasonalCategories | src/ExamPrep/include/etl/transform.py:148-152 | The groups' categories are all text exactly when the input's present categories are. |
| ExamPrepTransform.GroupsTextCategories | src/ExamPrep/include/etl/transform.py:148-152 | When every group carries a text category, every present category of the input is text. |
| ExamPrepTransform.TextCategoryGroups | src/ExamPrep/include/etl/transform.py:148-152 | When every present category of the input is text, every group carries a text category. |
| ExamPrepTransform.SeasonalAccepted | src/ExamPrep/include/etl/transform.py:146-152 | Over float, non-negative sales, seasonal_sales_pattern returns its groups exactly when every category present in the input is text. |
| ExamPrepTransform.RegionRevenueShape | src/ExamPrep/include/etl/transform.py:163 | The shape of the region table: a region and its revenue, a number, in each row. |
| ExamPrepTransform.Scaled | src/ExamPrep/include/etl/transform.py:165 | Each cell divided by d; a missing cell, or a zero d, gives a missing cell. |
| ExamPrepTransform.ScaledSum | src/ExamPrep/include/etl/transform.py:164-165 | Dividing every cell by a non-zero d divides the sum by d. |
| ExamPrepTransform.Shares | src/ExamPrep/include/etl/transform.py:165 | Each region revenue over the total revenue: the revenue_share column. |
| ExamPrepTransform.RegionRevenueRows | src/ExamPrep/include/etl/transform.py:163 | One row per region present in the input, in ascending region order, holding the sum of that region's total_sales. |
| ExamPrepTransform.RegionRevenueNonNegative | src/ExamPrep/include/etl/transform.py:163 | Over float, non-negative sales every region's revenue is a non-negative float. |
| ExamPrepTransform.RegionOfRow | src/ExamPrep/include/etl/transform.py:163 | The region row that counts row i of the input: its revenue is at least row i's sale. |
| ExamPrepTransform.RevenueTotalAtLeast | src/ExamPrep/include/etl/transform.py:163-164 | Every row with a region adds its sale to the total revenue, which is therefore at least that sale; the region table then has a row. |
| ExamPrepTransform.ConcentrationCells | src/ExamPrep/include/etl/transform.py:165-166 | What revenue_share and cumulative_share write into the region table, cell by cell. |
| ExamPrepTransform.SharesSum | src/ExamPrep/include/etl/transform.py:164-165 | Over a non-zero total, the shares sum to 1. |
| ExamPrepTransform.SharesSpec | src/ExamPrep/include/etl/transform.py:164-166 | Over a non-zero total, each share is a cell over the total, and the running sum of the shares at position j is the running revenue through j over the total. |
| ExamPrepTransform.ConcentrationShares | src/ExamPrep/include/etl/transform.py:163-166 | With a non-zero total, each share is the region's revenue over the total, and the intended cumulative share of a region is the revenue of it and the regions before it over the total, reaching 1 at the last region. |
| ExamPrepTransform.ConcentrationAsWrittenCumulative | src/ExamPrep/include/etl/transform.py:166 | As written, the cumulative share of a region is the running revenue itself, reaching the total revenue at the last region. |
| ExamPrepTransform.RunningRevenue | src/ExamPrep/include/etl/transform.py:166 | cumsum over a float revenue column: cell j is the sum of the first j+1 revenues and the last cell is the total. |
| ExamPrepTransform.AsWrittenLast | src/ExamPrep/include/etl/transform.py:166 | As written, the last cumulative share is the total revenue, and a region whose sales add up to more than 1 pushes it above 1. |
| ExamPrepTransform.AsWrittenRejected | src/ExamPrep/include/etl/transform.py:166-170 | revenue_concentration as written rejects every input with a region whose sales add up to more than 1: the last running revenue is the total, above the [0, 1] the schema demands. |
| ExamPrepTransform.RevenueConcentrationAsWritten | src/ExamPrep/include/etl/transform.py:155-170 | revenue_concentration as written, with the running revenue as cumulative_share; AsWrittenLast and AsWrittenRejected state how it fails. |
| ExamPrepTransform.RevenueConcentrationData | src/ExamPrep/include/etl/transform.py:155-170 | revenue_concentration with the running share as cumulative_share; ConcentrationShares and RevenueAccepted state its outcome. |
| ExamPrepTransform.RegionsOccur | src/ExamPrep/include/etl/transform.py:163 | Every region row comes from a row of the input with that region. |
| ExamPrepTransform.Fraction | src/ExamPrep/include/etl/transform.py:165 | A part of a positive whole, over the whole, lies in [0, 1]. |
| ExamPrepTransform.ConcentrationRowGood | src/ExamPrep/include/etl/transform.py:165-170 | A region table of non-negative float revenues with a positive total: a region row with a text region passes the revenue-concentration schema once the intended shares are added. |
| ExamPrepTransform.RevenueRowGood | src/ExamPrep/include/etl/transform.py:163-170 | Over float, non-negative sales with text regions and a positive total, every region row of the intended table passes the revenue-concentration schema. |
| ExamPrepTransform.RevenueAccepted | src/ExamPrep/include/etl/transform.py:155-170 | Over float, non-negative sales with text regions and at least one region with a positive sale, revenue_concentration with the running share returns its table: one row per region, shares and running shares in [0, 1]. |
| FileFormatsCustomers.ValidateCustomers | src/FileFormatsExercise/validations/customers_validations.py:21-36 | validate_customers_data(df, lazy): the table back when it conforms; otherwise the error validate raises, which the `except SchemaError` handler re-raises or does not catch. |
| FileFormatsCustomers.CustomersRowSpec | src/FileFormatsExercise/validations/customers_validations.py:7-18 | Row i passes the schema exactly when GoodCustomerRow holds of it. |
| FileFormatsCustomers.CustomersSpec | src/FileFormatsExercise/validations/customers_validations.py:7-18 | The strict schema accepts a table exactly when its columns are among the three and include all three, every row is a good customer row and customer_id is unique. |
| FileFormatsCustomers.ZeroIdAccepted | src/FileFormatsExercise/validations/customers_validations.py:12 | The `>= 0` check admits customer id 0. |
| FileFormatsCustomers.ZeroIdRow | src/FileFormatsExercise/validations/customers_validations.py:7-18 | Example: every row of ZeroIdTable, whose id is 0, is a good customer row, and its ids are distinct. |
| FileFormatsCustomers.ExtraColumnRejected | src/FileFormatsExercise/validations/customers_validations.py:17 | An extra column fails the strict schema whatever the rows hold. |
| FileFormatsOrders.ValidateOrders | src/FileFormatsExercise/validations/orders_validations.py:19-34 | validate_orders_data(df, lazy): the table back when it conforms; otherwise the error validate raises. |
| FileFormatsOrders.OrdersRowSpec | src/FileFormatsExercise/validations/orders_validations.py:7-16 | Row i passes the schema exactly when GoodOrderRow holds of it. |
| FileFormatsOrders.OrdersSpec | src/FileFormatsExercise/validations/orders_validations.py:7-16 | The strict schema accepts a table exactly when its columns are exactly the five (each present, none other) and every row is a good order row. |
| FileFormatsSales.ValidateSales | src/FileFormatsExercise/validations/sales_validations.py:20-35 | validate_sales_data(df, lazy): the coerced table when it conforms; otherwise the error validate raises. |
| FileFormatsSales.SalesRowSpec | src/FileFormatsExercise/validations/sales_validations.py:8-17 | Row i passes the schema exactly when GoodSalesRow holds of it. |
| FileFormatsSales.SalesSpec | src/FileFormatsExercise/validations/sales_validations.py:8-17 | The strict schema accepts a (coerced) table exactly when its columns are exactly the five and every row is a good sales row. |
| FileFormatsWeather.ValidateWeather | src/FileFormatsExercise/validations/weather_validations.py:17-32 | validate_weather_data(df, lazy): the table back when it conforms; otherwise the error validate raises. |
| FileFormatsWeather.WeatherRowSpec | src/FileFormatsExercise/validations/weather_validations.py:8-15 | Row i passes the schema exactly when GoodWeatherRow holds of it. |
| FileFormatsWeather.WeatherSpec | src/FileFormatsExercise/validations/weather_validations.py:8-15 | The strict schema accepts a table exactly when its columns are exactly the three and every row is a good weather row. |
| FileFormatsLabSales.ValidateLabSales | src/FileFormatsLab/validations/pandera_validation.py:42-44 | validate_sales_data: the table back when it conforms, SchemaError otherwise. |
| FileFormatsLabSales.LabSalesRowSpec | src/FileFormatsLab/validations/pandera_validation.py:7-40 | Row i passes the schema exactly when GoodLabSalesRow holds of it. |
| FileFormatsLabSales.LabSalesSpec | src/FileFormatsLab/validations/pandera_validation.py:7-40 | The schema accepts a table exactly when the six columns are present (others may be too) and every row is a good lab sales row. |
| FileFormatsLabTransform.Truncate | src/FileFormatsLab/transform/transform.py:7-8 | int(x) for a float: the integer part, rounded toward zero. |
| FileFormatsLabTransform.FilledInt | src/FileFormatsLab/transform/transform.py:7-10 | fillna(d).astype(int) on one convertible cell: a missing cell becomes d, a float is truncated, a bool becomes 0 or 1, an int stays. |
| FileFormatsLabTransform.FilledInts | src/FileFormatsLab/transform/transform.py:7-10 | fillna(d).astype(int) on a column: it succeeds exactly when every cell is missing, a number, a bool or an integer numeral (optional sign, digits, surrounding blanks); otherwise ValueError. |
| Text.NumeralRoundTrip | src/FileFormatsLab/transform/transform.py:7-10 | Every integer's decimal rendering is a numeral the int cast accepts, and the cast gives the integer back. |
| FileFormatsLabTransform.FilledReals | src/FileFormatsLab/transform/transform.py:9 | fillna(d) on a column: only the missing cells change. |
| FileFormatsLabTransform.FillIntInPlace | src/FileFormatsLab/transform/transform.py:7-8 | Returns FillIntColumn of the frame (the column filled with d and cast to int, or ValueError) and on success leaves the frame holding it. FillIntStep states when it succeeds and what it writes. |
| FileFormatsLabTransform.TransformData | src/FileFormatsLab/transform/transform.py:4-12 | Returns LabTransformed of the input and on success leaves the frame holding it; LabTransformedOk and LabRow state when it succeeds and what each row holds. |
| FileFormatsLabTransform.LabTransformed | src/FileFormatsLab/transform/transform.py:4-12 | transform_data as a function of the input; LabTransformedOk and LabRow state its outcome. |
| FileFormatsLabTransform.FillIntStep | src/FileFormatsLab/transform/transform.py:7-8 | One fill: it succeeds exactly when the column is there and every cell of it can be cast (numbers, bools, missing cells and integer numerals); it then writes the filled cells and keeps the labels and every other column. |
| FileFormatsLabTransform.FillAmountStep | src/FileFormatsLab/transform/transform.py:9 | The amount fill keeps the labels and every other column and writes FilledAmount of each cell. |
| FileFormatsLabTransform.FilledAmount | src/FileFormatsLab/transform/transform.py:9 | fillna(0.0) on one amount cell. |
| FileFormatsLabTransform.FilledOk | src/FileFormatsLab/transform/transform.py:7-11 | The fills and the product succeed exactly when the four columns are there and every row is castable. |
| FileFormatsLabTransform.FilledProductOk | src/FileFormatsLab/transform/transform.py:11 | The last step of FilledOk: the product succeeds exactly when every amount is a number or missing. |
| FileFormatsLabTransform.FilledRow | src/FileFormatsLab/transform/transform.py:7-11 | After the fills and the product: the labels gain total_revenue (unless it was there), the rows keep their number and labels, each filled column holds its filled cells, total_revenue the product, and every other column its old cells. |
| FileFormatsLabTransform.FilledShape | src/FileFormatsLab/transform/transform.py:7-11 | The fills and the product keep the labels, adding total_revenue last when it is new, and keep the rows and their index labels. |
| FileFormatsLabTransform.FilledChain | src/FileFormatsLab/transform/transform.py:7-10 | The cells of row i through the four fills. |
| FileFormatsLabTransform.DatedStep | src/FileFormatsLab/transform/transform.py:6 | The date statement keeps the labels, rows and every other column, and parses each order_date. |
| FileFormatsLabTransform.LabTransformedOk | src/FileFormatsLab/transform/transform.py:4-12 | transform_data succeeds exactly when the five columns it reads are there (after relabelling) and every row can be cast and multiplied: ids and quantity missing, numbers, bools or integer numerals, amount a number or missing. It then keeps the rows, their order and index labels, and the relabelled columns, adding total_revenue last when it is new. |
| FileFormatsLabTransform.DatedFilledOk | src/FileFormatsLab/transform/transform.py:6-11 | LabTransformedOk once order_date has been parsed. |
| FileFormatsLabTransform.CastableKept | src/FileFormatsLab/transform/transform.py:6-10 | Parsing order_date changes none of the cells the casts read. |
| FileFormatsLabTransform.LabRow | src/FileFormatsLab/transform/transform.py:5-11 | Row i of what transform_data leaves, against row i of the relabelled input: order_date parsed day-month-year (missing when it does not parse); a missing id becomes -1 and a missing quantity 0, an int stays and a float is truncated; a missing amount becomes 0.0 and any other amount stays; none of the four is missing afterwards; every other column is untouched. |
| FileFormatsLabTransform.LabRevenue | src/FileFormatsLab/transform/transform.py:11 | total_revenue of what transform_data leaves is never missing: it is the product (Times) of the filled amount and the cast quantity of its row. |
| FileFormatsLabTransform.DatedRow | src/FileFormatsLab/transform/transform.py:6-11 | LabRow once the fills of the parsed frame are known. |
| FileFormatsLabTransform.IdFilledIs | src/FileFormatsLab/transform/transform.py:7-8 | IdFilled pins down the cast of every cell the cast accepts. |
| FileFormatsLabTransform.LabSalesAccepted | src/FileFormatsLab/validations/pandera_validation.py:7-40 | The output of transform_data passes validate_sales_data exactly when every input row is SalesReady: the ids' sentinel -1 and the zero fills are within the schema's bounds, an int amount is refused for its type, and a non-negative amount times a non-negative quantity is a non-negative revenue. |
| FileFormatsLabTransform.LabSalesRow | src/FileFormatsLab/validations/pandera_validation.py:7-40 | One row of LabSalesAccepted. |
| FileFormatsLabTransform.SalesRowIff | src/FileFormatsLab/validations/pandera_validation.py:7-40 | LabSalesRow once the cells of row i are known. |
| FileFormatsLabTransform.CastBound | src/FileFormatsLab/validations/pandera_validation.py:11-26 | A cast cell is at least lo exactly when CastAtLeast holds of the cell before the cast. |
| FileFormatsLabTransform.RevenueBound | src/FileFormatsLab/validations/pandera_validation.py:35 | A non-negative float amount times a non-negative int quantity is a non-negative float. |
| Patterns.BrandLetterSpec | src/RegExam/include/validations/output_schemas.py:25 | A brand passes exactly when it is "Brand" and one capital letter, optionally followed by a newline. |
| Patterns.StrictTldExamples | src/ApacheAirflowExercise/include/validations/customers_schema.py:23 | Example: strings the email pattern accepts and rejects for its letters-only top-level domain of two or more letters. |
| Patterns.WordTldExamples | src/FileFormatsExercise/validations/customers_validations.py:10 | Example: the word-character email pattern rejects a top-level domain longer than four characters. |
| RegExamInputSchemas.InputSalesRowSpec | src/RegExam/include/validations/input_schemas.py:7-18 | Row i passes the schema exactly when RawSalesRow holds of it. |
| RegExamInputSchemas.InputSalesSpec | src/RegExam/include/validations/input_schemas.py:7-18 | The raw sales schema accepts a table exactly when the eight columns are present and every row is a raw sales row. |
| RegExamInputSchemas.InputProductsRowSpec | src/RegExam/include/validations/input_schemas.py:20-29 | Row i passes the schema exactly when RawProductRow holds of it. |
| RegExamInputSchemas.InputProductsSpec | src/RegExam/include/validations/input_schemas.py:20-29 | The raw product schema accepts a table exactly when the six columns are present and every row is a raw product row. |
| RegExamOutputSchemas.ValidateOutputSales | src/RegExam/include/validations/validate_outputs.py:15-22 | sales_output_schema.validate: the table back when it conforms, SchemaError otherwise. |
| RegExamOutputSchemas.ValidateOutputProducts | src/RegExam/include/validations/validate_outputs.py:25-32 | product_output_schema.validate: the table back when it conforms, SchemaError otherwise. |
| RegExamOutputSchemas.OutputSalesRowSpec | src/RegExam/include/validations/output_schemas.py:8-19 | Row i passes the schema exactly when GoodSalesRow holds of it. |
| RegExamOutputSchemas.OutputSalesSpec | src/RegExam/include/validations/output_schemas.py:8-19 | The output sales schema accepts a table exactly when the eight columns are present and every row is a good sales row. |
| RegExamOutputSchemas.OutputProductsRowSpec | src/RegExam/include/validations/output_schemas.py:21-30 | Row i passes the schema exactly when GoodProductRow holds of it. |
| RegExamOutputSchemas.OutputProductsSpec | src/RegExam/include/validations/output_schemas.py:21-30 | The output product schema accepts a table exactly when the six columns are present and every row is a good product row. |
| RegExamOutputSchemas.DiscountBounds | src/RegExam/include/validations/output_schemas.py:16 | A discount of 0 passes this copy of the sales schema, and any discount above 1 fails it. |
| RegExamOutputSchemas.EmptyCategoryRejected | src/RegExam/include/validations/output_schemas.py:24 | An empty category fails the first-letter check. |
| RegExamTransform.SalesViewLabels | src/RegExam/include/etl/transform.py:30-31 | Relabelling and renaming rewrite each label by SalesLabel and touch no cell. |
| RegExamTransform.SnakeLabelOfPlain | src/RegExam/include/etl/transform.py:30 | A label that needs no stripping and has no capital and no blank is its own normalisation. |
| RegExamTransform.RawIdLabels | src/RegExam/include/etl/transform.py:30 | The two raw id labels: lower-cased, the blank an underscore. |
| RegExamTransform.RawValueLabels | src/RegExam/include/etl/transform.py:30-31 | The three other raw sales labels that the normalisation changes. |
| RegExamTransform.RawSalesLabelValues | src/RegExam/include/etl/transform.py:30-31 | Each raw sales label under SalesLabel. |
| RegExamTransform.RawSalesLabels | src/RegExam/include/etl/transform.py:30-31 | The eight raw sales labels of the input schema become, in order, the eight labels of the output schema. |
| RegExamTransform.RawProductLabels | src/RegExam/include/etl/transform.py:55 | The six raw product labels are already normalised: they are the output labels as they stand. |
| RegExamTransform.TransformSales | src/RegExam/include/etl/transform.py:20-42 | Returns TransformSalesData of the input (AttributeError when region holds no text); the caller's frame keeps only the label normalisation. SalesOutput and SalesAccepted state what the result holds and when it passes. |
| RegExamTransform.TransformSalesData | src/RegExam/include/etl/transform.py:20-42 | transform_sales_data as a function of the input; SalesProcessedOk, SalesOutput and SalesAccepted state its outcome. |
| RegExamTransform.Cleaned | src/RegExam/include/etl/transform.py:34-35 | Row i of v as the statements after the filters leave it: region lower-cased, timestamp parsed. |
| RegExamTransform.FilterOk | src/RegExam/include/etl/transform.py:32-33 | The comparisons run on the complete rows: they raise exactly when such a row has a price or a quantity that is not a number. |
| RegExamTransform.FilterKeeps | src/RegExam/include/etl/transform.py:32-33 | The rows the filters keep are the Sold rows of v, in order. |
| RegExamTransform.RecasedRows | src/RegExam/include/etl/transform.py:34-35 | Once region and timestamp are columns, lower-casing region and parsing timestamp turn row p into Cleaned of the same row. SalesProcessed only reaches this step when region holds text; SalesProcessedOk gives the AttributeError otherwise. |
| RegExamTransform.CleanedWhere | src/RegExam/include/etl/transform.py:33-35 | Cleaning commutes with the row filter: row p of the cleaned filtered frame is Cleaned of the row of v it came from. |
| RegExamTransform.SalesRecasedSpec | src/RegExam/include/etl/transform.py:32-35 | The frame before drop_duplicates: exactly the Sold rows of v, cleaned, in order. |
| RegExamTransform.DistinctRows | src/RegExam/include/etl/transform.py:36 | drop_duplicates() over whole rows: no row twice, every row of s still there, and each remaining row comes with the index label it had in s. |
| RegExamTransform.SalesProcessedOk | src/RegExam/include/etl/transform.py:31-36 | Which renamed frames get through transform_sales_data's steps: price, quantity, region and timestamp must be columns (KeyError otherwise), the comparisons with 0 must not raise (TypeError otherwise) and region must hold text (AttributeError from `.str.lower()` otherwise). |
| RegExamTransform.SalesOutput | src/RegExam/include/etl/transform.py:30-36 | The sales transform's result: the Sold rows of v, each cleaned (region lower-cased, timestamp parsed), every such row present, no row twice, and the index renumbered 0..n-1. |
| RegExamTransform.CleanedCells | src/RegExam/include/etl/transform.py:34-35 | The cells of a row equal to Cleaned(v, i): region lower-cased, timestamp parsed, the rest as in v. |
| RegExamTransform.SalesSource | src/RegExam/include/etl/transform.py:32-36 | Row p of the result comes from a Sold row i of v: no cell of it but region and timestamp can be missing, price and quantity are positive, region is that row's region lower-cased (missing if it was not text), timestamp is its timestamp parsed. |
| RegExamTransform.RegionLowered | src/RegExam/include/etl/transform.py:34 | Every region left in the result holds no capital letter. |
| RegExamTransform.CleanedAccepted | src/RegExam/include/etl/transform.py:34-38 | A cleaned Sold row is a good output sales row exactly when its source row is ReadySale. |
| RegExamTransform.SalesAccepted | src/RegExam/include/etl/transform.py:30-38 | validate_output_sales_schema accepts the result exactly when all eight cleaned columns are present and every Sold row of v is ReadySale: positivity of price and quantity always holds after the filters, and duplicates do not matter. |
| RegExamTransform.ReadySalesGood | src/RegExam/include/etl/transform.py:30-38 | When every Sold row is ReadySale, every row of the result is a good output sales row. |
| RegExamTransform.GoodSalesReady | src/RegExam/include/etl/transform.py:30-38 | When every row of the result is a good output sales row, every Sold row is ReadySale. |
| RegExamTransform.UnparsableRejected | src/RegExam/include/etl/transform.py:32-38 | A Sold row whose timestamp does not parse keeps a missing timestamp (dropna ran before the parse), so the output schema rejects the whole frame. |
| RegExamTransform.TransformProducts | src/RegExam/include/etl/transform.py:45-64 | Returns TransformProductsData of the input; the caller's frame keeps only the label normalisation. ProductsOutput and ProductsAccepted state what the result holds and when it passes. |
| RegExamTransform.TransformProductsData | src/RegExam/include/etl/transform.py:45-64 | transform_products_data as a function of the input; ProductsProcessedOk, ProductsOutput and ProductsAccepted state its outcome. |
| RegExamTransform.LaunchRow | src/RegExam/include/etl/transform.py:57 | Row i of v with its launch_date parsed. |
| RegExamTransform.ProductsProcessedOk | src/RegExam/include/etl/transform.py:56-58 | The products steps fail only when launch_date is not a column (KeyError), and keep the labels. |
| RegExamTransform.LaunchedRows | src/RegExam/include/etl/transform.py:56-57 | The frame before drop_duplicates: the complete rows of v, launch_date parsed, with their labels. |
| RegExamTransform.ProductsOutput | src/RegExam/include/etl/transform.py:55-58 | The products transform's result: the complete rows of v with launch_date parsed, every such row present, no row twice, each with the index label it had in v. |
| RegExamTransform.LaunchCells | src/RegExam/include/etl/transform.py:56-57 | The cells of a row equal to LaunchRow(v, i): launch_date parsed, every other cell as in v and present when row i of v is complete. |
| RegExamTransform.LaunchAccepted | src/RegExam/include/etl/transform.py:57-60 | A parsed row is a good output product row exactly when its source row is ReadyProduct. |
| RegExamTransform.ProductsAccepted | src/RegExam/include/etl/transform.py:55-60 | validate_output_products_schema accepts the result exactly when all six product columns are present and every complete row of the relabelled frame is ReadyProduct. |
| RegExamTransform.UnparsableLaunchRejected | src/RegExam/include/etl/transform.py:56-60 | A complete product row whose launch_date does not parse keeps a missing launch_date, so the output schema rejects the whole frame. |
| RegExamValidateInputs.ValidateInputSales | src/RegExam/include/validations/validate_inputs.py:15-28 | validate_input_sales_schema as written. |
| RegExamValidateInputs.ValidateInputProducts | src/RegExam/include/validations/validate_inputs.py:33-46 | validate_input_products_schema as written. |
| RegExamValidateInputs.InputSalesPassThrough | src/RegExam/include/validations/validate_inputs.py:15-28 | The sales validator hands back the very table it was given exactly when every raw row has the declared dtypes (Region and Time stamp may be missing); it never filters or edits rows. |
| RegExamValidateInputs.InputProductsPassThrough | src/RegExam/include/validations/validate_inputs.py:33-46 | The products validator likewise. |
| RegExamValidateInputs.MissingQtyEscapes | src/RegExam/include/validations/validate_inputs.py:22-28 | A raw sale with a missing qty: as written the validator raises. |
| RegExamValidateInputs.MissingQtyNotRaw | src/RegExam/include/validations/input_schemas.py:11 | The table has every raw sales column but its one row lacks a qty. |
| RegExamValidateInputs.MissingQtyAdvisory | src/RegExam/include/validations/validate_inputs.py:22-28 | The advisory reading its handler was written for hands the same table back. |
| Schemas.PreValidate | src/ApacheAirflowExercise/include/validations/sales_schema.py:38-51 | A "pre" validator as written: `try: schema.validate(t); return t / except SchemaErrors: return t`. The non-lazy validate raises SchemaError, which that handler does not catch, so a failure propagates. |
| Schemas.AdvisoryPreValidate | src/ApacheAirflowExercise/include/validations/sales_schema.py:38-51 | A "pre" validator as its handler and log message intend: advisory, returning its argument either way. |
| Schemas.PreValidateDisagrees | src/ApacheAirflowExercise/include/validations/sales_schema.py:38-51 | The as-written pre validator and the advisory one disagree on exactly the tables that fail the schema. |
| Frames.DropNa | src/ApacheAirflowExercise/include/etl/transform.py:27 | dropna(): keeps the labels; DropNaSpec states which rows it keeps. |
| Frames.DropNaSpec | src/ApacheAirflowExercise/include/etl/transform.py:27 | dropna() keeps exactly the rows without a missing cell: every output row is complete and every complete input row is kept. |
| Frames.DropNaSubsetRow | src/ApacheAirflowExercise/include/etl/transform.py:126 | Each row left by dropna(subset=...) is an input row, with its index label, whose subset cells are all present. |
| Frames.DropNaSubsetKeeps | src/ApacheAirflowExercise/include/etl/transform.py:126 | dropna(subset=...) keeps every row whose subset cells are all present. |
| Frames.DropDuplicates | src/ETLProcessExercise/transform/transform.py:43 | drop_duplicates(subset, keep): KeyError for an unknown subset column, otherwise the labels are kept; DropDuplicatesSpec states the keep="first" result. |
| Frames.DropDuplicatesSpec | src/ETLProcessExercise/transform/transform.py:43 | With keep="first" no two output rows share a key and every input key is kept. |
| Frames.DropKeysDiffer | src/ETLProcessExercise/transform/transform.py:43 | Two different rows kept by drop_duplicates(keep="first") have different keys. |
| Frames.DropKeyKept | src/ETLProcessExercise/transform/transform.py:43 | Every input row's key is held by some row that drop_duplicates(keep="first") keeps. |
| Frames.Merge | src/ApacheAirflowExercise/include/etl/transform.py:84-85 | left.merge(right, left_on, right_on, how): KeyError for a missing key column; MergeParts, MergeInnerSpec, LeftJoinKeepsLeftRows and LeftJoinUnique state its rows. |
| Frames.MergeParts | src/ApacheAirflowExercise/include/etl/transform.py:84-85 | A merge on present keys succeeds, numbers its rows 0..n-1 and labels the columns with pandas' suffixes. |
| Frames.MergeInnerSpec | src/ApacheAirflowExercise/include/etl/transform.py:84-85 | An inner merge on one key holds exactly the rows joining a left row and a right row that agree on the key, with the key column once. |
| Frames.LeftJoinKeepsLeftRows | src/ApacheAirflowExercise/include/etl/transform.py:125 | A left merge keeps every left row: joined to each matching right row, or padded with missing cells when none matches. |
| Frames.LeftJoinUnique | src/ApacheAirflowExercise/include/etl/transform.py:125 | A left merge against a right table with distinct keys has one row per left row, in order, beginning with that left row. |
| Frames.ToDate | src/ApacheAirflowExercise/include/etl/transform.py:28 | to_datetime(errors="coerce") on one cell: the result is a date or missing, and a date is kept as is. |
| Frames.StrApply | src/ExamPrep/include/etl/transform.py:25 | Series.str methods: one result cell per input cell, text rewritten, anything else missing; callers check TextColumn first, since the accessor raises on a column without text. |
| Grouping.GroupSum | src/ApacheAirflowExercise/include/etl/transform.py:122 | groupby(keys).sum(): KeyError for a missing column, TypeError for text; GroupSumRows, GroupSumTotals, GroupSumDistinct and GroupSumCovers state its rows. |
| Grouping.GroupSumRows | src/ApacheAirflowExercise/include/etl/transform.py:122 | A groupby sum has one row per sorted group key, holding the key and the key's total, numbered 0..n-1. |
| Grouping.GroupSumTotals | src/ApacheAirflowExercise/include/etl/transform.py:122 | Each row of a groupby sum is a complete key followed by the sum of the column over that key's rows. |
| Grouping.GroupSumDistinct | src/ApacheAirflowExercise/include/etl/transform.py:122 | No key has two rows in a groupby sum. |
| Grouping.GroupSumCovers | src/ApacheAirflowExercise/include/etl/transform.py:122 | Every input row with a complete key is counted under some row of the groupby sum. |
| Grouping.Cut | src/ApacheAirflowExercise/include/etl/transform.py:128-132 | pd.cut over right-closed bins: one label or missing cell per input cell, TypeError for text; SegmentBands and BandedCells state the labels. |
| Grouping.RollingMean | src/ApacheAirflowExercise/include/etl/transform.py:173 | rolling(window, min_periods=1).mean(): one cell per input cell, TypeError for text; ForecastedRow and WindowMeanNonNegative state the means. |
| Grouping.MeanNonNegative | src/ApacheAirflowExercise/include/etl/transform.py:173 | The mean of non-negative cells is non-negative or missing. |
| Grouping.MonthSpan | src/ApacheAirflowExercise/include/etl/transform.py:103-106 | The bins of a monthly Grouper; MonthSpanSpec states them. |
| Grouping.MonthSpanSpec | src/ApacheAirflowExercise/include/etl/transform.py:103-106 | The monthly bins run without a gap from the earliest parsed date's month to the latest's and hold the month of every parsed date; there are none exactly when no date parsed. |

## Left out

- Reading and writing data is not modelled: the S3 hooks and credentials (`s3_utils.py`), the CSV, JSON,
  Parquet, API, local and PostgreSQL readers, the loaders (`load_data.py`, `load_to_postgres.py`,
  `load_data_to_s3.py`, `load_local_data.py`), logging, and the Airflow DAGs and driver scripts that chain
  the steps. The extractors take the listed keys and a `read` function as parameters instead.
- Which strings parse as dates is not modelled: every `to_datetime` call goes through a `Parser`
  parameter (day-month-year, "mixed", or a schema's coercion), which returns a date or nothing.
- Numbers are unbounded integers and exact reals: int64 overflow and floating-point rounding are not
  modelled. Where a float result is compared with a bound (shares in [0, 1], sums of non-negative sales)
  the model's statement is the exact-arithmetic one.
- `str.lower`, `str.upper`, `islower` and `isupper` act on ASCII letters only; other letters count as
  caseless.
- Group keys that mix kinds (text and numbers in one key column) are ordered by kind, where pandas raises
  `TypeError`.
- `ExamPrepTransform.EnrichMergedData`: the `month`, `week` and `weekday` columns are not written (they need
  pandas' calendar rendering), and the frame is returned before `validate_output_enrich_schema`; that
  schema is not part of this model.
- `hourly_sales_trend` and `product_sales_ranking_with_brand` of the exam preparation are not modelled (the
  first aggregates into a column it then does not read, the second bins by `pd.qcut` quantiles); their output
  schemas are.
- `AirflowTransform.AnomalyRowsSpec`: the threshold of `detect_sales_anomalies` (mean minus three standard
  deviations of `total_revenue`) is a parameter; the model covers the filter and the projection.
- `AirflowTransform.MergeDataSpec`: a zero `total_revenue` gives a missing `profit_margin`, where pandas gives
  an infinity or NaN.
- `EtlTransform.DerivedSpec`: the same holds for `profit_margin` in `compute_derived_columns`.
- `ExamPrepTransform.ConcentrationShares`: a zero total revenue gives missing shares, where pandas gives NaN.
- `ExamPrepTransform.QuarterLabelSpec`: years below 1000 are written without leading zeros in the quarter
  label.
- `AirflowTransform.ForecastSales`: `set_index("order_date")` and `reset_index()` are one step, since the
  only write between them adds a column; the index pandas holds in between is not modelled.
- `AirflowExtract.ExtractDataFromS3`: a failed read is one error kind carrying the path; the exception
  pandas or the S3 client would raise is not distinguished.
- The ETL process lab script, the other file-formats extractors and the Airflow lab DAG hold no
  transform logic of their own and are not modelled.
- Frames carry no pandas dtype. A schema's column type is checked cell by cell (`Schemas.HasType`), where
  pandera checks the dtype pandas holds for the whole column. The two agree on a column with at least one
  present cell, and part in two cases. A column with no rows (a header-only file, or a table emptied by
  `dropna` or a filter) passes the model whatever dtype pandas holds for it. A column whose cells are
  missing, or mix integers with missing cells, is float64 in pandas, so an `int` column fails pandera where
  the model accepts it. The lines below name each member whose contract inherits this gap.
- HasType (`Schemas.HasType`): reads the declared type off each cell, not off the column's dtype.
- AggregatesSpec (`AirflowAggregatesSchema.AggregatesSpec`): an empty month table passes, where pandas holds
  `unique_customers` as int64 and pandera rejects it.
- AnomaliesSpec (`AirflowAnomaliesSchema.AnomaliesSpec`): an empty table passes whatever its columns' dtypes.
- PreCustomersSpec (`AirflowCustomersSchema.PreCustomersSpec`): an empty table passes the `int` column.
- PostCustomersSpec (`AirflowCustomersSchema.PostCustomersSpec`): an empty table with a float64
  `customer_id` passes.
- ForecastSpec (`AirflowForecastSchema.ForecastSpec`): an empty table passes whatever its columns' dtypes.
- PreProductsSpec (`AirflowProductsSchema.PreProductsSpec`): an empty table passes whatever its dtypes.
- PostProductsSpec (`AirflowProductsSchema.PostProductsSpec`): an empty table passes whatever its dtypes.
- IntendedPostProductsSpec (`AirflowProductsSchema.IntendedPostProductsSpec`): an empty table passes
  whatever its dtypes.
- PreSalesSpec (`AirflowSalesSchema.PreSalesSpec`): an empty or header-only table passes.
- PostSalesSpec (`AirflowSalesSchema.PostSalesSpec`): an empty table whose `quantity` is float64 passes.
- SegmentedSpec (`AirflowSegmentedSchema.SegmentedSpec`): an empty table passes whatever its dtypes.
- InputProductsSpec (`ExamPrepProductsSchema.InputProductsSpec`, `RegExamInputSchemas.InputProductsSpec`):
  an empty table passes whatever its dtypes.
- OutputProductsSpec (`ExamPrepProductsSchema.OutputProductsSpec`, `RegExamOutputSchemas.OutputProductsSpec`):
  an empty table passes whatever its dtypes.
- RankingSpec (`ExamPrepRankingSchema.RankingSpec`): an empty table passes whatever its dtypes.
- InputSalesSpec (`ExamPrepSalesSchema.InputSalesSpec`, `RegExamInputSchemas.InputSalesSpec`): an empty
  table passes whatever its dtypes.
- OutputSalesSpec (`ExamPrepSalesSchema.OutputSalesSpec`, `RegExamOutputSchemas.OutputSalesSpec`): an empty
  table passes whatever its dtypes.
- SeasonalSpec (`ExamPrepSeasonalSchema.SeasonalSpec`): an empty table passes whatever its dtypes.
- CustomersSpec (`FileFormatsCustomers.CustomersSpec`): an empty strict table passes whatever its dtypes;
  the email pattern's `\w` is ASCII (see CustomersRowSpec).
- OrdersSpec (`FileFormatsOrders.OrdersSpec`): an empty strict table passes whatever its dtypes.
- SalesSpec (`FileFormatsSales.SalesSpec`): an empty strict table passes whatever its dtypes.
- WeatherSpec (`FileFormatsWeather.WeatherSpec`): an empty strict table passes whatever its dtypes.
- LabSalesSpec (`FileFormatsLabSales.LabSalesSpec`): an empty table passes whatever its dtypes.
- LabSalesAccepted (`FileFormatsLabTransform.LabSalesAccepted`): on a header-only input `amount` stays an
  object column, which pandera rejects and the model accepts.
- InputSalesPassThrough (`RegExamValidateInputs.InputSalesPassThrough`): an empty or header-only table is
  handed back, where pandera raises on its dtypes.
- InputProductsPassThrough (`RegExamValidateInputs.InputProductsPassThrough`): the same for products.
- CleanSalesData (`AirflowTransform.CleanSalesData`): when `quantity` is missing in every row, `dropna`
  empties the table and pandas still holds `quantity` as float64, so the post schema raises; the model
  accepts the empty table.
- CleanCustomersData (`AirflowTransform.CleanCustomersData`): the same when `customer_id` is missing in
  every row.
- CleanProductsData (`AirflowTransform.CleanProductsData`): the same when `product_id` is missing in every
  row.
- ProductsCleanedSpec (`AirflowTransform.ProductsCleanedSpec`): its acceptance condition inherits the
  per-cell type test.
- ProductsAccepted (`ExamPrepTransform.ProductsAccepted`, `RegExamTransform.ProductsAccepted`): the
  acceptance condition inherits the per-cell type test, so an emptied or header-only products table passes.
- ComputeMonthlyAggregates (`AirflowTransform.ComputeMonthlyAggregates`): when no `order_date` parses, the
  month table is empty and passes the post schema in the model, while pandas holds `unique_customers` as
  int64 and pandera rejects it. The source also writes the parsed `order_date` back into the caller's
  `merged_df`; the model's step is a function and leaves its argument as it was.
- TextColumn (`Frames.TextColumn`): whether the `.str` accessor exists is read off the cells (a text cell,
  or no cells at all). pandas decides by dtype and the inferred type of the values, so an object column
  whose cells are all missing (which a JSON read can give) takes the accessor in pandas and raises
  AttributeError in the model.
- AdvisoryPreValidate (`Schemas.AdvisoryPreValidate`): the transforms run their "pre" validators in the
  advisory reading, handing the table on whether or not it conforms. As written, a table that fails a pre
  schema makes the step raise SchemaError there (`Schemas.PreValidate`). compute_monthly_aggregates is one
  such step, and it always raises (`AirflowTransform.MonthlyPreValidateRaises`).
- CustomersRowSpec (`FileFormatsCustomers.CustomersRowSpec`): `\w` in the email pattern is taken as the
  ASCII word characters; Python's `\w` also matches other Unicode letters and digits, so an address such as
  "josé@x.com" passes the source's check and fails the model's.
- `Frames.How`: only inner and left joins are modelled. The ETL exercise's merge_data hands its `how` to
  pandas, which also accepts right, outer and cross joins; its one caller passes "inner".
- TransformData (`FileFormatsLabTransform.TransformData`): after a raise the frame holds the steps done
  before it (normalised labels, the parsed date column, and each column filled before the one that fails); the model promises
  only that the frame is still valid there.
- `Frames.Col` (with `Frames.Assign` and `Frames.Cell`): reads and writes the first column carrying a label.
  When two columns carry it, pandas' `df[label]` is a DataFrame, so a `.str` step raises AttributeError and
  `to_datetime` raises ValueError; outside clean_data the model works on the first such column instead. The
  transforms that read through `Col` (the Airflow, exam-preparation, exam and file-formats transforms, and
  the ETL derived-column and segmentation steps) do not state that error. clean_data's date loop does:
  `EtlTransform.ParseDateColumn`, `EtlTransform.ParseDateColumnsSpec` and `EtlTransform.CleanFrameSpec`
  raise ValueError on a repeated date label.
- MulCols (`Frames.MulCols`): a bool cell is a TypeError, where pandas multiplies with True as 1 and False
  as 0; text times an integer, which pandas repeats, is a TypeError too.
- DivCols (`Frames.DivCols`): a bool cell is a TypeError, where pandas divides with True as 1 and False as 0.
- GreaterMask (`Frames.GreaterMask`): a bool cell is a TypeError, where pandas compares True as 1 and False
  as 0.
- FilledInts (`FileFormatsLabTransform.FilledInts`): a numeral is an optional sign and ASCII digits within
  blanks. Python's `int` also accepts underscores between digits and non-ASCII digits, which the model
  rejects with ValueError.

## Findings

| source | as written | input that shows it | evidently intended | confidence | as-written member | corrected member |
|---|---|---|---|---|---|---|
| src/RegExam/include/validations/validate_inputs.py:22-28 | the handler catches `SchemaErrors`, but the non-lazy `validate` raises `SchemaError`, which escapes the "advisory" validator | the exam's raw sales table with one row whose `qty` is missing | log a warning and hand the table back | medium, not executed | RegExamValidateInputs.MissingQtyEscapes | RegExamValidateInputs.MissingQtyAdvisory |
| src/ApacheAirflowExercise/include/validations/sales_schema.py:38-51 | the same pattern in every pre validator: any table that fails the pre schema makes the validator raise | any table that fails the pre schema | return the table whether or not it conforms | medium, not executed | Schemas.PreValidate | Schemas.AdvisoryPreValidate |
| src/ApacheAirflowExercise/include/validations/products_schema.py:22 | `Check.str_length(100)` sets a minimum length of 100 characters | a product named "Pen" | at most 100 characters, as the customers schema's `str_length(0,100)` says | high, not executed | AirflowProductsSchema.ShortNameRejected | AirflowProductsSchema.IntendedNameBound |
| src/ExamPrep/include/etl/transform.py:166 | `cumulative_share` is the running sum of `region_revenue`, not of `revenue_share` | any sales whose regions add up to more than 1 in revenue | the running share, ending at 1, inside the schema's [0, 1] | high, not executed | ExamPrepTransform.AsWrittenRejected | ExamPrepTransform.RevenueAccepted |
| src/ApacheAirflowExercise/include/etl/transform.py:134 | `segmentation_date` is taken from `customers_df` by index label, while the merged rows are labelled 0..n-1 by position | a cleaned customers table whose first rows were dropped (every label at least its length), with a customer who has a sale | each customer's own `signup_date` | medium, not executed | AirflowTransform.SegmentationDateMisaligned | AirflowTransform.SegmentCustomersRow |
