# Balance-sheet PDF parser and its chat back end, in Dafny

This project models the core of a FastAPI service that reads annual-report PDFs and stores the figures it finds.
It models three parts of that service.

- **The parser** (`app/pdf_parser.py`):
  - `clean_value` turns a table cell into a number;
  - `_find_metric_type` classifies a row label as one of ten metrics;
  - `_is_balance_sheet_page`, `_is_profit_loss_page` and `_is_cash_flow_page` classify a page;
  - the three `_process_*_table` functions turn table rows into records;
  - `extract_table_data` files every page's records under one of three statements;
  - `extract_fiscal_year` finds a "2023-24" style year in a text.
- **The chat service** (`app/ai_chat.py`):
  - which metrics a question asks for;
  - how fetched rows are grouped into `data[metric][year]`;
  - how chart data is built from that dictionary;
  - which answer the keyword fallback gives.
- **The HTTP handlers** (`app/main.py`):
  - the role checks of `/data`, `/chat` and `/chart-data`;
  - the company list of `/companies`;
  - the file checks, record storing and entry count of `/upload`.

The model does not open PDFs.
A document is the sequence of its pages, and each page is the text pdfplumber extracts from it plus the tables it finds.
A table is a sequence of rows, and each cell holds a string or nothing.
The handlers likewise take the database as input:
- the company table is a sequence of companies;
- the query result of `get_relevant_data` is a sequence of entries;
- the current user is a role and a list of assigned company ids.

## Module layout

| file | module | models |
|---|---|---|
| `wrappers.dfy` | `Wrappers` | `Option` and `Result` |
| `text.dfy` | `Text` | `lower()` (ASCII letters), `strip()`, `in`, `startswith`, `endswith`, `replace` |
| `seqs.dfy` | `Seqs` | list comprehensions and `extend` loops over a sequence |
| `value_cleaner.dfy` | `ValueCleaner` | `clean_value` and `float()` on decimal literals |
| `metric_classifier.dfy` | `MetricClassifier` | `metric_mappings`, `_find_metric_type` |
| `page_classifier.dfy` | `PageClassifier` | the three `_is_*_page` tests and the `if`/`elif` choice of bucket |
| `table_processor.dfy` | `TableProcessor` | the three identical `_process_*_table` functions |
| `extraction.dfy` | `Extraction` | `extract_table_data` |
| `fiscal_year.dfy` | `FiscalYear` | `extract_fiscal_year` |
| `ordered_dict.dfy` | `OrderedDict` | a Python `dict` as a sequence of pairs in insertion order |
| `relevant_data.dfy` | `RelevantData` | metric selection and grouping in `get_relevant_data` |
| `string_order.dfy` | `StringOrder` | Python's `<` on `str` and `sorted()` of a set |
| `chart.dfy` | `ChartBuilder` | `generate_chart_data` |
| `fallback.dfy` | `FallbackAnswer` | the branch choice of `generate_fallback_response` |
| `access.dfy` | `Access` | the role checks, `/companies` and `/metrics` |
| `upload.dfy` | `Upload` | `/upload` |

The loops of the source are methods with loop invariants:
- the row and column loops of the table processors;
- the page loop of `extract_table_data`;
- the grouping loop of `get_relevant_data`;
- the year, dataset and value loops of `generate_chart_data`;
- the storing loop of `/upload`.

The metric selection of `get_relevant_data` is six `if` statements in a row.
The model renders them as one loop over the six keyword groups (`RelevantData.SelectMetrics`).

Most of these methods are proved equal to a function that specifies them, and the properties are proved as lemmas about that function.
Four are specified by a relation on their result instead:
- `ChartBuilder.CollectYears` returns exactly the years some metric has;
- `ChartBuilder.ValuesFor` returns one value per label;
- `ChartBuilder.BuildDatasets` returns one dataset per metric, each related to its metric by `DatasetFor`;
- `StringOrder.SortedList` returns a strictly increasing list of exactly the set's elements.

The upload handler works on two classes:
- `EntryStore` stands for the `balance_sheet_entries` table;
- `RawDocument` is a document row whose `processed` status the handler updates.

## Behaviour of the code worth knowing

- A parenthesised amount is erased, not negated. Line 33 of `app/pdf_parser.py` deletes every "(...)" span before the sign test, so "(1,234)" cleans to nothing (`ValueCleaner.CleanErasesParenthesised`). Only a leading '-' or a stray trailing ')' makes a value negative.
- Column 1 of a table is "2023", column 2 is "2022", and every later column is "2023-24" (`TableProcessor.FiscalYear`). No header row is read, so a header row whose label classifies as a metric yields records like any other row.
- Any page whose text holds one of a statement's keywords is used.
- A page without text fails the whole extraction, and no partial result is returned (`Extraction.ExtractErrIff`).

## Model

| member | source | states |
|---|---|---|
| ValueCleaner.CleanValue | app/pdf_parser.py:25-28 | a missing cell or an empty string cleans to `None` |
| ValueCleaner.ParseFloat | app/pdf_parser.py:43 | `float()` accepts exactly an optional sign followed by digits with at most one '.' and at least one digit; a negative result needs a leading '-' |
| ValueCleaner.RemoveSeparators | app/pdf_parser.py:32 | `re.sub(r'[₹$,\s]', '', ...)`; `RemoveSeparatorsMembers` states that it keeps exactly the characters that are not separators |
| ValueCleaner.RemoveParenthesised | app/pdf_parser.py:33 | the lazy `\(.*?\)` deletion; `ResidualOfWrapped` and `CleanErasesParenthesised` state its effect on a wrapped amount |
| ValueCleaner.Residual | app/pdf_parser.py:31-33 | strip, lower-case, delete separators, delete parenthesised spans; `ResidualIgnoresSeparator` and `LetterInResidual` state what survives |
| ValueCleaner.IsNegative | app/pdf_parser.py:37 | the sign test; `CleanMinusDecimal` and `CleanTrailingParenDecimal` state its two triggers |
| ValueCleaner.RemoveSigns | app/pdf_parser.py:39 | the three chained `replace` calls; `RemoveSignsMembers` states that they keep exactly the characters other than '-', '(' and ')' |
| ValueCleaner.ParseResidual | app/pdf_parser.py:36-46 | a residual that passes the negativity test never parses to a positive number, and one that fails it never parses to a negative number |
| ValueCleaner.ParseResidualNumeral | app/pdf_parser.py:36-49 | a residual that parses holds only digits, '.', signs and parentheses |
| ValueCleaner.CleanValueNumeral | app/pdf_parser.py:25-49 | a cell that cleans to a number has a residual of digits, '.', signs and parentheses only |
| ValueCleaner.RemoveSeparatorsMembers | app/pdf_parser.py:32 | the substitution keeps exactly the characters that are not `₹`, `$`, ',' or whitespace |
| ValueCleaner.RemoveSignsMembers | app/pdf_parser.py:39 | the three replacements keep exactly the characters other than '-', '(' and ')' |
| ValueCleaner.StripThenRemove | app/pdf_parser.py:31-32 | stripping before deleting whitespace changes nothing |
| ValueCleaner.ResidualIgnoresSeparator | app/pdf_parser.py:31-33 | deleting a `₹`, `$`, comma or whitespace character anywhere in the cell leaves the residual unchanged |
| ValueCleaner.CleanIgnoresSeparator | app/pdf_parser.py:25-49 | a cell with a separator inserted anywhere cleans to the same value as the cell without it |
| ValueCleaner.DecimalChars | app/pdf_parser.py:43 | a literal `float()` accepts holds only digits, '.', '+' and '-' |
| ValueCleaner.CleanPlainDecimal | app/pdf_parser.py:25-49 | a plain decimal such as "1755986" or "12.5" cleans to its exact value |
| ValueCleaner.CleanMinusDecimal | app/pdf_parser.py:36-46 | a leading '-' makes a plain decimal clean to the negated value |
| ValueCleaner.CleanTrailingParenDecimal | app/pdf_parser.py:36-46 | a stray trailing ')' also makes a plain decimal clean to the negated value |
| ValueCleaner.ResidualOfWrapped | app/pdf_parser.py:31-33 | a cell "(...)" without an inner ')' leaves an empty residual |
| ValueCleaner.CleanErasesParenthesised | app/pdf_parser.py:33 | a cell "(...)" without an inner ')' cleans to `None`: the parenthesised amount is erased, not negated |
| ValueCleaner.LetterInResidual | app/pdf_parser.py:31-33 | a letter of the cell, when no '(' occurs, survives lower-cased into the residual and is not a numeral |
| ValueCleaner.CleanRejectsLetter | app/pdf_parser.py:25-49 | in a cell without '(', a letter outside those `float()` reads in exponents, "inf", "infinity" and "nan", such as the "c" of "₹1,755,986 Cr", makes the cell clean to `None` |
| ValueCleaner.DigitsValueOfNatToString | app/pdf_parser.py:43 | the decimal spelling of `n` has digit value `n` |
| ValueCleaner.CleanDigits | app/pdf_parser.py:25-49 | a non-empty string of digits cleans to its digit value |
| ValueCleaner.CleanNatToString | app/pdf_parser.py:25-49 | cleaning the decimal spelling of any natural number gives that number back |
| ValueCleaner.CleanExamplePlain | app/pdf_parser.py:25-49 | "1755986" cleans to 1755986 |
| ValueCleaner.CleanExampleCrore | app/pdf_parser.py:25-49 | "₹1,755,986 Cr" cleans to `None` |
| ValueCleaner.CleanExampleParenthesised | app/pdf_parser.py:33 | "(1,755,986)" cleans to `None` |
| MetricClassifier.FirstMatch | app/pdf_parser.py:211-215 | the search gives nothing exactly when no entry has a keyword in the text; otherwise it gives the metric of the first entry that has one |
| MetricClassifier.FindMetricType | app/pdf_parser.py:207-215 | `None` exactly when no keyword of any entry occurs in the lower-cased label; otherwise the metric of the first matching entry of `metric_mappings` |
| MetricClassifier.FindMetricTypeIff | app/pdf_parser.py:207-215 | a label is classified as `m` exactly when `m`'s entry is the first whose keywords occur in the lower-cased label |
| MetricClassifier.MatchedEntry | app/pdf_parser.py:211-213 | a classification as `m` comes from `m`'s own entry, all earlier entries having failed |
| MetricClassifier.FindMetricTypeSound | app/pdf_parser.py:211-213 | a label classified as `m` holds one of `m`'s keywords |
| MetricClassifier.FindMetricTypeIgnoresCase | app/pdf_parser.py:209 | two labels that agree after lower-casing are classified alike |
| MetricClassifier.FindMetricTypeOfLower | app/pdf_parser.py:209 | lower-casing a label beforehand changes nothing |
| MetricClassifier.PositionOf | app/pdf_parser.py:12-23 | each metric type has one entry in the mapping, at its position |
| MetricClassifier.CurrentKeywords | app/pdf_parser.py:19-22 | the keyword lists of the four current and non-current entries |
| MetricClassifier.NonCurrentAssetsSpellings | app/pdf_parser.py:19-20 | both non-current-assets keywords contain "current assets" |
| MetricClassifier.NonCurrentLiabilitiesSpellings | app/pdf_parser.py:21-22 | both non-current-liabilities keywords contain "current liabilities" |
| MetricClassifier.NonCurrentAssetsKeyword | app/pdf_parser.py:19-20 | a label holding a non-current-assets keyword holds the current-assets keyword |
| MetricClassifier.NonCurrentLiabilitiesKeyword | app/pdf_parser.py:21-22 | a label holding a non-current-liabilities keyword holds the current-liabilities keyword |
| MetricClassifier.NonCurrentUnreachable | app/pdf_parser.py:19-22 | no label is ever classified as `non_current_assets` or `non_current_liabilities` |
| MetricClassifier.ShorterThanKeywords | app/pdf_parser.py:212 | no keyword longer than the label can occur in it |
| MetricClassifier.ExampleTotalAssets | app/pdf_parser.py:13 | "Total Assets" is classified as `total_assets` |
| MetricClassifier.ExampleRevenue | app/pdf_parser.py:16 | "Revenue" is classified as `revenue` |
| MetricClassifier.ExampleNetProfit | app/pdf_parser.py:17 | "Net Profit" is classified as `net_profit` |
| PageClassifier.IsBalanceSheetPage | app/pdf_parser.py:90-98 | a page is a balance-sheet page when its lower-cased text holds one of three keywords; `Classify`, `NoBNotBalanceSheet` and `ExampleBalanceSheetHeading` state its properties |
| PageClassifier.IsProfitLossPage | app/pdf_parser.py:100-108 | the profit-and-loss keyword test; `ProfitLossTwoKeywords` states that two of its keywords decide it |
| PageClassifier.IsCashFlowPage | app/pdf_parser.py:110-118 | the cash-flow keyword test; `Classify` and `ExampleCashFlowHeading` state its properties |
| PageClassifier.Classify | app/pdf_parser.py:66-82 | a page goes to the balance sheet when it passes that test; failing it, to profit and loss when it passes that test; failing both, to cash flow when it passes that test; and nowhere when it fails all three |
| PageClassifier.ClassifyIgnoresCase | app/pdf_parser.py:97-118 | two texts that agree after lower-casing are classified alike |
| PageClassifier.LongProfitLossKeyword | app/pdf_parser.py:103-104 | a text holding the long profit-and-loss keyword holds "profit and loss" |
| PageClassifier.ProfitLossTwoKeywords | app/pdf_parser.py:100-108 | a profit-and-loss page is one holding "profit and loss" or "income statement" |
| PageClassifier.NoBNotBalanceSheet | app/pdf_parser.py:90-98 | a text without the letter b is never a balance-sheet page |
| PageClassifier.ExampleBalanceSheetHeading | app/pdf_parser.py:90-98 | "Consolidated Balance Sheet as at 31st March, 2024" goes to the balance sheet |
| PageClassifier.ExampleProfitLossHeading | app/pdf_parser.py:100-108 | "Consolidated Statement of Profit and Loss" goes to profit and loss |
| PageClassifier.ExampleCashFlowHeading | app/pdf_parser.py:110-118 | "Consolidated Statement of Cash Flow" is a cash-flow page and not a balance-sheet page |
| TableProcessor.FiscalYear | app/pdf_parser.py:146 | column 1 is "2023", column 2 is "2022", and every later column is "2023-24" |
| TableProcessor.Label | app/pdf_parser.py:129 | a row label is empty for a missing cell and never starts or ends with whitespace |
| TableProcessor.CellRecords | app/pdf_parser.py:139-147 | the records of columns 1 to j-1 in column order; `CellRecordsMembership` and `CellRecordsLength` state its properties |
| TableProcessor.RowRecords | app/pdf_parser.py:124-147 | the records of one row under the three skip rules; `RowRecordsMembership` and `RowRecordsLength` state its properties |
| TableProcessor.TableRecords | app/pdf_parser.py:120-149 | the records of a table, row after row; `TableRecordsMembership`, `RecordWellFormed` and `TableRecordsConcat` state its properties, and `ProcessTable` is proved equal to it |
| TableProcessor.ProcessTable | app/pdf_parser.py:120-205 | the row loop returns the records of all rows, in row order; one method stands for all three processors, whose bodies are the same |
| TableProcessor.ProcessRow | app/pdf_parser.py:124-147 | a row shorter than 2, an empty label or an unclassified label gives no records; any other row gives its column records |
| TableProcessor.ProcessCells | app/pdf_parser.py:139-147 | the column loop gives, for columns 1 onwards, one record per cell that cleans to a number, in column order |
| TableProcessor.EmitCell | app/pdf_parser.py:140-147 | one column adds its record when its cell cleans to a number and adds nothing otherwise |
| TableProcessor.CleanCellsEach | app/pdf_parser.py:140 | the values the column loop reads are `clean_value` of the row's cells |
| TableProcessor.CellRecordsMembership | app/pdf_parser.py:139-147 | a record comes out of the column loop exactly when some column i ≥ 1 cleans to its value and the record carries that column's year |
| TableProcessor.RowRecordsMembership | app/pdf_parser.py:124-147 | a record comes out of a row exactly when some column of it produces that record under the three skip rules |
| TableProcessor.TableRecordsMembership | app/pdf_parser.py:120-149 | a record comes out of a table exactly when some column of some row produces it |
| TableProcessor.ProducesWellFormed | app/pdf_parser.py:129-146 | a produced record has a non-empty stripped description that classifies as its metric, and one of the three years |
| TableProcessor.RecordWellFormed | app/pdf_parser.py:120-149 | every record of a table has a non-empty stripped description that classifies as its metric, and a year among "2023", "2022" and "2023-24" |
| TableProcessor.TableRecordsConcat | app/pdf_parser.py:124 | processing two tables' rows in turn gives the records of both, in order |
| TableProcessor.CellRecordsLength | app/pdf_parser.py:139-147 | the column loop yields at most one record per value column |
| TableProcessor.RowRecordsLength | app/pdf_parser.py:124-147 | a row yields at most one record per cell after the first |
| Extraction.File | app/pdf_parser.py:66-82 | one page's records added to the bucket its text selects; `FileSections` and `AtMostOneBucket` state its properties |
| Extraction.Extract | app/pdf_parser.py:51-88 | what `extract_table_data` returns or raises; `ExtractErrIff`, `ExtractErrPersists` and `ExtractBuckets` state its properties, and `ExtractTableData` is proved equal to it |
| Extraction.ExtractTableData | app/pdf_parser.py:51-88 | the page walk returns the three buckets `Extract` defines and raises when it does |
| Extraction.FilePage | app/pdf_parser.py:66-82 | one page's tables extend the bucket its text selects, and no other bucket |
| Extraction.ExtendWithTables | app/pdf_parser.py:68-70 | the table loop of one branch extends the bucket by each table's records, in table order |
| Extraction.ExtractErrIff | app/pdf_parser.py:63-86 | the extraction raises exactly when some page has no text |
| Extraction.ExtractErrPersists | app/pdf_parser.py:84-86 | once a page raises, the whole extraction raises and returns no partial result |
| Extraction.ExtractBuckets | app/pdf_parser.py:53-82 | each bucket is the concatenation, in page order, of the records of the pages filed under it |
| Extraction.FileSections | app/pdf_parser.py:66-82 | filing one page extends each bucket by that page's records for it |
| Extraction.AtMostOneBucket | app/pdf_parser.py:66-82 | a page's records go to at most one bucket, with priority balance sheet, then profit and loss, then cash flow |
| Extraction.PageContribution | app/pdf_parser.py:66-82 | a classified page puts all of its records into the buckets, and an unclassified page puts in none |
| FiscalYear.FindYear | app/pdf_parser.py:221-227 | `re.search` for "dddd-dd" or "dddd/dd" gives the leftmost match, or none when there is no match |
| FiscalYear.FindFy | app/pdf_parser.py:222-227 | the `FY` search gives the group of some match and nothing only when there is no match |
| FiscalYear.FyImpliesYear | app/pdf_parser.py:221-222 | every match of the `FY` pattern contains a match of the first pattern |
| FiscalYear.FyPatternRedundant | app/pdf_parser.py:220-231 | the `FY` pattern never changes the result: trying only the other two patterns gives the same answer |
| FiscalYear.ExtractFiscalYear | app/pdf_parser.py:217-231 | the three patterns tried in order; `ExtractFiscalYearSpec`, `ExtractFiscalYearShape` and `FyPatternRedundant` state its properties |
| FiscalYear.ExtractFiscalYearSpec | app/pdf_parser.py:217-231 | the result is the leftmost "dddd-dd" if there is one, otherwise the leftmost "dddd/dd", otherwise `None` |
| FiscalYear.ExtractFiscalYearShape | app/pdf_parser.py:226-229 | any result is seven characters of the text: four digits, '-' or '/', two digits |
| FiscalYear.ExampleFinancialYear | app/pdf_parser.py:219-222 | "FY 2023-24" gives "2023-24" |
| OrderedDict.Get | app/ai_chat.py:166 | a key is absent exactly when it is not among the keys |
| OrderedDict.Put | app/ai_chat.py:167-168 | assigning to a new key appends it to the keys; assigning to an existing key keeps the key order |
| OrderedDict.GetPutSame | app/ai_chat.py:168 | reading a key just assigned gives the assigned value |
| OrderedDict.GetPutOther | app/ai_chat.py:168 | assigning one key leaves every other key's value as it was |
| OrderedDict.PutPut | app/ai_chat.py:168 | a second assignment to a key overrides the first |
| OrderedDict.PutDistinct | app/ai_chat.py:167-168 | assignment keeps every key unique |
| RelevantData.Matching | app/ai_chat.py:135-146 | the metrics of the groups whose keywords occur in the question, in group order; `MatchingMembership`, `MatchingEmpty` and `MatchingNoDuplicates` state its properties |
| RelevantData.MetricsToFetch | app/ai_chat.py:131-150 | `metrics_to_fetch`, with the default list when nothing matches; `MetricsToFetchMembership` and `MetricsToFetchWellFormed` state its properties, and `SelectMetrics` is proved equal to it |
| RelevantData.SelectMetrics | app/ai_chat.py:134-150 | the selection loop returns the metrics of the matching keyword groups in group order, or the five defaults when none matches |
| RelevantData.MatchingMembership | app/ai_chat.py:135-146 | a metric is selected exactly when its group's keywords occur in the question |
| RelevantData.MatchingEmpty | app/ai_chat.py:135-149 | nothing is selected exactly when no group's keywords occur in the question |
| RelevantData.MetricsToFetchMembership | app/ai_chat.py:131-150 | a metric is fetched exactly when some selected group names it or no group matches and it is a default |
| RelevantData.IncomeSelectsProfitAndRevenue | app/ai_chat.py:135-138 | a question with "income" fetches both net profit and revenue |
| RelevantData.MatchingNoDuplicates | app/ai_chat.py:134-146 | groups with distinct metrics select each metric at most once |
| RelevantData.MetricsToFetchWellFormed | app/ai_chat.py:134-150 | some metric is always fetched, and none twice |
| RelevantData.AddEntry | app/ai_chat.py:166-171 | one iteration of the grouping loop; `LookupAddEntry` states its effect |
| RelevantData.Grouped | app/ai_chat.py:164-171 | the dictionary the grouping loop builds; `GroupedLastWins`, `GroupedAbsent` and `GroupedKeys` state its properties, and `GroupEntries` is proved equal to it |
| RelevantData.GroupEntries | app/ai_chat.py:164-171 | the grouping loop builds `data[metric][year]` as `Grouped` defines it |
| RelevantData.StoreEntry | app/ai_chat.py:166-171 | one iteration creates `data[metric]` if it is new, then sets `data[metric][year]` |
| RelevantData.LookupAddEntry | app/ai_chat.py:166-171 | after one iteration, `data[metric][year]` is the new entry's value for that pair and unchanged for every other pair |
| RelevantData.GroupedLastWins | app/ai_chat.py:164-171 | `data[metric][year]` holds the last entry in input order for that metric and year |
| RelevantData.GroupedNone | app/ai_chat.py:164-171 | without an entry for a metric and year, `data[metric][year]` is absent |
| RelevantData.LastExists | app/ai_chat.py:165 | among the entries for a metric and year, one is the last |
| RelevantData.GroupedAbsent | app/ai_chat.py:164-171 | `data[metric][year]` is absent exactly when no entry is for that metric and year |
| RelevantData.GroupedKeys | app/ai_chat.py:166-167 | the metric keys are in the order in which the metrics first appear among the entries |
| StringOrder.LessIrreflexive | app/ai_chat.py:198 | no string sorts before itself |
| StringOrder.LessTransitive | app/ai_chat.py:198 | the string order is transitive |
| StringOrder.LessTotal | app/ai_chat.py:198 | of two different strings, one sorts before the other |
| StringOrder.SortedList | app/ai_chat.py:198 | `sorted(list(years))` is strictly increasing and holds exactly the years of the set |
| StringOrder.SortedUnique | app/ai_chat.py:198 | only one strictly sorted sequence has a given set of elements |
| ChartBuilder.ChartType | app/ai_chat.py:180-185 | the chart is a bar chart exactly when the question has a compare word and no trend word; otherwise it is a line chart |
| ChartBuilder.ExampleCompareIsBar | app/ai_chat.py:182-183 | "Compare revenue" gets a bar chart |
| ChartBuilder.CollectYears | app/ai_chat.py:195-197 | the year loop collects exactly the years some metric has |
| ChartBuilder.ValueFor | app/ai_chat.py:207-210 | a metric's value for a year is `None` exactly when the metric lacks that year |
| ChartBuilder.ValuesFor | app/ai_chat.py:205-210 | the value loop gives one entry per label: the metric's value for that year, or `None` |
| ChartBuilder.Title | app/ai_chat.py:213 | `str.title()` on ASCII text; `TitleFromAt` states it character by character |
| ChartBuilder.DatasetLabel | app/ai_chat.py:213 | `metric.replace('_', ' ').title()`; `DatasetLabelAt` states it character by character |
| ChartBuilder.TitleFromAt | app/ai_chat.py:213 | `title()` capitalises a letter that follows a non-letter and lower-cases a letter that follows a letter |
| ChartBuilder.DatasetLabelAt | app/ai_chat.py:213 | the label turns each '_' into a space, capitalises the first letter of each word and lower-cases the rest |
| ChartBuilder.ExampleNetProfitLabel | app/ai_chat.py:213 | `net_profit` is labelled "Net Profit" |
| ChartBuilder.MakeDataset | app/ai_chat.py:205-219 | dataset `i` has the metric's label, one value per label, colour `colors[i % 5]` for border and background, and no fill |
| ChartBuilder.BuildDatasets | app/ai_chat.py:203-219 | the dataset loop gives one dataset per metric, in dictionary order |
| ChartBuilder.GenerateChartData | app/ai_chat.py:175-221 | the chart has the question's chart type, labels that are the sorted distinct years of all metrics, and one dataset per metric in order |
| ChartBuilder.LabelsDetermined | app/ai_chat.py:194-200 | the labels depend only on the set of years present |
| ChartBuilder.DatasetCoversItsYears | app/ai_chat.py:195-211 | every year a metric has gets a label, and that metric's dataset has a value under it |
| FallbackAnswer.PercentChange | app/ai_chat.py:73 | the change is the percentage by which the latest value differs from the previous one, and 0 when the previous value is 0 |
| FallbackAnswer.Fires | app/ai_chat.py:67-70 | a branch answers when one of its words is in the question and its metric has at least two years; `ProfitFirst` relies on it |
| FallbackAnswer.Comparison | app/ai_chat.py:68-74 | the comparison of a metric's first two years; `ComparisonWellFormed` states what it quotes |
| FallbackAnswer.FallbackResponse | app/ai_chat.py:62-126 | `generate_fallback_response`; `FallbackComparisonIff`, `FallbackComparison` and `FallbackGeneric` state its branches |
| FallbackAnswer.FirstFiring | app/ai_chat.py:67-119 | the branch chain answers nothing exactly when no branch fires |
| FallbackAnswer.FirstFiringAt | app/ai_chat.py:67-119 | the chain's answer is the comparison of the first branch that fires |
| FallbackAnswer.FallbackComparison | app/ai_chat.py:62-119 | when branch `k` is the first to fire, the answer compares the first two years of its metric |
| FallbackAnswer.FallbackComparisonIff | app/ai_chat.py:62-126 | the answer is a comparison exactly when some branch fires |
| FallbackAnswer.FirstFiringIndex | app/ai_chat.py:67-119 | when some branch fires, one of them fires first |
| FallbackAnswer.FallbackGeneric | app/ai_chat.py:121-126 | with no branch firing, the answer lists the metrics when there are any and apologises otherwise |
| FallbackAnswer.ComparisonWellFormed | app/ai_chat.py:68-73 | a comparison is made only of a metric with at least two years, and quotes the first two years and the first year's value |
| FallbackAnswer.ProfitFirst | app/ai_chat.py:67-74 | a question mentioning profit, asked of data with two years of net profit, compares net profit whatever else it mentions |
| Access.FirstWhere | app/main.py:191 | `.first()` of a filtered query finds nothing exactly when no company passes the filter, and otherwise a company of the table that passes it |
| Access.CompanyNamed | app/main.py:191 | the query by name of `/data`, as `FirstWhere` with the filter `name == name` |
| Access.CompanyWithId | app/main.py:281 | the query by id of `/chart-data` and `/chat`, as `FirstWhere` with the filter `id == company_id` |
| Access.RoleAllows | app/main.py:198-211 | the role `if` / `elif`; `RestrictedRoles` and `OtherRolesPass` state its effect |
| Access.Authorize | app/main.py:192-212 | a missing company gives 404; otherwise access is granted exactly when the role allows the company, and refused with 403 when it does not |
| Access.DataAccess | app/main.py:190-212 | the checks of `/data`; `OtherRolesPass` states them for unrestricted roles |
| Access.ChatAccess | app/main.py:237-258 | the checks of `/chat`, run only for a truthy company id; `ChatWithoutCompany` and `RestrictedRoles` state them |
| Access.ChartDataAccess | app/main.py:280-300 | the checks of `/chart-data`; `RestrictedRoles`, `VisibleIsAccessible` and `UnlistedButAccessible` state them |
| Access.RestrictedRoles | app/main.py:199-211 | an analyst or a CEO is refused exactly the existing companies not assigned to them, in `/chart-data` and in `/chat` |
| Access.OtherRolesPass | app/main.py:198-212 | every other role reaches every existing company in `/data` |
| Access.ChatWithoutCompany | app/main.py:238 | a chat without a company id, or with id 0, is never refused |
| Access.VisibleCompanies | app/main.py:337-344 | `/companies` shows every company to the family role and only the assigned companies to every other role |
| Access.AssignedOnly | app/main.py:342-344 | the id filter keeps exactly the companies whose id is assigned |
| Access.VisibleIsAccessible | app/main.py:289-300 | each company `/companies` lists is one `/chart-data` lets the same user open |
| Access.UnlistedButAccessible | app/main.py:337-344 | for every role other than analyst, CEO and the family, a company of the table whose id is not assigned is left out of `/companies`, yet `/chart-data` opens it |
| Access.MetricNamesMatchParser | app/main.py:348-362 | the names `/metrics` lists are the parser's metric keys, in mapping order |
| Upload.CheckFile | app/main.py:105-117 | a file is accepted exactly when its lower-cased name ends in ".pdf" and its size is at most the limit; a wrong name is refused first |
| Upload.SizeLimitBoundary | app/config.py:19 | the limit is 10·1024·1024 bytes, inclusive |
| Upload.ExampleUpperCaseExtension | app/main.py:106 | "ANNUAL_REPORT.PDF" passes the name check |
| Upload.ShortNameRefused | app/main.py:106 | a name shorter than ".pdf" is refused |
| Upload.StoredAll | app/main.py:152-158 | one stored entry per record, with the record's year, metric name, value and description |
| Upload.AllRecords | app/main.py:169 | the flattened entries of `extracted_data.values()`; `AllRecordsInOrder` and `ExtractedEntriesCount` state its properties |
| Upload.AllRecordsInOrder | app/main.py:169 | the entries of `extracted_data.values()` come in the order balance sheet, profit and loss, cash flow |
| Upload.ExtractedEntriesCount | app/main.py:169 | `extracted_entries` is the sum of the three bucket lengths |
| Upload.PersistSection | app/main.py:151-159 | the inner loop appends one entry per record of a section, in order |
| Upload.PersistEntries | app/main.py:150-159 | the outer loop appends the entries of the three sections in turn |
| Upload.UploadPdf | app/main.py:105-178 | a refused file changes nothing; an accepted one gets a document for its file name and company; a parser failure marks the document "failed" and stores nothing; otherwise every record is stored, the document is marked "processed", and the count of records is returned |
| Upload.PersistedEntries | app/main.py:150-169 | the entries stored number as many as the three buckets together, each carries the company and its record's metric |

## Left out

- Reading PDFs with pdfplumber and PyMuPDF (`app/pdf_parser.py:1-2`, `app/pdf_parser.py:61-67`) is not modelled. A document is given as its pages' text and tables.
- Every SQLAlchemy query, session and commit is not modelled, because the model takes database rows as input sequences. This covers the company get-or-create of `/upload` and the entry queries of `/data` and `/chart-data`. It also covers the `in_` filter, the `company_id` filter, `order_by(fiscal_year.desc())` and `limit(15)` of `get_relevant_data`.
- The chart `/chart-data` assembles from its query (`app/main.py:316-326`) is not modelled, because it is a reshaping of a query result. The access check before it is modelled.
- Saving the upload to disk under a fresh UUID is not modelled, because it is file I/O and randomness. Nor is the document id returned.
- Upload.UploadPdf: a missing `file.size` (None) is not modelled; the size is taken as an integer.
- Upload.UploadPdf: an exception raised while storing entries is not modelled. Only a parser failure leads to "failed".
- The OpenAI call, the async `chat` orchestration and `get_metric_summary` are not modelled, because they are foreign calls and prompt text.
- FallbackAnswer.FallbackResponse: the wording of the answers and their number formatting (`:,.0f`, `:+.1f`) are not modelled. The answer records the branch taken and the figures quoted.
- FallbackAnswer.PercentChange: the change is computed in exact arithmetic, not in binary floating point.
- ValueCleaner.ParseFloat: `float()` is modelled on plain decimal literals only, read as exact reals. Python also accepts exponents ("1e5"), "inf", "nan" and digit underscores ("1_000"); the model returns `None` for these. Binary rounding is not modelled.
- ValueCleaner.ParseResidualNumeral: holds only for the plain-decimal `float()` of the model; Python also parses residuals holding 'e', "inf", "nan" or '_'.
- ValueCleaner.CleanValueNumeral: holds only for the plain-decimal `float()` of the model; Python cleans "1e5" to 100000.0 although its residual holds a letter.
- ValueCleaner.DecimalChars: states the plain-decimal grammar of the model's `float()`; Python's `float()` also accepts 'e', "inf", "nan" and '_'.
- ValueCleaner.CleanRejectsLetter: the model's `float()` also refuses cells holding the letters of exponents, "inf" and "nan"; the lemma leaves those letters out so that it states only what Python's `float()` refuses too.
- ValueCleaner.CleanValue: `\s` and `str.isspace()` are the same fixed set of whitespace characters. `lower()` is modelled on ASCII letters only, so non-ASCII upper-case letters are kept as they are.
- FiscalYear.ExtractFiscalYear: `\d` is modelled as the ASCII digits, while Python's `\d` also matches other Unicode decimal digits.
- ChartBuilder.DatasetLabel: `title()` is modelled on ASCII letters only.
- StringOrder.Less: strings are compared by code point, which matches Python for the year strings the chart uses.
- The logging calls (`logger.warning`, `logger.error`) are not modelled, because they are output only.
- Configuration loading from the environment (`app/config.py`) is not modelled. Only the default `max_file_size` is used.
