# Library diary reports and the book register

This project models the core of a small set of library tools.

**The diary report engine (`Diary_Library.py`).** It reads the active
sheet of a library diary workbook. It finds a header row by keyword and
takes the table below it, ending at the first all-empty row. Each data row
becomes a record: a date parsed from column 1, the ISO week number of that
date, and a handful of metrics summed from fixed columns with `to_number`.
`create_monthly_report` groups the records by (year, month, week) and sorts
them. It then lays the groups out month by month: a month caption, one
"Неделя N" row per week, and an ИТОГО row with the month's sums, with an
empty row between months. After the last month come an empty row and the
ВСЕГО row of totals over all records. The report is saved next to the
workbook as `<stem>-<tag><suffix>`. There are four builders:

- users, part 1.1 of the diary;
- reader sign-ups;
- visits, part 1.2;
- book issues.

Each builder has its own header keyword, column mapping, tag and error
messages.

**The book register (`BiblioDesk.py`, `test.py`).** A `Library` object
keeps a list of book records `{title, ticket, dt}`. `сheck_book` tells
whether a title is registered. `add_book` registers a title once only,
stamped with the current time. `all_books` returns the list. The `test.py`
variant loads the list from a JSON file when it exists, and writes the file
back after every addition. Its `all_books(formatted=True)` renders the list
as numbered lines.

Modules:

- `Results`: Option and Result.
- `Numbers`: decimal text of integers and the decimal syntax `float()` reads.
- `Calendar`: civil dates, the ISO week, Russian month captions.
- `Cells`: cell values, `to_number`, `parse_date`.
- `Sheet`: `find_header`, `extract_table`.
- `Vectors`: column sums.
- `Grouping`: records and the group-by-week.
- `Report`: the monthly report, as a specification function and as the loop method.
- `Layout`: what the report's rows add up to.
- `Paths`: the `save_report` name.
- `Extractors`: the four builders.
- `Catalog`: the `BiblioDesk.py` class.
- `StoredCatalog`: the `test.py` class.

## Model

| member | source | states |
|---|---|---|
| Numbers.ParseShowInt | Diary_Library.py:19-26 | the model's exact decimal reader reads the text `str()` prints for any integer back as that same integer (Python's `float()` agrees up to 2^53, see Left out) |
| Numbers.TruncatesPositive | Diary_Library.py:24 | the model's decimal reader takes "W.F" to the whole part `W`: the fraction is dropped, as `int()` drops it |
| Numbers.TruncatesTowardZero | Diary_Library.py:24 | the model's decimal reader takes "-W.F" to `-W`: truncation goes toward zero, not down, as `int()` truncates |
| Numbers.ShowIntInjective | Diary_Library.py:143 | different week numbers print as different "Неделя N" labels |
| Calendar.DaysInMonth | Diary_Library.py:68-72 | a month has 28 to 31 days; February has 29 exactly in Gregorian leap years, so `strptime` rejects 29 February otherwise |
| Calendar.IsoWeek | Diary_Library.py:196 | the `isocalendar()` week number always lies between 1 and 53 |
| Calendar.IsoWeekYear | Diary_Library.py:196 | a date's week belongs to the year (the date's own, or the one before or after) that holds the date's Thursday, and its number is the count of whole weeks from that year's start to that Thursday, plus one: the ISO 8601 Thursday rule, derived independently of the week-1 Monday computation |
| Calendar.EarlyDateWeek | Diary_Library.py:196 | a date before its year's week-1 Monday is in the week, numbered by the Thursday rule, of the previous year, which holds its Thursday |
| Calendar.LateDateWeek | Diary_Library.py:196 | a date on or after the next year's week-1 Monday has its Thursday in the next year and is in week 1 by the Thursday rule |
| Calendar.MidDateWeek | Diary_Library.py:196 | every other date has its Thursday in its own year and is numbered by the Thursday rule there |
| Calendar.IsoWeekThursdayRule | Diary_Library.py:196 | for whichever year holds the date's Thursday, the week number is the Thursday's day of that year, divided into 7-day blocks, plus one |
| Calendar.ThursdayNearby | Diary_Library.py:196 | the Thursday of a date's week lies in the date's year, the one before or the one after |
| Calendar.FourthOfJanuary | Diary_Library.py:196 | 4 January is in week 1 of every year 1 to 9999 |
| Calendar.SameWeekSameNumber | Diary_Library.py:196 | two dates whose weeks share a Thursday have the same week number |
| Calendar.WeekTurnsOnMonday | Diary_Library.py:196 | of two consecutive days, the later has the same week number unless it is a Monday |
| Calendar.YearsAscend | Diary_Library.py:196 | the years' day ranges follow one another: an earlier year ends no later than a later one begins |
| Calendar.Week1MondaysApart | Diary_Library.py:196 | the Monday of week 1 of one year and that of the next are at least 52 weeks apart |
| Calendar.EarlyJanuaryWeek53 | Diary_Library.py:196 | 1 January 2021 is in ISO week 53 and 4 January 2021 in week 1 |
| Calendar.MonthNamesDistinct | Diary_Library.py:84-88 | the twelve Russian month names are pairwise different |
| Calendar.MonthNameInjective | Diary_Library.py:83-90 | two captions "<month> <year>" are equal exactly when year and month are both equal, so comparing captions detects each change of month |
| Cells.ToNumberReadsText | Diary_Library.py:19-26 | a cell that is not None reads as `int(float(str(value)))`, and as 0 when `float()` rejects the text; the reader skips only the whitespace `float()` skips (ASCII 9–13, the space, and the non-ASCII spaces) |
| Cells.ToNumberFacts | Diary_Library.py:24 | with the model's exact decimal reader, a text cell "W.F" reads as W and "-W.F" as -W |
| Cells.ToNumberDefaults | Diary_Library.py:21-26 | an empty cell and a non-numeric text both read as 0 |
| Cells.ToNumberDropsFraction | Diary_Library.py:24 | "12.9" reads as 12 |
| Cells.ToNumberTowardZero | Diary_Library.py:24 | "-3.5" reads as -3 |
| Cells.ToNumberSkipsUnicodeSpace | Diary_Library.py:24 | whitespace around the number includes the Unicode spaces `str.isspace()` accepts: a no-break space before "12.9" and an ideographic space after it are skipped, giving 12 |
| Cells.ToNumberKeepsSeparator | Diary_Library.py:24 | the separator U+001C is whitespace to `str.strip()`, so "\x1c5" strips to "5", but `float()` does not skip it, so `to_number` reads that text as 0 |
| Cells.FirstMatchInOrder | Diary_Library.py:68-72 | the four formats are tried in the order `%Y-%m-%d`, `%d.%m.%Y`, `%d.%m.%y`, `%Y.%m.%d`, and the first that parses wins |
| Cells.ParseText | Diary_Library.py:65-72 | a stripped text cell parses to the result of the first format that accepts it |
| Cells.ParseDateTextRoundTrip | Diary_Library.py:61-73 | the ISO text of any valid date parses back to that date |
| Cells.ParseDayFirst | Diary_Library.py:68 | "DD.MM.YYYY" of any valid date parses to that date |
| Cells.ParseShortYear | Diary_Library.py:68 | "DD.MM.YY" parses with year 20YY for YY ≤ 68 and 19YY above, as `%y` does |
| Cells.ParseYearFirstDotted | Diary_Library.py:68 | "YYYY.MM.DD" of any valid date parses to that date |
| Cells.NoThirtiethOfFebruary | Diary_Library.py:61-73 | "2024-02-30" is rejected by every format, so the row is skipped |
| Cells.NoSeparatorNoDate | Diary_Library.py:68-72 | a text with neither '-' nor '.' never parses as a date |
| Cells.FalsyCellsNeverDate | Diary_Library.py:61-73 | None, 0 and "" never parse as a date |
| Sheet.FindHeader | Diary_Library.py:38-44 | the 1-based number of the first row holding a truthy cell whose text contains the keyword; None exactly when no row has one |
| Sheet.FindHeaderRow | Diary_Library.py:38-44 | the row-by-row, cell-by-cell scan returns what FindHeader specifies |
| Sheet.ScanCells | Diary_Library.py:40-42 | the inner cell loop finds a match exactly when the row mentions the keyword |
| Sheet.FalsyCellsNeverMatch | Diary_Library.py:41 | a 0 or None cell never matches, even for the keywords "0" and "None" that its text contains |
| Sheet.TableFromShape | Diary_Library.py:47-58 | the table is the run of consecutive non-blank rows from the start row, ending at a blank row or the end of the sheet |
| Sheet.ExtractTable | Diary_Library.py:47-58 | the loop returns exactly that run of rows, which starts at row `start_row` |
| Sheet.EmptyTextRowKept | Diary_Library.py:54 | a row of empty strings does not end the table; only a row of all-None cells does |
| Paths.StemSuffix | Diary_Library.py:78 | stem followed by suffix gives back the file name |
| Paths.OutputPath | Diary_Library.py:78 | the report is written in the workbook's own folder |
| Paths.OutputKeepsSuffix | Diary_Library.py:78 | the report keeps the workbook's suffix, and its stem is the workbook's stem, "-" and the tag |
| Paths.OutputIsAnotherFile | Diary_Library.py:78 | for every source name and tag, the report name is one character plus the tag longer than the source name, so the report never overwrites the workbook it was read from |
| Grouping.GroupByWeek | Diary_Library.py:115-118 | the groups are in strictly ascending (year, month, week) order, one per key that occurs; each holds the column sums of exactly the records with its key; together they sum to the totals of all records |
| Grouping.Week53Groups | Diary_Library.py:115-118 | records of 1 January 2021 (week 53) and 4 January 2021 (week 1) form two groups of January 2021, week 1 first |
| Grouping.EarlyJanuaryWeek53Last | Diary_Library.py:118 | with week numbers from `isocalendar()`, January's week 53 group sorts after its week 1 group |
| Report.BlocksAreRuns | Diary_Library.py:126-137 | cutting the sorted groups at each change of month gives maximal runs of one month each, which put back together are the groups |
| Report.CoerceInts | Diary_Library.py:143-145 | `to_number` leaves the grouped integer sums unchanged |
| Report.CreateMonthlyReport | Diary_Library.py:93-166 | the loop builds exactly MonthlyReport: nothing for no records, otherwise per month caption, week rows and ИТОГО, then an empty row and ВСЕГО |
| Report.WalkWeeks | Diary_Library.py:124-148 | after the loop over the groups, the rows so far are the rendered months with the last ИТОГО still open, and the running totals are that month's sums |
| Report.WeekTurn | Diary_Library.py:126-148 | one turn of the loop keeps that invariant: a new caption closes the previous month with ИТОГО and an empty row, and a week row adds to the running totals |
| Report.CloseLast | Diary_Library.py:150-155 | appending the last ИТОГО when the totals are non-empty completes the rendering of all months |
| Report.Finish | Diary_Library.py:150-164 | the last ИТОГО, the empty row and ВСЕГО complete the report MonthlyReport specifies |
| Layout.ReportWeeks | Diary_Library.py:139-147 | the week rows of the report, in order, are exactly one "Неделя N" row per group, carrying that group's sums |
| Layout.ReportGrandTotal | Diary_Library.py:150-164 | the report ends with an empty row and ВСЕГО holding the totals over all records, and its ИТОГО rows add up to those same totals |
| Layout.ReportMonthTotals | Diary_Library.py:126-155 | read top to bottom, every ИТОГО equals the sum of the week rows since the last caption |
| Layout.ReportCaptions | Diary_Library.py:126-137 | no month caption appears twice, every record's month has its caption in the report, and every caption names the month of some record |
| Layout.RecordOfCaption | Diary_Library.py:126-137 | every caption in the report is the "<month> <year>" of some record |
| Extractors.SumColumnsInRange | Diary_Library.py:333-335 | summing `to_number` over a list of columns succeeds exactly when every column exists in the row, and raises IndexError otherwise |
| Extractors.MetricsOf | Diary_Library.py:197-207 | a row's metric values are the column sums of its mapping, one per metric; IndexError exactly when one column is missing |
| Extractors.WalkSucceeds | Diary_Library.py:191-207 | the loop over the data rows succeeds exactly when no row raises, and otherwise raises the error of some row |
| Extractors.CollectRecords | Diary_Library.py:191-207 | the loop method collects what the Records specification gives |
| Extractors.RowRecordFacts | Diary_Library.py:191-207 | a row raises (IndexError) exactly when it is too short for a cell it reads; otherwise it gives a record exactly when its date cell parses, and the record holds that date, its ISO week and the metric sums |
| Extractors.RecordsSucceed | Diary_Library.py:191-207 | the builder's records exist exactly when every row's read succeeds |
| Extractors.RecordsAreDatedRows | Diary_Library.py:191-207 | the records are one per dated row, in row order; every other row is skipped |
| Extractors.RecordsWidth | Diary_Library.py:197-207 | every record has one value per metric column |
| Extractors.RecordsTotals | Diary_Library.py:158-162 | the totals of the records are, per metric, the sum over the dated rows of that metric's columns |
| Extractors.VisitsTotal | Diary_Library.py:281-282 | the visits metric is the sum of columns 4, 7, 9 and 13 |
| Extractors.ChildrenTotal | Diary_Library.py:333 | the "Детям до 14 лет вкл." metric is the sum of columns 5, 6 and 7 |
| Extractors.MessagesDiffer | Diary_Library.py:178-186 | the failure messages of a builder are pairwise different, so they tell the failures apart |
| Extractors.BuildReport | Diary_Library.py:209-213 | after locating the rows: the records, "Нет данных для обработки." when there are none, otherwise the monthly report and its save path |
| Extractors.BuildOutcome | Diary_Library.py:191-213 | IndexError exactly when some row is too short; "Нет данных для обработки." exactly when no row raises and none is dated; otherwise a report saved under the tag whose last row is ВСЕГО of the dated rows' sums |
| Extractors.BuildFailures | Diary_Library.py:209-213 | a failure to locate the rows passes through unchanged; past that, the only failures are IndexError and "Нет данных для обработки." |
| Extractors.FirstRow | Diary_Library.py:183-184 | `next(...)` returns the first row the test accepts, or None when none does |
| Extractors.Below | Diary_Library.py:183-188 | the data rows are those below the column-header row; the error carries the builder's message exactly when no row is a column header |
| Extractors.DataStart | Diary_Library.py:313-315 | the 1-based number of the first row whose column 1 is a text with four digits and '-' at a word boundary; IndexError at a row too short to have column 1 |
| Extractors.CyrillicBoundary | Diary_Library.py:315 | a Cyrillic letter before the year is a word character, so there is no `\b` there; the thousands sign U+0482 is not, so "҂2024-01-01" starts the table |
| Extractors.NoBoundaryNoMatch | Diary_Library.py:315 | "12024-01-01" does not start the table, because `\b` fails inside a word; "2024-01-01" does |
| Extractors.LocateUsers | Diary_Library.py:175-188 | the header search, table and column-header row of the users builder, with its two messages |
| Extractors.LocateSignUps | Diary_Library.py:222-231 | the sign-ups builder reads every row below its header row, not just a table |
| Extractors.LocateVisits | Diary_Library.py:257-269 | the header search, table and column-header row of the visits builder, with its two messages |
| Extractors.LocateIssues | Diary_Library.py:305-321 | the issues builder checks its heading, then starts its table at the first row that looks dated |
| Extractors.ProcessUsers | Diary_Library.py:173-213 | process_report_1 end to end, as the specification function UsersReport |
| Extractors.ProcessSignUps | Diary_Library.py:220-248 | process_report_2 end to end, as SignUpsReport |
| Extractors.ProcessVisits | Diary_Library.py:255-296 | process_report_3 end to end, as VisitsReport |
| Extractors.ProcessIssues | Diary_Library.py:303-350 | process_report_4 end to end, as IssuesReport |
| Extractors.UsersNeedHeading | Diary_Library.py:176-179 | the users builder fails with "Не найден заголовок 'Дата'" exactly when no row mentions "Дата" |
| Extractors.VisitsNeedHeading | Diary_Library.py:258-261 | the same for the visits builder |
| Extractors.SignUpsNeedHeading | Diary_Library.py:223-226 | the sign-ups builder fails with its heading message exactly when no row mentions "Пункт книговыдачи / период" |
| Extractors.IssuesNeedHeading | Diary_Library.py:306-309 | the issues builder searches only for "Пункт книговыдачи", but fails with the longer message exactly when no row mentions it |
| Extractors.UsersRowsInTable | Diary_Library.py:181-188 | the users data rows are a run of consecutive non-blank rows of the sheet, starting below the column-header row |
| Extractors.SignUpsReadPastBlank | Diary_Library.py:229-231 | the sign-ups builder reads on past a blank row and counts a dated row below it |
| Extractors.BlankThenDatedTotal | Diary_Library.py:230-242 | a blank row adds nothing, and a dated row below it counts |
| Catalog.Added | BiblioDesk.py:10-20 | add_book appends exactly one record (title, ticket, time) when the title is absent and leaves the list alone otherwise; afterwards the title is listed |
| Catalog.AddedKeepsDistinct | BiblioDesk.py:10-20 | add_book never registers a title twice |
| Catalog.AddedTitles | BiblioDesk.py:10-20 | after add_book, the titles listed are those before plus the new one |
| Catalog.ReplayKeepsDistinct | BiblioDesk.py:10-20 | any run of add_book calls keeps titles distinct |
| Catalog.ReplayTitles | BiblioDesk.py:10-20 | after a run of calls, a title is listed exactly when it was listed before or some call added it |
| Catalog.FreshRegisterDistinct | BiblioDesk.py:4-20 | a register built from a new Library by add_book calls never holds a title twice |
| Catalog.Library.constructor | BiblioDesk.py:4-5 | a new library is empty |
| Catalog.Library.CheckBook | BiblioDesk.py:7-8 | true exactly when some record carries the title |
| Catalog.Library.AddBook | BiblioDesk.py:10-20 | the new list is Added of the old one; which message is printed is reported by `added` |
| Catalog.Library.AllBooks | BiblioDesk.py:22-23 | returns the records as they are |
| StoredCatalog.NewRecord | test.py:26-30 | add_book writes exactly the keys 'title', 'ticket', 'dt' |
| StoredCatalog.Field | test.py:41 | `book[key]` is the value when the key is present and KeyError(key) otherwise |
| StoredCatalog.AnyTitle | test.py:21-22 | the scan answers whether the title is listed, and raises KeyError('title') only at a record without a title |
| StoredCatalog.Added | test.py:24-35 | appends one record when the title is absent, otherwise changes nothing; KeyError('title') when the scan meets a record without a title |
| StoredCatalog.AddedKeepsDistinct | test.py:24-35 | add_book on a titled, duplicate-free list never fails and never duplicates a title |
| StoredCatalog.AddedKeepsComplete | test.py:24-35 | add_book keeps every record carrying 'title', 'ticket' and 'dt' |
| StoredCatalog.Line | test.py:41 | a record's line succeeds exactly when it has the three keys read, and fails on the ticket key first when that one is missing |
| StoredCatalog.Lines | test.py:40-43 | one line per record, numbered from 1, in order; otherwise the error of some record |
| StoredCatalog.Join | test.py:44 | `"\n".join` puts one newline between lines and none after the last |
| StoredCatalog.AsWrittenFailsOnAddedBook | test.py:41 | the formatted listing as written raises on every list that holds a record add_book wrote |
| StoredCatalog.AsWrittenFirstBook | test.py:41 | one book added to an empty store: the listing raises KeyError('ticket_num') |
| StoredCatalog.CorrectedListsEveryBook | test.py:40-45 | read with 'ticket' and 'dt', the listing never fails on records add_book wrote, and it is one numbered line per record |
| StoredCatalog.CorrectedEmpty | test.py:44 | the listing of an empty register is the empty string |
| StoredCatalog.Library.constructor | test.py:7-15 | the list is what the JSON file holds, or empty when there is no file |
| StoredCatalog.Library.CheckBook | test.py:21-22 | the loop returns what AnyTitle specifies |
| StoredCatalog.Library.AddBook | test.py:24-35 | the list becomes Added of the old one; the file is written exactly when a record was added; a KeyError changes nothing; distinct titles are kept |
| StoredCatalog.Library.AllBooks | test.py:37-39 | returns the records as they are |
| StoredCatalog.Library.AllBooksFormatted | test.py:37-45 | returns the listing as written, or the KeyError of some record |
| StoredCatalog.Library.AllBooksListed | test.py:40-45 | the corrected listing, which succeeds whenever every record carries the keys add_book writes |

## Left out

- File I/O is not modelled. `read_excel`, `to_excel`, the `exists()` checks and the JSON read and write are outside the model. The worksheet is a parameter, a grid of cell values. `_load_books` is the constructor's `stored` parameter. `_save_to_json` is the ghost field `saved`.
- `datetime.now()` is a parameter `now`, the formatted time string. Its `strftime` layout is not modelled.
- `print` is left out. The two add_book messages appear as the `added` result of `Catalog.Library.AddBook`, and `Ok(true)`/`Ok(false)` in `StoredCatalog.Library.AddBook`.
- The GUI, `test2.py`, `GUI calendar.py` and `Book_Issuance_&_Returns.py` are not part of this model.
- Cells hold None, an int, text or a date-time at midnight. Float cells, boolean cells, times of day and pandas NA/NaT are not modelled. A boolean cell is not `Int(1)` or `Int(0)`: in Python `to_number(True)` is 0, because `float("True")` fails, and it would be modelled as the text "True". A `datetime.date` cell is a date-time at midnight, as `parse_date` makes it.
- Cells.ToNumberReadsText: `float()` is modelled on the decimal syntax "[sign]digits[.digits]" with surrounding whitespace (ASCII 9–13, the space, and the non-ASCII characters `str.isspace()` accepts, but not the separators U+001C–U+001F that `str.strip()` also removes), where one side of the point may be empty. Exponents, underscores, "nan" and "inf" are not modelled and read as 0 here. In Python, `int(float("inf"))` raises OverflowError, which `to_number` does not catch. Non-ASCII decimal digits, which `float()` accepts (Arabic-Indic "٣", full-width "３"), are not digits here, so such text reads as 0 in the model.
- Numbers.ParseShowInt: the model reads decimals exactly, while `float()` rounds to a 53-bit double before `int()` truncates. The two agree for integer parts below 2^53 whose fraction does not round up to the next integer. Beyond that they differ: `float("9007199254740993")` is 9007199254740992.0, and `float("2.9999999999999999")` is 3.0, so `to_number` gives 3 where the model gives 2. The same limit applies to Numbers.TruncatesPositive, Numbers.TruncatesTowardZero and Cells.ToNumberFacts.
- Cells.ParseText: `strptime` is modelled on its digit fields and separators. Its leading-space day form and its handling of 1-digit fields follow CPython's patterns. Locale effects are out. `strptime`'s `\d` and `int()` also accept non-ASCII decimal digits ("٢٠٢٤-٠١-٠١" parses in Python); only ASCII digits form a date here.
- Extractors.DataStart: `\w` is ASCII letters and digits, '_' and the letters of the Cyrillic block U+0400–U+04FF here (not the sign U+0482 or the combining marks U+0483–U+0489), and `\d` is ASCII digits. Python's Unicode classes also count letters of other scripts and non-ASCII digits: "é2024-01-01" has no `\b` before the year in Python, so that row does not start the table there, while in the model it does.
- Extractors.RowRecordFacts: a row whose date cell is pandas NaT is not modelled. `pd.DataFrame` turns a column of dates with a None into datetime64 with NaT. `parse_date` returns NaT unchanged, because NaT is a `datetime` (lines 63-64), and NaT passes the `is None` test at line 193. `isocalendar()` at line 196 then raises ValueError, whereas the model has no NaT and skips the row. This is not executed; it depends on the pandas version.
- Extractors.RecordsAreDatedRows: the same NaT case applies to the `not date_val` test at line 274 and `isocalendar()` at line 277. Also, pandas 2.x `pd.to_datetime` (line 105) rejects dates outside 1677–2262 with an out-of-bounds error, so "01.01.3024" would make the report fail there, while the model accepts every year 1 to 9999. This is not executed; it depends on the pandas version.
- The pandas frames of `create_monthly_report` are modelled by their rows. Column names, dtypes and the `pd.DataFrame(data_rows[...], columns=...)` step are left out. A data row shorter than a column it reads raises IndexError.
- Report.CreateMonthlyReport: the ВСЕГО row sums `df[col]` over the records, which are ints here. The Python version could also meet floats from pandas.
- Catalog.Library.AddBook: the `dt` timestamp is any string the caller passes. Whether it is well formed is not checked.
- Unicode case folding and normalisation are not modelled. Keyword and title comparisons are exact.

## Findings

| source | as written | input that shows it | evidently intended | confidence | as-written member | corrected member |
|---|---|---|---|---|---|---|
| test.py:41 | `all_books(formatted=True)` reads the keys `'ticket_num'` and `'date_added'`, but `add_book` writes `'ticket'` and `'dt'` | empty store; `add_book("A", "1")`; then `all_books(formatted=True)` raises KeyError('ticket_num') | read `'ticket'` and `'dt'`, listing every registered book as a numbered line | high, not executed | StoredCatalog.AsWrittenFirstBook | StoredCatalog.CorrectedListsEveryBook |
