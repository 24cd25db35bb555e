# cashflow-horizon ledger import, in Dafny

cashflow-horizon is a personal-finance web application. Its one substantial piece of logic is the importer for semicolon-delimited ledger files:

- **Header.** The first line must have at least 15 fields: `ID` and `DESCRIÇÃO` in fields 1 and 2, in any case, and each of fields 3 to 14 either blank or a Portuguese month label such as `jan/25`, in any case. Every non-blank field from 3 on names a month.
- **Rows.** Every later line is a category (an id without `.`) or a subcategory (an id such as `001.01`).
- **Amounts.** Each row has one amount per month, written in Brazilian format: `.` groups thousands, `,` separates decimals, and parentheses mean a negative amount.
- **Result.** The importer classifies each row as income or expense and nests subcategories under their category. It records the import in a history that lives both in memory and in the browser's storage.

Three small interface components are also modelled:
- the Excel upload form's status machine and file-extension gate;
- the month selector's previous and next buttons;
- the finance table's expand and collapse of categories.

The modules follow the source:

| module | file | models |
|---|---|---|
| `Wrappers`, `Text` | `text.dfy` | Option and Result; the JavaScript string operations the importer calls (`trim`, `split`, `toUpperCase`, `toLowerCase`, `startsWith`, `endsWith`, `includes`, the two `replace` calls) |
| `JsNumbers` | `js_number.dfy` | `parseFloat` over exact reals, with `NaN` and `Infinity` |
| `FinancialValues` | `financial_value.dfy` | `convertFinancialValue`, with a reference formatter for amounts in cents as its partner |
| `CsvHeader` | `csv_header.dfy` | `validateCsvHeader` |
| `RecordTypes` | `record_type.dfy` | `determineRecordType` |
| `CsvRows` | `csv_rows.dfy` | the row loop of `processCSVImport`: month columns, monthly values, the category/subcategory split and the duplicate count |
| `Hierarchy` | `hierarchy.dfy` | `organizeHierarchy` |
| `ImportHistory` | `import_history.dfy` | `processCSVImport` end to end, `getImportHistory`, `removeImport`, `clearAllImportedData` |
| `ExcelImportForm` | `excel_import.dfy` | the `ExcelImport` component's state and handlers |
| `MonthNavigation` | `month_selector.dfy` | the `MonthSelector` handlers and disabled flags |
| `FinanceTableView` | `finance_table.dfy` | the `FinanceTable` expansion state, row-click guard, value colour and visible rows |

The model follows the code as it stands. Some features the code does not have, and the model does not have them either:
- No majority-sign rule. The comment at `src/lib/importProcessors.ts:203-204` says a row whose amounts are mostly positive is probably income and that more elaborate logic could go there. No such rule exists: `determineRecordType` never reads its `values` argument, and `DetermineRecordType` proves that the amounts never matter.
- No real duplicate check. The comment at `src/lib/importProcessors.ts:181-182` says a check against existing data would go there. The code draws at random instead.
- Income is recognised only by the prefixes `016` and `017` and by the five keywords at `src/lib/importProcessors.ts:196`. There are no other prefixes or keywords.
- The header accepts only `DESCRIÇÃO` in field 2. There is no ASCII `DESCRICAO` alternative; `AsciiNeverDescription` shows that every spelling written only in ASCII is rejected.
- There are no monthly income or expense totals.
- Only the history entry is stored. The parsed data is returned, not stored.
- There is no review or confirm step before the import is recorded.

Rows that hold text where an amount should be are also handled as the code handles them. Such a cell becomes `NaN`, not 0. Only a missing or blank cell becomes 0.

Numbers are `NaN | Finite(real) | Infinite(negative)`. `NaN` plays the part of "no number". `Infinity` and exponents are kept because `parseFloat` reads them.

The Excel form is a class whose handlers all keep one invariant, `Valid`: the status is never `error` (the type allows it, but no handler sets it), a stored file has an Excel name, the only message is the invalid-file one, and a processing import has its completion pending.

The history store is a class with two fields:
- `importHistory`, the module-level array;
- `storedHistory`, the value under the `financeImportHistory` storage key.

`removeImport` and `clearAllImportedData` rewrite only the stored value. The next import appends to the in-memory array and writes all of it back, so removed and cleared entries return. `ClearedHistoryReturns` and `RemovedEntryReturns` prove this.

The month columns are read as written. The j-th non-blank header field is given the amount in field `j + 3`. So the month in header field `k` reads field `3 + n`, where `n` counts the non-blank header fields from 3 up to `k`; `HeaderFieldReads` proves this. With `b` blank header fields before a month, it reads the field `b` places to its left, which may be another month's column. `BlankColumnShiftsValues` works through the case of one blank field at 4.

## Model

| member | source | states |
|---|---|---|
| Text.Trim | src/lib/importProcessors.ts:43 | the result is no longer than the input and has no whitespace at either end |
| Text.TrimBlank | src/lib/importProcessors.ts:43-44 | a line trims to the empty string exactly when every character of it is whitespace |
| Text.TrimWithin | src/lib/importProcessors.ts:43 | every character of the trimmed text occurs in the original |
| Text.Split | src/lib/importProcessors.ts:24 | the parts contain no separator and joined with it give back the input; there is always at least one part |
| Text.SplitJoin | src/lib/importProcessors.ts:27 | splitting fields joined by `;` gives back the fields |
| Text.ToUpper | src/lib/importProcessors.ts:138-139 | upper-casing maps each character by the case table and keeps the length |
| Text.ToLower | src/lib/importProcessors.ts:198 | lower-casing maps each character by the case table and keeps the length |
| Text.RemoveChar | src/lib/importProcessors.ts:168 | `replace(/\./g, '')` leaves no `.` and keeps every other character |
| Text.ReplaceFirst | src/lib/importProcessors.ts:168 | `replace(',', '.')` keeps the length and changes nothing when there is no `,` |
| JsNumbers.ParseFloat | src/lib/importProcessors.ts:171 | `parseFloat`: leading whitespace skipped, an optional sign, then `Infinity` or the longest decimal literal, otherwise NaN; its properties are stated by the lemmas below |
| JsNumbers.Negate | src/lib/importProcessors.ts:174 | unary minus keeps NaN and negates a finite value |
| JsNumbers.DecimalLiteral | src/lib/importProcessors.ts:171 | `parseFloat` of digits, `.`, digits and non-numeric text is the decimal value of the literal |
| JsNumbers.ParseUnsigned | src/lib/importProcessors.ts:171 | `parseFloat` of text starting with a digit is the longest decimal literal at its front |
| JsNumbers.UnsignedLiteral | src/lib/importProcessors.ts:171 | the longest literal at the front stops where the digits stop |
| JsNumbers.NotANumber | src/lib/importProcessors.ts:171 | text that starts with no digit, sign, `.`, `I` or whitespace parses to NaN |
| FinancialValues.ConvertFinancialValue | src/lib/importProcessors.ts:158-175 | `convertFinancialValue` step by step; its contract is stated against the ledger formatter by `FormatRoundTrip` and case by case by the lemmas below |
| FinancialValues.FormatRoundTrip | src/lib/importProcessors.ts:158-175 | converting an amount in cents as the ledger writes it, negative ones in parentheses, gives back the amount |
| FinancialValues.PositiveRoundTrip | src/lib/importProcessors.ts:168-171 | `1.234.567,89`-style text converts to its value |
| FinancialValues.NegativeRoundTrip | src/lib/importProcessors.ts:160-174 | the same text in parentheses converts to the negated value |
| FinancialValues.MagnitudeValue | src/lib/importProcessors.ts:168-171 | a written amount followed by non-numeric text still converts to the amount |
| FinancialValues.CleanMagnitude | src/lib/importProcessors.ts:168 | cleaning removes the thousands dots and turns the decimal comma into a point |
| FinancialValues.PlainConverts | src/lib/importProcessors.ts:160-171 | text that does not start with `(` is cleaned and parsed as it stands |
| FinancialValues.WrappedConverts | src/lib/importProcessors.ts:160-174 | text in parentheses whose inside reads as x reads as -x |
| FinancialValues.ParenthesesNegate | src/lib/importProcessors.ts:160-174 | for text not itself wrapped in parentheses, wrapping it negates its conversion |
| FinancialValues.ClosingParenthesisIgnored | src/lib/importProcessors.ts:160-171 | a trailing `)` alone does not make a value negative |
| FinancialValues.OpeningParenthesisIsNaN | src/lib/importProcessors.ts:160-171 | a leading `(` without a closing one gives NaN |
| FinancialValues.CleanKeepsFirst | src/lib/importProcessors.ts:168 | cleaning keeps a first character that is neither `.` nor `,` |
| FinancialValues.WordIsNaN | src/lib/importProcessors.ts:168-171 | text starting with a letter other than `I` converts to NaN, not 0 |
| FinancialValues.EmptyIsNaN | src/lib/importProcessors.ts:171 | the empty string converts to NaN |
| FinancialValues.LedgerExamples | src/lib/importProcessors.ts:158-175 | `1.500,00` is 1500 and `(200,50)` is -200.5 |
| CsvHeader.IsValidHeader | src/lib/importProcessors.ts:133-149 | the acceptance predicate: at least 15 fields, the two labels, and fields 3 to 14 blank or month labels; `ValidateCsvHeader` is proved equal to it |
| CsvHeader.ValidateCsvHeader | src/lib/importProcessors.ts:133-149 | accepts exactly the headers with at least 15 fields, `ID` and `DESCRIÇÃO` in fields 1 and 2 after trim and upper-case, and each of fields 3 to 14 blank or a month label |
| CsvHeader.ExtraFieldsIgnored | src/lib/importProcessors.ts:135-146 | fields after the fifteenth never change the verdict |
| CsvHeader.BlankMonthAccepted | src/lib/importProcessors.ts:143-146 | blanking a month field of an accepted header keeps it accepted |
| CsvHeader.IdLabelSpellings | src/lib/importProcessors.ts:138 | field 1 passes exactly when it is a two-letter `id` in any case, dotless `ı` included |
| CsvHeader.DescriptionSpellings | src/lib/importProcessors.ts:139 | lower-case `descrição` passes |
| CsvHeader.AsciiNeverDescription | src/lib/importProcessors.ts:139 | no field written only in ASCII characters passes as `DESCRIÇÃO`, so `DESCRICAO` is rejected |
| RecordTypes.DetermineRecordType | src/lib/importProcessors.ts:189-208 | income when the id starts with `016` or `017` or the lower-cased description contains a receipt keyword, otherwise expense; the amounts never matter |
| RecordTypes.IncomeDescriptionExtended | src/lib/importProcessors.ts:196-201 | text added around an income description keeps it income |
| RecordTypes.UpperCaseKeyword | src/lib/importProcessors.ts:198 | `SALÁRIO` in capitals is income |
| RecordTypes.RecordTypeOf | src/lib/importProcessors.ts:189-208 | the classification as a rule: income when the id starts with `016` or `017` or the lower-cased description contains a keyword; its contract is stated by `DetermineRecordType` and the lemmas below |
| RecordTypes.SalaryRow | src/lib/importProcessors.ts:191-193 | every id starting `016` or `017` is income, whatever the description |
| RecordTypes.PrefixThreeIsExpense | src/lib/importProcessors.ts:191-207 | for every id starting `3`, the row is expense exactly when its description mentions no keyword |
| RecordTypes.EmptyDescriptionNoKeyword | src/lib/importProcessors.ts:196-201 | the empty description mentions no keyword |
| RecordTypes.PrefixExamples | src/lib/importProcessors.ts:191-207 | `016.01` is income with any description, and `3.01` with an empty description is expense |
| CsvRows.Put | src/lib/importProcessors.ts:64-69 | after assigning a month key, looking it up gives the amount and every other key looks up as before |
| CsvRows.PutKeys | src/lib/importProcessors.ts:64-69 | the keys after an assignment are the old keys and the assigned one |
| CsvRows.PutNewKey | src/lib/importProcessors.ts:64-69 | a key not yet present is appended at the end |
| CsvRows.PutOldKey | src/lib/importProcessors.ts:64-69 | reassigning a present key keeps the length and the order of the keys |
| CsvRows.PutKeepsDistinct | src/lib/importProcessors.ts:64-69 | the monthly values never hold a key twice |
| CsvRows.Amounts | src/lib/importProcessors.ts:78 | `Object.values` gives one amount per key |
| CsvRows.CellAmount | src/lib/importProcessors.ts:62-69 | a missing or blank cell is 0, any other cell its conversion; `AlignedColumns` and `HeaderFieldReads` state which cell each month gets |
| CsvRows.NonBlank | src/lib/importProcessors.ts:35 | the month list is the header fields from index 3 that are not blank, and only those |
| CsvRows.NonBlankAppend | src/lib/importProcessors.ts:35 | the filter distributes over concatenation, so the months keep the header's order and repeats |
| CsvRows.MonthColumns | src/lib/importProcessors.ts:35 | `header.slice(3).filter(…)`, with the empty list for a header of at most three fields; its properties are those of `NonBlank` and the lemmas below |
| CsvRows.StoreMonths | src/lib/importProcessors.ts:56-70 | the month loop as a function, for any amounts: each non-blank month is assigned, in order; its contract is stated by `MonthlyValuesKeys` and `MonthReadsColumn` |
| CsvRows.MonthlyValuesOf | src/lib/importProcessors.ts:56-70 | the month loop with the amount of field `j + 3` for month `j`; `BuildMonthlyValues` is proved equal to it |
| CsvRows.MonthlyValuesKeys | src/lib/importProcessors.ts:56-70 | each row gets exactly one key per trimmed non-blank month, whatever amounts its cells give |
| CsvRows.MonthReadsColumn | src/lib/importProcessors.ts:58-69 | the j-th month holds the amount computed at position j, unless a later month has the same trimmed name |
| CsvRows.AlignedColumns | src/lib/importProcessors.ts:35-69 | with no blank header field, month j holds the amount of field `j + 3`, its own column: 0 when that cell is missing or blank, otherwise its conversion |
| CsvRows.HeaderFieldReads | src/lib/importProcessors.ts:35-69 | the month in header field `k` holds the amount of field `3 + n`, where `n` counts the non-blank header fields from 3 up to `k`, unless a later header field has the same trimmed name |
| CsvRows.MonthAtField | src/lib/importProcessors.ts:35 | a non-blank header field `k` is month number `n` of the list, `n` counting the non-blank fields before it |
| CsvRows.MonthsAroundField | src/lib/importProcessors.ts:35 | the month list splits at a non-blank header field into the months before it, that field, and the months after it |
| CsvRows.BlankColumnShiftsValues | src/lib/importProcessors.ts:35-62 | with one blank header field at 4 between months at 3 and 5, the month at 5 holds the amount of field 4, under the blank header field |
| CsvRows.Rows | src/lib/importProcessors.ts:42-50 | one outcome per line of the file |
| CsvRows.ParseRow | src/lib/importProcessors.ts:43-87 | one data line: skipped when blank or when its id or description is blank, otherwise its record; its properties are stated by `ParsedRowWellFormed` and `RowMarkOnly` |
| CsvRows.Collect | src/lib/importProcessors.ts:42-94 | the records are exactly the rows that were not skipped |
| CsvRows.Records | src/lib/importProcessors.ts:42-94 | the records of the data lines in line order; its properties are stated by `RecordCount`, `RecordsWellFormed` and `DrawsOnlyMark` |
| CsvRows.RecordCount | src/lib/importProcessors.ts:42-94 | there are no more records than lines after the header |
| CsvRows.Categories | src/lib/importProcessors.ts:89-93 | the category list holds exactly the records whose id has no `.` |
| CsvRows.Subcategories | src/lib/importProcessors.ts:89-93 | the subcategory list holds exactly the records whose id has a `.` |
| CsvRows.DuplicateCount | src/lib/importProcessors.ts:73-74 | the count is at most the number of records, and 0 exactly when no record is flagged |
| CsvRows.Partition | src/lib/importProcessors.ts:53-93 | each record lands in exactly one of the two lists |
| CsvRows.CategoriesKeepOrder | src/lib/importProcessors.ts:89-90 | categories keep file order |
| CsvRows.SubcategoriesKeepOrder | src/lib/importProcessors.ts:91-92 | subcategories keep file order |
| CsvRows.ParsedRowWellFormed | src/lib/importProcessors.ts:43-87 | a kept row has a non-empty id and name with no whitespace at either end and no `;`, `code` equal to `id`, its classification, one value per month, and the duplicate flag it was given |
| CsvRows.RecordsWellFormed | src/lib/importProcessors.ts:42-94 | every imported record is well formed in that sense |
| CsvRows.RowMarkOnly | src/lib/importProcessors.ts:73-87 | the duplicate check changes only a row's flag |
| CsvRows.DrawsOnlyMark | src/lib/importProcessors.ts:42-94 | two runs of the duplicate check give the same records apart from their flags |
| CsvRows.BuildMonthlyValues | src/lib/importProcessors.ts:56-70 | the inner loop builds the monthly values of the row |
| CsvRows.ReadRow | src/lib/importProcessors.ts:43-87 | one iteration of the row loop gives the row's record, or skips the row |
| CsvRows.AddRecord | src/lib/importProcessors.ts:73-93 | pushing a record extends the list its id selects and counts a flagged record |
| CsvRows.ImportRows | src/lib/importProcessors.ts:42-94 | the row loop ends with the categories, subcategories and duplicate count of the file's records |
| Hierarchy.ChildrenOf | src/lib/importProcessors.ts:216-218 | the children are exactly the subcategories whose id starts with the category id and `.` |
| Hierarchy.OrganizeHierarchy | src/lib/importProcessors.ts:213-225 | one node per category, in order, each holding exactly its children |
| Hierarchy.ChildrenAppend | src/lib/importProcessors.ts:216-218 | the children keep the subcategories' order |
| Hierarchy.UniqueParent | src/lib/importProcessors.ts:53-217 | a subcategory is the child of at most one category id |
| Hierarchy.AtMostOneParent | src/lib/importProcessors.ts:213-225 | with distinct category ids, a subcategory sits in at most one node |
| Hierarchy.OrphanInNoNode | src/lib/importProcessors.ts:213-225 | a subcategory `p.rest` whose category `p` was not imported sits in no node |
| Hierarchy.HierarchyExample | src/lib/importProcessors.ts:213-225 | an example: with categories `001` and `016`, `001.01` and `016.01` go under their categories and `099.01` under neither |
| ImportHistory.EntryFor | src/lib/importProcessors.ts:100-107 | the history entry: the import id, `import-` and the date part of the timestamp, the import timestamp, and the counts; `FileNameDate` and `ProcessCsvImport` state its parts |
| ImportHistory.WithoutImport | src/lib/importProcessors.ts:253 | the filtered history holds exactly the entries with another id |
| ImportHistory.WithoutAppend | src/lib/importProcessors.ts:253 | the filter distributes over concatenation, so the remaining entries keep their order |
| ImportHistory.WithoutAbsent | src/lib/importProcessors.ts:253 | removing an id that is not there changes nothing |
| ImportHistory.WithoutIdempotent | src/lib/importProcessors.ts:253 | removing twice is removing once |
| ImportHistory.FileNameDate | src/lib/importProcessors.ts:102 | the file name takes the date before the `T` of the timestamp |
| ImportHistory.ImportCounts | src/lib/importProcessors.ts:42-106 | the counts of an import are bounded by the file's lines, and the lists are split by the `.` in the id |
| ImportHistory.HeaderOnly | src/lib/importProcessors.ts:24-44 | a file with a valid header whose later lines all trim to empty, such as a header and a trailing newline, imports nothing |
| ImportHistory.ParseImport | src/lib/importProcessors.ts:24-94 | the parse as a function: the format error when the header is rejected, otherwise the categories, subcategories and duplicate count of the records; its properties are stated by `ImportCounts`, `HeaderOnly` and `ParseCsv` |
| ImportHistory.ParseCsv | src/lib/importProcessors.ts:24-94 | splitting, the header check and the row loop together compute the parse |
| ImportHistory.ImportStore.constructor | src/lib/importProcessors.ts:16 | the in-memory history starts empty |
| ImportHistory.ImportStore.GetImportHistory | src/lib/importProcessors.ts:237-244 | the stored history when there is one, otherwise the in-memory array; `RemoveImport` and `ClearAllImportedData` state what it reads after them |
| ImportHistory.ImportStore.ProcessCsvImport | src/lib/importProcessors.ts:21-128 | a rejected header fails with the format message and changes nothing; otherwise one entry with `rowCount = categories + subcategories` is appended in memory and the whole array is stored, or the storage error is passed on |
| ImportHistory.ImportStore.RemoveImport | src/lib/importProcessors.ts:250-265 | stores the history as read without that id, reports success even for an absent id, and leaves memory alone |
| ImportHistory.ImportStore.ClearAllImportedData | src/lib/importProcessors.ts:270-283 | stores the empty history, after which the history reads empty, and leaves memory alone |
| ImportHistory.ClearedHistoryReturns | src/lib/importProcessors.ts:237-283 | after clearing, the next import brings the cleared entry back |
| ImportHistory.RemovedEntryReturns | src/lib/importProcessors.ts:237-265 | after removing, the next import brings the removed entry back |
| ExcelImportForm.IsExcelFileName | src/components/import/ExcelImport.tsx:20 | the case-sensitive suffix test for `.xlsx` or `.xls`; `ExtensionExamples` and `HandleFileChange` state its effect |
| ExcelImportForm.ExcelImport.Valid | src/components/import/ExcelImport.tsx:9-55 | the invariant every handler keeps: the status is never `error`, a stored file has an Excel name, the only message is the invalid-file one, and processing has a completion pending |
| ExcelImportForm.ExtensionExamples | src/components/import/ExcelImport.tsx:20 | the extension test is case-sensitive and accepts `.xlsx` and `.xls` |
| ExcelImportForm.ExcelImport.ImportButtonDisabled | src/components/import/ExcelImport.tsx:120 | the import button is disabled without a file or while processing; `HandleImport` states that it is disabled after an import starts |
| ExcelImportForm.ExcelImport.FileInputDisabled | src/components/import/ExcelImport.tsx:97 | whenever the file input is disabled, the import button is too |
| ExcelImportForm.ExcelImport.constructor | src/components/import/ExcelImport.tsx:10-12 | no file, status idle, no message |
| ExcelImportForm.ExcelImport.HandleFileChange | src/components/import/ExcelImport.tsx:15-31 | a wrong extension clears the file and sets the message; an Excel file is stored and the message cleared; no file clears the file and keeps the message |
| ExcelImportForm.ExcelImport.HandleImport | src/components/import/ExcelImport.tsx:33-49 | without a file nothing happens; with one the status becomes processing and both controls are disabled |
| ExcelImportForm.ExcelImport.CompleteImport | src/components/import/ExcelImport.tsx:39-42 | the scheduled completion sets the status to success |
| ExcelImportForm.ExcelImport.ResetForm | src/components/import/ExcelImport.tsx:51-55 | back to idle with no file and no message |
| ExcelImportForm.AcceptedFileWalkthrough | src/components/import/ExcelImport.tsx:33-55 | an Excel file goes idle, processing, success, idle, and the controls are disabled while processing |
| ExcelImportForm.RejectedFileWalkthrough | src/components/import/ExcelImport.tsx:15-34 | another extension yields the message, and the import button stays disabled and does nothing |
| MonthNavigation.IndexOf | src/components/finance/MonthSelector.tsx:15 | the first position of the month, or -1 exactly when it is absent |
| MonthNavigation.GoToPreviousMonth | src/components/finance/MonthSelector.tsx:14-19 | emits exactly when the selected month is in the list and is not its first month (first index above 0); an emitted month is in the list and differs from the selected one |
| MonthNavigation.PreviousDisabledEmitsNothing | src/components/finance/MonthSelector.tsx:14-28 | a disabled previous button would emit nothing; an enabled one emits exactly when the selected month is in the list |
| MonthNavigation.GoToNextMonth | src/components/finance/MonthSelector.tsx:21-26 | an emitted month is in the list |
| MonthNavigation.IsPreviousDisabled | src/components/finance/MonthSelector.tsx:28 | disabled exactly when the list is non-empty and the selected month is its first |
| MonthNavigation.IsNextDisabled | src/components/finance/MonthSelector.tsx:29 | disabled exactly when the list is empty or the selected month first occurs at its end |
| MonthNavigation.NextEnabledIffEmits | src/components/finance/MonthSelector.tsx:21-29 | the next button is enabled exactly when pressing it emits a month |
| MonthNavigation.PreviousWhenAbsent | src/components/finance/MonthSelector.tsx:14-28 | for an absent month the previous button is enabled but emits nothing |
| MonthNavigation.NextWhenAbsent | src/components/finance/MonthSelector.tsx:21-26 | for an absent month next emits the first month |
| MonthNavigation.EmptyList | src/components/finance/MonthSelector.tsx:28-29 | with no months, next is disabled and previous is not |
| MonthNavigation.NextThenPrevious | src/components/finance/MonthSelector.tsx:14-26 | in a list without repeats, previous undoes next |
| MonthNavigation.PreviousThenNext | src/components/finance/MonthSelector.tsx:14-26 | in a list without repeats, next undoes previous |
| MonthNavigation.NavigateFromFirst | src/components/finance/MonthSelector.tsx:14-26 | from the month's first position `i`, next emits the month at `i + 1` and previous the one at `i - 1`, whatever copies of it follow |
| MonthNavigation.RepeatedMonth | src/components/finance/MonthSelector.tsx:15-24 | an example: in `[a, b, a]`, next emits `b` and previous emits nothing |
| FinanceTableView.RemoveAll | src/components/finance/FinanceTable.tsx:36 | every occurrence of the id is removed and every other id kept |
| FinanceTableView.Toggled | src/components/finance/FinanceTable.tsx:33-39 | membership of the toggled id flips and membership of every other id is unchanged |
| FinanceTableView.ToggleTwice | src/components/finance/FinanceTable.tsx:33-39 | expanding then collapsing restores the list exactly |
| FinanceTableView.TogglesCommute | src/components/finance/FinanceTable.tsx:33-39 | toggles of two ids commute as far as membership goes |
| FinanceTableView.ValueClass | src/components/finance/FinanceTable.tsx:45-49 | income is `text-income` and expense is `text-expense`, whatever the value |
| FinanceTableView.RowsOf | src/components/finance/FinanceTable.tsx:62-88 | one category's rows: its own row, then its subcategory rows when it is expanded; `SubcategoryRowsExpanded` states their guard |
| FinanceTableView.TableRows | src/components/finance/FinanceTable.tsx:62-88 | the table body, category by category in order; `CollapsedTable`, `TableRowsByMembership` and `TwoTogglesRows` state its properties |
| FinanceTableView.SubcategoryRowsExpanded | src/components/finance/FinanceTable.tsx:88 | subcategory rows appear only under expanded categories |
| FinanceTableView.CollapsedTable | src/components/finance/FinanceTable.tsx:62-88 | with nothing expanded the table shows exactly the categories, in order |
| FinanceTableView.TableRowsByMembership | src/components/finance/FinanceTable.tsx:62-88 | the rows depend only on which ids are expanded, not on their order or repeats |
| FinanceTableView.TwoTogglesRows | src/components/finance/FinanceTable.tsx:33-88 | toggling an id twice, from any expansion state, shows the same rows as before |
| FinanceTableView.FinanceTable.constructor | src/components/finance/FinanceTable.tsx:31 | nothing is expanded at first |
| FinanceTableView.FinanceTable.ToggleCategory | src/components/finance/FinanceTable.tsx:33-43 | the state becomes the toggled list, so `isCategoryExpanded` flips for that id |
| FinanceTableView.FinanceTable.IsCategoryExpanded | src/components/finance/FinanceTable.tsx:41-43 | an id is expanded when it is in the list; `ToggleCategory` states that it flips |
| FinanceTableView.FinanceTable.VisibleRows | src/components/finance/FinanceTable.tsx:62-88 | the rows in the current state; every subcategory row's parent is expanded |
| FinanceTableView.FinanceTable.OnCategoryRowClick | src/components/finance/FinanceTable.tsx:64 | a click toggles only a category with a non-empty subcategory list |
| FinanceTableView.ClickTwice | src/components/finance/FinanceTable.tsx:33-88 | two clicks on a row, in any state of the table, leave the same ids expanded and the same rows shown |

## Left out

- `checkForDuplicate` draws from `Math.random`. The model takes an oracle `draw`, indexed by line number, and proves that the draws change only the records' duplicate flags.
- `generateImportId` and the two `new Date()` calls are parameters of `ProcessCsvImport`: the id, the timestamp the file name is taken from, and the import timestamp.
- `localStorage` is the `storedHistory` field. A failing write is the `writeFails` parameter. Read failures, JSON serialisation, `toast` and `console.error` are not modelled.
- IEEE doubles are not modelled. Amounts are exact reals, with no rounding, overflow or negative zero.
- Text.ToUpper: maps only Basic Latin and Latin-1 letters; `ı` and `ſ`, which map into Basic Latin; and `ÿ` and `µ`, whose upper cases `Ÿ` and `Μ` lie outside Latin-1. Characters whose upper case is longer than one character (`ß`), and other scripts, stay unchanged.
- Text.ToLower: maps only Basic Latin and Latin-1 letters and `Ÿ`.
- StoreMonths: the monthly-values object is a list of keys in insertion order, and every key is an ordinary key. The header check tests only fields 3 to 14, but every non-blank field from 3 on is a month, so a field from 15 on can hold any label. JavaScript lists an integer-like key such as `2025` before the other keys, and assigning the key `__proto__` on a plain `{}` stores no key at all. The model keeps such a key in insertion order as an ordinary key. This changes the `values` of the record, and the order of `Object.values` passed to `determineRecordType`, which ignores it.
- `async` and `setTimeout` are not modelled. The delayed success of the Excel form is the explicit step `CompleteImport`.
- The success toast of the Excel form is not modelled.
- The Excel form never reads the file it accepts; nothing past the extension check is modelled.
- Rendering, currency formatting (`formatters.ts`), the pages, charts, layout and `mockData.ts` are not part of this model.
- The features the code does not have, listed above, are not modelled.
