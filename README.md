# Unificación de sistemas — a verified model of the extractors and the reconciliation

The repository is a Streamlit dashboard that reads Spanish payroll and Social Security
documents and brings them together per worker. This project models its data logic in Dafny
and proves what that logic promises. Each PDF arrives as a sequence of page texts, where
`None` is a page without a text layer. The document processor's answer arrives as a sequence
of entities. The model covers these parts:

- **IDC reader** (`extractor_idc.py`). It builds period records from a worker's IDC
  (identification-of-contribution certificate). A self-employed certificate gives one
  record per dated page. Any other certificate gives one employee record, with its default
  dates and its incapacity (IT) spells.
- **Modelo 190 reader** (`extractor_190.py`). It splits each page at the
  `Percepción <n>` markers. Each block after the first gives at most one record: the
  identifier, the name, Clave, Subclave and four amounts. Each amount is found at the n-th
  occurrence of a label, within a 200-character window.
- **Payroll fold** (`extractor_nominas.py`). It folds the payroll entities into one record:
  AportacionEmpresa amounts add up, and for every other known field the last entity wins.
- **RNT reader** (`rnt_reader.py`). It scans the RNT (relación nominal de trabajadores, the
  monthly contribution-base list) line by line. The current worker and the current period
  persist across lines and pages. Common-contingency, work-accident and solidarity bases
  accumulate per (IPF, year, month) and roll up per (DNI, year). Problem pages are reported.
- **Dashboard** (`super_extractor.py`), in three parts:
  - identifier normalisation and numeric cleaning;
  - the worker-year hours audit over the IDC periods, a day-by-day loop;
  - the unified table, where each source is grouped by identifier and the groups are
    outer-merged IDC → 190 → payroll.

Modules:

- `Wrappers`: `Option`.
- `Text`: Python string primitives, namely `strip`, `split`, `find`, `replace`, `upper`,
  `s[-n:]` and `basename`.
- `Decimal`:
  - `float()` on plain decimal text;
  - `round(x, 2)`, which rounds halves to even;
  - `"%.2f"`;
  - the Spanish amount notation `1.234,56` and its regular-expression recognisers.
- `Dates`: proleptic Gregorian dates over years 1 to 9999, day numbers,
  `timedelta(days=n)`, and `strptime`/`strftime` with `"%d-%m-%Y"`.
- One module per piece of the program:
  - `Identifiers`: `normalizar_dni_final`, `limpiar_valor_numerico`;
  - `Reconcile`: the IDC audit;
  - `Consolidate`: the 190 and payroll tables and the unified dashboard;
  - `Rnt`, `Modelo190`, `Idc`, `Nominas`: one reader each.

Where the program changes state step by step, the model has methods with loops. Each such
method is proved equal to a specification function:

- `Idc.BuildFullText`, `Idc.CollectSelfEmployed`, `Idc.CollectSpells` and `Idc.Extract`;
- `Modelo190.ExtraerDatos190` with its page and block loops;
- `Nominas.ProcesarDocumento` and its token loop `Nominas.SumarTrozos`;
- `Rnt.ExtraerBasesRnt` with its page, line and capture steps;
- `Reconcile.WorkerTotals`, `Reconcile.CountDay` and `Reconcile.AuditYear`;
- `Consolidate.Unify`.

The lemmas state the source's promises about those functions.

Money and hours are exact `real`s. `round(x, 2)` and `"%.2f"` are modelled on exact values.

Three behaviours of the code that the model keeps as written:

- the audit year has 366 days whenever `year % 4 == 0` (super_extractor.py:113), so 2100
  gets 366 days;
- the unified table is built by outer merges IDC → 190 → payroll (super_extractor.py:213-222),
  and no cost figures are derived from it;
- `"---"` normalises to the empty identifier `""`, and `""` does not normalise again: it
  becomes missing.

## Model

| member | source | states |
|---|---|---|
| Identifiers.NormalizeDniNone | super_extractor.py:18-19 | the normalised identifier is absent exactly when the value is missing or only whitespace |
| Identifiers.NormalizeDniShape | super_extractor.py:20-23 | a present result has at most nine upper-case letters and digits and is the tail of the upper-cased alphanumeric characters, all of them when fewer than nine |
| Identifiers.NormalizeDniAlnum | super_extractor.py:21-23 | an alphanumeric value keeps its last nine characters, upper-cased |
| Identifiers.NormalizeDniIdempotent | super_extractor.py:18-23 | normalising again leaves the result unchanged for every value except one that normalises to the empty identifier `""` |
| Identifiers.NormalizeDniDashes | super_extractor.py:19-23 | `"---"` passes the blank test and normalises to the empty identifier |
| Identifiers.NormalizeDniTen | super_extractor.py:22-23 | a ten-character identifier loses its leading padding character (`016095080W` → `16095080W`) |
| Identifiers.StripEmpty | super_extractor.py:19 | `str(v).strip() == ""` holds exactly for whitespace-only text |
| Identifiers.CleanNumericAmount | super_extractor.py:28-29 | a Spanish-format amount, possibly padded with whitespace, is cleaned to the value it denotes |
| Identifiers.CleanNumericUnparsable | super_extractor.py:28-30 | text that `float` refuses after the separators are converted is cleaned to 0.0 |
| Identifiers.CleanNumericPassThrough | super_extractor.py:26-27 | numbers pass through unchanged; a missing cell, `""` and `"N/A"` give 0.0 |
| Reconcile.SortBySorted | super_extractor.py:118 | the periods of a worker come out ordered by `Desde_Info` |
| Reconcile.SortByPermutation | super_extractor.py:118 | the sort neither loses nor adds a period |
| Reconcile.SortByStable | super_extractor.py:118 | periods with the same `Desde_Info` keep their input order |
| Reconcile.SortByHead | super_extractor.py:118-121 | the first sorted period, whose flags and company the row uses, is the first period with the earliest `Desde_Info` |
| Reconcile.GoverningLast | super_extractor.py:124 | no period governs a day exactly when none covers it; otherwise the governing one is the last covering one |
| Reconcile.GoverningIsLatestCover | super_extractor.py:118-124 | the reverse scan over the sorted periods picks the covering period with the latest start, and of periods starting the same day the later one in input order |
| Reconcile.AuditYearLengthAgrees | super_extractor.py:113 | the `% 4` rule gives the calendar's year length for 1901 to 2099 |
| Reconcile.AuditYearLength2100 | super_extractor.py:113 | the rule takes 366 days for 2100, which has 365 |
| Reconcile.Factor | super_extractor.py:133-134 | the part-time factor is never negative and at most 1 for a coefficient up to 1000 |
| Reconcile.Status | super_extractor.py:124-139 | a day counted as active has a non-negative factor, and a self-employed worker's active day is never an incapacity day |
| Reconcile.CountDay | super_extractor.py:123-139 | one pass of the day loop gives the accumulators after that day's status |
| Reconcile.WorkerTotals | super_extractor.py:122-139 | the day loop over the audit year gives the totals of the days' statuses, in order |
| Reconcile.StatusesConsistent | super_extractor.py:133-138 | every status of the year is consistent: non-negative factor, no incapacity for the self-employed |
| Reconcile.StatusesAt | super_extractor.py:122-123 | the k-th status is the status of January 1st plus k days |
| Reconcile.TotalsCounts | super_extractor.py:129-137 | incapacity days never exceed active days, which never exceed the days of the run |
| Reconcile.TotalsHours | super_extractor.py:135-138 | for a non-negative daily rate, incapacity hours lie between 0 and the theoretical hours |
| Reconcile.TotalsSelfEmployed | super_extractor.py:136 | a self-employed worker has no incapacity days or hours |
| Reconcile.TotalsTheoretical | super_extractor.py:114-135 | theoretical hours are the daily rate times the sum of the factors of the active days |
| Reconcile.TotalsIncapacity | super_extractor.py:136-138 | incapacity hours are the daily rate times the sum of the factors of the incapacity days |
| Reconcile.TotalsNoActiveDay | super_extractor.py:129-140 | no day is counted exactly when no day of the year is active |
| Reconcile.OfWorker | super_extractor.py:118 | the periods of a selected name all carry that name, and a name present in the records has some |
| Reconcile.AuditYear | super_extractor.py:117-147 | the worker loop gives the rows of the selected workers, in selection order |
| Reconcile.RowForPresent | super_extractor.py:140-143 | a worker has a row exactly when some audit day is active, and the row carries the worker's name |
| Reconcile.RowForBounds | super_extractor.py:144 | a row's incapacity days fit in the audit year, and for non-negative agreement hours its effective hours are not negative |
| Reconcile.RowForSelfEmployed | super_extractor.py:121-144 | a worker whose earliest period is self-employed has no incapacity days |
| Reconcile.RowForCompany | super_extractor.py:141-146 | the row has the normalised DNI of the earliest period and its company and CIF, or the manual ones for a self-employed worker |
| Reconcile.AuditRowsCount | super_extractor.py:116-147 | there are no more rows than selected names, and each row is for a selected worker |
| Consolidate.NormalizeCellIdempotent | super_extractor.py:160-175 | normalising an identifier cell twice is normalising it once, unless it is the empty identifier |
| Consolidate.Prepare190Cells | super_extractor.py:155-160 | after preparation the 190 amount columns hold numbers, the identifier column holds normalised identifiers for its text cells, and no other cell changes |
| Consolidate.PrepareNomCells | super_extractor.py:174-175 | the payroll `DNI` column is normalised and no other cell changes |
| Consolidate.WhereMeaning | super_extractor.py:165-167 | a filter keeps a row exactly when it matches a non-empty selection, and keeps every row for an empty one |
| Consolidate.Shown190Meaning | super_extractor.py:164-167 | the displayed 190 rows are those matching both the Clave and the name selections |
| Consolidate.WhereAppend | super_extractor.py:165-167 | filtering a concatenation concatenates the filtered parts, so the kept rows stay in input order and repeated rows are all kept |
| Consolidate.WhereOne | super_extractor.py:165-167 | a single row is kept, once, exactly when the selection is empty or holds its cell |
| Consolidate.Shown190Append | super_extractor.py:164-167 | the displayed 190 rows of a concatenation are those of each part, in order |
| Consolidate.Shown190One | super_extractor.py:164-167 | a single 190 row is displayed, once, exactly when it matches both selections |
| Consolidate.JoinKey190 | super_extractor.py:199-201 | the 190 join key is `NIF` when the table has it, else `DNI` |
| Consolidate.GroupKeys | super_extractor.py:203-207 | the groups are exactly the keys present, missing keys excluded |
| Consolidate.GroupCells | super_extractor.py:205-207 | each group cell is the sum of a numeric column or the first value present of any other column |
| Consolidate.FirstOfIndex | super_extractor.py:205 | the `first` value is that of the earliest row of the group whose value is not missing |
| Consolidate.Consolidar | super_extractor.py:203-207 | grouping fails exactly for a non-empty table without the join column, and an empty table stays empty |
| Consolidate.ConsolidarMeaning | super_extractor.py:203-207 | the grouped table's keys are those present in the source, and its cells are sums or first values |
| Consolidate.Merge | super_extractor.py:218-222 | the outer merge has the keys of both sides, with the left columns first |
| Consolidate.MergeLeft | super_extractor.py:218-222 | a left column keeps its name and its cell, which is missing for a key only the right side has |
| Consolidate.MergeRight | super_extractor.py:218-222 | a right column is suffixed when the left side has it and carries the right cell, missing for a key only the left side has |
| Consolidate.CombineKeys | super_extractor.py:213-222 | the merged keys are the union of the three grouped tables' keys |
| Consolidate.CombineLeading | super_extractor.py:213-222 | the earliest non-empty source keeps its plain column names, in front of the others |
| Consolidate.Unify | super_extractor.py:196-227 | the unification, step by step, gives the dashboard the specification defines |
| Consolidate.BoardNoData | super_extractor.py:196-230 | there is nothing to unify exactly when all three tables are empty |
| Consolidate.BoardKeyMissing | super_extractor.py:199-207 | grouping fails exactly when a non-empty table has no identifier column to join on |
| Consolidate.BoardTable | super_extractor.py:209-227 | the unified table has one row per identifier of any source, keyed `DNI_UNIFICADO`, without the dropped identifier columns |
| Rnt.ParseImporte | rnt_reader.py:7-8 | an amount converts, and to a non-negative value |
| Rnt.ParseImporteExample | rnt_reader.py:7-8 | `"1.234,56"` parses as 1234.56 |
| Rnt.AmountAtEndLeftmost | rnt_reader.py:14-16 | the end-of-line amount exists exactly when some amount is followed only by whitespace, and it is the leftmost such |
| Rnt.EndMatchStripped | rnt_reader.py:14 | an amount followed only by whitespace ends where the trailing whitespace begins |
| Rnt.BareAmounts | rnt_reader.py:22-24 | each following line is checked, stripped, for being exactly an amount |
| Rnt.FirstMarked | rnt_reader.py:19-25 | the scan of the following lines stops at the first one that qualifies and never passes the last line |
| Rnt.AmountNearSameLine | rnt_reader.py:13-16 | an amount at the end of the line wins over the following lines |
| Rnt.AmountNearNextLines | rnt_reader.py:18-27 | otherwise the value is that of the first of the next lines that is a bare amount, and there is none exactly when no such line exists |
| Rnt.Fold | rnt_reader.py:68-69 | a cleaned line is ASCII only |
| Rnt.FoldAscii | rnt_reader.py:68-69 | an ASCII line is left unchanged by cleaning |
| Rnt.FoldAppend | rnt_reader.py:68-69 | cleaning works character by character |
| Rnt.FoldAccent | rnt_reader.py:68-113 | an accented `Ó` becomes `O`, so `COTIZACIÓN ADIC` is compared as `COTIZACION ADIC` |
| Rnt.WorkerMatch | rnt_reader.py:72 | a worker identifier found is nine or ten digits and a capital letter |
| Rnt.WorkerMatchAccepts | rnt_reader.py:72-74 | a line opening with 11 or 12 digits, whitespace, 9 or 10 digits and a capital sets that identifier as the worker |
| Rnt.WorkerMatchForm | rnt_reader.py:72 | conversely, a found worker follows 11 or 12 digits and some whitespace at the start of the line |
| Rnt.WorkerDni | rnt_reader.py:133 | the DNI of a worker is its last nine characters, which end with the capital letter |
| Rnt.FindPeriod | rnt_reader.py:58 | the period header found is the leftmost match, a two-digit month and a four-digit year, and none is found only when none matches |
| Rnt.ReadLineSolidarity | rnt_reader.py:68-113 | `COTIZACIÓN ADIC`, accent included, announces the solidarity base |
| Rnt.ReadPage | rnt_reader.py:51-55 | a page without text or with empty text counts as a page without text |
| Rnt.ReadPageLines | rnt_reader.py:58-65 | a page with text has the leftmost period header and one entry per `\n`-separated line |
| Rnt.AddTo | rnt_reader.py:94-116 | `+=` raises one category of a bucket and leaves the others alone |
| Rnt.Find | rnt_reader.py:33-37 | a bucket key is found at its first position, and not found only when absent |
| Rnt.CreditBases | rnt_reader.py:94-116 | the credited bucket reads one base higher and every other bucket reads as before; an unused key reads as zeros |
| Rnt.CreditKeys | rnt_reader.py:33-94 | crediting a key adds it to the buckets if it was not there |
| Rnt.CreditDistinct | rnt_reader.py:33-37 | each bucket key is kept once |
| Rnt.CreditGrows | rnt_reader.py:94-116 | a non-negative amount lowers no base and removes no bucket |
| Rnt.Target | rnt_reader.py:77-86 | a line is read exactly when there are a worker and a period and it is not a totals line |
| Rnt.LineScanner | rnt_reader.py:72-84 | a worker line sets the worker; `SUMA DE BASES` clears it once a period is known; otherwise the worker persists, and no line changes the period |
| Rnt.LineIgnored | rnt_reader.py:77-84 | a line that is not read leaves the buckets and the capture count alone |
| Rnt.LineCredits | rnt_reader.py:86-119 | a line that is read adds its amount to each category it announces, in its own bucket, and counts one capture per category |
| Rnt.LineOthers | rnt_reader.py:86-119 | no other bucket changes |
| Rnt.LineGrows | rnt_reader.py:86-119 | a line never removes a bucket nor lowers a base |
| Rnt.BlankPage | rnt_reader.py:53-55 | a page without text only adds its number to the report |
| Rnt.PagePeriod | rnt_reader.py:57-61 | the period of a page is its own header, else the one carried over from earlier pages |
| Rnt.ScanErrors | rnt_reader.py:53-123 | a page is reported exactly when it has no text, or a period header and no captured base |
| Rnt.ScanErrorsRange | rnt_reader.py:54-123 | reported pages are numbered from 1 to the number of pages |
| Rnt.ScanErrorsSorted | rnt_reader.py:47-123 | the report lists pages in increasing order, each once |
| Rnt.ScanGrows | rnt_reader.py:47-123 | from page to page, buckets keep their place and their bases never decrease |
| Rnt.ScanOk | rnt_reader.py:47-123 | every bucket is keyed by a worker identifier, a four-digit year and a two-digit month, is listed once, and has no negative base |
| Rnt.Rounded | rnt_reader.py:136-138 | the rounded bases have at most two decimals and stay non-negative |
| Rnt.MonthRowMeaning | rnt_reader.py:129-139 | monthly row j is bucket j: its IPF, the nine-character DNI ending it, year and month as numbers, and its bases rounded |
| Rnt.RollSums | rnt_reader.py:145-155 | each summary entry holds the sums of the monthly values of its (DNI, year) |
| Rnt.RollKeys | rnt_reader.py:151-152 | the summary has an entry for a (DNI, year) exactly when some monthly row has it |
| Rnt.RollDistinct | rnt_reader.py:145-152 | each (DNI, year) is summarised once |
| Rnt.AnnualIsSumOfMonths | rnt_reader.py:151-165 | the annual row of a (DNI, year) is the exact sum of that key's rounded monthly values, which a second rounding leaves unchanged |
| Rnt.MonthlyCents | rnt_reader.py:136-138 | every monthly base has at most two decimals |
| Rnt.ScanLine | rnt_reader.py:65-119 | one pass of the line loop is the specification's line step |
| Rnt.CaptureBlock | rnt_reader.py:91-97 | one keyword block credits the amount found at or below the line, when there is one |
| Rnt.ScanLines | rnt_reader.py:65-119 | the line loop of a page is the specification's fold over its lines |
| Rnt.ScanPage | rnt_reader.py:49-123 | one page of the loop is the specification's page step |
| Rnt.MonthlyDetail | rnt_reader.py:129-139 | the monthly detail has one row per bucket, in bucket order |
| Rnt.Acumular | rnt_reader.py:151-155 | one pass of the summary loop adds the three bases of a monthly row to the entry of its (DNI, year), as one step of the roll-up specifies |
| Rnt.Resumen | rnt_reader.py:145-155 | the summary loop over the monthly rows gives the roll-up of their (DNI, year) entries |
| Rnt.AnnualTable | rnt_reader.py:157-165 | the annual rows are the summary entries in order, each with its bases rounded |
| Rnt.AnnualSummary | rnt_reader.py:145-165 | the annual summary is the rounded roll-up of the monthly rows |
| Rnt.ExtraerBasesRnt | rnt_reader.py:30-167 | the reader returns the monthly rows of the scanned buckets, their roll-up and the reported pages, all well formed |
| Modelo190.KeepNumeric | extractor_190.py:8 | the cleaned text keeps only digits, commas and dots |
| Modelo190.LimpiarMontoAmount | extractor_190.py:6-24 | an amount as the recogniser delivers it is read as the value it denotes |
| Modelo190.LimpiarMontoNonNegative | extractor_190.py:6-14 | the cleaned text has no sign, so no amount is negative |
| Modelo190.LimpiarMontoNothing | extractor_190.py:7-9 | text without digits or separators reads as 0.0 |
| Modelo190.OccurrencesSound | extractor_190.py:18 | every listed position is an occurrence of the label |
| Modelo190.OccurrencesApart | extractor_190.py:18 | occurrences are listed left to right without overlapping |
| Modelo190.OccurrencesGap | extractor_190.py:18 | no occurrence between two listed ones is skipped |
| Modelo190.OccurrencesFirst | extractor_190.py:18 | the first listed occurrence is the leftmost one, and there is none only when the label does not occur |
| Modelo190.Window | extractor_190.py:21 | the window holds at most 200 characters from the occurrence |
| Modelo190.ExtraerTooFew | extractor_190.py:19-27 | a label occurring fewer than `instancia` times gives 0.0 |
| Modelo190.ExtraerFound | extractor_190.py:20-27 | at the n-th occurrence the result is the value of the leftmost amount in the window, or 0.0 when it holds none |
| Modelo190.ExtraerFirstAt | extractor_190.py:20-62 | the first instance is read at the leftmost occurrence of the label |
| Modelo190.ExtraerNonNegative | extractor_190.py:16-27 | no extracted amount is negative |
| Modelo190.NextMarkerLeftmost | extractor_190.py:42 | the marker found is the leftmost `Percepción <n>`, and none is found only when there is none |
| Modelo190.SplitJoin | extractor_190.py:42 | the blocks and the markers put back together give the page text |
| Modelo190.MarkersAreMarkers | extractor_190.py:42 | every separator is a marker |
| Modelo190.SplitFirst | extractor_190.py:42-44 | the discarded first piece is exactly the text before the first marker |
| Modelo190.IdPos | extractor_190.py:47 | the search stops at the first position at or after its start where the expression matches, and finds nothing only when no position matches |
| Modelo190.FindId | extractor_190.py:47-50 | the identifier and name are those of the leftmost match, and none is found only when nothing matches; an identifier is eight or nine capitals and digits |
| Modelo190.Clave | extractor_190.py:54-55 | Clave is one capital letter or empty |
| Modelo190.Subclave | extractor_190.py:57-58 | Subclave is two digits or empty |
| Modelo190.FindCodeFound | extractor_190.py:54-58 | the code is empty exactly when the tag is nowhere followed by a code of its shape, otherwise it is the code at the leftmost place |
| Modelo190.BlockRecordOk | extractor_190.py:47-76 | a record carries the file name, a well-formed identifier, Clave and Subclave, and non-negative amounts |
| Modelo190.BlockRecordsCount | extractor_190.py:44-66 | a page gives exactly one record per block with an identifier match |
| Modelo190.NoMarkerNoRecords | extractor_190.py:42-44 | text without a marker gives no record |
| Modelo190.AllRecordsOk | extractor_190.py:29-77 | every record of a document is well formed and carries the document's name |
| Modelo190.ExtraerBloques | extractor_190.py:44-76 | the block loop gives the records of the blocks after the first piece, in order |
| Modelo190.ExtraerPagina | extractor_190.py:39-44 | a page without text gives nothing, otherwise its blocks' records |
| Modelo190.ExtraerDatos190 | extractor_190.py:29-77 | the reader gives every page's records, in page order, under the file's base name |
| Idc.FullText | extractor_idc.py:12 | the full text exists exactly when every page has text |
| Idc.BuildFullText | extractor_idc.py:11-12 | the concatenation loop gives the full text, or fails at a page without text |
| Idc.NoneStaysNone | extractor_idc.py:12 | once a page without text is reached, the document fails |
| Idc.UnknownName | extractor_idc.py:25-44 | a name not found is marked `DESCONOCIDO`, which excludes it from the audit selection |
| Idc.SelfEmployedPageShape | extractor_idc.py:29-39 | a dated page gives a self-employed record over its whole month: first to last day, Alta the start written dd-mm-yyyy, Baja `ACTIVO`, CTP 0, no IT spells, company `PENDIENTE` |
| Idc.SelfEmployedPageSkip | extractor_idc.py:21-30 | a page without text or without a period capture gives no record |
| Idc.SelfEmployedPageRaise | extractor_idc.py:31-33 | a dated page fails exactly when its month does not exist or the month end passes year 9999 |
| Idc.CollectSelfEmployed | extractor_idc.py:19-39 | the page loop gives the self-employed records in page order |
| Idc.RaiseStaysNone | extractor_idc.py:19-39 | once a page fails, the document fails |
| Idc.SelfEmployedRecordsShape | extractor_idc.py:19-39 | there is one self-employed record per dated page, each of the self-employed shape |
| Idc.DateTexts | extractor_idc.py:81 | every date found is ten characters long |
| Idc.LineSpellDates | extractor_idc.py:80-83 | a spell comes from a line with an IT keyword and at least two dates, and runs from its second-to-last to its last date |
| Idc.LineSpellNone | extractor_idc.py:80-82 | a line gives no spell exactly when it lacks a keyword or has fewer than two dates |
| Idc.CollectSpells | extractor_idc.py:79-83 | the line loop gives the spells of the lines in line order |
| Idc.SpellsAppend | extractor_idc.py:79-83 | spells of consecutive groups of lines follow each other in line order |
| Idc.BadDateStaysNone | extractor_idc.py:83 | a spell date that does not exist fails the document |
| Idc.EmployeeDefaults | extractor_idc.py:58-91 | the defaults are: Alta `01-01-2000`, start of contract and Desde at the Alta, Hasta 2099-12-31, Baja `ACTIVO`, CTP 0, and an unknown name marked `DESCONOCIDO` |
| Idc.EmployeeAllMissing | extractor_idc.py:58-91 | with no capture and no peculiarity block the record runs from 2000-01-01 to 2099-12-31 with no spells |
| Idc.Extract | extractor_idc.py:5-92 | the reader, step by step, gives the records the specification defines |
| Idc.ExtractIdcKinds | extractor_idc.py:15-91 | a self-employed document gives one self-employed record per dated page; any other gives exactly one employee record |
| Nominas.Initial | extractor_nominas.py:68-78 | `campos` starts with the eight text fields |
| Nominas.RecordKeys | extractor_nominas.py:68-97 | the record always has exactly the nine fields |
| Nominas.RecordDefault | extractor_nominas.py:69-77 | a text field that no entity names keeps its default: the base name for Archivo, empty text otherwise |
| Nominas.RecordLastWins | extractor_nominas.py:81-95 | a text field holds the stripped text of the last entity whose stripped type names it |
| Nominas.FoldLastWins | extractor_nominas.py:81-95 | during the fold, a field holds the text of the last entity naming it |
| Nominas.FoldUntouched | extractor_nominas.py:94-95 | a field that no entity names keeps its value |
| Nominas.RecordIgnores | extractor_nominas.py:94-95 | an entity whose type names no field changes nothing, wherever it comes |
| Nominas.FoldAportacion | extractor_nominas.py:85-93 | the AportacionEmpresa total is the sum of the tokens of the AportacionEmpresa entities, in order |
| Nominas.RecordAportacion | extractor_nominas.py:85-97 | AportacionEmpresa is that total written with exactly two decimals, and it reads back as the total rounded to cents |
| Nominas.TokenSumSkips | extractor_nominas.py:88-93 | a token that does not read as a number adds nothing |
| Nominas.TokenAmount | extractor_nominas.py:90-91 | a token written as a Spanish amount adds the amount it denotes |
| Nominas.TokenSumAppend | extractor_nominas.py:87-91 | each token adds its own value to the sum of the previous ones |
| Nominas.SumarTrozos | extractor_nominas.py:86-93 | the token loop gives the sum of the values of the tokens `float` reads |
| Nominas.Leer | extractor_nominas.py:81-95 | one pass of the entity loop does what one step of the fold specifies: an AportacionEmpresa entity adds its tokens, a known field is overwritten, anything else is ignored |
| Nominas.ProcesarDocumento | extractor_nominas.py:68-98 | the entity loop gives the record the specification defines |
| Decimal.SpanishAmountValue | rnt_reader.py:7-8 | every Spanish-format amount converts, to the value it denotes |
| Decimal.FormatFixed2RoundTrip | extractor_nominas.py:97 | the `.2f` text reads back as the value rounded to two decimals |
| Decimal.FormatFixed2Shape | extractor_nominas.py:97 | the `.2f` text has a single dot followed by exactly two digits |
| Decimal.Round2 | rnt_reader.py:136-138 | `round(x, 2)` is within half a cent of `x` and keeps the sign of a non-negative value |
| Decimal.Round2Cents | rnt_reader.py:162-164 | a value with at most two decimals is unchanged by `round(x, 2)` |
| Decimal.CentsAdd | rnt_reader.py:153-155 | sums of values with at most two decimals have at most two decimals |
| Decimal.AmountAtSound | extractor_190.py:22 | what the amount recogniser matches is an amount |
| Decimal.SearchAmount | extractor_190.py:22 | the amount searched for is an amount, inside the searched text |
| Decimal.AmountSuffixFrom | rnt_reader.py:14 | the end-anchored amount starts at the first position from which the rest is an amount |
| Dates.OrdinalOrder | super_extractor.py:124-129 | day numbers order dates as comparing `datetime`s does |
| Dates.StampOrder | super_extractor.py:118 | the sort key orders dates chronologically, in agreement with day numbers |
| Dates.NextDayOrdinal | super_extractor.py:123 | the next day is one day number later, and only 9999-12-31 has none |
| Dates.AddDaysOrdinal | super_extractor.py:123 | adding n days moves the day number by n |
| Dates.AddDaysWithinYear | super_extractor.py:115-123 | every audit day of a year before 9999 is a date |
| Dates.MonthEndValue | extractor_idc.py:33 | the month-end formula gives the last day of the month and fails only for 9999-12 |
| Dates.ParseFormatDmy | super_extractor.py:127 | a date written dd-mm-yyyy reads back as the same date |
| Dates.ParseDefaultAlta | extractor_idc.py:60-73 | the default Alta `01-01-2000` reads as 2000-01-01 |
| Text.LStripSpec | super_extractor.py:19 | left stripping removes exactly a whitespace prefix |
| Text.RStripSpec | rnt_reader.py:14-22 | right stripping removes exactly a whitespace suffix |
| Text.FindFrom | rnt_reader.py:81-91 | `sub in s`: the position found is the first occurrence, and none only when `sub` does not occur |
| Text.Basename | extractor_nominas.py:69 | the base name is the part of the path after its last `/` |

## Left out

- The Streamlit interface, its session state, tabs, tables shown and download buttons:
  - the `extend` and `append` of the raw record lists at super_extractor.py:78-99;
  - the `Año_190` column added to each 190 record at line 86.

  The readers are modelled, and the tables come in as inputs.
- PDF reading (`pdfplumber.open`, `extract_text`), splitting and temporary files. The model
  takes each page's text, or `None` for a page without a text layer.
- The Google Document AI client and `process_document`, the payroll's `split_pdf` and
  `procesar_folder`. The model takes the list of (type, text) entities the processor returns.
- Excel export, and the comma rendering of AportacionEmpresa on export.
- `main_superextractor.py`. It is only the interface's entry point.
- IDC field captures. All patterns except the dates in the peculiarity block are abstract:
  they are functions from the text to the captured `Option<string>`s. The amount, worker,
  period, 190 identifier, Clave, Subclave, marker and date recognisers are modelled exactly.
- pandas details:
  - dtype inference: numeric columns are given explicitly;
  - the column order of a merge beyond the rule modelled;
  - merges that would create duplicate column names: `Consolidate.MergeLeft` and
    `Consolidate.MergeRight` assume the merged names are distinct;
  - the order of rows after `groupby`: a grouped table is a map.
- Floating point. Money and hours are exact reals, so IEEE rounding of sums and of
  `h_conv / dias_anio` is not modelled. Python's `float()` also accepts `inf`, `nan`, exponents
  and underscores. `Decimal.ParseFloat` accepts only an optional sign, digits and at most one
  point, so `Nominas.TokenValue`, `Identifiers.CleanNumeric` and `Modelo190.LimpiarMonto`
  treat those other forms as unreadable.
- Unicode:
  - letters, digits, `isalnum` and `upper` are ASCII only;
  - the NFKD-then-ASCII cleaning of RNT lines is modelled character by character for
    U+0000 to U+00FF. There it keeps what NFKD decomposition leaves in ASCII: `Ó` gives `O`,
    `½` gives `12`. Characters above U+00FF are dropped, even where NFKD would leave an ASCII
    base letter.
- `strptime("%d-%m-%Y")`: only the text shapes the program produces or captures are modelled.
  Leading and trailing whitespace directives are not modelled.
- The RNT reader's `debug_dni` trace and `dni_actual`: they only feed debug printing.
- The audit's first and last active day (super_extractor.py:131-132): computed but never output.
- Reconcile.WorkerTotals: requires an audit year from 1 to 9998, so that every audit day is a
  date; the interface only offers 2023 to 2026.
- Reconcile.AuditYear: requires every selected name to be one the selection widget offers.
  Such a name occurs in the records and does not contain `DESCONOCIDO`.
- Nominas.SumarTrozos: the source adds each token straight into `campos`; the model sums a
  value's tokens first and adds the sum afterwards, which over exact reals is the same total.
- Identifiers.NormalizeDniIdempotent: excludes a value that normalises to `""`, such as
  `"---"`, because re-normalising `""` gives nothing and the property does not hold there.
- Consolidate.NormalizeCell: identifier cells are assumed to be text. A numeric cell is left as
  it is, whereas `normalizar_dni_final` (super_extractor.py:18-23) would normalise the text
  `str(valor)` of the number (`12345678.0` gives `"123456780"`). The readers only produce text
  identifiers, and Python's float-to-text conversion is not modelled.
