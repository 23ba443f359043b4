# PostPro core, modelled in Dafny

PostPro is a Streamlit page that compares a new LinkedIn draft with a post that
performed well, asks a language model for a verdict, and shows the result. It can
also read a LinkedIn "content export" workbook to show past post statistics. This
project models the three parts of `app.py` that carry real logic, and proves what
they promise:

- **The export extractor** (`parse_linkedin_xlsx`). The input is the workbook as
  the spreadsheet reader decodes it: either a reader failure, or a map from sheet
  name to a grid of cells (`Missing | Str | Num | Other`). The extractor finds the
  first row of the TOP POSTS sheet that holds a cell exactly equal to
  `"Post URL"`. It takes every row below that one and cuts two fixed windows:
  columns 0-2 are the engagement table and columns 4-6 the impressions table.
  Column 3 is never read. In each window it drops rows whose url is missing or
  does not match the regular expression `linkedin.com`, and keeps the first ten
  rows in source order. It may also read up to five "Job titles" rows from the
  DEMOGRAPHICS sheet; any failure there yields no entries. The result is a sum
  type: `Error(msg)` or `Ok(engagement, impressions, demographics)`.
- **The reply cleanup** (the block in `analyze_posts` before `json.loads`). It
  strips whitespace the way Python's `str.strip()` does. If the reply opens with
  a ``` fence, it keeps the text up to the next fence and drops a leading
  `json` tag. It then drops a trailing fence and strips again.
- **The display classes**: the style class for the score (high from 70, medium
  from 40, low below) and for the risk level (`"Low"`, `"Medium"`, everything
  else high).

Modules: `Options` and `Sheets` hold the shared data types. `ExportExtractor`,
`ExportExtractorProperties` and `ExportExtractorExample` cover the extractor.
`ReplyCleanup` and `ReplyCleanupProperties` cover the reply cleanup.
`DisplayClasses` covers the two classifications.

The header search is a loop with an early exit in the source. It is modelled
twice: as the method `FindHeaderRow`, with a `while` loop and `break`, and as
the first-index function `FirstHeaderRow` that specifies it. `ParseLinkedInXlsx`
follows the source's sequence of early returns and stage-by-stage
reassignments. It is proved equal to the function `Extract`, and the lemmas are
stated about `Extract`.

Where descriptions of this tool and the code disagree, the model follows the code:

- `app.py` reads no trends sheet, so the model has no trend points.
- More than two conditions abort the extraction. The extraction also aborts when
  the TOP POSTS sheet is missing. It also aborts when that sheet has fewer than
  seven columns, because assigning three column names to a narrower window
  raises. These aborts carry the library's message, as `str(e)` passes it on.
- The url check is not a plain substring test. `str.contains` reads
  `linkedin.com` as a regular expression, so the dot matches any character except
  a line feed.

## Model

| member | source | states |
|---|---|---|
| `Sheets.Width` | app.py:56 | the frame's column count is the longest row's length: no row is longer, and some row has exactly that length |
| `ExportExtractor.FirstHeaderRow` | app.py:58-63 | the header row is the lowest index whose row holds a cell equal to "Post URL"; it is absent exactly when no row holds one |
| `ExportExtractor.FindHeaderRow` | app.py:59-63 | the top-to-bottom scan with early `break` returns exactly that first header index, or none |
| `ExportExtractor.Window` | app.py:73 | `iloc[header_row+1:, a:a+3]` has one row for every sheet row strictly below the header, blank ones included, and its url is that row's cell in column a |
| `ExportExtractor.DropMissingUrl` | app.py:75 | `dropna(subset=['url'])` keeps exactly the rows whose url cell is present, and no more rows than it was given |
| `ExportExtractorProperties.DropMissingUrlPreservesOrder` | app.py:75 | `dropna` on a concatenation drops from each part in place, so surviving rows keep their source order and multiplicity |
| `ExportExtractor.UrlKept` | app.py:76 | with `na=False` only a text cell can pass the url filter; a missing or non-text url is dropped |
| `ExportExtractorProperties.MatchesHostIsRegexSearch` | app.py:76 | the url test is exactly `re.search('linkedin.com', url)`: some start index where every pattern character matches, the dot matching any character except a line feed |
| `ExportExtractor.KeepLinkedInUrls` | app.py:76 | every kept record has a url matching `linkedin.com` and comes from an input row with that url, date and metric; every input row whose url is matching text is kept |
| `ExportExtractor.Head` | app.py:94-95 | `head(n)` is a prefix of the sequence of length min(n, length): the whole sequence when it has at most n elements, otherwise exactly its first n |
| `ExportExtractor.PostTable` | app.py:73-95 | a post table holds at most ten records, and every record's url matches the pattern |
| `ExportExtractor.WindowColumns` | app.py:73-74 | a window `iloc[:, a:a+3]` has three columns exactly when the frame is at least a+3 wide; a shorter window has width - a columns, or none when the frame is at most a wide, and that count is the N of the "Length mismatch" message |
| `ExportExtractor.ColumnIndex` | app.py:88-89 | a named column is the first header cell equal to the name; it is absent exactly when no header cell equals it |
| `ExportExtractor.JobTitleEntries` | app.py:88-89 | every entry is the (Value, Percentage) pair of a row whose "Top Demographics" cell is "Job titles", and every such row gives an entry |
| `ExportExtractor.TryDemographics` | app.py:86-89 | the demographics step yields at most five entries; it fails exactly when the DEMOGRAPHICS sheet is absent or empty, or its header lacks a "Top Demographics", "Value" or "Percentage" column |
| `ExportExtractor.Demographics` | app.py:85-91 | a failed step is swallowed and gives no entries; a successful one gives the first min(5, n) of the n job-title entries, in row order |
| `ExportExtractor.Extract` | app.py:47-100 | success exactly when the workbook opens, TOP POSTS exists, a header row exists and the sheet is at least seven columns wide; on success each table has at most ten records, demographics at most five, and every url matches the pattern |
| `ExportExtractor.ParseLinkedInXlsx` | app.py:52-100 | the statement-by-statement extraction (early returns, then each table built stage by stage) returns exactly `Extract(book)` |
| `ExportExtractorProperties.MissingHeaderIsError` | app.py:65-66 | a readable TOP POSTS sheet with no "Post URL" cell gives `Error("Could not find Post URL header in file")` and no table data |
| `ExportExtractorProperties.ErrorCases` | app.py:52-100 | the extraction fails exactly when the reader fails, the sheet is missing, no header row exists, or the sheet is under seven columns wide |
| `ExportExtractorProperties.KeepPreservesOrder` | app.py:76 | filtering a concatenation filters each part in place, so surviving rows keep their source order |
| `ExportExtractorProperties.DropMissingUrlSubsumed` | app.py:75-76 | with `na=False` a missing url already fails the pattern, so `dropna` first changes nothing |
| `ExportExtractorProperties.TableIsPrefixOfSurvivors` | app.py:73-95 | a post table is a prefix of the matching rows below the header, of length min(10, n), so truncation never fails |
| `ExportExtractorProperties.RecordComesFromItsWindow` | app.py:73-82 | every record's url, date and metric are the three cells of its own window in one row strictly below the header |
| `ExportExtractorProperties.TableReadsOnlyItsWindow` | app.py:73-82 | sheets that agree on a window below the header give the same table, whatever they hold elsewhere |
| `ExportExtractorProperties.GapColumnNeverRead` | app.py:68-82 | changing only column 3, without changing the header row or the width, never changes the extraction |
| `ExportExtractorProperties.HeaderOnLastRow` | app.py:73-97 | a header on the last row gives `Ok` with both tables empty |
| `ExportExtractorProperties.LiteralHostMatches` | app.py:76 | a url containing the literal text linkedin.com passes the filter |
| `ExportExtractorProperties.DotMatchesAnyCharacterButLineFeed` | app.py:76 | the pattern's dot is a wildcard: "linkedin-com" passes, "linkedin" + line feed + "com" does not |
| `ExportExtractorProperties.DemographicsNeverAffectTables` | app.py:84-97 | workbooks that agree on TOP POSTS give the same error, or the same two tables, whatever their DEMOGRAPHICS sheet holds |
| `ExportExtractorProperties.DemographicsFailureIsEmpty` | app.py:84-91 | a failed demographics step leaves the extraction successful with no entries |
| `ExportExtractorProperties.DemographicEntryFromJobTitleRow` | app.py:87-89 | every entry comes from a data row of the DEMOGRAPHICS sheet whose "Top Demographics" cell is "Job titles", projected to Value and Percentage |
| `ExportExtractorProperties.JobTitlesPreserveOrder` | app.py:88-89 | the job-title filter distributes over concatenation, so entries keep their row order |
| `ExportExtractorExample.ScenarioWithBlankRow` | app.py:58-97 | header on the fourth row, one valid and one blank engagement row, two valid impression rows: tables of length 1 and 2 in source order, no demographics |
| `ReplyCleanup.StripStart` | app.py:158 | the leading-whitespace cut is a suffix of the text, everything cut is whitespace, and what is left does not start with whitespace |
| `ReplyCleanup.StripEnd` | app.py:158 | the trailing-whitespace cut is a prefix of the text, everything cut is whitespace, and what is left does not end with whitespace |
| `ReplyCleanup.Strip` | app.py:158 | `str.strip()` returns the middle of the text, trimmed at both ends, with only whitespace cut from either side |
| `ReplyCleanup.SegmentBeforeFence` | app.py:162 | `split("```")[1]` is the prefix of the text after the opening fence that runs up to the first later fence, or to the end |
| `ReplyCleanup.OpeningFenceRemoved` | app.py:161-164 | a reply that opens with a fence becomes the text between that fence and the next one (or the end), less a leading "json"; the result holds no fence; any other reply is unchanged |
| `ReplyCleanup.ClosingFenceRemoved` | app.py:165-166 | the closing-fence step is a prefix, three characters shorter exactly when the text ends with a fence, and a no-op on fence-free text |
| `ReplyCleanup.CleanReply` | app.py:158-167 | the cleaned reply has no whitespace at either end; a stripped reply with no fence at either end comes back as it is; a reply that opened with a fence comes back as its opening-fence step stripped (the closing-fence step never fires on it), with no fence in it |
| `ReplyCleanupProperties.StripPadded` | app.py:158 | stripping whitespace-padded trimmed text returns exactly that text |
| `ReplyCleanupProperties.FencedReplyRoundTrip` | app.py:160-167 | wrapping text in fences (with or without a `json` tag and inner whitespace) and then cleaning gives back exactly that text |
| `ReplyCleanupProperties.FencedReplyWithTrailerRoundTrip` | app.py:158-167 | a fenced block followed by any text (such as "Hope this helps") still cleans to exactly the enclosed text: everything after the closing fence is dropped |
| `ReplyCleanupProperties.ClosingFenceOnlyRoundTrip` | app.py:165-167 | a reply that only ends in a fence loses the fence and the whitespace before it |
| `ReplyCleanupProperties.PlainReplyUnchanged` | app.py:158-167 | a trimmed reply with no fence at either end is passed through unchanged |
| `ReplyCleanupProperties.CleanFencedReplyIsIdempotent` | app.py:160-167 | cleaning a once-fenced reply a second time changes nothing |
| `DisplayClasses.ClassifyScore` | app.py:293-294 | high exactly from 70, medium exactly from 40 up to 70, low exactly below 40 |
| `DisplayClasses.ClassifyRisk` | app.py:299-300 | low exactly for "Low", medium exactly for "Medium", high for every other text |
| `DisplayClasses.ScoreClassMonotone` | app.py:294 | a higher score never gets a lower class |
| `DisplayClasses.MissingFieldsShowWorstCase` | app.py:293-300 | a reply without a score shows as low (default 0), and one without a risk level as high (default "Unknown") |
| `DisplayClasses.RiskMatchIsExact` | app.py:300 | the risk match is case-sensitive: "low" and "High" are both high risk |

## Left out

- Workbook decoding (`pd.ExcelFile`, `read_excel`, `BytesIO`, app.py:53, 56, 87) is a library call. The model's input is the decoded grid. A file that cannot be opened is `Unreadable(diagnostic)`, and that diagnostic is passed on as the error. Whatever the reader does while decoding, such as type inference or skipping blank rows, is part of producing the grid.
- The wording of the library's own errors follows pandas with the openpyxl reader: "Worksheet named 'TOP POSTS' not found" and "Length mismatch: Expected axis has N elements, new values have 3 elements". `app.py` only passes these through.
- ExportExtractor.Extract: does not model pandas' `.str` accessor refusing a url column with no text at all (only numbers, or empty with a numeric type). There it raises and the whole extraction fails. The model drops non-text urls one by one, as `na=False` does for mixed columns.
- Cells hold whole numbers only (`Num(int)`). Floats, dates and booleans are `Other`. The model never looks inside them.
- The language-model call, the prompt text and `json.loads` of the cleaned reply (app.py:109-157, 169-174) are left out. They are a network call and library parsing, so only the string cleanup before `json.loads` is modelled.
- The Streamlit page is left out: configuration, CSS, widgets, session state and the rendering of the tables and analysis (app.py:15-44, 177-354). So are the percentage ×100 display, number formatting, url truncation and the display slices.
- DisplayClasses.ClassifyScore: takes the score as a real number. A non-numeric score in the reply would make the comparison raise in Python; the model does not cover that.
- DisplayClasses.ClassifyRisk: takes the risk level as text. A non-text value in the reply compares unequal to both names, so it is high risk, as any other text is.
- ExportExtractor.DropMissingUrl: its own contract states which rows survive, not their order; order and multiplicity are stated by `ExportExtractorProperties.DropMissingUrlPreservesOrder`.
- ExportExtractor.Demographics: a failed demographics step gives an empty sequence, where app.py:85 leaves an empty dict. The only reader tests it for truthiness (app.py:213), and both are empty, so the difference is not modelled.
- Demographic percentages are not checked to lie in [0, 1]. The code does not check them either.
