/**
 * The LinkedIn content-export extractor: from the decoded workbook it finds
 * the "Post URL" header row of the TOP POSTS sheet, cuts the two side-by-side
 * ranked tables out of fixed column windows, keeps the rows whose url names
 * linkedin.com, truncates each table to ten rows and, optionally, reads the
 * job-title breakdown of the DEMOGRAPHICS sheet.
 */
module ExportExtractor {
  import opened Options
  import opened Sheets

  const TopPostsSheet := "TOP POSTS"
  const DemographicsSheet := "DEMOGRAPHICS"
  const PostUrlLabel := "Post URL"
  const HeaderNotFound := "Could not find Post URL header in file"

  /** First column of the engagement-ranked table and of the impressions-ranked table. */
  const EngagementColumn: nat := 0
  const ImpressionsColumn: nat := 4
  /** Each table has three columns: url, date, metric. */
  const TableWidth: nat := 3
  /** Rows kept per post table, and demographic entries kept. */
  const TopPosts: nat := 10
  const TopJobTitles: nat := 5

  const CategoryColumn := "Top Demographics"
  const ValueColumn := "Value"
  const PercentageColumn := "Percentage"
  const JobTitles := "Job titles"

  /** A workbook the reader could not open carries the reader's diagnostic; otherwise its sheets by name. */
  datatype Workbook = Unreadable(diagnostic: string) | Workbook(sheets: map<string, Grid>)

  /** One row of a column window after the three column names are assigned. */
  datatype Labelled = Labelled(url: Cell, date: Cell, metric: Cell)

  /** A returned post: its url is always text. */
  datatype PostRecord = PostRecord(url: string, date: Cell, metric: Cell)

  datatype DemographicEntry = DemographicEntry(value: Cell, percentage: Cell)

  datatype Extraction =
    | Error(msg: string)
    | Ok(topByEngagement: seq<PostRecord>, topByImpressions: seq<PostRecord>, demographics: seq<DemographicEntry>)

  // ---------------------------------------------------------------------------
  // Finding the header row
  // ---------------------------------------------------------------------------

  predicate IsHeaderRow(row: Row) {
    Str(PostUrlLabel) in row
  }

  /** The index of the first row holding a cell exactly equal to "Post URL". */
  function FirstHeaderRow(g: Grid): (h: Option<nat>)
    ensures h.Some? ==> h.value < |g| && IsHeaderRow(g[h.value])
    ensures h.Some? ==> forall k :: 0 <= k < h.value ==> !IsHeaderRow(g[k])
    ensures h.None? <==> forall k :: 0 <= k < |g| ==> !IsHeaderRow(g[k])
  {
    if g == [] then None
    else if IsHeaderRow(g[0]) then Some(0)
    else
      match FirstHeaderRow(g[1..])
      case None =>
        assert forall k :: 1 <= k < |g| ==> g[k] == g[1..][k - 1];
        None
      case Some(k) =>
        assert forall j :: 1 <= j <= k ==> g[j] == g[1..][j - 1];
        Some(k + 1)
  }

  /** The row scan of the source: walk the rows top to bottom and stop at the first header row. */
  method FindHeaderRow(g: Grid) returns (headerRow: Option<nat>)
    ensures headerRow == FirstHeaderRow(g)
  {
    headerRow := None;
    var i := 0;
    while i < |g|
      invariant 0 <= i <= |g|
      invariant headerRow.None?
      invariant forall k :: 0 <= k < i ==> !IsHeaderRow(g[k])
    {
      if Str(PostUrlLabel) in g[i] {
        headerRow := Some(i);
        break;
      }
      i := i + 1;
    }
  }

  // ---------------------------------------------------------------------------
  // Column windows, url filtering and truncation
  // ---------------------------------------------------------------------------

  /** The rows strictly below the header, cut to columns first, first+1, first+2. */
  function Window(g: Grid, h: nat, first: nat): (r: seq<Labelled>)
    requires h < |g|
    ensures |r| == |g| - h - 1
    ensures forall i :: 0 <= i < |r| ==> r[i].url == At(g[h + 1 + i], first)
  {
    seq(|g| - h - 1, i requires 0 <= i < |g| - h - 1 =>
      Labelled(At(g[h + 1 + i], first), At(g[h + 1 + i], first + 1), At(g[h + 1 + i], first + 2)))
  }

  /** `dropna(subset=['url'])`: the rows whose url cell is present, in order. */
  function DropMissingUrl(rows: seq<Labelled>): (r: seq<Labelled>)
    ensures |r| <= |rows|
    ensures forall x :: x in r <==> x in rows && x.url != Missing
  {
    if rows == [] then []
    else
      var rest := DropMissingUrl(rows[1..]);
      assert forall x :: x in rows <==> x == rows[0] || x in rows[1..];
      if rows[0].url == Missing then rest else [rows[0]] + rest
  }

  /**
   * The regular expression `linkedin.com` searched anywhere in `u`: the
   * unescaped dot matches any one character except a line feed.
   */
  predicate HostAt(u: string, i: nat) {
    i + 12 <= |u| && u[i..i + 8] == "linkedin" && u[i + 8] != '\n' && u[i + 9..i + 12] == "com"
  }

  predicate MatchesHost(u: string) {
    exists i: nat :: i < |u| && HostAt(u, i)
  }

  /** A url cell survives `str.contains('linkedin.com', na=False)` only when it is matching text. */
  predicate UrlKept(c: Cell)
    ensures UrlKept(c) ==> c.Str?
  {
    c.Str? && MatchesHost(c.text)
  }

  function ToRecord(x: Labelled): PostRecord
    requires x.url.Str?
  {
    PostRecord(x.url.text, x.date, x.metric)
  }

  /** The rows whose url passes the linkedin.com pattern, in order, as records. */
  function KeepLinkedInUrls(rows: seq<Labelled>): (r: seq<PostRecord>)
    ensures |r| <= |rows|
    ensures forall p :: p in r ==> MatchesHost(p.url) && Labelled(Str(p.url), p.date, p.metric) in rows
    ensures forall x :: x in rows && UrlKept(x.url) ==> ToRecord(x) in r
  {
    if rows == [] then []
    else
      var rest := KeepLinkedInUrls(rows[1..]);
      assert forall x :: x in rows <==> x == rows[0] || x in rows[1..];
      if UrlKept(rows[0].url) then [ToRecord(rows[0])] + rest else rest
  }

  /** `head(n)`: the first n elements, or all of them when there are fewer. */
  function Head<T>(s: seq<T>, n: nat): (r: seq<T>)
    ensures r <= s
    ensures |r| == if |s| <= n then |s| else n
  {
    if |s| <= n then s else s[..n]
  }

  /** One of the two post tables: window, url filter, first ten. */
  function PostTable(g: Grid, h: nat, first: nat): (r: seq<PostRecord>)
    requires h < |g|
    ensures |r| <= TopPosts
    ensures forall p :: p in r ==> MatchesHost(p.url)
  {
    Head(KeepLinkedInUrls(DropMissingUrl(Window(g, h, first))), TopPosts)
  }

  // ---------------------------------------------------------------------------
  // Demographics (optional; every failure degrades to "no data")
  // ---------------------------------------------------------------------------

  /** The first column whose header cell is exactly `name` (a data frame renames later duplicates). */
  function ColumnIndex(header: Row, name: string): (c: Option<nat>)
    ensures c.Some? ==> c.value < |header| && header[c.value] == Str(name)
    ensures c.Some? ==> forall k :: 0 <= k < c.value ==> header[k] != Str(name)
    ensures c.None? <==> Str(name) !in header
  {
    if header == [] then None
    else if header[0] == Str(name) then Some(0)
    else
      match ColumnIndex(header[1..], name)
      case None => None
      case Some(k) =>
        assert forall j :: 1 <= j <= k ==> header[j] == header[1..][j - 1];
        Some(k + 1)
  }

  /** The rows whose category cell is "Job titles", in order, projected to value and percentage. */
  function JobTitleEntries(rows: seq<Row>, cat: nat, value: nat, pct: nat): (r: seq<DemographicEntry>)
    ensures |r| <= |rows|
    ensures forall e :: e in r ==> exists row :: row in rows && At(row, cat) == Str(JobTitles)
                                               && e == DemographicEntry(At(row, value), At(row, pct))
    ensures forall row :: row in rows && At(row, cat) == Str(JobTitles) ==>
                           DemographicEntry(At(row, value), At(row, pct)) in r
  {
    if rows == [] then []
    else
      var rest := JobTitleEntries(rows[1..], cat, value, pct);
      assert forall row :: row in rows <==> row == rows[0] || row in rows[1..];
      if At(rows[0], cat) == Str(JobTitles)
      then [DemographicEntry(At(rows[0], value), At(rows[0], pct))] + rest
      else rest
  }

  /**
   * The demographics step: None stands for any of its failures (no sheet,
   * no header row, a missing column); otherwise the first five job-title rows.
   */
  function TryDemographics(sheets: map<string, Grid>): (r: Option<seq<DemographicEntry>>)
    ensures r.Some? ==> |r.value| <= TopJobTitles
    ensures r.None? <==>
      || DemographicsSheet !in sheets
      || sheets[DemographicsSheet] == []
      || Str(CategoryColumn) !in sheets[DemographicsSheet][0]
      || Str(ValueColumn) !in sheets[DemographicsSheet][0]
      || Str(PercentageColumn) !in sheets[DemographicsSheet][0]
  {
    if DemographicsSheet !in sheets then None
    else
      var d := sheets[DemographicsSheet];
      if d == [] then None
      else
        match (ColumnIndex(d[0], CategoryColumn), ColumnIndex(d[0], ValueColumn), ColumnIndex(d[0], PercentageColumn))
        case (Some(cat), Some(value), Some(pct)) => Some(Head(JobTitleEntries(d[1..], cat, value, pct), TopJobTitles))
        case _ => None
  }

  /**
   * A failed demographics step is swallowed and yields no entries; a
   * successful one yields the first five job-title entries, in row order.
   */
  function Demographics(sheets: map<string, Grid>): (r: seq<DemographicEntry>)
    ensures |r| <= TopJobTitles
    ensures TryDemographics(sheets).None? ==> r == []
    ensures TryDemographics(sheets).Some? ==>
      var d := sheets[DemographicsSheet];
      var all := JobTitleEntries(d[1..], ColumnIndex(d[0], CategoryColumn).value,
                                 ColumnIndex(d[0], ValueColumn).value, ColumnIndex(d[0], PercentageColumn).value);
      r <= all && |r| == if |all| <= TopJobTitles then |all| else TopJobTitles
  {
    TryDemographics(sheets).GetOr([])
  }

  // ---------------------------------------------------------------------------
  // Library failure messages and the whole extraction
  // ---------------------------------------------------------------------------

  /** The reader's message when a sheet of the requested name is absent. */
  function MissingSheetMessage(name: string): string {
    "Worksheet named '" + name + "' not found"
  }

  function DigitChar(d: nat): char
    requires d < 10
  {
    "0123456789"[d]
  }

  function Decimal(n: nat): (s: string)
    ensures |s| >= 1
    decreases n
  {
    if n < 10 then [DigitChar(n)] else Decimal(n / 10) + [DigitChar(n % 10)]
  }

  /** The data frame's message when three column names are assigned to a window of `n` columns. */
  function LengthMismatchMessage(n: nat): string {
    "Length mismatch: Expected axis has " + Decimal(n) + " elements, new values have 3 elements"
  }

  /** The number of columns `iloc[:, first:first+3]` yields on a frame of width w. */
  function WindowColumns(w: nat, first: nat): (n: nat)
    ensures n <= TableWidth
    ensures n == TableWidth <==> first + TableWidth <= w
    ensures n < TableWidth ==> n == if w <= first then 0 else w - first
  {
    if w <= first then 0 else if w - first >= TableWidth then TableWidth else w - first
  }

  /** True when the TOP POSTS sheet is present, has a header row and both windows are complete. */
  predicate WellFormed(book: Workbook) {
    book.Workbook? && TopPostsSheet in book.sheets
    && FirstHeaderRow(book.sheets[TopPostsSheet]).Some?
    && Width(book.sheets[TopPostsSheet]) >= ImpressionsColumn + TableWidth
  }

  /** The whole of parse_linkedin_xlsx, as a value. */
  function Extract(book: Workbook): (result: Extraction)
    ensures result.Ok? <==> WellFormed(book)
    ensures result.Ok? ==> |result.topByEngagement| <= TopPosts && |result.topByImpressions| <= TopPosts
    ensures result.Ok? ==> |result.demographics| <= TopJobTitles
    ensures result.Ok? ==> forall p :: p in result.topByEngagement + result.topByImpressions ==> MatchesHost(p.url)
  {
    match book
    case Unreadable(diagnostic) => Error(diagnostic)
    case Workbook(sheets) =>
      if TopPostsSheet !in sheets then Error(MissingSheetMessage(TopPostsSheet))
      else
        var df := sheets[TopPostsSheet];
        match FirstHeaderRow(df)
        case None => Error(HeaderNotFound)
        case Some(h) =>
          var w := Width(df);
          if WindowColumns(w, EngagementColumn) < TableWidth then
            Error(LengthMismatchMessage(WindowColumns(w, EngagementColumn)))
          else if WindowColumns(w, ImpressionsColumn) < TableWidth then
            Error(LengthMismatchMessage(WindowColumns(w, ImpressionsColumn)))
          else
            var engagement := PostTable(df, h, EngagementColumn);
            var impressions := PostTable(df, h, ImpressionsColumn);
            assert forall p :: p in engagement + impressions ==> p in engagement || p in impressions;
            Ok(engagement, impressions, Demographics(sheets))
  }

  /** The source's statement sequence: early returns, then the tables built stage by stage. */
  method ParseLinkedInXlsx(book: Workbook) returns (result: Extraction)
    ensures result == Extract(book)
  {
    if book.Unreadable? {
      return Error(book.diagnostic);
    }
    if TopPostsSheet !in book.sheets {
      return Error(MissingSheetMessage(TopPostsSheet));
    }
    var df := book.sheets[TopPostsSheet];
    var headerRow := FindHeaderRow(df);
    if headerRow.None? {
      return Error(HeaderNotFound);
    }
    var h := headerRow.value;
    var w := Width(df);

    if WindowColumns(w, EngagementColumn) < TableWidth {
      return Error(LengthMismatchMessage(WindowColumns(w, EngagementColumn)));
    }
    var engagementRows := Window(df, h, EngagementColumn);
    engagementRows := DropMissingUrl(engagementRows);
    var engagement := KeepLinkedInUrls(engagementRows);

    if WindowColumns(w, ImpressionsColumn) < TableWidth {
      return Error(LengthMismatchMessage(WindowColumns(w, ImpressionsColumn)));
    }
    var impressionsRows := Window(df, h, ImpressionsColumn);
    impressionsRows := DropMissingUrl(impressionsRows);
    var impressions := KeepLinkedInUrls(impressionsRows);

    var demographics := Demographics(book.sheets);
    result := Ok(Head(engagement, TopPosts), Head(impressions, TopPosts), demographics);
  }
}
