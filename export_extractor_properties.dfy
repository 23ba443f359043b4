/**
 * What the extractor promises its caller: the two abort conditions, tables
 * that depend on their own column window below the header only, order and
 * truncation, and demographics that never decide the outcome.
 */
module ExportExtractorProperties {
  import opened Options
  import opened Sheets
  import opened ExportExtractor

  // ---------------------------------------------------------------------------
  // Errors
  // ---------------------------------------------------------------------------

  /** A readable TOP POSTS sheet without any "Post URL" cell aborts with the fixed message. */
  lemma MissingHeaderIsError(book: Workbook)
    requires book.Workbook? && TopPostsSheet in book.sheets
    requires forall k :: 0 <= k < |book.sheets[TopPostsSheet]| ==> !IsHeaderRow(book.sheets[TopPostsSheet][k])
    ensures Extract(book) == Error(HeaderNotFound)
  {
  }

  /** The extraction aborts exactly on the four failures, and on nothing else. */
  lemma ErrorCases(book: Workbook)
    ensures Extract(book).Error? <==>
      || book.Unreadable?
      || TopPostsSheet !in book.sheets
      || FirstHeaderRow(book.sheets[TopPostsSheet]).None?
      || Width(book.sheets[TopPostsSheet]) < ImpressionsColumn + TableWidth
  {
  }

  // ---------------------------------------------------------------------------
  // Filtering keeps order, and dropna is subsumed by na=False
  // ---------------------------------------------------------------------------

  /** Filtering a concatenation filters each part in place: surviving rows keep their source order. */
  lemma {:induction false} KeepPreservesOrder(a: seq<Labelled>, b: seq<Labelled>)
    ensures KeepLinkedInUrls(a + b) == KeepLinkedInUrls(a) + KeepLinkedInUrls(b)
  {
    if a == [] {
      assert a + b == b;
    } else {
      assert (a + b)[1..] == a[1..] + b;
      KeepPreservesOrder(a[1..], b);
    }
  }

  /** Dropping missing urls from a concatenation drops them from each part in place: rows keep their order and multiplicity. */
  lemma {:induction false} DropMissingUrlPreservesOrder(a: seq<Labelled>, b: seq<Labelled>)
    ensures DropMissingUrl(a + b) == DropMissingUrl(a) + DropMissingUrl(b)
  {
    if a == [] {
      assert a + b == b;
    } else {
      assert (a + b)[1..] == a[1..] + b;
      DropMissingUrlPreservesOrder(a[1..], b);
    }
  }

  /** A missing url already fails the pattern, so dropping missing urls first changes nothing. */
  lemma {:induction false} DropMissingUrlSubsumed(rows: seq<Labelled>)
    ensures KeepLinkedInUrls(DropMissingUrl(rows)) == KeepLinkedInUrls(rows)
  {
    if rows != [] {
      DropMissingUrlSubsumed(rows[1..]);
      var rest := DropMissingUrl(rows[1..]);
      if rows[0].url != Missing {
        assert ([rows[0]] + rest)[1..] == rest;
      }
    }
  }

  /** A post table is the first min(10, n) of the n rows below the header whose url passes the pattern. */
  lemma TableIsPrefixOfSurvivors(g: Grid, h: nat, first: nat)
    requires h < |g|
    ensures var survivors := KeepLinkedInUrls(Window(g, h, first));
            PostTable(g, h, first) <= survivors
            && |PostTable(g, h, first)| == if |survivors| <= TopPosts then |survivors| else TopPosts
  {
    DropMissingUrlSubsumed(Window(g, h, first));
  }

  // ---------------------------------------------------------------------------
  // Which cells a table reads
  // ---------------------------------------------------------------------------

  predicate RowYields(row: Row, first: nat, p: PostRecord) {
    At(row, first) == Str(p.url) && At(row, first + 1) == p.date && At(row, first + 2) == p.metric
  }

  /** Every record comes from one row strictly below the header, read from its own three columns. */
  lemma RecordComesFromItsWindow(g: Grid, h: nat, first: nat, p: PostRecord)
    requires h < |g|
    requires p in PostTable(g, h, first)
    ensures MatchesHost(p.url)
    ensures exists i :: h < i < |g| && RowYields(g[i], first, p)
  {
    var w := Window(g, h, first);
    var rows := DropMissingUrl(w);
    var kept := KeepLinkedInUrls(rows);
    assert PostTable(g, h, first) <= kept;
    assert p in kept;
    var x := Labelled(Str(p.url), p.date, p.metric);
    assert x in rows;
    assert x in w;
    var k :| 0 <= k < |w| && w[k] == x;
    var row := g[h + 1 + k];
    assert w[k] == Labelled(At(row, first), At(row, first + 1), At(row, first + 2));
    assert RowYields(row, first, p);
  }

  /** Cells outside a table's window, and rows at or above the header, never change that table. */
  lemma TableReadsOnlyItsWindow(g1: Grid, g2: Grid, h: nat, first: nat)
    requires h < |g1| == |g2|
    requires forall i :: h < i < |g1| ==>
      At(g1[i], first) == At(g2[i], first)
      && At(g1[i], first + 1) == At(g2[i], first + 1)
      && At(g1[i], first + 2) == At(g2[i], first + 2)
    ensures PostTable(g1, h, first) == PostTable(g2, h, first)
  {
    assert Window(g1, h, first) == Window(g2, h, first);
  }

  /**
   * Column 3, the gap between the tables, is never read: two TOP POSTS
   * sheets that differ only there (and so still agree on the header row and
   * the width) give the same extraction.
   */
  lemma GapColumnNeverRead(b1: Workbook, b2: Workbook)
    requires b1.Workbook? && b2.Workbook? && TopPostsSheet in b1.sheets && TopPostsSheet in b2.sheets
    requires b2.sheets == b1.sheets[TopPostsSheet := b2.sheets[TopPostsSheet]]
    requires var g1, g2 := b1.sheets[TopPostsSheet], b2.sheets[TopPostsSheet];
      |g1| == |g2| && Width(g1) == Width(g2) && FirstHeaderRow(g1) == FirstHeaderRow(g2)
      && forall i, j :: 0 <= i < |g1| && j != 3 ==> At(g1[i], j) == At(g2[i], j)
    ensures Extract(b1) == Extract(b2)
  {
    var g1, g2 := b1.sheets[TopPostsSheet], b2.sheets[TopPostsSheet];
    assert Demographics(b1.sheets) == Demographics(b2.sheets) by {
      assert DemographicsSheet in b1.sheets <==> DemographicsSheet in b2.sheets;
      if DemographicsSheet in b1.sheets {
        assert b1.sheets[DemographicsSheet] == b2.sheets[DemographicsSheet];
      }
    }
    if FirstHeaderRow(g1).Some? {
      var h := FirstHeaderRow(g1).value;
      TableReadsOnlyItsWindow(g1, g2, h, EngagementColumn);
      TableReadsOnlyItsWindow(g1, g2, h, ImpressionsColumn);
    }
    SameParts(b1, b2);
  }

  /** Workbooks whose TOP POSTS sheets agree on header, width and both tables, and whose demographics agree, extract alike. */
  lemma SameParts(b1: Workbook, b2: Workbook)
    requires b1.Workbook? && b2.Workbook? && TopPostsSheet in b1.sheets && TopPostsSheet in b2.sheets
    requires var g1, g2 := b1.sheets[TopPostsSheet], b2.sheets[TopPostsSheet];
      FirstHeaderRow(g1) == FirstHeaderRow(g2) && Width(g1) == Width(g2)
      && (FirstHeaderRow(g1).Some? ==>
            var h := FirstHeaderRow(g1).value;
            h < |g1| && h < |g2|
            && PostTable(g1, h, EngagementColumn) == PostTable(g2, h, EngagementColumn)
            && PostTable(g1, h, ImpressionsColumn) == PostTable(g2, h, ImpressionsColumn))
    requires Demographics(b1.sheets) == Demographics(b2.sheets)
    ensures Extract(b1) == Extract(b2)
  {
  }

  /** A header on the last row leaves nothing below it: both tables are empty and the extraction succeeds. */
  lemma HeaderOnLastRow(book: Workbook)
    requires book.Workbook? && TopPostsSheet in book.sheets
    requires var g := book.sheets[TopPostsSheet];
      FirstHeaderRow(g) == Some(|g| - 1) && Width(g) >= ImpressionsColumn + TableWidth
    ensures Extract(book).Ok?
    ensures Extract(book).topByEngagement == [] && Extract(book).topByImpressions == []
  {
  }

  // ---------------------------------------------------------------------------
  // The url pattern
  // ---------------------------------------------------------------------------

  /** The pattern as written in the source; its '.' is the regular-expression wildcard. */
  const UrlPattern := "linkedin.com"

  /** One pattern character against one text character, under Python's `re` without DOTALL. */
  predicate PatternCharMatches(p: char, c: char) {
    if p == '.' then c != '\n' else c == p
  }

  /** The pattern matches the text starting at index i, character by character. */
  predicate PatternAt(u: string, i: nat) {
    i + |UrlPattern| <= |u| && forall k :: 0 <= k < |UrlPattern| ==> PatternCharMatches(UrlPattern[k], u[i + k])
  }

  lemma HostAtIsPatternAt(u: string, i: nat)
    ensures HostAt(u, i) <==> PatternAt(u, i)
  {
    if i + 12 <= |u| {
      assert UrlPattern[..8] == "linkedin" && UrlPattern[8] == '.' && UrlPattern[9..] == "com";
      if PatternAt(u, i) {
        forall k | 0 <= k < 8 ensures u[i..i + 8][k] == "linkedin"[k] {
          assert PatternCharMatches(UrlPattern[k], u[i + k]);
        }
        forall k | 0 <= k < 3 ensures u[i + 9..i + 12][k] == "com"[k] {
          assert PatternCharMatches(UrlPattern[k + 9], u[i + 9 + k]);
        }
        assert PatternCharMatches(UrlPattern[8], u[i + 8]);
      }
      if HostAt(u, i) {
        forall k | 0 <= k < |UrlPattern| ensures PatternCharMatches(UrlPattern[k], u[i + k]) {
          if k < 8 {
            assert u[i + k] == u[i..i + 8][k];
          } else if k > 8 {
            assert u[i + k] == u[i + 9..i + 12][k - 9];
          }
        }
      }
    }
  }

  /**
   * MatchesHost is `re.search('linkedin.com', u)`: some start index at
   * which every pattern character matches, the dot matching any character
   * but a line feed.
   */
  lemma MatchesHostIsRegexSearch(u: string)
    ensures MatchesHost(u) <==> exists i: nat :: i < |u| && PatternAt(u, i)
  {
    forall i: nat ensures HostAt(u, i) <==> PatternAt(u, i) {
      HostAtIsPatternAt(u, i);
    }
  }

  /** A url containing the literal text linkedin.com passes. */
  lemma LiteralHostMatches(u: string, i: nat)
    requires i + 12 <= |u| && u[i..i + 12] == "linkedin.com"
    ensures MatchesHost(u)
  {
    assert u[i..i + 12][..8] == u[i..i + 8];
    assert u[i..i + 12][9..] == u[i + 9..i + 12];
    assert HostAt(u, i);
  }

  /** The dot is a wildcard: "linkedin-com" passes, but a line feed in its place does not. */
  lemma DotMatchesAnyCharacterButLineFeed()
    ensures MatchesHost("linkedin-com")
    ensures !MatchesHost("linkedin\ncom")
  {
    assert HostAt("linkedin-com", 0);
  }

  // ---------------------------------------------------------------------------
  // Demographics
  // ---------------------------------------------------------------------------

  /**
   * The demographics sheet never decides success or failure and never
   * changes a post table: two workbooks that agree on their TOP POSTS sheet
   * give the same error, or the same two tables.
   */
  lemma DemographicsNeverAffectTables(b1: Workbook, b2: Workbook)
    requires b1.Workbook? && b2.Workbook?
    requires TopPostsSheet in b1.sheets <==> TopPostsSheet in b2.sheets
    requires TopPostsSheet in b1.sheets ==> b1.sheets[TopPostsSheet] == b2.sheets[TopPostsSheet]
    ensures Extract(b1).Ok? == Extract(b2).Ok?
    ensures Extract(b1).Error? ==> Extract(b1) == Extract(b2)
    ensures Extract(b1).Ok? ==>
      Extract(b1).topByEngagement == Extract(b2).topByEngagement
      && Extract(b1).topByImpressions == Extract(b2).topByImpressions
  {
  }

  /** A demographics step that fails for any reason leaves the entries empty, the extraction still succeeds. */
  lemma DemographicsFailureIsEmpty(book: Workbook)
    requires WellFormed(book)
    requires TryDemographics(book.sheets).None?
    ensures Extract(book).Ok? && Extract(book).demographics == []
  {
  }

  /**
   * Every demographic entry is the (Value, Percentage) pair of a data row of
   * the DEMOGRAPHICS sheet whose "Top Demographics" cell is "Job titles".
   */
  lemma DemographicEntryFromJobTitleRow(sheets: map<string, Grid>, e: DemographicEntry)
    requires e in Demographics(sheets)
    ensures DemographicsSheet in sheets && sheets[DemographicsSheet] != []
    ensures var d := sheets[DemographicsSheet];
      var cat, value, pct := ColumnIndex(d[0], CategoryColumn), ColumnIndex(d[0], ValueColumn), ColumnIndex(d[0], PercentageColumn);
      cat.Some? && value.Some? && pct.Some?
      && exists row :: row in d[1..] && At(row, cat.value) == Str(JobTitles)
                       && e == DemographicEntry(At(row, value.value), At(row, pct.value))
  {
    var d := sheets[DemographicsSheet];
    var cat, value, pct := ColumnIndex(d[0], CategoryColumn), ColumnIndex(d[0], ValueColumn), ColumnIndex(d[0], PercentageColumn);
    assert e in JobTitleEntries(d[1..], cat.value, value.value, pct.value);
  }

  /** Demographic entries keep the order of their rows: the job-title filter distributes over concatenation. */
  lemma {:induction false} JobTitlesPreserveOrder(a: seq<Row>, b: seq<Row>, cat: nat, value: nat, pct: nat)
    ensures JobTitleEntries(a + b, cat, value, pct) == JobTitleEntries(a, cat, value, pct) + JobTitleEntries(b, cat, value, pct)
  {
    if a == [] {
      assert a + b == b;
    } else {
      assert (a + b)[1..] == a[1..] + b;
      JobTitlesPreserveOrder(a[1..], b, cat, value, pct);
    }
  }
}

module ExportExtractorExample {
  import opened Options
  import opened Sheets
  import opened ExportExtractor
  import opened ExportExtractorProperties

  const LinkedInHome := "https://www.linkedin.com"
  const FirstUrl := LinkedInHome + "/feed/update/1"
  const SecondUrl := LinkedInHome + "/feed/update/2"

  /**
   * A TOP POSTS sheet whose header sits on the fourth row; below it the
   * engagement window holds one linkedin.com url and one blank row, the
   * impressions window two linkedin.com urls.
   */
  const ExampleSheet: Grid := [
    [Str("Top posts")],
    [],
    [Str("Maximum of 50 posts")],
    [Str("Post URL"), Str("Post publish date"), Str("Engagements"), Missing,
     Str("Post URL"), Str("Post publish date"), Str("Impressions")],
    [Str(FirstUrl), Other, Num(50), Missing, Str(SecondUrl), Other, Num(900)],
    [Missing, Missing, Missing, Missing, Str(FirstUrl), Other, Num(700)]
  ]

  /** Any url under https://www.linkedin.com passes the pattern. */
  lemma PostUrlMatches(path: string)
    ensures MatchesHost(LinkedInHome + path)
  {
    var u, host := LinkedInHome + path, "linkedin.com";
    assert u == "https://www." + host + path;
    assert u[12..20] == host[..8];
    assert u[21..24] == host[9..];
    assert HostAt(u, 12);
  }

  lemma ExampleUrlsMatch()
    ensures MatchesHost(FirstUrl) && MatchesHost(SecondUrl)
  {
    PostUrlMatches("/feed/update/1");
    PostUrlMatches("/feed/update/2");
  }

  lemma ExampleHeader()
    ensures FirstHeaderRow(ExampleSheet) == Some(3)
  {
    var g := ExampleSheet;
    assert !IsHeaderRow(g[0]) && !IsHeaderRow(g[1]) && !IsHeaderRow(g[2]) && IsHeaderRow(g[3]);
  }

  /** The frame is seven columns wide: the header row has seven cells and no row has more. */
  lemma ExampleWidth()
    ensures Width(ExampleSheet) == 7
  {
    var g := ExampleSheet;
    assert |g[3]| == 7;
    assert forall i :: 0 <= i < |g| ==> |g[i]| <= 7;
  }

  lemma ExampleEngagement()
    ensures PostTable(ExampleSheet, 3, EngagementColumn) == [PostRecord(FirstUrl, Other, Num(50))]
  {
    ExampleUrlsMatch();
    var a, blank := Labelled(Str(FirstUrl), Other, Num(50)), Labelled(Missing, Missing, Missing);
    var rows := Window(ExampleSheet, 3, EngagementColumn);
    assert rows[0] == a && rows[1] == blank;
    assert rows == [a] + [blank];
    DropMissingUrlSubsumed(rows);
    KeepPreservesOrder([a], [blank]);
    assert KeepLinkedInUrls([a]) == [ToRecord(a)];
    assert KeepLinkedInUrls([blank]) == [];
  }

  lemma ExampleImpressions()
    ensures PostTable(ExampleSheet, 3, ImpressionsColumn) ==
      [PostRecord(SecondUrl, Other, Num(900)), PostRecord(FirstUrl, Other, Num(700))]
  {
    ExampleUrlsMatch();
    var a, b := Labelled(Str(SecondUrl), Other, Num(900)), Labelled(Str(FirstUrl), Other, Num(700));
    var rows := Window(ExampleSheet, 3, ImpressionsColumn);
    assert rows[0] == a && rows[1] == b;
    assert rows == [a] + [b];
    DropMissingUrlSubsumed(rows);
    KeepPreservesOrder([a], [b]);
    assert KeepLinkedInUrls([a]) == [ToRecord(a)];
    assert KeepLinkedInUrls([b]) == [ToRecord(b)];
  }

  /**
   * Both tables come back in source order, the blank row is dropped, and
   * with no DEMOGRAPHICS sheet the demographics are empty.
   */
  lemma ScenarioWithBlankRow()
    ensures Extract(Workbook(map[TopPostsSheet := ExampleSheet])) ==
      Ok([PostRecord(FirstUrl, Other, Num(50))],
         [PostRecord(SecondUrl, Other, Num(900)), PostRecord(FirstUrl, Other, Num(700))],
         [])
  {
    ExampleHeader();
    ExampleWidth();
    ExampleEngagement();
    ExampleImpressions();
  }
}
