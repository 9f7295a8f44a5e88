/**
 * `TableAwareTextSplitter._extract_tables` and `_split_around_tables`: the
 * `### Table <id>: <title>` blocks of a text and the ordered list of text and
 * table sections around them.
 */
module Tables {
  import opened Wrappers
  import opened Text
  import opened Regex

  /** One extracted table: its identifier, title, verbatim text and span `[start, end)`. */
  datatype Table = Table(id: string, title: string, content: string, start: nat, end: nat)

  /** The `Table <id>` search that names a block or a mention. */
  const IdSearch: Pattern := TableIdAfter("Table ", false)

  /** The table that one match of the block pattern describes. */
  function TableOf(h: Hit): Table {
    Table(IdOf(h.group), TitleOf(h.group), h.group, h.start, h.end)
  }

  /** `table_id`: the first `Table <id>` of the block, else `"Unknown"`. */
  function IdOf(content: string): string {
    match Search(IdSearch, content) case Some(m) => m.group case None => "Unknown"
  }

  /** `title`: the capture of the first `### Table <id>: (.*?)\n`, else `"Untitled Table"`. */
  function TitleOf(content: string): string {
    match Search(TableTitle, content) case Some(m) => m.group case None => "Untitled Table"
  }

  /** The tables of `text`, in the order `finditer` yields them. */
  function TablesOf(text: string): seq<Table> {
    TablesFrom(FindIter(TableBlock, text, 0))
  }

  /** One table per block match. */
  function TablesFrom(hits: seq<Hit>): (ts: seq<Table>)
    ensures |ts| == |hits|
  {
    if hits == [] then [] else TablesFrom(hits[..|hits| - 1]) + [TableOf(hits[|hits| - 1])]
  }

  lemma {:induction false} TablesFromAt(hits: seq<Hit>, i: nat)
    requires i < |hits|
    ensures TablesFrom(hits)[i] == TableOf(hits[i])
    decreases |hits|
  {
    var prev := hits[..|hits| - 1];
    assert TablesFrom(hits) == TablesFrom(prev) + [TableOf(hits[|hits| - 1])];
    if i < |hits| - 1 {
      TablesFromAt(prev, i);
    }
  }

  /** `_extract_tables`: one table per match of the block pattern. */
  method ExtractTables(text: string) returns (tables: seq<Table>)
    ensures tables == TablesOf(text)
  {
    var matches := FindIter(TableBlock, text, 0);
    tables := [];
    for i := 0 to |matches|
      invariant tables == TablesFrom(matches[..i])
    {
      assert matches[..i + 1][..i] == matches[..i];
      tables := tables + [TableOf(matches[i])];
    }
    assert matches[..|matches|] == matches;
  }

  /** A block match captures exactly the text it spans. */
  lemma TableBlockGroup(s: string, p: nat)
    requires p <= |s| && MatchAt(TableBlock, s, p).Some?
    ensures MatchAt(TableBlock, s, p).value.group == s[p..MatchAt(TableBlock, s, p).value.end]
  {
  }

  /**
   * The extracted tables come in strictly increasing, non-overlapping order and
   * each one's content is the text of its span.
   */
  lemma TablesOrdered(text: string)
    ensures var ts := TablesOf(text);
      forall i :: 0 <= i < |ts| ==>
        ts[i].start < ts[i].end <= |text| && ts[i].content == text[ts[i].start..ts[i].end]
    ensures var ts := TablesOf(text);
      forall i, j :: 0 <= i < j < |ts| ==> ts[i].end <= ts[j].start
  {
    var hits := FindIter(TableBlock, text, 0);
    FindIterSound(TableBlock, text, 0);
    forall i | 0 <= i < |hits| ensures TablesOf(text)[i] == TableOf(hits[i]) {
      TablesFromAt(hits, i);
    }
    forall i | 0 <= i < |hits| ensures hits[i].group == text[hits[i].start..hits[i].end] {
      TableBlockGroup(text, hits[i].start);
    }
  }

  /** The header of a text is still found at index 0 of any slice that starts at it and runs past its colon. */
  lemma HeaderInSlice(s: string, p: nat, e: nat)
    requires p <= |s| && HeaderColon(s, p).Some? && HeaderColon(s, p).value < e <= |s|
    ensures HeaderColon(s[p..e], 0) == Some(HeaderColon(s, p).value - p)
  {
    var d := HeaderColon(s, p).value;
    HeaderParts(s, p);
    assert s[p..e][..10] == s[p..p + 10];
    SliceIdEnd(s, p, e, d);
    assert s[p..e][d - p] == s[d];
    HeaderFromParts(s[p..e], d - p);
  }

  /** A header at `p` starts with `### Table ` and its identifier runs up to the colon. */
  lemma HeaderParts(s: string, p: nat)
    requires p <= |s| && HeaderColon(s, p).Some?
    ensures s[p..p + 10] == "### Table " && IdEnd(s, p + 10, false) == HeaderColon(s, p)
  {
    LiteralAtExact("### Table ", s, p);
  }

  /** An identifier that ends before a colon ends there in any slice that keeps the colon. */
  lemma SliceIdEnd(s: string, p: nat, e: nat, d: nat)
    requires p + 10 <= d < e <= |s| && IdEnd(s, p + 10, false) == Some(d) && s[d] == ':'
    ensures IdEnd(s[p..e], 10, false) == Some(d - p)
  {
    var c := s[p..e];
    var x := s[p + 10..d];
    IdEndSound(s, p + 10, false);
    SliceOfSlice(s, p, e, p + 10, d);
    assert c[d - p] == s[d];
    IdEndComplete(c, 10, x, false);
  }

  lemma SliceOfSlice(s: string, p: nat, e: nat, i: nat, d: nat)
    requires p <= i <= d <= e <= |s|
    ensures s[p..e][i - p..d - p] == s[i..d]
  {
    forall j | 0 <= j < d - i ensures s[p..e][i - p..d - p][j] == s[i..d][j] {
      assert s[p..e][i - p + j] == s[i + j];
    }
  }

  /** A text that agrees with a headered text up to the colon starts with the same header. */
  lemma HeaderOfPrefix(c: string, p: string, d: nat)
    requires HeaderColon(c, 0) == Some(d) && d < |p| && p[..d + 1] == c[..d + 1]
    ensures HeaderColon(p, 0) == Some(d) && p[10..d] == c[10..d]
  {
    HeaderStart(c);
    SliceOfPrefix(p, d + 1, 0, 10);
    SliceOfPrefix(p, d + 1, 10, d);
    SliceOfPrefix(c, d + 1, 10, d);
    assert p[d] == p[..d + 1][d];
    IdEndSound(c, 10, false);
    IdEndComplete(p, 10, c[10..d], false);
    HeaderFromParts(p, d);
  }

  lemma SliceOfPrefix(s: string, n: nat, i: nat, j: nat)
    requires i <= j <= n <= |s|
    ensures s[..n][i..j] == s[i..j]
  {
  }

  /** No character of a `### Table <id>:` header is a newline. */
  lemma HeaderHasNoNewline(c: string, d: nat, k: nat)
    requires HeaderColon(c, 0) == Some(d) && k <= d
    ensures c[k] != '\n'
  {
    HeaderStart(c);
    if k < 10 {
      assert c[k] == c[..10][k];
    } else if k < d {
      var x := c[10..d];
      IdEndSound(c, 10, false);
      var a, m := TableIdParts(x, false);
      assert c[k] == x[k - 10];
    }
  }

  /** The first line of a text that starts with a header runs past the header's colon. */
  lemma FirstLineHoldsHeader(c: string, d: nat)
    requires HeaderColon(c, 0) == Some(d)
    ensures var first := Split(c, '\n')[0]; d < |first| && first == c[..|first|]
  {
    var n := IndexOf(c, '\n', 0);
    if n <= d {
      HeaderHasNoNewline(c, d, n);
    }
    assert Split(c, '\n')[0] == c[..n];
  }

  /** `### Table `, an identifier and a colon make a header at index 0. */
  lemma HeaderFromParts(c: string, d: nat)
    requires 10 <= |c| && c[..10] == "### Table " && IdEnd(c, 10, false) == Some(d) && d < |c| && c[d] == ':'
    ensures HeaderColon(c, 0) == Some(d)
  {
    LiteralAtExact("### Table ", c, 0);
  }

  /**
   * The text of a block: a `### Table <id>:` header at index 0, at least one
   * character after its colon, and a final newline.
   */
  predicate IsBlock(c: string) {
    HeaderColon(c, 0).Some? && HeaderColon(c, 0).value + 1 < |c| && c[|c| - 1] == '\n'
  }

  /** A block match seen from inside its own text: the header is still at index 0. */
  lemma BlockContent(s: string, p: nat)
    requires p <= |s| && MatchAt(TableBlock, s, p).Some?
    ensures IsBlock(MatchAt(TableBlock, s, p).value.group)
  {
    MatchAtTableBlock(s, p);
    BlockAtContent(s, p);
  }

  lemma MatchAtTableBlock(s: string, p: nat)
    requires p <= |s|
    ensures MatchAt(TableBlock, s, p) == TableBlockAt(s, p)
  {
  }

  /** A header, then the title and rows up to a newline: the text from the header to that newline is a block. */
  lemma BlockAtContent(s: string, p: nat)
    requires p <= |s| && TableBlockAt(s, p).Some?
    ensures IsBlock(TableBlockAt(s, p).value.group)
  {
    var d, e := BlockAtParts(s, p);
    HeaderInSlice(s, p, e);
    BlockOfSpan(s, p, d, e);
  }

  /** A block match is a header with its colon at `d`, followed by the title and the rows up to `e`. */
  lemma BlockAtParts(s: string, p: nat) returns (d: nat, e: nat)
    requires p <= |s| && TableBlockAt(s, p).Some?
    ensures HeaderColon(s, p) == Some(d) && TitleAndRowsEnd(s, d + 1) == Some(e)
    ensures d + 1 < e <= |s| && s[e - 1] == '\n' && TableBlockAt(s, p).value.group == s[p..e]
  {
    var hc := HeaderColon(s, p);
    assert hc.Some?;
    d := hc.value;
    var te := TitleAndRowsEnd(s, d + 1);
    assert te.Some?;
    e := te.value;
    assert TableBlockAt(s, p) == Some(Hit(p, e, s[p..e]));
  }

  /** A slice that starts with a header, runs past its colon and ends with a newline is a block. */
  lemma BlockOfSpan(s: string, p: nat, d: nat, e: nat)
    requires p <= d && d + 1 < e <= |s| && s[e - 1] == '\n'
    requires HeaderColon(s[p..e], 0) == Some(d - p)
    ensures IsBlock(s[p..e])
  {
    assert s[p..e][e - p - 1] == s[e - 1];
  }

  /** In a block's text, the first `Table <id>` is the one in its header. */
  lemma HeaderIdSearch(c: string)
    requires HeaderColon(c, 0).Some?
    ensures var d := HeaderColon(c, 0).value;
      Search(IdSearch, c) == Some(Hit(4, d, c[10..d])) && IsTableId(c[10..d], false)
  {
    var d := HeaderColon(c, 0).value;
    HeaderStart(c);
    forall k | 0 <= k < 4 ensures MatchAt(IdSearch, c, k).None? {
      NoIdBeforeHeader(c, k);
    }
    IdAtHeader(c, d);
    SearchAfterMisses(IdSearch, c, 4, Hit(4, d, c[10..d]));
    IdEndSound(c, 10, false);
  }

  /** A header starts with `### Table ` and its identifier runs up to the colon. */
  lemma HeaderStart(c: string)
    requires HeaderColon(c, 0).Some?
    ensures c[..10] == "### Table " && IdEnd(c, 10, false) == HeaderColon(c, 0)
  {
    LiteralAtExact("### Table ", c, 0);
  }

  /** None of the first four characters of a header starts `Table `. */
  lemma NoIdBeforeHeader(c: string, k: nat)
    requires 10 <= |c| && c[..10] == "### Table " && k < 4
    ensures MatchAt(IdSearch, c, k).None?
  {
    MatchAtTableId("Table ", false, c, k);
    assert c[k] == c[..10][k];
  }

  /** The `Table <id>` inside a header is a match at index 4. */
  lemma IdAtHeader(c: string, d: nat)
    requires 10 <= |c| && c[..10] == "### Table " && IdEnd(c, 10, false) == Some(d)
    ensures MatchAt(IdSearch, c, 4) == Some(Hit(4, d, c[10..d]))
  {
    MatchAtTableId("Table ", false, c, 4);
    LiteralAtExact("Table ", c, 4);
    assert c[4..10] == c[..10][4..];
  }

  /** The identifier of a block whose text starts with a header is the one between `### Table ` and the colon. */
  lemma IdOfHeader(c: string, d: nat)
    requires HeaderColon(c, 0) == Some(d)
    ensures IdOf(c) == c[10..d] && IsTableId(c[10..d], false) && c[..10] == "### Table "
  {
    HeaderIdSearch(c);
    LiteralAtExact("### Table ", c, 0);
  }

  /** The table of a block whose text starts with a header is named by that header. */
  lemma TableOfHeader(c: string)
    requires HeaderColon(c, 0).Some?
    ensures IsTableId(IdOf(c), false) && StartsWith(c, "### Table " + IdOf(c) + ":")
  {
    var d := HeaderColon(c, 0).value;
    IdOfHeader(c, d);
    HeaderWithColon(c, c[10..d], d);
  }

  lemma HeaderWithColon(c: string, id: string, d: nat)
    requires 10 <= d < |c| && c[..10] == "### Table " && c[10..d] == id && c[d] == ':'
    ensures StartsWith(c, "### Table " + id + ":")
  {
    assert c[..d + 1] == c[..10] + c[10..d] + [c[d]];
  }

  /** Every extracted table's text is a block whose header is at index 0. */
  lemma BlockOfTable(text: string, i: nat)
    requires i < |TablesOf(text)|
    ensures var t := TablesOf(text)[i];
      IsBlock(t.content) && t.id == IdOf(t.content) && t.title == TitleOf(t.content)
  {
    var h := FindIter(TableBlock, text, 0)[i];
    FindIterHit(TableBlock, text, 0, i);
    BlockContent(text, h.start);
    TablesFromAt(FindIter(TableBlock, text, 0), i);
  }

  /**
   * A table's `id` is the identifier written in its `### Table <id>:` header
   * line, so it is never the `"Unknown"` fallback.
   */
  lemma TableHeaderId(text: string, i: nat)
    requires i < |TablesOf(text)|
    ensures var t := TablesOf(text)[i];
      IsTableId(t.id, false) && StartsWith(t.content, "### Table " + t.id + ":")
  {
    BlockOfTable(text, i);
    TableOfHeader(TablesOf(text)[i].content);
  }

  /** With a space after the colon, a newline ends the header line inside the block. */
  lemma HeaderLineEnds(c: string, d: nat)
    requires d + 1 < |c| && c[|c| - 1] == '\n' && c[d + 1] == ' '
    ensures IndexOf(c, '\n', d + 2) < |c|
  {
    IndexOfSkips(c, '\n', d + 2);
    assert |c| - 1 != d + 1;
  }

  /** With a space after the colon, the title search matches at index 0 and captures the rest of the line. */
  lemma TitleSearch(c: string, d: nat, n: nat)
    requires HeaderColon(c, 0) == Some(d)
    requires d + 1 < |c| && c[d + 1] == ' '
    requires IndexOf(c, '\n', d + 2) == n < |c|
    ensures TitleOf(c) == c[d + 2..n]
  {
    var h := Hit(0, n + 1, c[d + 2..n]);
    TitleAtHeader(c, d, n);
    MatchAtTableTitle(c, 0);
    SearchAtStart(TableTitle, c, h);
  }

  lemma TitleAtHeader(c: string, d: nat, n: nat)
    requires HeaderColon(c, 0) == Some(d)
    requires d + 1 < |c| && c[d + 1] == ' '
    requires IndexOf(c, '\n', d + 2) == n < |c|
    ensures TableTitleAt(c, 0) == Some(Hit(0, n + 1, c[d + 2..n]))
  {
    TableTitleAtColon(c, 0, d);
    TitleLine(c, d, n);
  }

  lemma TitleLine(c: string, d: nat, n: nat)
    requires 0 < d && d + 1 < |c| && c[d + 1] == ' '
    requires IndexOf(c, '\n', d + 2) == n < |c|
    ensures TitleAfterColon(c, 0, d) == Some(Hit(0, n + 1, c[d + 2..n]))
  {
  }

  /** A header line put together from its parts. */
  lemma HeaderLine(c: string, id: string, title: string, d: nat, n: nat)
    requires 10 <= d && d + 2 <= n < |c|
    requires c[..10] == "### Table " && c[10..d] == id && c[d] == ':' && c[d + 1] == ' '
    requires c[d + 2..n] == title && c[n] == '\n'
    ensures StartsWith(c, "### Table " + id + ": " + title + "\n")
  {
    assert c[..n + 1] == c[..10] + c[10..d] + [c[d], c[d + 1]] + c[d + 2..n] + [c[n]];
  }

  /** When a space follows the header's colon, the title is the rest of the header line. */
  lemma TitleOfHeader(c: string)
    requires IsBlock(c) && c[HeaderColon(c, 0).value + 1] == ' '
    ensures StartsWith(c, "### Table " + IdOf(c) + ": " + TitleOf(c) + "\n")
    ensures '\n' !in TitleOf(c)
  {
    var d := HeaderColon(c, 0).value;
    HeaderLineEnds(c, d);
    var n := IndexOf(c, '\n', d + 2);
    TitleSearch(c, d, n);
    IdOfHeader(c, d);
    NoNewlineBefore(c, d + 2, n);
    HeaderLine(c, c[10..d], c[d + 2..n], d, n);
  }

  lemma NoNewlineBefore(c: string, i: nat, n: nat)
    requires i <= n <= |c| && IndexOf(c, '\n', i) == n
    ensures '\n' !in c[i..n]
  {
    var w := c[i..n];
    IndexOfSkips(c, '\n', i);
    forall j | 0 <= j < |w| ensures w[j] != '\n' {
      assert w[j] == c[i + j];
    }
  }

  /** The title of a block whose header has a space after its colon. */
  lemma BlockTitle(t: Table)
    requires IsBlock(t.content) && t.id == IdOf(t.content) && t.title == TitleOf(t.content)
    requires 11 + |t.id| < |t.content| && t.content[11 + |t.id|] == ' '
    ensures StartsWith(t.content, "### Table " + t.id + ": " + t.title + "\n") && '\n' !in t.title
  {
    var d := HeaderColon(t.content, 0).value;
    IdOfHeader(t.content, d);
    assert d + 1 == 11 + |t.id|;
    TitleOfHeader(t.content);
  }

  /**
   * A table's `title` is the rest of its header line after `": "` when the
   * header has a space after its colon.
   */
  lemma TableTitleLine(text: string, i: nat)
    requires i < |TablesOf(text)|
    requires var t := TablesOf(text)[i]; 11 + |t.id| < |t.content| && t.content[11 + |t.id|] == ' '
    ensures var t := TablesOf(text)[i];
      StartsWith(t.content, "### Table " + t.id + ": " + t.title + "\n") && '\n' !in t.title
  {
    BlockOfTable(text, i);
    BlockTitle(TablesOf(text)[i]);
  }

  /** One entry of the list `_split_around_tables` returns. */
  datatype Section =
    | TextSection(content: string, context: string)
    | TableSection(content: string, tableId: string, tableTitle: string, context: string)

  /** `Table <id>: <title>`, the context of a table section. */
  function TableContext(id: string, title: string): string {
    "Table " + id + ": " + title
  }

  /** The table section a table becomes. */
  function TableSectionOf(t: Table): Section {
    TableSection(t.content, t.id, t.title, TableContext(t.id, t.title))
  }

  /** The stripped text before `t`, if it starts after `lastEnd` and is not blank. */
  function TextBefore(text: string, t: Table, lastEnd: nat): seq<Section> {
    if t.start > lastEnd then
      var gap := Strip(Slice(text, lastEnd, t.start));
      if gap != "" then [TextSection(gap, "Text before " + t.id)] else []
    else []
  }

  /** The stripped text after the last table, if there is any that is not blank. */
  function TextAfter(text: string, lastEnd: nat): seq<Section> {
    if lastEnd < |text| then
      var rest := Strip(text[lastEnd..]);
      if rest != "" then [TextSection(rest, "Text after tables")] else []
    else []
  }

  /** The sections of `text` around `tables`, from the cursor `lastEnd` on. */
  function SectionsFrom(text: string, tables: seq<Table>, lastEnd: nat): seq<Section>
    decreases |tables|
  {
    if tables == [] then TextAfter(text, lastEnd)
    else TextBefore(text, tables[0], lastEnd) + [TableSectionOf(tables[0])] + SectionsFrom(text, tables[1..], tables[0].end)
  }

  // ---------------------------------------------------------------------------
  // The gaps between tables
  // ---------------------------------------------------------------------------

  /** A gap of text as at most one section: the gap stripped, when that is not empty. */
  function GapSection(gap: string, context: string): seq<Section> {
    var kept := Strip(gap);
    if kept != "" then [TextSection(kept, context)] else []
  }

  /**
   * A gap gives nothing exactly when it is all whitespace, and otherwise the
   * one section holding it stripped (which `StripSound` ties back to the gap:
   * leading whitespace, the section's text, trailing whitespace).
   */
  lemma GapSectionSound(gap: string, context: string)
    ensures var r := GapSection(gap, context);
      && (r == [] <==> AllSpace(gap))
      && (r != [] ==> r == [TextSection(Strip(gap), context)] && r[0].content != "")
  {
    StripBlank(gap);
  }

  /** The tables lie in order in `text` from the cursor `lastEnd` on, each holding its own span. */
  predicate LaidOut(text: string, tables: seq<Table>, lastEnd: nat)
    decreases |tables|
  {
    if tables == [] then lastEnd <= |text|
    else
      && lastEnd <= tables[0].start <= tables[0].end <= |text|
      && tables[0].content == text[tables[0].start..tables[0].end]
      && LaidOut(text, tables[1..], tables[0].end)
  }

  /** The gaps around the tables: the text before each one, then the text after the last. */
  function Gaps(text: string, tables: seq<Table>, lastEnd: nat): (r: seq<string>)
    requires LaidOut(text, tables, lastEnd)
    ensures |r| == |tables| + 1
    decreases |tables|
  {
    if tables == [] then [text[lastEnd..]]
    else [text[lastEnd..tables[0].start]] + Gaps(text, tables[1..], tables[0].end)
  }

  /** The `i`th gap runs from the end of the table before it (or the cursor) to the start of the next (or the end). */
  lemma {:induction false} GapsAt(text: string, tables: seq<Table>, lastEnd: nat, i: nat)
    requires LaidOut(text, tables, lastEnd) && i <= |tables|
    ensures var from := if i == 0 then lastEnd else tables[i - 1].end;
      var to := if i < |tables| then tables[i].start else |text|;
      from <= to <= |text| && Gaps(text, tables, lastEnd)[i] == text[from..to]
    decreases |tables|
  {
    if tables != [] && i > 0 {
      GapsAt(text, tables[1..], tables[0].end, i - 1);
      assert Gaps(text, tables, lastEnd)[i] == Gaps(text, tables[1..], tables[0].end)[i - 1];
    }
  }

  /** The gaps and the tables' contents alternated: `g0 + t0 + g1 + … + gn`. */
  function Interleave(gaps: seq<string>, tables: seq<Table>): string
    requires |gaps| == |tables| + 1
    decreases |tables|
  {
    if tables == [] then gaps[0]
    else gaps[0] + tables[0].content + Interleave(gaps[1..], tables[1..])
  }

  /** The sections a layout calls for: each gap's section, labelled, around each table's. */
  function Arranged(gaps: seq<string>, tables: seq<Table>): seq<Section>
    requires |gaps| == |tables| + 1
    decreases |tables|
  {
    if tables == [] then GapSection(gaps[0], "Text after tables")
    else GapSection(gaps[0], "Text before " + tables[0].id) + [TableSectionOf(tables[0])] + Arranged(gaps[1..], tables[1..])
  }

  /** The text before a table is the gap from the cursor to it. */
  lemma TextBeforeGap(text: string, t: Table, lastEnd: nat)
    requires lastEnd <= t.start <= |text|
    ensures TextBefore(text, t, lastEnd) == GapSection(text[lastEnd..t.start], "Text before " + t.id)
  {
    if t.start == lastEnd {
      assert text[lastEnd..t.start] == "";
    }
  }

  /** The text after the last table is the gap from the cursor to the end. */
  lemma TextAfterGap(text: string, lastEnd: nat)
    requires lastEnd <= |text|
    ensures TextAfter(text, lastEnd) == GapSection(text[lastEnd..], "Text after tables")
  {
    if lastEnd == |text| {
      assert text[lastEnd..] == "";
    }
  }

  /**
   * The round trip of `_split_around_tables`: the gaps and the tables'
   * contents, alternated, give back the text from the cursor on; and the
   * sections are, in order, each gap stripped (when not blank, labelled
   * `Text before <id>` or `Text after tables`) around each table's section.
   */
  lemma {:induction false} SectionsRoundTrip(text: string, tables: seq<Table>, lastEnd: nat)
    requires LaidOut(text, tables, lastEnd)
    ensures Interleave(Gaps(text, tables, lastEnd), tables) == text[lastEnd..]
    ensures SectionsFrom(text, tables, lastEnd) == Arranged(Gaps(text, tables, lastEnd), tables)
    decreases |tables|
  {
    var gs := Gaps(text, tables, lastEnd);
    if tables == [] {
      TextAfterGap(text, lastEnd);
    } else {
      var t := tables[0];
      SectionsRoundTrip(text, tables[1..], t.end);
      TextBeforeGap(text, t, lastEnd);
      assert gs[0] == text[lastEnd..t.start] && gs[1..] == Gaps(text, tables[1..], t.end);
      SpanJoin(text, lastEnd, t.start, t.end);
    }
  }

  lemma SpanJoin(text: string, a: nat, b: nat, c: nat)
    requires a <= b <= c <= |text|
    ensures text[a..] == text[a..b] + text[b..c] + text[c..]
  {
  }

  /** Tables in order, none overlapping the next, from the cursor on: they are laid out. */
  lemma {:induction false} OrderedLaidOut(text: string, ts: seq<Table>, lastEnd: nat)
    requires lastEnd <= |text| && (ts != [] ==> lastEnd <= ts[0].start)
    requires forall i :: 0 <= i < |ts| ==> ts[i].start < ts[i].end <= |text| && ts[i].content == text[ts[i].start..ts[i].end]
    requires forall i, j :: 0 <= i < j < |ts| ==> ts[i].end <= ts[j].start
    ensures LaidOut(text, ts, lastEnd)
    decreases |ts|
  {
    if ts != [] {
      var rest := ts[1..];
      forall i, j | 0 <= i < j < |rest| ensures rest[i].end <= rest[j].start {
        assert rest[i] == ts[i + 1] && rest[j] == ts[j + 1];
      }
      if rest != [] {
        assert ts[0].end <= ts[1].start;
      }
      OrderedLaidOut(text, rest, ts[0].end);
    }
  }

  /**
   * For the tables `_extract_tables` finds: the document is its gaps and its
   * tables alternated, and its sections are the stripped non-blank gaps
   * around the tables' sections.
   */
  lemma SectionsOfText(text: string)
    ensures LaidOut(text, TablesOf(text), 0)
    ensures Interleave(Gaps(text, TablesOf(text), 0), TablesOf(text)) == text
    ensures SectionsFrom(text, TablesOf(text), 0) == Arranged(Gaps(text, TablesOf(text), 0), TablesOf(text))
  {
    TablesOrdered(text);
    OrderedLaidOut(text, TablesOf(text), 0);
    SectionsRoundTrip(text, TablesOf(text), 0);
    assert text[0..] == text;
  }

  /** `_split_around_tables`: text and table sections in text order. */
  method SplitAroundTables(text: string, tables: seq<Table>) returns (sections: seq<Section>)
    ensures sections == SectionsFrom(text, tables, 0)
  {
    sections := [];
    var lastEnd: nat := 0;
    assert tables[0..] == tables;
    assert [] + SectionsFrom(text, tables[0..], lastEnd) == SectionsFrom(text, tables, 0);
    for i := 0 to |tables|
      invariant sections + SectionsFrom(text, tables[i..], lastEnd) == SectionsFrom(text, tables, 0)
    {
      var table := tables[i];
      var before := PreTableSection(text, table, lastEnd);
      SplitStep(text, tables, i, lastEnd, sections);
      sections := sections + before + [TableSectionOf(table)];
      lastEnd := table.end;
    }
    SectionsAtEnd(text, tables, lastEnd);
    var after := PostTableSection(text, lastEnd);
    sections := sections + after;
  }

  lemma SectionsRegroup(a: seq<Section>, b: seq<Section>, c: seq<Section>, d: seq<Section>)
    ensures a + b + c + d == a + (b + c + d)
  {
  }

  /**
   * The text between the cursor and `table`: nothing when that gap is all
   * whitespace (or empty, when the table starts at the cursor), else one
   * `Text before <id>` section holding the gap stripped.
   */
  method PreTableSection(text: string, table: Table, lastEnd: nat) returns (before: seq<Section>)
    ensures var gap := Slice(text, lastEnd, table.start);
      && (before == [] <==> AllSpace(gap))
      && (before != [] ==> before == [TextSection(Strip(gap), "Text before " + table.id)])
    ensures before == TextBefore(text, table, lastEnd)
  {
    before := [];
    StripBlank(Slice(text, lastEnd, table.start));
    if table.start > lastEnd {
      var preTableText := Strip(Slice(text, lastEnd, table.start));
      if preTableText != "" {
        before := [TextSection(preTableText, "Text before " + table.id)];
      }
    }
  }

  /**
   * The text after the last table: nothing when it is all whitespace (or
   * empty), else one `Text after tables` section holding it stripped.
   */
  method PostTableSection(text: string, lastEnd: nat) returns (after: seq<Section>)
    ensures var rest := Slice(text, lastEnd, |text|);
      && (after == [] <==> AllSpace(rest))
      && (after != [] ==> after == [TextSection(Strip(rest), "Text after tables")])
    ensures after == TextAfter(text, lastEnd)
  {
    after := [];
    var rest := Slice(text, lastEnd, |text|);
    StripBlank(rest);
    if lastEnd < |text| {
      assert rest == text[lastEnd..];
      var remainingText := Strip(text[lastEnd..]);
      if remainingText != "" {
        after := [TextSection(remainingText, "Text after tables")];
      }
    }
  }

  /** Past the last table only the text after the tables is left. */
  lemma SectionsAtEnd(text: string, tables: seq<Table>, lastEnd: nat)
    ensures SectionsFrom(text, tables[|tables|..], lastEnd) == TextAfter(text, lastEnd)
  {
    assert tables[|tables|..] == [];
  }

  /** One turn of the loop of `SplitAroundTables` keeps its invariant. */
  lemma SplitStep(text: string, tables: seq<Table>, i: nat, lastEnd: nat, done: seq<Section>)
    requires i < |tables|
    requires done + SectionsFrom(text, tables[i..], lastEnd) == SectionsFrom(text, tables, 0)
    ensures done + TextBefore(text, tables[i], lastEnd) + [TableSectionOf(tables[i])] + SectionsFrom(text, tables[i + 1..], tables[i].end)
      == SectionsFrom(text, tables, 0)
  {
    SectionsFromStep(text, tables, i, lastEnd);
    SectionsRegroup(done, TextBefore(text, tables[i], lastEnd), [TableSectionOf(tables[i])], SectionsFrom(text, tables[i + 1..], tables[i].end));
  }

  /** The sections from the `i`th table on: the text before it, its own section, then the rest. */
  lemma SectionsFromStep(text: string, tables: seq<Table>, i: nat, lastEnd: nat)
    requires i < |tables|
    ensures SectionsFrom(text, tables[i..], lastEnd)
      == TextBefore(text, tables[i], lastEnd) + [TableSectionOf(tables[i])] + SectionsFrom(text, tables[i + 1..], tables[i].end)
  {
    assert tables[i..][0] == tables[i] && tables[i..][1..] == tables[i + 1..];
  }

  /** The table sections of a section list, in order. */
  function TableSections(sections: seq<Section>): seq<Section>
    decreases |sections|
  {
    if sections == [] then []
    else (if sections[0].TableSection? then [sections[0]] else []) + TableSections(sections[1..])
  }

  lemma TableSectionsAppend(a: seq<Section>, b: seq<Section>)
    ensures TableSections(a + b) == TableSections(a) + TableSections(b)
    decreases |a|
  {
    if a == [] {
      assert a + b == b;
    } else {
      assert (a + b)[0] == a[0];
      assert (a + b)[1..] == a[1..] + b;
      TableSectionsAppend(a[1..], b);
    }
  }

  /** The table sections, one for each table. */
  function TableSectionsOf(tables: seq<Table>): (r: seq<Section>)
    ensures |r| == |tables|
    ensures forall i :: 0 <= i < |tables| ==> r[i] == TableSectionOf(tables[i])
  {
    seq(|tables|, i requires 0 <= i < |tables| => TableSectionOf(tables[i]))
  }

  /** The text pieces hold no table section. */
  lemma NoTableInText(text: string, t: Table, lastEnd: nat)
    ensures TableSections(TextBefore(text, t, lastEnd)) == []
    ensures TableSections(TextAfter(text, lastEnd)) == []
  {
    var before := TextBefore(text, t, lastEnd);
    if before != [] {
      assert before[1..] == [];
    }
    var after := TextAfter(text, lastEnd);
    if after != [] {
      assert after[1..] == [];
    }
  }

  /**
   * Every table gets exactly one table section, in table order, carrying its
   * verbatim content, identifier, title and the `Table <id>: <title>` label.
   */
  lemma {:induction false} OneSectionPerTable(text: string, tables: seq<Table>, lastEnd: nat)
    ensures TableSections(SectionsFrom(text, tables, lastEnd)) == TableSectionsOf(tables)
    decreases |tables|
  {
    if tables == [] {
      NoTableInText(text, Table("", "", "", 0, 0), lastEnd);
    } else {
      var t := tables[0];
      var before := TextBefore(text, t, lastEnd);
      var rest := SectionsFrom(text, tables[1..], t.end);
      assert SectionsFrom(text, tables, lastEnd) == before + [TableSectionOf(t)] + rest;
      OneSectionPerTable(text, tables[1..], t.end);
      TableSectionsOfOne(text, t, lastEnd);
      TableSectionsAppend(before + [TableSectionOf(t)], rest);
      TableSectionsOfCons(tables);
    }
  }

  /** The text before a table and the table's own section hold just that table section. */
  lemma TableSectionsOfOne(text: string, t: Table, lastEnd: nat)
    ensures TableSections(TextBefore(text, t, lastEnd) + [TableSectionOf(t)]) == [TableSectionOf(t)]
  {
    NoTableInText(text, t, lastEnd);
    TableSectionsAppend(TextBefore(text, t, lastEnd), [TableSectionOf(t)]);
    assert [TableSectionOf(t)][1..] == [];
    assert [] + [TableSectionOf(t)] == [TableSectionOf(t)];
  }

  lemma TableSectionsOfCons(tables: seq<Table>)
    requires tables != []
    ensures TableSectionsOf(tables) == [TableSectionOf(tables[0])] + TableSectionsOf(tables[1..])
  {
  }

  /** A text section is a non-blank piece of `text` with no surrounding whitespace. */
  predicate GoodTextSection(text: string, s: Section) {
    s.TextSection? ==>
      s.content != "" && !IsSpace(s.content[0]) && !IsSpace(s.content[|s.content| - 1])
      && Contains(text, s.content)
  }

  lemma SliceContained(s: string, i: nat, j: nat)
    ensures Contains(s, Slice(s, i, j))
  {
    var r := Slice(s, i, j);
    if r == "" {
      ContainsAt(s, 0, r);
    } else {
      ContainsAt(s, i, r);
    }
  }

  lemma GoodTextBefore(text: string, t: Table, lastEnd: nat)
    ensures forall s | s in TextBefore(text, t, lastEnd) :: GoodTextSection(text, s)
  {
    var gap := Slice(text, lastEnd, t.start);
    SliceContained(text, lastEnd, t.start);
    StripEnds(gap);
    StripContained(gap);
    ContainsTrans(text, gap, Strip(gap));
  }

  lemma GoodTextAfter(text: string, lastEnd: nat)
    ensures forall s | s in TextAfter(text, lastEnd) :: GoodTextSection(text, s)
  {
    if lastEnd < |text| {
      var rest := text[lastEnd..];
      ContainsAt(text, lastEnd, rest);
      StripEnds(rest);
      StripContained(rest);
      ContainsTrans(text, rest, Strip(rest));
    }
  }

  /** Every text section is stripped, not empty, and taken from the text. */
  lemma {:induction false} TextSectionsStripped(text: string, tables: seq<Table>, lastEnd: nat)
    ensures forall s | s in SectionsFrom(text, tables, lastEnd) :: GoodTextSection(text, s)
    decreases |tables|
  {
    if tables == [] {
      GoodTextAfter(text, lastEnd);
    } else {
      var t := tables[0];
      TextSectionsStripped(text, tables[1..], t.end);
      GoodTextBefore(text, t, lastEnd);
      var all := SectionsFrom(text, tables, lastEnd);
      assert all == TextBefore(text, t, lastEnd) + [TableSectionOf(t)] + SectionsFrom(text, tables[1..], t.end);
    }
  }

  /** The text cut around a table holds text sections only. */
  lemma TextPiecesAreText(text: string, t: Table, lastEnd: nat)
    ensures forall p | p in TextBefore(text, t, lastEnd) :: p.TextSection?
    ensures forall p | p in TextAfter(text, lastEnd) :: p.TextSection?
  {
    var before := TextBefore(text, t, lastEnd);
    var after := TextAfter(text, lastEnd);
    assert before == [] || before == [TextSection(before[0].content, "Text before " + t.id)];
    assert after == [] || after == [TextSection(after[0].content, "Text after tables")];
  }

  /** Every table section of the list is the section of one of the tables. */
  lemma {:induction false} TableSectionOfSomeTable(text: string, tables: seq<Table>, lastEnd: nat)
    ensures forall s | s in SectionsFrom(text, tables, lastEnd) && s.TableSection? ::
      exists t :: t in tables && s == TableSectionOf(t)
    decreases |tables|
  {
    if tables == [] {
      TextPiecesAreText(text, Table("", "", "", 0, 0), lastEnd);
    } else {
      var t := tables[0];
      var before := TextBefore(text, t, lastEnd);
      var rest := SectionsFrom(text, tables[1..], t.end);
      assert SectionsFrom(text, tables, lastEnd) == before + [TableSectionOf(t)] + rest;
      TextPiecesAreText(text, t, lastEnd);
      TableSectionOfSomeTable(text, tables[1..], t.end);
      forall s | s in SectionsFrom(text, tables, lastEnd) && s.TableSection?
        ensures exists u :: u in tables && s == TableSectionOf(u)
      {
        if s in rest {
          var u :| u in tables[1..] && s == TableSectionOf(u);
          assert u in tables;
        } else {
          assert s == TableSectionOf(t) && t in tables;
        }
      }
    }
  }


}
