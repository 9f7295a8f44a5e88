/**
 * The splitter worked through on one small document: a rate table followed by
 * a sentence that mentions it. The text is built from its lines, so that each
 * step can speak of one line at a time.
 */
module Example {
  import opened Wrappers
  import opened Text
  import opened Regex
  import opened Documents
  import opened Tables
  import opened Splitter

  const Id := "1.1"
  const Title := "Personal Loan Rates"
  const Row1 := "|Term|APR|\n"
  const Row2 := "|---|---|\n"
  const Row3 := "|12mo|7.5%|\n"
  const Row4 := "|24mo|8.0%|\n"
  /** The sentence after the table: a mention of it, then the rest. */
  const SeeRef := "See Table 1.1"
  const After := "See Table 1.1 for details."
  const AfterRows := Row1 + (Row2 + (Row3 + (Row4 + After)))
  const AfterColon := ": " + (Title + ("\n" + AfterRows))
  /** The document: the header line, four rows and a sentence, grouped from the right. */
  const Sample := "### Table " + (Id + AfterColon)

  // The offsets of the header's colon, the title, the end of the header line,
  // the four rows and the sentence after them.
  const Colon := 10 + |Id|
  const TitleStart := Colon + 2
  const LineEnd := TitleStart + |Title|
  const Q1 := LineEnd + 1
  const Q2 := Q1 + |Row1|
  const Q3 := Q2 + |Row2|
  const Q4 := Q3 + |Row3|
  const Q5 := Q4 + |Row4|

  /** The table block: the header line and the four rows. */
  const Block := Sample[0..Q5]

  // ---------------------------------------------------------------------------
  // The table block
  // ---------------------------------------------------------------------------

  /** A row `|x|y\n` with no bar in `x` and no newline in `y` is one repetition of the row group. */
  lemma RowEndIn(s: string, q: nat, r: string, b: string, x: string, y: string)
    requires q <= |s| && s[q..] == r + b
    requires r == "|" + x + "|" + y + "\n" && '|' !in x && '\n' !in y
    ensures RowEnd(s, q) == Some(q + |r|)
  {
    var t := s[q..];
    assert s[q] == t[0] == '|';
    forall j | q + 1 <= j < q + 1 + |x| ensures s[j] != '|' {
      assert s[j] == t[j - q] == x[j - q - 1];
    }
    assert s[q + 1 + |x|] == t[1 + |x|] == '|';
    IndexOfFirst(s, '|', q + 1, q + 1 + |x|);
    forall j | q + 2 + |x| <= j < q + 2 + |x| + |y| ensures s[j] != '\n' {
      assert s[j] == t[j - q] == y[j - q - 2 - |x|];
    }
    assert s[q + 2 + |x| + |y|] == t[2 + |x| + |y|] == '\n';
    IndexOfFirst(s, '\n', q + 2 + |x|, q + 2 + |x| + |y|);
  }

  lemma RowShapes()
    ensures Row1 == "|" + "Term" + "|" + "APR|" + "\n"
    ensures Row2 == "|" + "---" + "|" + "---|" + "\n"
    ensures Row3 == "|" + "12mo" + "|" + "7.5%|" + "\n"
    ensures Row4 == "|" + "24mo" + "|" + "8.0%|" + "\n"
  {
  }

  lemma HeaderSuffixes()
    ensures Sample[..10] == "### Table "
    ensures Sample[10..] == Id + AfterColon
    ensures Sample[Colon..] == AfterColon
    ensures Sample[TitleStart..] == Title + ("\n" + AfterRows)
    ensures Sample[LineEnd..] == "\n" + AfterRows
    ensures Sample[Q1..] == AfterRows
  {
    var s := Sample;
    assert s[Colon..] == s[10..][|Id|..];
    assert s[TitleStart..] == s[Colon..][2..];
    assert s[LineEnd..] == s[TitleStart..][|Title|..];
    assert s[Q1..] == s[LineEnd..][1..];
  }

  lemma SampleSuffixes()
    ensures Sample[Q1..] == Row1 + (Row2 + (Row3 + (Row4 + After)))
    ensures Sample[Q2..] == Row2 + (Row3 + (Row4 + After))
    ensures Sample[Q3..] == Row3 + (Row4 + After)
    ensures Sample[Q4..] == Row4 + After
    ensures Sample[Q5..] == After
  {
    var s := Sample;
    HeaderSuffixes();
    assert s[Q2..] == s[Q1..][|Row1|..];
    assert s[Q3..] == s[Q2..][|Row2|..];
    assert s[Q4..] == s[Q3..][|Row3|..];
    assert s[Q5..] == s[Q4..][|Row4|..];
  }

  lemma FirstRowEnds()
    ensures RowEnd(Sample, Q1) == Some(Q2)
  {
    SampleSuffixes();
    RowShapes();
    RowEndIn(Sample, Q1, Row1, Row2 + (Row3 + (Row4 + After)), "Term", "APR|");
  }

  lemma SecondRowEnds()
    ensures RowEnd(Sample, Q2) == Some(Q3)
  {
    SampleSuffixes();
    RowShapes();
    RowEndIn(Sample, Q2, Row2, Row3 + (Row4 + After), "---", "---|");
  }

  lemma ThirdRowEnds()
    ensures RowEnd(Sample, Q3) == Some(Q4)
  {
    SampleSuffixes();
    RowShapes();
    RowEndIn(Sample, Q3, Row3, Row4 + After, "12mo", "7.5%|");
  }

  lemma FourthRowEnds()
    ensures RowEnd(Sample, Q4) == Some(Q5)
  {
    SampleSuffixes();
    RowShapes();
    RowEndIn(Sample, Q4, Row4, After, "24mo", "8.0%|");
  }

  /** The sentence after the rows does not start with a bar. */
  lemma NoFifthRow()
    ensures RowEnd(Sample, Q5) == None
  {
    SampleSuffixes();
    assert Sample[Q5] == Sample[Q5..][0] == 'S';
  }

  /** The four rows of the sample are one run of the row group, ended by the sentence after them. */
  lemma SampleRows()
    ensures RowsEnd(Sample, Q1) == Some(Q5)
  {
    FirstRowEnds();
    SecondRowEnds();
    ThirdRowEnds();
    FourthRowEnds();
    NoFifthRow();
    assert RowsEnd(Sample, Q5) == None;
    assert RowsEnd(Sample, Q4) == Some(Q5);
    assert RowsEnd(Sample, Q3) == Some(Q5);
    assert RowsEnd(Sample, Q2) == Some(Q5);
  }

  /** The characters of the header line. */
  lemma HeaderChars()
    ensures Sample[10] == '1' && Sample[11] == '.' && Sample[12] == '1'
    ensures Sample[Colon] == ':' && Sample[Colon + 1] == ' ' && Sample[LineEnd] == '\n'
    ensures forall j :: TitleStart <= j < LineEnd ==> Sample[j] != '\n'
  {
    IdChars();
    ColonChars();
    TitleChars();
  }

  lemma IdChars()
    ensures Sample[10] == '1' && Sample[11] == '.' && Sample[12] == '1'
  {
    HeaderSuffixes();
    var s := Sample;
    assert s[10] == s[10..][0] && s[11] == s[10..][1] && s[12] == s[10..][2];
  }

  lemma ColonChars()
    ensures Sample[Colon] == ':' && Sample[Colon + 1] == ' ' && Sample[LineEnd] == '\n'
  {
    HeaderSuffixes();
    var s := Sample;
    assert s[Colon] == s[Colon..][0] && s[Colon + 1] == s[Colon..][1];
    assert s[LineEnd] == s[LineEnd..][0];
  }

  lemma TitleChars()
    ensures forall j :: TitleStart <= j < LineEnd ==> Sample[j] != '\n'
  {
    HeaderSuffixes();
    var s := Sample;
    assert '\n' !in Title;
    forall j | TitleStart <= j < LineEnd ensures s[j] != '\n' {
      assert s[j] == s[TitleStart..][j - TitleStart] == Title[j - TitleStart];
    }
  }

  /** `### Table 1.1:` is a header at index 0, its colon at index 13. */
  lemma SampleHeader()
    ensures HeaderColon(Sample, 0) == Some(Colon)
  {
    HeaderSuffixes();
    HeaderChars();
    IdEndOfParts(Sample, 10, 10, 11, Colon, false);
    HeaderFromParts(Sample, Colon);
  }

  /** The block pattern matches at index 0 and spans the header line and the four rows. */
  lemma SampleBlockAt()
    ensures MatchAt(TableBlock, Sample, 0) == Some(Hit(0, Q5, Block))
  {
    SampleHeader();
    HeaderChars();
    IndexOfFirst(Sample, '\n', Colon + 1, LineEnd);
    SampleRows();
    RowsAfterTitle(Sample, Colon, LineEnd, Q5);
    BlockAtOutcomes(Sample, Q5, HeaderColon(Sample, 0), TitleAndRowsEnd(Sample, Colon + 1));
  }

  /** The title line ends at the first newline, and the rows after it close the block. */
  lemma RowsAfterTitle(s: string, d: nat, n: nat, e: nat)
    requires d < n < |s| && IndexOf(s, '\n', d + 1) == n && RowsEnd(s, n + 1) == Some(e)
    ensures TitleAndRowsEnd(s, d + 1) == Some(e)
  {
  }

  /** The block at index 0, from the outcomes of its header and of its title-and-rows step. */
  lemma BlockAtOutcomes(s: string, e: nat, header: Option<nat>, rows: Option<nat>)
    requires header == HeaderColon(s, 0) && header.Some?
    requires rows == TitleAndRowsEnd(s, header.value + 1) && rows == Some(e)
    ensures MatchAt(TableBlock, s, 0) == Some(Hit(0, e, s[0..e]))
  {
    assert TableBlockAt(s, 0) == Some(Hit(0, e, s[0..e]));
    MatchAtTableBlock(s, 0);
  }

  /** No block starts at a character other than `#`. */
  lemma NoBlockWithoutHash(s: string, k: nat)
    requires k < |s| && s[k] != '#'
    ensures MatchAt(TableBlock, s, k).None?
  {
    assert !CharMatches(s[k + 0], "### Table "[0], false);
    MatchAtTableBlock(s, k);
  }

  /** A character that a suffix of `s` lacks is absent from that part of `s`. */
  lemma NotInSuffix(s: string, i: nat, t: string, c: char, k: nat)
    requires i <= k < |s| && s[i..] == t && c !in t
    ensures s[k] != c
  {
    assert s[k] == t[k - i];
  }

  /** No block starts inside the sentence: it has no `#`. */
  lemma NoBlockInSentence(k: nat)
    requires Q5 <= k < |Sample|
    ensures MatchAt(TableBlock, Sample, k).None?
  {
    SampleSuffixes();
    assert '#' !in After;
    NotInSuffix(Sample, Q5, After, '#', k);
    NoBlockWithoutHash(Sample, k);
  }

  /** `finditer` finds the one block and nothing after it. */
  lemma SampleBlocks()
    ensures FindIter(TableBlock, Sample, 0) == [Hit(0, Q5, Block)]
  {
    var ms := Attempts(TableBlock, Sample);
    AttemptAt(TableBlock, Sample, 0);
    SampleBlockAt();
    forall k | Q5 <= k < |ms| ensures ms[k].None? {
      AttemptAt(TableBlock, Sample, k);
      NoBlockInSentence(k);
    }
    ScanSkip(ms, Q5, |ms|);
  }

  /** The block's header names table `1.1`. */
  lemma BlockId()
    ensures IdOf(Block) == Id
  {
    SampleHeader();
    HeaderInSlice(Sample, 0, Q5);
    IdOfHeader(Block, Colon);
    SliceOfSlice(Sample, 0, Q5, 10, Colon);
    IdSlice();
  }

  /** In the block, the header line runs from the colon to the first newline. */
  lemma BlockHeaderLine()
    ensures Q5 <= |Sample| && Block[Colon + 1] == ' ' && IndexOf(Block, '\n', Colon + 2) == LineEnd
  {
    HeaderChars();
    assert Block[Colon + 1] == Sample[Colon + 1];
    assert Block[LineEnd] == Sample[LineEnd];
    forall j | Colon + 2 <= j < LineEnd ensures Block[j] != '\n' {
      assert Block[j] == Sample[j];
    }
    IndexOfFirst(Block, '\n', Colon + 2, LineEnd);
  }

  /** The block's title is the rest of its header line. */
  lemma BlockTitleIs()
    ensures TitleOf(Block) == Title
  {
    BlockHeader();
    BlockHeaderLine();
    TitleSearch(Block, Colon, LineEnd);
    BlockTitleSlice();
  }

  lemma BlockHeader()
    ensures HeaderColon(Block, 0) == Some(Colon)
  {
    SampleHeader();
    HeaderInSlice(Sample, 0, Q5);
  }

  lemma BlockTitleSlice()
    ensures Q5 <= |Sample| && Block[TitleStart..LineEnd] == Title
  {
    SampleSuffixes();
    SliceOfSlice(Sample, 0, Q5, TitleStart, LineEnd);
    TitleSlice();
  }

  lemma TitleSlice()
    ensures Sample[TitleStart..LineEnd] == Title
  {
    HeaderSuffixes();
    assert Sample[TitleStart..LineEnd] == Sample[TitleStart..][..|Title|];
  }

  lemma IdSlice()
    ensures Sample[10..Colon] == Id
  {
    HeaderSuffixes();
    assert Sample[10..Colon] == Sample[10..][..|Id|];
  }

  /** The one table of the sample. */
  lemma SampleTables()
    ensures TablesOf(Sample) == [Table(Id, Title, Block, 0, Q5)]
  {
    SampleBlocks();
    BlockId();
    BlockTitleIs();
    var hits := [Hit(0, Q5, Block)];
    assert hits[..0] == [];
  }

  // ---------------------------------------------------------------------------
  // Sections
  // ---------------------------------------------------------------------------

  /** `strip()` leaves a text alone when neither end is whitespace. */
  lemma StripUnchanged(s: string)
    requires s != [] && !IsSpace(s[0]) && !IsSpace(s[|s| - 1])
    ensures Strip(s) == s
  {
    assert TrimStart(s) == s;
  }

  /** The section of the table. */
  const TableSec := TableSection(Block, Id, Title, TableContext(Id, Title))

  /** The section of the sentence after it. */
  const TextSec := TextSection(After, "Text after tables")

  /** A text whose only table starts it, followed by non-blank text, gives a table section and a text section. */
  lemma SectionsOfLeadingTable(text: string, t: Table, rest: string)
    requires TablesOf(text) == [t] && t.start == 0 && t.end < |text|
    requires Strip(text[t.end..]) == rest && rest != ""
    ensures DocumentSections(text) == [TableSectionOf(t), TextSection(rest, "Text after tables")]
  {
    assert TextBefore(text, t, 0) == [];
    assert [t][1..] == [];
    assert SectionsFrom(text, [], t.end) == TextAfter(text, t.end) == [TextSection(rest, "Text after tables")];
    assert SectionsFrom(text, [t], 0) == [] + [TableSectionOf(t)] + SectionsFrom(text, [], t.end);
  }

  /** The sample is one table section followed by one text section, the stripped sentence. */
  lemma SampleSections()
    ensures DocumentSections(Sample) == [TableSec, TextSec]
  {
    SampleTables();
    SampleSuffixes();
    SentenceStripped(After);
    SectionsOfLeadingTable(Sample, Table(Id, Title, Block, 0, Q5), After);
  }

  lemma SentenceStripped(s: string)
    requires s == "See Table 1.1 for details."
    ensures Strip(s) == s
  {
    assert s[0] == 'S' && s[|s| - 1] == '.';
    StripUnchanged(s);
  }

  // ---------------------------------------------------------------------------
  // Chunks
  // ---------------------------------------------------------------------------

  /** A table that fits, then a text the base splitter keeps whole: one chunk each. */
  lemma ChunksOfTableThenText(tsec: Section, xsec: Section, base: Metadata, chunkSize: int, baseSplit: string -> seq<string>)
    requires tsec.TableSection? && |tsec.content| <= chunkSize
    requires xsec.TextSection? && baseSplit(xsec.content) == [xsec.content]
    ensures ChunksOfSections([tsec, xsec], base, chunkSize, baseSplit)
         == [Document(tsec.content, TableMetadata(tsec, base)), TextPiece(xsec, base, xsec.content, 0, 1)]
  {
    assert [tsec, xsec][..1] == [tsec] && [tsec][..0] == [];
    var whole := Document(tsec.content, TableMetadata(tsec, base));
    var piece := TextPiece(xsec, base, xsec.content, 0, 1);
    assert SectionChunks(tsec, base, chunkSize, baseSplit) == [whole];
    var pieces := TextSectionChunks(xsec, base, [xsec.content]);
    assert |pieces| == 1 && pieces[0] == piece;
    assert SectionChunks(xsec, base, chunkSize, baseSplit) == [piece];
    assert ChunksOfSections([tsec], base, chunkSize, baseSplit) == [whole];
  }

  /** The table fits 1000 characters, so it stays whole; the sentence is one piece. */
  lemma SampleSectionChunks(base: Metadata, baseSplit: string -> seq<string>)
    requires baseSplit(After) == [After]
    ensures ChunksOfSections(DocumentSections(Sample), base, 1000, baseSplit)
         == [Document(Block, TableMetadata(TableSec, base)), TextPiece(TextSec, base, After, 0, 1)]
  {
    SampleSections();
    BlockFits();
    ChunksOfTableThenText(TableSec, TextSec, base, 1000, baseSplit);
  }

  lemma BlockFits()
    ensures |Block| <= 1000
  {
    SampleSuffixes();
  }

  /** The table map of a table chunk followed by a text chunk: the table's id and title. */
  lemma TableMapOfTwo(c0: Document, c1: Document, id: string, title: string)
    requires c0.metadata.chunkType == Some(TableChunk) && c0.metadata.tableId == Some(id) && id != ""
    requires c0.metadata.tableTitle == Some(title) && c1.metadata.chunkType == Some(TextChunk)
    ensures TableMap([c0, c1]) == map[id := title]
  {
    assert [c0, c1][..1] == [c0] && [c0][..0] == [];
    assert TableMap([c0]) == map[id := title];
    assert !IsTableChunk(c1);
  }

  // ---------------------------------------------------------------------------
  // The sentence's reference
  // ---------------------------------------------------------------------------

  /** `See Table 1.1` is a mention at the start of the sentence. */
  lemma SentenceMention()
    ensures MatchAt(Mention, After, 0) == Some(Hit(0, 13, SeeRef))
  {
    forall k | 0 <= k < 10 ensures CharMatches(After[k], "see table "[k], true) {
    }
    assert LiteralAt("see table ", After, 0, true);
    assert !IdLetter(After, 10, true);
    IdEndOfParts(After, 10, 10, 11, 13, true);
    AfterStartsWithRef();
    MatchAtMention(After, 0);
  }

  lemma AfterStartsWithRef()
    ensures After[0..13] == SeeRef
  {
    forall k | 0 <= k < 13 ensures After[0..13][k] == SeeRef[k] {
    }
  }

  /** Nothing after the mention starts another: the sentence's only mention is `See Table 1.1`. */
  lemma SentenceMentions()
    ensures FindIter(Mention, After, 0) == [Hit(0, 13, SeeRef)]
  {
    SentenceMention();
    NoMentionAfterRef();
    OnlyLeadingMention(After, Hit(0, 13, SeeRef));
  }

  /** No mention starts in ` for details.`. */
  lemma NoMentionAfterRef()
    ensures NoMentionFrom(After, 13)
  {
    assert NoMentionFrom("See Table 1.1 for details.", 13);
  }

  /** The case-sensitive id search in `See Table 1.1` finds `1.1`. */
  lemma MentionId()
    ensures Search(IdSearch, SeeRef) == Some(Hit(4, 13, Id))
  {
    forall k | 0 <= k < 4 ensures MatchAt(IdSearch, SeeRef, k).None? {
      MatchAtTableId("Table ", false, SeeRef, k);
      assert !CharMatches(SeeRef[k + 0], "Table "[0], false);
    }
    MatchAtTableId("Table ", false, SeeRef, 4);
    assert SeeRef[4..10] == "Table ";
    LiteralAtExact("Table ", SeeRef, 4);
    assert !IdLetter(SeeRef, 10, false);
    IdEndOfParts(SeeRef, 10, 10, 11, 13, false);
    assert SeeRef[10..13] == Id;
    SearchAfterMisses(IdSearch, SeeRef, 4, Hit(4, 13, Id));
  }

  /** The sentence resolves its one mention against the table map. */
  lemma SentenceRefs()
    ensures RefsOf(After, map[Id := Title]) == [CrossRef(Id, Title, SeeRef)]
  {
    SentenceMentions();
    MentionId();
    var hits := [Hit(0, 13, SeeRef)];
    assert hits[..0] == [];
  }

  /** The table's own header is its first reference. */
  lemma BlockRefersToItself()
    ensures var refs := RefsOf(Block, map[Id := Title]);
      refs != [] && refs[0] == CrossRef(Id, Title, "Table 1.1")
  {
    SampleHeader();
    HeaderInSlice(Sample, 0, Q5);
    SliceOfSlice(Sample, 0, Q5, 10, Colon);
    IdSlice();
    HeaderRefersToItself(Block, map[Id := Title], Colon);
    assert "Table " + Id == "Table 1.1";
  }

  // ---------------------------------------------------------------------------
  // The whole document
  // ---------------------------------------------------------------------------

  /** Two chunks, each annotated against the table map of both. */
  lemma CrossReferencedTwo(c0: Document, c1: Document, m: map<string, string>)
    requires TableMap([c0, c1]) == m
    ensures CrossReferenced([c0, c1]) == [Annotate(c0, m), Annotate(c1, m)]
  {
    var r := CrossReferenced([c0, c1]);
    assert r[0] == Annotate(c0, m);
    assert r[1] == Annotate(c1, m);
  }

  /** The table chunk, annotated: its first reference is to itself. */
  lemma AnnotatedTable(c0: Document)
    requires c0.content == Block
    ensures var a := Annotate(c0, map[Id := Title]);
      && a.content == Block && a.metadata.(crossReferences := c0.metadata.crossReferences) == c0.metadata
      && a.metadata.crossReferences != [] && a.metadata.crossReferences[0] == CrossRef("1.1", "Personal Loan Rates", "Table 1.1")
  {
    BlockRefersToItself();
  }

  /** The sentence chunk, annotated: its one reference is to table 1.1. */
  lemma AnnotatedSentence(c1: Document)
    requires c1.content == After
    ensures var a := Annotate(c1, map[Id := Title]);
      && a.content == After && a.metadata.(crossReferences := c1.metadata.crossReferences) == c1.metadata
      && a.metadata.crossReferences == [CrossRef("1.1", "Personal Loan Rates", "See Table 1.1")]
  {
    SentenceRefs();
  }

  /**
   * The sample document, split with a chunk size of 1000 by a base splitter
   * that keeps the short sentence whole, gives exactly two chunks: the table,
   * intact, which refers to itself first; and the sentence, which carries the
   * one resolved reference to table 1.1.
   */
  lemma SampleDocumentChunks(base: Metadata, baseSplit: string -> seq<string>)
    requires baseSplit(After) == [After]
    ensures var cs := DocumentChunks(Document(Sample, base), 1000, baseSplit);
      && |cs| == 2
      && cs[0].content == Block
      && cs[0].metadata.chunkType == Some(TableChunk)
      && cs[0].metadata.tableId == Some("1.1")
      && cs[0].metadata.tableTitle == Some("Personal Loan Rates")
      && cs[0].metadata.crossReferences != []
      && cs[0].metadata.crossReferences[0] == CrossRef("1.1", "Personal Loan Rates", "Table 1.1")
      && cs[1].content == "See Table 1.1 for details."
      && cs[1].metadata.chunkType == Some(TextChunk)
      && cs[1].metadata.context == Some("Text after tables")
      && cs[1].metadata.crossReferences == [CrossRef("1.1", "Personal Loan Rates", "See Table 1.1")]
  {
    SampleSectionChunks(base, baseSplit);
    var c0 := Document(Block, TableMetadata(TableSec, base));
    var c1 := TextPiece(TextSec, base, After, 0, 1);
    TableMapOfTwo(c0, c1, Id, Title);
    CrossReferencedTwo(c0, c1, map[Id := Title]);
    AnnotatedTable(c0);
    AnnotatedSentence(c1);
  }
}
