/**
 * `TableAwareTextSplitter`: sections become chunks (a table in one chunk when
 * it fits, else in parts; text through the base splitter), every chunk is
 * annotated with the tables it mentions, and a summary counts the tables.
 * The base `RecursiveCharacterTextSplitter` is the parameter `baseSplit`.
 */
module Splitter {
  import opened Wrappers
  import opened Text
  import opened Regex
  import opened Documents
  import opened Tables
  import opened TableParts

  // ---------------------------------------------------------------------------
  // Table sections
  // ---------------------------------------------------------------------------

  /** The metadata of a table chunk: the base metadata with the table's labels. */
  function TableMetadata(sec: Section, base: Metadata): Metadata
    requires sec.TableSection?
  {
    base.(chunkType := Some(TableChunk), tableId := Some(sec.tableId),
          tableTitle := Some(sec.tableTitle), context := Some(sec.context))
  }

  /** `_process_table_section`: the whole table when it fits `chunk_size`, else its parts. */
  function TableSectionChunks(sec: Section, base: Metadata, chunkSize: int): seq<Document>
    requires sec.TableSection?
  {
    if |sec.content| <= chunkSize then [Document(sec.content, TableMetadata(sec, base))]
    else LargeTableChunks(sec, base, chunkSize)
  }

  /**
   * `_process_table_section`: a table that fits is kept intact as one `table`
   * chunk with the section's context; otherwise every chunk is a part. Every
   * chunk carries the table's id and title, and is within `chunk_size` unless
   * it holds a single data row.
   */
  method ProcessTableSection(sec: Section, base: Metadata, chunkSize: int) returns (chunks: seq<Document>)
    requires sec.TableSection?
    ensures chunks == TableSectionChunks(sec, base, chunkSize)
    ensures |sec.content| <= chunkSize ==>
      |chunks| == 1 && chunks[0].content == sec.content && chunks[0].metadata.chunkType == Some(TableChunk)
      && chunks[0].metadata.context == Some(sec.context)
    ensures forall k :: 0 <= k < |chunks| ==>
      && IsTableChunk(chunks[k])
      && chunks[k].metadata.tableId == Some(sec.tableId)
      && chunks[k].metadata.tableTitle == Some(sec.tableTitle)
      && (|chunks[k].content| <= chunkSize || |PartRows(sec, chunkSize)[k]| == 1)
  {
    TableSectionChunksSound(sec, base, chunkSize);
    var tableContent := sec.content;
    if |tableContent| <= chunkSize {
      var metadata := base.(chunkType := Some(TableChunk), tableId := Some(sec.tableId),
                            tableTitle := Some(sec.tableTitle), context := Some(sec.context));
      chunks := [Document(tableContent, metadata)];
    } else {
      chunks := SplitLargeTable(sec, base, chunkSize);
    }
  }

  /**
   * A table that fits is kept intact in a single `table` chunk; every chunk of
   * a table section is a table chunk carrying the table's id and title; and
   * each is within `chunk_size` unless it is a part holding a single data row.
   */
  lemma TableSectionChunksSound(sec: Section, base: Metadata, chunkSize: int)
    requires sec.TableSection?
    ensures var r := TableSectionChunks(sec, base, chunkSize);
      && (|sec.content| <= chunkSize ==>
            |r| == 1 && r[0].content == sec.content && r[0].metadata.chunkType == Some(TableChunk)
            && r[0].metadata.context == Some(sec.context))
      && (forall k :: 0 <= k < |r| ==>
            && IsTableChunk(r[k])
            && r[k].metadata.tableId == Some(sec.tableId)
            && r[k].metadata.tableTitle == Some(sec.tableTitle)
            && (|r[k].content| <= chunkSize || |PartRows(sec, chunkSize)[k]| == 1))
  {
    if |sec.content| > chunkSize {
      LargeTableChunksSound(sec, base, chunkSize);
    }
  }

  // ---------------------------------------------------------------------------
  // Text sections
  // ---------------------------------------------------------------------------

  /** The `i`-th of `n` pieces of a text section, labelled; `part` only when there are several. */
  function TextPiece(sec: Section, base: Metadata, piece: string, i: nat, n: nat): Document {
    Document(piece, base.(chunkType := Some(TextChunk), context := Some(sec.context),
                          part := if n > 1 then Some(i + 1) else None))
  }

  function TextSectionChunks(sec: Section, base: Metadata, pieces: seq<string>): (r: seq<Document>)
    ensures |r| == |pieces|
  {
    seq(|pieces|, i requires 0 <= i < |pieces| => TextPiece(sec, base, pieces[i], i, |pieces|))
  }

  /** `_process_text_section`: split by the base splitter, then label each piece in place. */
  method ProcessTextSection(sec: Section, base: Metadata, baseSplit: string -> seq<string>) returns (textChunks: seq<Document>)
    ensures textChunks == TextSectionChunks(sec, base, baseSplit(sec.content))
  {
    var pieces := baseSplit(sec.content);
    textChunks := seq(|pieces|, i requires 0 <= i < |pieces| => Document(pieces[i], base));
    for i := 0 to |textChunks|
      invariant |textChunks| == |pieces|
      invariant forall j :: 0 <= j < i ==> textChunks[j] == TextPiece(sec, base, pieces[j], j, |pieces|)
      invariant forall j :: i <= j < |pieces| ==> textChunks[j] == Document(pieces[j], base)
    {
      var chunk := textChunks[i];
      var metadata := chunk.metadata.(
        chunkType := Some(TextChunk),
        context := Some(sec.context),
        part := if |textChunks| > 1 then Some(i + 1) else None);
      textChunks := textChunks[i := chunk.(metadata := metadata)];
    }
  }

  /**
   * The pieces of a text section keep their text and order; each is a `text`
   * chunk with the section's context; `part` numbers them from 1 when there are
   * several and is unset when there is one; the other metadata is the base's.
   */
  lemma TextSectionChunksSound(sec: Section, base: Metadata, pieces: seq<string>)
    ensures var r := TextSectionChunks(sec, base, pieces);
      forall i :: 0 <= i < |r| ==>
        && r[i].content == pieces[i]
        && r[i].metadata.chunkType == Some(TextChunk)
        && !IsTableChunk(r[i])
        && r[i].metadata.context == Some(sec.context)
        && (|r| > 1 ==> r[i].metadata.part == Some(i + 1))
        && (|r| == 1 ==> r[i].metadata.part.None?)
        && r[i].metadata.(chunkType := base.chunkType, context := base.context, part := base.part) == base
  {
  }

  // ---------------------------------------------------------------------------
  // Cross references
  // ---------------------------------------------------------------------------

  /** A table chunk whose `table_id` is `id` (a truthy one). */
  predicate TableChunkWithId(c: Document, id: string) {
    IsTableChunk(c) && HasTableId(c) && c.metadata.tableId.value == id
  }

  /** `metadata.get('table_title', 'Unknown Table')`. */
  function TitleOrUnknown(c: Document): string {
    match c.metadata.tableTitle case Some(t) => t case None => "Unknown Table"
  }

  /** The `table_map`: each table id to the title of the last table chunk with it. */
  function TableMap(chunks: seq<Document>): map<string, string>
    decreases |chunks|
  {
    if chunks == [] then map[]
    else
      var m := TableMap(chunks[..|chunks| - 1]);
      var c := chunks[|chunks| - 1];
      if IsTableChunk(c) && HasTableId(c) then m[c.metadata.tableId.value := TitleOrUnknown(c)] else m
  }

  /** The ids in the map are exactly the truthy ids of the table chunks. */
  lemma {:induction false} TableMapKeys(chunks: seq<Document>, id: string)
    ensures id in TableMap(chunks) <==> exists i :: 0 <= i < |chunks| && TableChunkWithId(chunks[i], id)
    decreases |chunks|
  {
    if chunks != [] {
      var prefix := chunks[..|chunks| - 1];
      TableMapKeys(prefix, id);
      if exists i :: 0 <= i < |prefix| && TableChunkWithId(prefix[i], id) {
        var i :| 0 <= i < |prefix| && TableChunkWithId(prefix[i], id);
        assert chunks[i] == prefix[i];
      }
      if exists i :: 0 <= i < |chunks| && TableChunkWithId(chunks[i], id) {
        var i :| 0 <= i < |chunks| && TableChunkWithId(chunks[i], id);
        if i < |prefix| {
          assert prefix[i] == chunks[i];
        }
      }
    }
  }

  /** The last table chunk with an id decides its title. */
  lemma {:induction false} TableMapLastWins(chunks: seq<Document>, id: string, i: nat)
    requires i < |chunks| && TableChunkWithId(chunks[i], id)
    requires forall j :: i < j < |chunks| ==> !TableChunkWithId(chunks[j], id)
    ensures id in TableMap(chunks) && TableMap(chunks)[id] == TitleOrUnknown(chunks[i])
    decreases |chunks|
  {
    if i < |chunks| - 1 {
      var prefix := chunks[..|chunks| - 1];
      forall j | i < j < |prefix| ensures !TableChunkWithId(prefix[j], id) {
        assert prefix[j] == chunks[j];
      }
      TableMapLastWins(prefix, id, i);
    }
  }

  /** The map's entry for a mention's `Table <id>`, when the id names a known table. */
  function RefOf(h: Hit, tableMap: map<string, string>): Option<CrossRef> {
    match Search(IdSearch, h.group)
    case None => None
    case Some(m) => if m.group in tableMap then Some(CrossRef(m.group, tableMap[m.group], h.group)) else None
  }

  /** The cross references of the mentions `hits`, in order. */
  function RefsFrom(hits: seq<Hit>, tableMap: map<string, string>): seq<CrossRef>
    decreases |hits|
  {
    if hits == [] then []
    else
      var prev := RefsFrom(hits[..|hits| - 1], tableMap);
      match RefOf(hits[|hits| - 1], tableMap)
      case Some(r) => prev + [r]
      case None => prev
  }

  /** The cross references of a chunk's text. */
  function RefsOf(content: string, tableMap: map<string, string>): seq<CrossRef> {
    RefsFrom(FindIter(Mention, content, 0), tableMap)
  }

  /** A chunk with its `cross_references` set, when it has any. */
  function Annotate(c: Document, tableMap: map<string, string>): Document {
    var refs := RefsOf(c.content, tableMap);
    if refs != [] then c.(metadata := c.metadata.(crossReferences := refs)) else c
  }

  function CrossReferenced(chunks: seq<Document>): (r: seq<Document>)
    ensures |r| == |chunks|
  {
    var tableMap := TableMap(chunks);
    seq(|chunks|, i requires 0 <= i < |chunks| => Annotate(chunks[i], tableMap))
  }

  /** `_enhance_with_cross_references`. */
  method EnhanceWithCrossReferences(chunks: seq<Document>) returns (result: seq<Document>)
    ensures result == CrossReferenced(chunks)
  {
    var tableMap: map<string, string> := map[];
    for i := 0 to |chunks|
      invariant tableMap == TableMap(chunks[..i])
    {
      assert chunks[..i + 1][..i] == chunks[..i];
      var chunk := chunks[i];
      if IsTableChunk(chunk) {
        var tableId := chunk.metadata.tableId;
        if tableId.Some? && tableId.value != "" {
          tableMap := tableMap[tableId.value := TitleOrUnknown(chunk)];
        }
      }
    }
    assert chunks[..|chunks|] == chunks;

    result := chunks;
    for i := 0 to |result|
      invariant |result| == |chunks|
      invariant forall j :: 0 <= j < i ==> result[j] == Annotate(chunks[j], tableMap)
      invariant forall j :: i <= j < |chunks| ==> result[j] == chunks[j]
    {
      var chunk := result[i];
      var matches := FindIter(Mention, chunk.content, 0);
      var crossRefs: seq<CrossRef> := [];
      for j := 0 to |matches|
        invariant crossRefs == RefsFrom(matches[..j], tableMap)
      {
        assert matches[..j + 1][..j] == matches[..j];
        var refText := matches[j].group;
        var tableIdMatch := Search(IdSearch, refText);
        if tableIdMatch.Some? {
          var tableId := tableIdMatch.value.group;
          if tableId in tableMap {
            crossRefs := crossRefs + [CrossRef(tableId, tableMap[tableId], refText)];
          }
        }
      }
      assert matches[..|matches|] == matches;
      if crossRefs != [] {
        result := result[i := chunk.(metadata := chunk.metadata.(crossReferences := crossRefs))];
      }
    }
  }

  /**
   * A cross reference names a known table by a well-formed id, with the title
   * the map holds for it, and its reference text is a piece of the chunk that
   * contains `Table <id>`.
   */
  predicate RefSound(content: string, tableMap: map<string, string>, r: CrossRef) {
    && r.referencedTable in tableMap
    && r.tableTitle == tableMap[r.referencedTable]
    && IsTableId(r.referencedTable, false)
    && Contains(content, r.referenceText)
    && Contains(r.referenceText, "Table " + r.referencedTable)
  }

  /** What `re.search(r'Table ([A-Z]?\d+\.\d+)', g)` finds is a well-formed id following `Table ` in `g`. */
  lemma IdSearchSound(g: string)
    ensures Search(IdSearch, g).Some? ==>
      IsTableId(Search(IdSearch, g).value.group, false) && Contains(g, "Table " + Search(IdSearch, g).value.group)
  {
    SearchSound(IdSearch, g);
    if Search(IdSearch, g).Some? {
      var m := Search(IdSearch, g).value;
      MatchAtTableId("Table ", false, g, m.start);
      var d := IdEnd(g, m.start + 6, false).value;
      IdEndSound(g, m.start + 6, false);
      LiteralAtExact("Table ", g, m.start);
      assert g[m.start..d] == "Table " + m.group;
      ContainsAt(g, m.start, "Table " + m.group);
    }
  }

  /** A mention is a piece of the text it was found in. */
  lemma MentionIn(content: string, i: nat)
    requires i < |FindIter(Mention, content, 0)|
    ensures Contains(content, FindIter(Mention, content, 0)[i].group)
  {
    var h := FindIter(Mention, content, 0)[i];
    FindIterHit(Mention, content, 0, i);
    MatchAtMention(content, h.start);
    ContainsAt(content, h.start, h.group);
  }

  lemma RefOfSound(content: string, tableMap: map<string, string>, i: nat)
    requires i < |FindIter(Mention, content, 0)|
    ensures var h := FindIter(Mention, content, 0)[i];
      RefOf(h, tableMap).Some? ==> RefSound(content, tableMap, RefOf(h, tableMap).value)
  {
    MentionIn(content, i);
    IdSearchSound(FindIter(Mention, content, 0)[i].group);
  }

  lemma {:induction false} RefsFromSound(content: string, tableMap: map<string, string>, n: nat)
    requires n <= |FindIter(Mention, content, 0)|
    ensures forall r | r in RefsFrom(FindIter(Mention, content, 0)[..n], tableMap) :: RefSound(content, tableMap, r)
    decreases n
  {
    var hits := FindIter(Mention, content, 0);
    if n > 0 {
      assert hits[..n][..n - 1] == hits[..n - 1];
      RefsFromSound(content, tableMap, n - 1);
      RefOfSound(content, tableMap, n - 1);
    }
  }

  /**
   * What the annotation pass does: the text and every other metadata key of a
   * chunk stay as they were; `cross_references` is replaced exactly when the
   * chunk mentions a known table; and every reference it stores is sound.
   */
  lemma CrossReferencedSound(chunks: seq<Document>, i: nat)
    requires i < |chunks|
    ensures var c := chunks[i];
      var c' := CrossReferenced(chunks)[i];
      var refs := RefsOf(c.content, TableMap(chunks));
      && c'.content == c.content
      && c'.metadata.(crossReferences := c.metadata.crossReferences) == c.metadata
      && c'.metadata.crossReferences == (if refs != [] then refs else c.metadata.crossReferences)
      && forall r | r in refs :: RefSound(c.content, TableMap(chunks), r)
  {
    var hits := FindIter(Mention, chunks[i].content, 0);
    RefsFromSound(chunks[i].content, TableMap(chunks), |hits|);
    assert hits[..|hits|] == hits;
  }

  /** The case-sensitive `Table <id>` search finds nothing in a text without an upper-case `T`. */
  lemma NoIdWithoutUpperT(g: string)
    requires forall k :: 0 <= k < |g| ==> g[k] != 'T'
    ensures Search(IdSearch, g) == None
  {
    var ms := Attempts(IdSearch, g);
    forall k | 0 <= k < |g| ensures ms[k].None? {
      AttemptAt(IdSearch, g, k);
      MatchAtTableId("Table ", false, g, k);
      assert !CharMatches(g[k + 0], "Table "[0], false);
    }
    ScanSkip(ms, 0, |g|);
  }

  /** A mention ends inside the text it was found in, after its start. */
  lemma MentionSpan(content: string, i: nat)
    requires i < |FindIter(Mention, content, 0)|
    ensures var h := FindIter(Mention, content, 0)[i];
      h.start < h.end <= |content| && h.group == content[h.start..h.end]
  {
    var h := FindIter(Mention, content, 0)[i];
    FindIterHit(Mention, content, 0, i);
    MatchAtMention(content, h.start);
  }

  /**
   * Mentions are found case-insensitively but their id is then searched for
   * case-sensitively, so a text with no upper-case `T` (such as "see table 1.1")
   * never gets a cross reference, whatever tables are known.
   */
  lemma {:induction false} NoRefsWithoutUpperT(content: string, tableMap: map<string, string>, n: nat)
    requires forall k :: 0 <= k < |content| ==> content[k] != 'T'
    requires n <= |FindIter(Mention, content, 0)|
    ensures RefsFrom(FindIter(Mention, content, 0)[..n], tableMap) == []
    decreases n
  {
    var hits := FindIter(Mention, content, 0);
    if n > 0 {
      assert hits[..n][..n - 1] == hits[..n - 1];
      NoRefsWithoutUpperT(content, tableMap, n - 1);
      var h := hits[n - 1];
      MentionSpan(content, n - 1);
      forall k | 0 <= k < |h.group| ensures h.group[k] != 'T' {
        assert h.group[k] == content[h.start + k];
      }
      NoIdWithoutUpperT(h.group);
    }
  }

  /** The mention pattern does match a lower-case "see table 1.1". */
  lemma LowerCaseMentionFound(s: string)
    requires s == "see table 1.1"
    ensures MatchAt(Mention, s, 0) == Some(Hit(0, 13, s))
  {
    assert LiteralAt("see table ", s, 0, true) by {
      assert s[0..10] == "see table ";
      LiteralAtVerbatim("see table ", s, 0, true);
    }
    assert IdEnd(s, 10, true) == Some(13) by {
      assert !IdLetter(s, 10, true);
      DigitsEndOf(s, 10, 11);
      DigitsEndOf(s, 12, 13);
    }
    assert MentionEnd(s, 0) == Some(13);
    assert s[0..13] == s;
    MatchAtMention(s, 0);
  }

  // ---------------------------------------------------------------------------
  // Table chunks refer to themselves
  // ---------------------------------------------------------------------------

  /** The first three characters of `see table `, `refer to table ` or `table `, in any case, at `k`. */
  predicate MentionStart(s: string, k: nat)
    requires k + 2 < |s|
  {
    var a, b, c := LowerChar(s[k]), LowerChar(s[k + 1]), LowerChar(s[k + 2]);
    (a == 's' && b == 'e' && c == 'e') || (a == 'r' && b == 'e' && c == 'f') || (a == 't' && b == 'a' && c == 'b')
  }

  /** No mention starts where none of the three alternatives can begin. */
  lemma NoMentionAt(s: string, k: nat)
    requires k <= |s| && (k + 2 < |s| ==> !MentionStart(s, k))
    ensures MatchAt(Mention, s, k).None?
  {
    MatchAtMention(s, k);
    if LiteralAt("see table ", s, k, true) {
      LiteralCharAt("see table ", s, k, true, 0);
      LiteralCharAt("see table ", s, k, true, 1);
      LiteralCharAt("see table ", s, k, true, 2);
    }
    if LiteralAt("refer to table ", s, k, true) {
      LiteralCharAt("refer to table ", s, k, true, 0);
      LiteralCharAt("refer to table ", s, k, true, 1);
      LiteralCharAt("refer to table ", s, k, true, 2);
    }
    if LiteralAt("table ", s, k, true) {
      LiteralCharAt("table ", s, k, true, 0);
      LiteralCharAt("table ", s, k, true, 1);
      LiteralCharAt("table ", s, k, true, 2);
    }
  }

  /**
   * No mention starts anywhere from `i` on: the check of `NoMentionAt`, run
   * index by index (on a literal text Dafny evaluates it).
   */
  predicate NoMentionFrom(s: string, i: nat)
    decreases |s| - i
  {
    i + 2 >= |s| || (!MentionStart(s, i) && NoMentionFrom(s, i + 1))
  }

  lemma {:induction false} NoMentionFromAt(s: string, i: nat, k: nat)
    requires NoMentionFrom(s, i) && i <= k <= |s|
    ensures MatchAt(Mention, s, k).None?
    decreases k - i
  {
    if i < k && i + 2 < |s| {
      NoMentionFromAt(s, i + 1, k);
    } else {
      NoMentionAt(s, k);
    }
  }

  /** A mention at the start of a text, with none starting after it, is its only one. */
  lemma OnlyLeadingMention(s: string, h: Hit)
    requires 0 < |s| && MatchAt(Mention, s, 0) == Some(h) && h.end <= |s| && NoMentionFrom(s, h.end)
    ensures FindIter(Mention, s, 0) == [h]
  {
    var ms := Attempts(Mention, s);
    AttemptAt(Mention, s, 0);
    forall k | h.end <= k < |s| ensures ms[k].None? {
      AttemptAt(Mention, s, k);
      NoMentionFromAt(s, h.end, k);
    }
    ScanSkip(ms, h.end, |s|);
  }

  /** At index 4 of `### Table `, only the bare `table ` alternative can start. */
  lemma TableWordAtHeader(c: string)
    requires 10 <= |c| && c[..10] == "### Table "
    ensures LiteralAt("table ", c, 4, true)
    ensures !LiteralAt("see table ", c, 4, true) && !LiteralAt("refer to table ", c, 4, true)
  {
    assert c[4] == c[..10][4];
    if LiteralAt("see table ", c, 4, true) {
      LiteralCharAt("see table ", c, 4, true, 0);
    }
    if LiteralAt("refer to table ", c, 4, true) {
      LiteralCharAt("refer to table ", c, 4, true, 0);
    }
    forall k | 0 <= k < 6 ensures CharMatches(c[4 + k], "table "[k], true) {
      assert c[4 + k] == c[..10][4 + k];
    }
  }

  /** The `Table <id>` of a header is a mention at index 4. */
  lemma MentionAtHeader(c: string, d: nat)
    requires HeaderColon(c, 0) == Some(d)
    ensures MatchAt(Mention, c, 4) == Some(Hit(4, d, c[4..d]))
  {
    HeaderStart(c);
    TableWordAtHeader(c);
    IdEndIgnoreCase(c, 10);
    assert MentionEnd(c, 4) == Some(d);
    MatchAtMention(c, 4);
  }

  /** In a text that starts with a header, the first mention is the header's `Table <id>`. */
  lemma HeaderMention(c: string, d: nat)
    requires HeaderColon(c, 0) == Some(d)
    ensures FindIter(Mention, c, 0) != [] && FindIter(Mention, c, 0)[0] == Hit(4, d, c[4..d])
  {
    HeaderStart(c);
    var ms := Attempts(Mention, c);
    forall k | 0 <= k < 4 ensures ms[k].None? {
      AttemptAt(Mention, c, k);
      assert c[k] == c[..10][k];
      NoMentionAt(c, k);
    }
    ScanSkip(ms, 0, 4);
    MentionAtHeader(c, d);
    AttemptAt(Mention, c, 4);
    ScanAt(ms, 4, Hit(4, d, c[4..d]));
  }

  /** The case-sensitive id search finds the whole identifier of `Table <id>`. */
  lemma IdSearchInMention(g: string, x: string)
    requires g == "Table " + x && IsTableId(x, false)
    ensures Search(IdSearch, g) == Some(Hit(0, |g|, x))
  {
    MatchAtTableId("Table ", false, g, 0);
    assert g[0..6] == "Table ";
    LiteralAtExact("Table ", g, 0);
    assert g[6..6 + |x|] == x;
    IdEndComplete(g, 6, x, false);
    assert g[6..|g|] == x;
    SearchAtStart(IdSearch, g, Hit(0, |g|, x));
  }

  /** The reference of the first mention, when it resolves, is the first reference. */
  lemma {:induction false} RefsFromFirst(hits: seq<Hit>, tableMap: map<string, string>, r: CrossRef)
    requires hits != [] && RefOf(hits[0], tableMap) == Some(r)
    ensures RefsFrom(hits, tableMap) != [] && RefsFrom(hits, tableMap)[0] == r
    decreases |hits|
  {
    var prefix := hits[..|hits| - 1];
    if prefix != [] {
      assert prefix[0] == hits[0];
      RefsFromFirst(prefix, tableMap, r);
    } else {
      assert hits == [hits[0]];
    }
  }

  /**
   * A text that starts with the header of a known table refers to that table
   * first, through the `Table <id>` inside the header.
   */
  lemma HeaderRefersToItself(c: string, tableMap: map<string, string>, d: nat)
    requires HeaderColon(c, 0) == Some(d) && c[10..d] in tableMap
    ensures var refs := RefsOf(c, tableMap);
      refs != [] && refs[0] == CrossRef(c[10..d], tableMap[c[10..d]], "Table " + c[10..d])
  {
    HeaderMention(c, d);
    var x := c[10..d];
    HeaderStart(c);
    IdEndSound(c, 10, false);
    assert c[4..d] == c[..10][4..] + x;
    IdSearchInMention(c[4..d], x);
    RefsFromFirst(FindIter(Mention, c, 0), tableMap, CrossRef(x, tableMap[x], "Table " + x));
  }

  /** A table section whose text starts with the header that names it. */
  predicate HeaderedSection(s: Section) {
    s.TableSection? && HeaderColon(s.content, 0).Some? && s.tableId == s.content[10..HeaderColon(s.content, 0).value]
  }

  /** A chunk whose text starts with the header of the table it carries the id of. */
  predicate OpensWithOwnHeader(c: Document) {
    HeaderColon(c.content, 0).Some? && c.metadata.tableId == Some(c.content[10..HeaderColon(c.content, 0).value])
  }

  /** The whole table and every part start with the table's header. */
  lemma TableSectionChunksOpen(sec: Section, base: Metadata, chunkSize: int, k: nat)
    requires HeaderedSection(sec) && k < |TableSectionChunks(sec, base, chunkSize)|
    ensures OpensWithOwnHeader(TableSectionChunks(sec, base, chunkSize)[k])
  {
    if |sec.content| > chunkSize {
      var rows := PartRows(sec, chunkSize)[k];
      assert TableSectionChunks(sec, base, chunkSize)[k] == PartDoc(sec, base, HeaderText(sec.content), rows, k + 1);
      PartOpens(sec.content, rows);
    }
  }

  /** A part starts with the header of the table it was cut from. */
  lemma PartOpens(c: string, rows: seq<string>)
    requires HeaderColon(c, 0).Some?
    ensures var p := PartContent(HeaderText(c), rows);
      HeaderColon(p, 0) == HeaderColon(c, 0) && p[10..HeaderColon(c, 0).value] == c[10..HeaderColon(c, 0).value]
  {
    var d := HeaderColon(c, 0).value;
    var p := PartContent(HeaderText(c), rows);
    PartStartsWithFirstLine(c, rows);
    FirstLineHoldsHeader(c, d);
    var first := Split(c, '\n')[0];
    assert p[..d + 1] == p[..|first|][..d + 1] == first[..d + 1] == c[..d + 1];
    HeaderOfPrefix(c, p, d);
  }

  lemma {:induction false} ChunksOfSectionsOpen(sections: seq<Section>, base: Metadata, chunkSize: int, baseSplit: string -> seq<string>)
    requires forall s | s in sections && s.TableSection? :: HeaderedSection(s)
    ensures forall c | c in ChunksOfSections(sections, base, chunkSize, baseSplit) && IsTableChunk(c) :: OpensWithOwnHeader(c)
    decreases |sections|
  {
    if sections != [] {
      var prefix := sections[..|sections| - 1];
      var last := sections[|sections| - 1];
      ChunksOfSectionsOpen(prefix, base, chunkSize, baseSplit);
      var here := SectionChunks(last, base, chunkSize, baseSplit);
      if !last.TableSection? {
        TextSectionChunksSound(last, base, baseSplit(last.content));
      }
      forall c | c in here && IsTableChunk(c) ensures OpensWithOwnHeader(c) {
        var k :| 0 <= k < |here| && here[k] == c;
        TableSectionChunksOpen(last, base, chunkSize, k);
      }
    }
  }

  /** Every table section of a document starts with the header that names it. */
  lemma DocumentSectionsHeadered(text: string)
    ensures forall s | s in DocumentSections(text) && s.TableSection? :: HeaderedSection(s)
  {
    var tables := TablesOf(text);
    TableSectionOfSomeTable(text, tables, 0);
    forall s | s in DocumentSections(text) && s.TableSection? ensures HeaderedSection(s) {
      var t :| t in tables && s == TableSectionOf(t);
      var i :| 0 <= i < |tables| && tables[i] == t;
      BlockOfTable(text, i);
      IdOfHeader(t.content, HeaderColon(t.content, 0).value);
    }
  }

  /** Before the annotation pass, every table chunk of a document starts with its own header. */
  lemma TableChunkOpens(doc: Document, chunkSize: int, baseSplit: string -> seq<string>, k: nat)
    requires k < |ChunksOfSections(DocumentSections(doc.content), doc.metadata, chunkSize, baseSplit)|
    requires IsTableChunk(ChunksOfSections(DocumentSections(doc.content), doc.metadata, chunkSize, baseSplit)[k])
    ensures OpensWithOwnHeader(ChunksOfSections(DocumentSections(doc.content), doc.metadata, chunkSize, baseSplit)[k])
  {
    var sections := DocumentSections(doc.content);
    DocumentSectionsHeadered(doc.content);
    ChunksOfSectionsOpen(sections, doc.metadata, chunkSize, baseSplit);
    var chunks := ChunksOfSections(sections, doc.metadata, chunkSize, baseSplit);
    assert chunks[k] in chunks;
  }

  /**
   * Every table chunk of a document begins with `### Table <id>`, so its first
   * cross reference is to its own table, found through `Table <id>`.
   */
  lemma TableChunksReferToThemselves(doc: Document, chunkSize: int, baseSplit: string -> seq<string>, k: nat)
    requires k < |DocumentChunks(doc, chunkSize, baseSplit)|
    requires IsTableChunk(DocumentChunks(doc, chunkSize, baseSplit)[k])
    ensures var c := DocumentChunks(doc, chunkSize, baseSplit)[k];
      && c.metadata.tableId.Some?
      && c.metadata.crossReferences != []
      && c.metadata.crossReferences[0].referencedTable == c.metadata.tableId.value
      && c.metadata.crossReferences[0].referenceText == "Table " + c.metadata.tableId.value
  {
    var chunks := ChunksOfSections(DocumentSections(doc.content), doc.metadata, chunkSize, baseSplit);
    TableChunkOpens(doc, chunkSize, baseSplit, k);
    OpeningChunkRefersToItself(chunks, k);
  }

  /** A table chunk that opens with its own header refers first to itself once annotated. */
  lemma OpeningChunkRefersToItself(chunks: seq<Document>, k: nat)
    requires k < |chunks| && IsTableChunk(chunks[k]) && OpensWithOwnHeader(chunks[k])
    ensures var c := CrossReferenced(chunks)[k];
      && c.metadata.tableId.Some?
      && c.metadata.crossReferences != []
      && c.metadata.crossReferences[0].referencedTable == c.metadata.tableId.value
      && c.metadata.crossReferences[0].referenceText == "Table " + c.metadata.tableId.value
  {
    CrossReferencedSound(chunks, k);
    var c := chunks[k];
    var d := HeaderColon(c.content, 0).value;
    var id := c.content[10..d];
    assert TableChunkWithId(chunks[k], id);
    TableMapKeys(chunks, id);
    HeaderRefersToItself(c.content, TableMap(chunks), d);
  }



  // ---------------------------------------------------------------------------
  // Table summary
  // ---------------------------------------------------------------------------

  /** One entry of the `tables` dictionary of the summary. */
  datatype TableInfo = TableInfo(title: Option<string>, parts: nat, totalContentLength: nat)

  /** What `get_table_summary` returns. */
  datatype TableSummary = TableSummary(totalTables: nat, tables: map<string, TableInfo>, crossReferencesFound: nat)

  /** The `tables` dictionary after the chunks `chunks`. */
  function SummaryTables(chunks: seq<Document>): map<string, TableInfo>
    decreases |chunks|
  {
    if chunks == [] then map[]
    else
      var m := SummaryTables(chunks[..|chunks| - 1]);
      var c := chunks[|chunks| - 1];
      if IsTableChunk(c) && HasTableId(c) then
        var id := c.metadata.tableId.value;
        var e := if id in m then m[id] else TableInfo(c.metadata.tableTitle, 0, 0);
        m[id := e.(parts := e.parts + 1, totalContentLength := e.totalContentLength + |c.content|)]
      else m
  }

  /** The number of chunks whose `cross_references` is set. */
  function CountWithRefs(chunks: seq<Document>): nat
    decreases |chunks|
  {
    if chunks == [] then 0
    else CountWithRefs(chunks[..|chunks| - 1]) + (if chunks[|chunks| - 1].metadata.crossReferences != [] then 1 else 0)
  }

  function TableSummaryOf(chunks: seq<Document>): TableSummary {
    var tables := SummaryTables(chunks);
    TableSummary(|tables|, tables, CountWithRefs(chunks))
  }

  /** `get_table_summary`. */
  method GetTableSummary(chunks: seq<Document>) returns (summary: TableSummary)
    ensures summary == TableSummaryOf(chunks)
  {
    var tables: map<string, TableInfo> := map[];
    for i := 0 to |chunks|
      invariant tables == SummaryTables(chunks[..i])
    {
      assert chunks[..i + 1][..i] == chunks[..i];
      var chunk := chunks[i];
      if IsTableChunk(chunk) {
        var tableId := chunk.metadata.tableId;
        if tableId.Some? && tableId.value != "" && tableId.value !in tables {
          tables := tables[tableId.value := TableInfo(chunk.metadata.tableTitle, 0, 0)];
        }
        if tableId.Some? && tableId.value != "" {
          var e := tables[tableId.value];
          tables := tables[tableId.value := e.(parts := e.parts + 1, totalContentLength := e.totalContentLength + |chunk.content|)];
        }
      }
    }
    assert chunks[..|chunks|] == chunks;
    var found := 0;
    for i := 0 to |chunks|
      invariant found == CountWithRefs(chunks[..i])
    {
      assert chunks[..i + 1][..i] == chunks[..i];
      if chunks[i].metadata.crossReferences != [] {
        found := found + 1;
      }
    }
    assert chunks[..|chunks|] == chunks;
    summary := TableSummary(|tables|, tables, found);
  }

  /** The table chunks with the id `id`, in order. */
  function ChunksWithId(chunks: seq<Document>, id: string): seq<Document>
    decreases |chunks|
  {
    if chunks == [] then []
    else
      var c := chunks[|chunks| - 1];
      ChunksWithId(chunks[..|chunks| - 1], id) + (if TableChunkWithId(c, id) then [c] else [])
  }

  function TotalLength(chunks: seq<Document>): nat
    decreases |chunks|
  {
    if chunks == [] then 0 else TotalLength(chunks[..|chunks| - 1]) + |chunks[|chunks| - 1].content|
  }

  lemma TotalLengthAppend(a: seq<Document>, c: Document)
    ensures TotalLength(a + [c]) == TotalLength(a) + |c.content|
  {
    assert (a + [c])[..|a + [c]| - 1] == a;
  }

  /**
   * The summary has an entry exactly for each id some table chunk carries; it
   * counts that id's chunks as its parts, sums their lengths, and keeps the
   * title of the first of them.
   */
  lemma {:induction false} SummaryEntry(chunks: seq<Document>, id: string)
    ensures var m := SummaryTables(chunks);
      var cs := ChunksWithId(chunks, id);
      && (id in m <==> cs != [])
      && (id in m ==>
            m[id] == TableInfo(cs[0].metadata.tableTitle, |cs|, TotalLength(cs)))
    decreases |chunks|
  {
    if chunks != [] {
      var prefix := chunks[..|chunks| - 1];
      var c := chunks[|chunks| - 1];
      SummaryEntry(prefix, id);
      var cs := ChunksWithId(prefix, id);
      if TableChunkWithId(c, id) {
        assert ChunksWithId(chunks, id) == cs + [c];
        var m := SummaryTables(prefix);
        var e := if id in m then m[id] else TableInfo(c.metadata.tableTitle, 0, 0);
        assert SummaryTables(chunks) == m[id := e.(parts := e.parts + 1, totalContentLength := e.totalContentLength + |c.content|)];
        TotalLengthAppend(cs, c);
        if cs != [] {
          assert (cs + [c])[0] == cs[0];
        } else {
          assert TotalLength([c]) == |c.content| by {
            assert [c][..0] == [];
          }
        }
      } else {
        assert ChunksWithId(chunks, id) == cs;
        assert id in SummaryTables(chunks) <==> id in SummaryTables(prefix);
        if id in SummaryTables(prefix) {
          assert SummaryTables(chunks)[id] == SummaryTables(prefix)[id];
        }
      }
    }
  }

  /** The ids of the summary are the truthy ids of the table chunks, and `total_tables` counts them. */
  lemma SummaryIds(chunks: seq<Document>)
    ensures var summary := TableSummaryOf(chunks);
      && summary.totalTables == |summary.tables.Keys|
      && forall id :: id in summary.tables <==> exists i :: 0 <= i < |chunks| && TableChunkWithId(chunks[i], id)
  {
    forall id ensures id in SummaryTables(chunks) <==> exists i :: 0 <= i < |chunks| && TableChunkWithId(chunks[i], id) {
      SummaryEntry(chunks, id);
      ChunksWithIdSome(chunks, id);
    }
  }

  /** Some table chunk carries `id` exactly when there are chunks with it. */
  lemma {:induction false} ChunksWithIdSome(chunks: seq<Document>, id: string)
    ensures ChunksWithId(chunks, id) != [] <==> exists i :: 0 <= i < |chunks| && TableChunkWithId(chunks[i], id)
    decreases |chunks|
  {
    if chunks != [] {
      var prefix := chunks[..|chunks| - 1];
      ChunksWithIdSome(prefix, id);
      if exists i :: 0 <= i < |prefix| && TableChunkWithId(prefix[i], id) {
        var i :| 0 <= i < |prefix| && TableChunkWithId(prefix[i], id);
        assert chunks[i] == prefix[i];
      }
      if exists i :: 0 <= i < |chunks| && TableChunkWithId(chunks[i], id) {
        var i :| 0 <= i < |chunks| && TableChunkWithId(chunks[i], id);
        if i < |prefix| {
          assert prefix[i] == chunks[i];
        }
      }
    }
  }

  /** `cross_references_found` never exceeds the number of chunks. */
  lemma {:induction false} CountWithRefsBound(chunks: seq<Document>)
    ensures CountWithRefs(chunks) <= |chunks|
    ensures CountWithRefs(chunks) == 0 <==> forall i :: 0 <= i < |chunks| ==> chunks[i].metadata.crossReferences == []
    decreases |chunks|
  {
    if chunks != [] {
      var prefix := chunks[..|chunks| - 1];
      CountWithRefsBound(prefix);
      assert forall i :: 0 <= i < |prefix| ==> prefix[i] == chunks[i];
    }
  }

  // ---------------------------------------------------------------------------
  // Documents
  // ---------------------------------------------------------------------------

  /** The chunks of one section. */
  function SectionChunks(sec: Section, base: Metadata, chunkSize: int, baseSplit: string -> seq<string>): seq<Document> {
    if sec.TableSection? then TableSectionChunks(sec, base, chunkSize)
    else TextSectionChunks(sec, base, baseSplit(sec.content))
  }

  /** The chunks of the sections, in section order. */
  function ChunksOfSections(sections: seq<Section>, base: Metadata, chunkSize: int, baseSplit: string -> seq<string>): seq<Document>
    decreases |sections|
  {
    if sections == [] then []
    else ChunksOfSections(sections[..|sections| - 1], base, chunkSize, baseSplit)
         + SectionChunks(sections[|sections| - 1], base, chunkSize, baseSplit)
  }

  /** The sections of a document's text. */
  function DocumentSections(text: string): seq<Section> {
    SectionsFrom(text, TablesOf(text), 0)
  }

  /** The chunks of one document. */
  function DocumentChunks(doc: Document, chunkSize: int, baseSplit: string -> seq<string>): seq<Document> {
    CrossReferenced(ChunksOfSections(DocumentSections(doc.content), doc.metadata, chunkSize, baseSplit))
  }

  /** `_split_single_document`. */
  method SplitSingleDocument(doc: Document, chunkSize: int, baseSplit: string -> seq<string>) returns (chunks: seq<Document>)
    ensures chunks == DocumentChunks(doc, chunkSize, baseSplit)
  {
    var text := doc.content;
    var metadata := doc.metadata;
    var tables := ExtractTables(text);
    var sections := SplitAroundTables(text, tables);
    chunks := [];
    for i := 0 to |sections|
      invariant chunks == ChunksOfSections(sections[..i], metadata, chunkSize, baseSplit)
    {
      assert sections[..i + 1][..i] == sections[..i];
      var sectionChunks := ProcessSection(sections[i], metadata, chunkSize, baseSplit);
      chunks := chunks + sectionChunks;
    }
    assert sections[..|sections|] == sections;
    chunks := EnhanceWithCrossReferences(chunks);
  }

  /** The body of the section loop of `_split_single_document`: a table or a text section. */
  method ProcessSection(section: Section, metadata: Metadata, chunkSize: int, baseSplit: string -> seq<string>)
    returns (sectionChunks: seq<Document>)
    ensures sectionChunks == SectionChunks(section, metadata, chunkSize, baseSplit)
  {
    if section.TableSection? {
      sectionChunks := ProcessTableSection(section, metadata, chunkSize);
    } else {
      sectionChunks := ProcessTextSection(section, metadata, baseSplit);
    }
  }

  /** The chunks of all documents, in document order. */
  function AllChunks(docs: seq<Document>, chunkSize: int, baseSplit: string -> seq<string>): seq<Document>
    decreases |docs|
  {
    if docs == [] then []
    else AllChunks(docs[..|docs| - 1], chunkSize, baseSplit) + DocumentChunks(docs[|docs| - 1], chunkSize, baseSplit)
  }

  /** `split_documents`. */
  method SplitDocuments(documents: seq<Document>, chunkSize: int, baseSplit: string -> seq<string>) returns (allChunks: seq<Document>)
    ensures allChunks == AllChunks(documents, chunkSize, baseSplit)
  {
    allChunks := [];
    for i := 0 to |documents|
      invariant allChunks == AllChunks(documents[..i], chunkSize, baseSplit)
    {
      assert documents[..i + 1][..i] == documents[..i];
      var chunks := SplitSingleDocument(documents[i], chunkSize, baseSplit);
      allChunks := allChunks + chunks;
    }
    assert documents[..|documents|] == documents;
  }

  /** A table chunk carries the id and title of one of the table sections. */
  predicate FromTableSection(c: Document, sections: seq<Section>) {
    exists s :: s in sections && s.TableSection? && c.metadata.tableId == Some(s.tableId) && c.metadata.tableTitle == Some(s.tableTitle)
  }

  lemma {:induction false} ChunksOfSectionsTables(sections: seq<Section>, base: Metadata, chunkSize: int, baseSplit: string -> seq<string>)
    ensures forall c | c in ChunksOfSections(sections, base, chunkSize, baseSplit) && IsTableChunk(c) :: FromTableSection(c, sections)
    decreases |sections|
  {
    if sections != [] {
      var prefix := sections[..|sections| - 1];
      var last := sections[|sections| - 1];
      ChunksOfSectionsTables(prefix, base, chunkSize, baseSplit);
      var here := SectionChunks(last, base, chunkSize, baseSplit);
      if last.TableSection? {
        TableSectionChunksSound(last, base, chunkSize);
      } else {
        TextSectionChunksSound(last, base, baseSplit(last.content));
      }
      forall c | c in ChunksOfSections(sections, base, chunkSize, baseSplit) && IsTableChunk(c)
        ensures FromTableSection(c, sections)
      {
        if c in here {
          var k :| 0 <= k < |here| && here[k] == c;
        } else {
          var s :| s in prefix && s.TableSection? && c.metadata.tableId == Some(s.tableId) && c.metadata.tableTitle == Some(s.tableTitle);
          assert s in sections;
        }
      }
    }
  }

  /**
   * Every table chunk of a document names one of the tables extracted from its
   * text, by id and title.
   */
  lemma DocumentTableChunks(doc: Document, chunkSize: int, baseSplit: string -> seq<string>, k: nat)
    requires k < |DocumentChunks(doc, chunkSize, baseSplit)|
    requires IsTableChunk(DocumentChunks(doc, chunkSize, baseSplit)[k])
    ensures var c := DocumentChunks(doc, chunkSize, baseSplit)[k];
      exists t :: t in TablesOf(doc.content) && c.metadata.tableId == Some(t.id) && c.metadata.tableTitle == Some(t.title)
  {
    var sections := DocumentSections(doc.content);
    var chunks := ChunksOfSections(sections, doc.metadata, chunkSize, baseSplit);
    CrossReferencedSound(chunks, k);
    var c := chunks[k];
    ChunksOfSectionsTables(sections, doc.metadata, chunkSize, baseSplit);
    assert c in chunks;
    var s :| s in sections && s.TableSection? && c.metadata.tableId == Some(s.tableId) && c.metadata.tableTitle == Some(s.tableTitle);
    TableSectionOfSomeTable(doc.content, TablesOf(doc.content), 0);
    var t :| t in TablesOf(doc.content) && s == TableSectionOf(t);
  }
}
