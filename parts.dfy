/**
 * `TableAwareTextSplitter._split_large_table`: a table too large for one chunk
 * is cut into `table_part` chunks, each one the header lines followed by a run
 * of data rows packed greedily up to `chunk_size`.
 */
module TableParts {
  import opened Wrappers
  import opened Text
  import opened Documents
  import opened Tables

  /** A header separator row: it starts with `|` and contains `---`. */
  predicate IsSeparatorRow(line: string) {
    StartsWith(line, "|") && Contains(line, "---")
  }

  /** The header lines, the data lines and the `in_header` flag after some lines. */
  datatype Layout = Layout(header: seq<string>, data: seq<string>, inHeader: bool)

  /** How the classification loop sees a line. */
  datatype LineKind = TitleLine | SeparatorLine | RowLine | OtherLine

  function KindOf(line: string): (k: LineKind)
    ensures k == SeparatorLine <==> IsSeparatorRow(line)
    ensures k == TitleLine <==> StartsWith(line, "###")
    ensures k == RowLine <==> StartsWith(line, "|") && !IsSeparatorRow(line)
  {
    if StartsWith(line, "###") then
      assert line[0] == '#';
      assert !StartsWith(line, "|");
      TitleLine
    else if IsSeparatorRow(line) then SeparatorLine
    else if StartsWith(line, "|") then RowLine
    else OtherLine
  }

  /** One step of the classification loop. */
  function ClassifyLine(st: Layout, line: string): Layout {
    match KindOf(line)
    case TitleLine => st.(header := st.header + [line])
    case SeparatorLine => Layout(st.header + [line], st.data, false)
    case _ => if st.inHeader then st.(header := st.header + [line]) else st.(data := st.data + [line])
  }

  /** The classification of `lines`, line by line from the first. */
  function Classify(lines: seq<string>): Layout
    decreases |lines|
  {
    if lines == [] then Layout([], [], true)
    else ClassifyLine(Classify(lines[..|lines| - 1]), lines[|lines| - 1])
  }

  /** Every line goes to exactly one of the two lists. */
  lemma {:induction false} ClassifyCount(lines: seq<string>)
    ensures |Classify(lines).header| + |Classify(lines).data| == |lines|
    decreases |lines|
  {
    if lines != [] {
      ClassifyCount(lines[..|lines| - 1]);
    }
  }

  /** The title line and the separator rows always stay in the header. */
  lemma {:induction false} DataLinesAreRows(lines: seq<string>)
    ensures forall l | l in Classify(lines).data :: !StartsWith(l, "###") && !IsSeparatorRow(l)
    decreases |lines|
  {
    if lines != [] {
      DataLinesAreRows(lines[..|lines| - 1]);
    }
  }

  /** The header phase ends exactly at the first separator row. */
  lemma {:induction false} InHeaderUntilSeparator(lines: seq<string>)
    ensures Classify(lines).inHeader <==> forall k :: 0 <= k < |lines| ==> !IsSeparatorRow(lines[k])
    decreases |lines|
  {
    if lines != [] {
      var prefix := lines[..|lines| - 1];
      InHeaderUntilSeparator(prefix);
      assert forall k :: 0 <= k < |prefix| ==> prefix[k] == lines[k];
    }
  }

  /** Without a separator row every line is a header line. */
  lemma {:induction false} NoSeparatorNoData(lines: seq<string>)
    requires forall k :: 0 <= k < |lines| ==> !IsSeparatorRow(lines[k])
    ensures Classify(lines) == Layout(lines, [], true)
    decreases |lines|
  {
    if lines != [] {
      var prefix := lines[..|lines| - 1];
      var last := lines[|lines| - 1];
      assert forall k :: 0 <= k < |prefix| ==> prefix[k] == lines[k];
      NoSeparatorNoData(prefix);
      HeaderLineKept(Layout(prefix, [], true), last);
      assert prefix + [last] == lines;
    }
  }

  /** While the header phase lasts, a line that is not a separator row joins the header. */
  lemma HeaderLineKept(st: Layout, line: string)
    requires st.inHeader && !IsSeparatorRow(line)
    ensures ClassifyLine(st, line) == st.(header := st.header + [line])
  {
  }

  /**
   * Once a separator row has been seen, a last line that is empty (what
   * `split('\n')` yields after a final newline) becomes the last data line.
   */
  lemma TrailingEmptyLineIsData(lines: seq<string>)
    requires |lines| > 0 && lines[|lines| - 1] == ""
    requires exists k :: 0 <= k < |lines| - 1 && IsSeparatorRow(lines[k])
    ensures Classify(lines).data == Classify(lines[..|lines| - 1]).data + [""]
  {
    var prefix := lines[..|lines| - 1];
    var k :| 0 <= k < |lines| - 1 && IsSeparatorRow(lines[k]);
    assert prefix[k] == lines[k];
    InHeaderUntilSeparator(prefix);
    assert !StartsWith("", "###") && !StartsWith("", "|");
  }

  /** The size a run of lines adds to a part: each line and its newline. */
  function Size(lines: seq<string>): nat
    decreases |lines|
  {
    if lines == [] then 0 else Size(lines[..|lines| - 1]) + |lines[|lines| - 1]| + 1
  }

  lemma {:induction false} SizeAppend(a: seq<string>, b: seq<string>)
    ensures Size(a + b) == Size(a) + Size(b)
    decreases |b|
  {
    if b == [] {
      assert a + b == a;
    } else {
      assert (a + b)[..|a + b| - 1] == a + b[..|b| - 1];
      SizeAppend(a, b[..|b| - 1]);
    }
  }

  /** `'\n'.join(lines)` is one newline shorter than the lines' size. */
  lemma {:induction false} JoinSize(lines: seq<string>)
    requires lines != []
    ensures |Join("\n", lines)| + 1 == Size(lines)
    decreases |lines|
  {
    if |lines| > 1 {
      JoinSize(lines[1..]);
      SizeAppend([lines[0]], lines[1..]);
      assert [lines[0]] + lines[1..] == lines;
      assert Size([lines[0]]) == |lines[0]| + 1 by {
        assert [lines[0]][..0] == [];
      }
    } else {
      assert lines[..0] == [];
    }
  }

  /** The parts flushed so far, the rows of the open part and `current_size`. */
  datatype Packing = Packing(groups: seq<seq<string>>, current: seq<string>, size: int)

  /** One step of the packing loop: flush the open part when the row would overflow it. */
  function PackLine(st: Packing, line: string, headerSize: nat, chunkSize: int): Packing {
    var lineSize := |line| + 1;
    if st.size + lineSize > chunkSize && st.current != [] then
      Packing(st.groups + [st.current], [line], headerSize + lineSize)
    else
      Packing(st.groups, st.current + [line], st.size + lineSize)
  }

  /** The packing state after the data lines `data`. */
  function Pack(data: seq<string>, headerSize: nat, chunkSize: int): Packing
    decreases |data|
  {
    if data == [] then Packing([], [], headerSize)
    else PackLine(Pack(data[..|data| - 1], headerSize, chunkSize), data[|data| - 1], headerSize, chunkSize)
  }

  /** The data lines of every part, the open one flushed at the end when it is not empty. */
  function Groups(data: seq<string>, headerSize: nat, chunkSize: int): seq<seq<string>> {
    var st := Pack(data, headerSize, chunkSize);
    if st.current != [] then st.groups + [st.current] else st.groups
  }

  /** The lines of all parts, in order. */
  function Flatten(groups: seq<seq<string>>): seq<string>
    decreases |groups|
  {
    if groups == [] then [] else Flatten(groups[..|groups| - 1]) + groups[|groups| - 1]
  }

  /** A part fits `chunk_size` (header, newline and rows) unless it holds a single row. */
  predicate Fits(g: seq<string>, headerSize: nat, chunkSize: int) {
    |g| <= 1 || headerSize + Size(g) <= chunkSize
  }

  /** The rows that follow part `k`: the next part, or the open one after the last. */
  function NextRows(st: Packing, k: nat): seq<string>
    requires k < |st.groups|
  {
    if k + 1 < |st.groups| then st.groups[k + 1] else st.current
  }

  /** What the packing loop keeps true. */
  predicate PackInv(st: Packing, data: seq<string>, headerSize: nat, chunkSize: int) {
    && st.size == headerSize + Size(st.current)
    && Flatten(st.groups) + st.current == data
    && (st.current == [] <==> data == [])
    && Fits(st.current, headerSize, chunkSize)
    && (forall k :: 0 <= k < |st.groups| ==> st.groups[k] != [] && Fits(st.groups[k], headerSize, chunkSize))
    && (forall k :: 0 <= k < |st.groups| ==>
          NextRows(st, k) != [] && headerSize + Size(st.groups[k]) + |NextRows(st, k)[0]| + 1 > chunkSize)
  }

  lemma SizeOne(line: string)
    ensures Size([line]) == |line| + 1
  {
    assert [line][..0] == [];
  }

  /** A flush keeps the packing invariant. */
  lemma PackFlush(st: Packing, data: seq<string>, line: string, headerSize: nat, chunkSize: int)
    requires PackInv(st, data, headerSize, chunkSize)
    requires st.size + |line| + 1 > chunkSize && st.current != []
    ensures PackInv(Packing(st.groups + [st.current], [line], headerSize + |line| + 1), data + [line], headerSize, chunkSize)
  {
    var st' := Packing(st.groups + [st.current], [line], headerSize + |line| + 1);
    SizeOne(line);
    assert st'.groups[..|st'.groups| - 1] == st.groups;
    assert Flatten(st'.groups) == Flatten(st.groups) + st.current;
    forall k | 0 <= k < |st'.groups|
      ensures NextRows(st', k) != [] && headerSize + Size(st'.groups[k]) + |NextRows(st', k)[0]| + 1 > chunkSize
    {
      if k < |st.groups| {
        assert NextRows(st', k)[0] == NextRows(st, k)[0];
      }
    }
  }

  /** Adding a row to the open part keeps the packing invariant. */
  lemma PackAppend(st: Packing, data: seq<string>, line: string, headerSize: nat, chunkSize: int)
    requires PackInv(st, data, headerSize, chunkSize)
    requires !(st.size + |line| + 1 > chunkSize && st.current != [])
    ensures PackInv(Packing(st.groups, st.current + [line], st.size + |line| + 1), data + [line], headerSize, chunkSize)
  {
    var st' := Packing(st.groups, st.current + [line], st.size + |line| + 1);
    SizeOne(line);
    SizeAppend(st.current, [line]);
    assert (Flatten(st.groups) + st.current) + [line] == Flatten(st.groups) + (st.current + [line]);
    forall k | 0 <= k < |st'.groups|
      ensures NextRows(st', k) != [] && headerSize + Size(st'.groups[k]) + |NextRows(st', k)[0]| + 1 > chunkSize
    {
      assert NextRows(st', k)[0] == NextRows(st, k)[0];
    }
  }

  lemma {:induction false} PackInvariant(data: seq<string>, headerSize: nat, chunkSize: int)
    ensures PackInv(Pack(data, headerSize, chunkSize), data, headerSize, chunkSize)
    decreases |data|
  {
    if data != [] {
      var prefix := data[..|data| - 1];
      var line := data[|data| - 1];
      assert data == prefix + [line];
      PackInvariant(prefix, headerSize, chunkSize);
      var st := Pack(prefix, headerSize, chunkSize);
      assert Pack(data, headerSize, chunkSize) == PackLine(st, line, headerSize, chunkSize);
      if st.size + |line| + 1 > chunkSize && st.current != [] {
        PackFlush(st, prefix, line, headerSize, chunkSize);
        assert PackLine(st, line, headerSize, chunkSize) == Packing(st.groups + [st.current], [line], headerSize + |line| + 1);
      } else {
        PackAppend(st, prefix, line, headerSize, chunkSize);
        assert PackLine(st, line, headerSize, chunkSize) == Packing(st.groups, st.current + [line], st.size + |line| + 1);
      }
    }
  }

  /**
   * What the parts' rows are: together, in order, exactly the data lines; none
   * is empty; there is none without data; each fits `chunk_size` unless it
   * holds a single row; and each but the last was flushed only because the next
   * row would not fit.
   */
  lemma GroupsSound(data: seq<string>, headerSize: nat, chunkSize: int)
    ensures var gs := Groups(data, headerSize, chunkSize);
      && Flatten(gs) == data
      && (gs == [] <==> data == [])
      && (forall k :: 0 <= k < |gs| ==> gs[k] != [] && Fits(gs[k], headerSize, chunkSize))
      && (forall k :: 0 <= k < |gs| - 1 ==> headerSize + Size(gs[k]) + |gs[k + 1][0]| + 1 > chunkSize)
  {
    var st := Pack(data, headerSize, chunkSize);
    PackInvariant(data, headerSize, chunkSize);
    var gs := Groups(data, headerSize, chunkSize);
    if st.current != [] {
      assert gs[..|gs| - 1] == st.groups;
      assert Flatten(gs) == data;
      forall k | 0 <= k < |gs| - 1 ensures headerSize + Size(gs[k]) + |gs[k + 1][0]| + 1 > chunkSize {
        assert NextRows(st, k) == gs[k + 1];
      }
    } else {
      assert st.groups == [];
    }
  }

  /** The text of a part: the header, a newline and the part's rows joined by newlines. */
  function PartContent(headerText: string, rows: seq<string>): string {
    headerText + "\n" + Join("\n", rows)
  }

  /** The `k`-th part of a table section (`k` counted from 1). */
  function PartDoc(sec: Section, base: Metadata, headerText: string, rows: seq<string>, k: nat): Document
    requires sec.TableSection?
  {
    Document(PartContent(headerText, rows), base.(
      chunkType := Some(TablePartChunk),
      tableId := Some(sec.tableId),
      tableTitle := Some(sec.tableTitle),
      context := Some(sec.context + " (Part " + NatToString(k) + ")")))
  }

  function PartDocs(sec: Section, base: Metadata, headerText: string, groups: seq<seq<string>>): (ds: seq<Document>)
    requires sec.TableSection?
    ensures |ds| == |groups|
  {
    seq(|groups|, k requires 0 <= k < |groups| => PartDoc(sec, base, headerText, groups[k], k + 1))
  }

  lemma PartDocsAppend(sec: Section, base: Metadata, headerText: string, groups: seq<seq<string>>, rows: seq<string>)
    requires sec.TableSection?
    ensures PartDocs(sec, base, headerText, groups + [rows])
         == PartDocs(sec, base, headerText, groups) + [PartDoc(sec, base, headerText, rows, |groups| + 1)]
  {
  }

  /** The header text of a table: its header lines joined by newlines. */
  function HeaderText(content: string): string {
    Join("\n", Classify(Split(content, '\n')).header)
  }

  /** The first line always joins the header, whatever it holds: `in_header` starts out true. */
  lemma {:induction false} ClassifyFirst(lines: seq<string>)
    requires lines != []
    ensures Classify(lines).header != [] && Classify(lines).header[0] == lines[0]
    decreases |lines|
  {
    var prefix := lines[..|lines| - 1];
    if prefix != [] {
      ClassifyFirst(prefix);
      assert prefix[0] == lines[0];
    }
  }

  lemma JoinStarts(sep: string, parts: seq<string>)
    requires parts != []
    ensures StartsWith(Join(sep, parts), parts[0])
  {
    if |parts| > 1 {
      var j := Join(sep, parts);
      assert j == parts[0] + (sep + Join(sep, parts[1..]));
      assert j[..|parts[0]|] == parts[0];
    }
  }

  /** Every part begins with the table's first line, which is the first header line. */
  lemma PartStartsWithFirstLine(content: string, rows: seq<string>)
    ensures StartsWith(PartContent(HeaderText(content), rows), Split(content, '\n')[0])
  {
    var lines := Split(content, '\n');
    ClassifyFirst(lines);
    var h := HeaderText(content);
    JoinStarts("\n", Classify(lines).header);
    var p := PartContent(h, rows);
    assert p == h + ("\n" + Join("\n", rows));
    assert p[..|lines[0]|] == h[..|lines[0]|];
  }

  /** The data lines of a table. */
  function DataLines(content: string): seq<string> {
    Classify(Split(content, '\n')).data
  }

  /** The rows of each part of a table section. */
  function PartRows(sec: Section, chunkSize: int): seq<seq<string>> {
    Groups(DataLines(sec.content), |HeaderText(sec.content)|, chunkSize)
  }

  /** The `table_part` chunks of a table section. */
  function LargeTableChunks(sec: Section, base: Metadata, chunkSize: int): seq<Document>
    requires sec.TableSection?
  {
    PartDocs(sec, base, HeaderText(sec.content), PartRows(sec, chunkSize))
  }

  /** `_split_large_table`. */
  method SplitLargeTable(sec: Section, base: Metadata, chunkSize: int) returns (chunks: seq<Document>)
    requires sec.TableSection?
    ensures chunks == LargeTableChunks(sec, base, chunkSize)
  {
    var lines := Split(sec.content, '\n');
    var headerLines: seq<string> := [];
    var dataLines: seq<string> := [];
    var inHeader := true;
    for i := 0 to |lines|
      invariant Layout(headerLines, dataLines, inHeader) == Classify(lines[..i])
    {
      assert lines[..i + 1][..i] == lines[..i];
      var line := lines[i];
      if StartsWith(line, "###") {
        headerLines := headerLines + [line];
      } else if StartsWith(line, "|") && Contains(line, "---") {
        headerLines := headerLines + [line];
        inHeader := false;
      } else if StartsWith(line, "|") && inHeader {
        headerLines := headerLines + [line];
      } else if StartsWith(line, "|") {
        dataLines := dataLines + [line];
      } else if inHeader {
        headerLines := headerLines + [line];
      } else {
        dataLines := dataLines + [line];
      }
    }
    assert lines[..|lines|] == lines;

    chunks := [];
    var headerText := Join("\n", headerLines);
    var currentChunkLines: seq<string> := [];
    var currentSize: int := |headerText|;
    ghost var groups: seq<seq<string>> := [];
    for i := 0 to |dataLines|
      invariant Packing(groups, currentChunkLines, currentSize) == Pack(dataLines[..i], |headerText|, chunkSize)
      invariant chunks == PartDocs(sec, base, headerText, groups)
    {
      assert dataLines[..i + 1][..i] == dataLines[..i];
      var line := dataLines[i];
      var lineSize := |line| + 1;
      if currentSize + lineSize > chunkSize && currentChunkLines != [] {
        var chunkContent := headerText + "\n" + Join("\n", currentChunkLines);
        var metadata := base.(
          chunkType := Some(TablePartChunk),
          tableId := Some(sec.tableId),
          tableTitle := Some(sec.tableTitle),
          context := Some(sec.context + " (Part " + NatToString(|chunks| + 1) + ")"));
        assert Document(chunkContent, metadata) == PartDoc(sec, base, headerText, currentChunkLines, |groups| + 1);
        PartDocsAppend(sec, base, headerText, groups, currentChunkLines);
        chunks := chunks + [Document(chunkContent, metadata)];
        groups := groups + [currentChunkLines];
        currentChunkLines := [];
        currentSize := |headerText|;
      }
      currentChunkLines := currentChunkLines + [line];
      currentSize := currentSize + lineSize;
    }
    assert dataLines[..|dataLines|] == dataLines;

    if currentChunkLines != [] {
      var chunkContent := headerText + "\n" + Join("\n", currentChunkLines);
      var metadata := base.(
        chunkType := Some(TablePartChunk),
        tableId := Some(sec.tableId),
        tableTitle := Some(sec.tableTitle),
        context := Some(sec.context + " (Part " + NatToString(|chunks| + 1) + ")"));
      assert Document(chunkContent, metadata) == PartDoc(sec, base, headerText, currentChunkLines, |groups| + 1);
      PartDocsAppend(sec, base, headerText, groups, currentChunkLines);
      chunks := chunks + [Document(chunkContent, metadata)];
      groups := groups + [currentChunkLines];
    }
    assert groups == PartRows(sec, chunkSize);
  }

  /** A part's text is the header, a newline and its rows: as long as the header plus the rows' size. */
  lemma PartContentSize(headerText: string, rows: seq<string>)
    requires rows != []
    ensures |PartContent(headerText, rows)| == |headerText| + Size(rows)
    ensures StartsWith(PartContent(headerText, rows), headerText + "\n")
  {
    JoinSize(rows);
  }

  /**
   * The `table_part` chunks of a large table: there are none exactly when the
   * table has no data rows; their rows are, together and in order, the data
   * rows; each repeats the header lines and then a newline; each is within
   * `chunk_size` unless it holds a single row; each is labelled `table_part`
   * with the table's id and title and "(Part k)" numbered from 1.
   */
  lemma LargeTableChunksSound(sec: Section, base: Metadata, chunkSize: int)
    requires sec.TableSection?
    ensures var chunks := LargeTableChunks(sec, base, chunkSize);
      var rows := PartRows(sec, chunkSize);
      && |chunks| == |rows|
      && (chunks == [] <==> DataLines(sec.content) == [])
      && Flatten(rows) == DataLines(sec.content)
      && forall k :: 0 <= k < |chunks| ==>
        && StartsWith(chunks[k].content, HeaderText(sec.content) + "\n")
        && (|chunks[k].content| <= chunkSize || |rows[k]| == 1)
        && chunks[k].metadata.chunkType == Some(TablePartChunk)
        && chunks[k].metadata.tableId == Some(sec.tableId)
        && chunks[k].metadata.tableTitle == Some(sec.tableTitle)
        && chunks[k].metadata.context == Some(sec.context + " (Part " + NatToString(k + 1) + ")")
  {
    var chunks := LargeTableChunks(sec, base, chunkSize);
    var rows := PartRows(sec, chunkSize);
    var hdr := HeaderText(sec.content);
    GroupsSound(DataLines(sec.content), |hdr|, chunkSize);
    forall k | 0 <= k < |chunks|
      ensures && StartsWith(chunks[k].content, hdr + "\n")
              && (|chunks[k].content| <= chunkSize || |rows[k]| == 1)
              && chunks[k].metadata.chunkType == Some(TablePartChunk)
              && chunks[k].metadata.tableId == Some(sec.tableId)
              && chunks[k].metadata.tableTitle == Some(sec.tableTitle)
              && chunks[k].metadata.context == Some(sec.context + " (Part " + NatToString(k + 1) + ")")
    {
      assert chunks[k] == PartDoc(sec, base, hdr, rows[k], k + 1);
      assert rows[k] != [] && Fits(rows[k], |hdr|, chunkSize);
      PartContentSize(hdr, rows[k]);
    }
  }
}
