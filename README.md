# Banking RAG document pipeline, modelled in Dafny

This project models the text-processing core of a retrieval-augmented question-answering system for banking documents: loan handbooks, rate sheets and regulatory manuals.

- **Table-aware splitter.** Finds `### Table <id>: <title>` blocks and their pipe rows in a document. It cuts the document into text and table sections, keeps a table whole when it fits the chunk size and otherwise splits it by rows under a repeated header. It then annotates every chunk with the table mentions it resolves and summarises the tables per id.
- **Document loader.** Classifies a file by its name and tags every chunk with banking content types and the literal numbers it holds: percentage rates, dollar amounts, and month or year terms. It also summarises a list of chunks and filters it three ways.
- **Evaluator.** Four rule-based scores of an answer: numerical accuracy, table context, compliance wording and cross-reference resolution. It also partitions an answer's expected content into found and missing.
- **Question helpers.** The helpers around the question-answering chain: question enhancement, answer post-processing and cross-reference resolution.

## Shape of the model

- **Regular expressions** are modelled exactly, with no line-based approximation.
  - Every pattern the core uses is one constructor of `Regex.Pattern`. `Regex.MatchAt` gives the match at a position, with Python's lazy and greedy backtracking worked out by hand.
  - `Regex.FindIter` is the leftmost non-overlapping scan behind `re.finditer` and `re.findall`. `Regex.Search` is its first hit, which is `re.search`.
  - The table pattern is compiled with `re.DOTALL`, so the model's title and row parts may cross newlines as the source's can.
- **Chunks** are `Documents.Document(content, metadata)`. `Metadata` is a record with one `Option` field per key the core reads or writes. A key that is absent, or set to Python's `None`, is `None`.
- **Loops that build lists** become methods with loop invariants, each proved equal to a specification function: `ExtractTables`, `SplitAroundTables`, `SplitLargeTable`, `EnhanceWithCrossReferences`, `GetTableSummary`, `EnhanceBankingMetadata`, `GetDocumentSummary` and the `evaluate` methods. The properties the source promises are lemmas about those functions.
- **In-place updates, and values computed without one:**
  - The source updates chunk metadata in place, in `_enhance_with_cross_references` and `_enhance_banking_metadata`. No chunk is shared between two positions of the list, so the model returns the updated list.
  - The pure filters are functions, and so is `_post_process_answer`.
- **Dictionaries and sets:**
  - Counters are `map`s, tallied by `Collections.TallyInto`.
  - The table summary is a map from id to entry.
  - The cross-reference requests are a `set`, walked in an unspecified order by a `:|` choice.
- **Numbers** are exact: rates and amounts are `real`, terms are `nat`, and scores are `real`.

## Model

| member | source | states |
|---|---|---|
| Regex.FindIterSound | src/document_processors/table_aware_splitter.py:87 | every finditer hit lies in the text, starts at or after the scan start, is the match at its own start, and the hits do not overlap and come in increasing order |
| Regex.ScanComplete | src/document_processors/table_aware_splitter.py:87 | a position covered by no hit of the scan has no match, so the scan skips nothing |
| Regex.SearchSound | src/document_processors/table_aware_splitter.py:93-94 | `re.search` returns a match that lies in the text and is the match at its own start |
| Regex.SearchAfterMisses | src/document_processors/table_aware_splitter.py:93-94 | when nothing matches before position q and something matches at q, `re.search` returns the match at q |
| Regex.IdEndSound | src/document_processors/table_aware_splitter.py:93 | the text an identifier match consumes is an identifier `[A-Z]?\d+\.\d+`, with the letter case-insensitive only under IGNORECASE |
| Regex.IdEndComplete | src/document_processors/table_aware_splitter.py:93 | an identifier that is not followed by another digit is consumed in full, since `\d+` is greedy |
| Regex.TableIdHit | src/document_processors/table_aware_splitter.py:270 | a case-sensitive `<prefix>([A-Z]?\d+\.\d+)` match spans the prefix followed by its captured identifier |
| Text.Split | src/document_processors/table_aware_splitter.py:174 | `split('\n')` yields at least one piece, no piece holds the separator, and joining the pieces with it gives back the text |
| Text.StripSound | src/document_processors/table_aware_splitter.py:118 | `strip()` leaves no whitespace at either end and returns a piece of its input: the input is leading whitespace, the result, then trailing whitespace, and the result is empty exactly when the input is all whitespace |
| Tables.BlockContent | src/document_processors/table_aware_splitter.py:36-39 | a table-pattern match starts with a `### Table <id>:` header at index 0 and ends with a newline |
| Tables.ExtractTables | src/document_processors/table_aware_splitter.py:83-108 | the list built in the finditer loop is the specification list `TablesOf`: one table per match, in match order |
| Tables.TablesOrdered | src/document_processors/table_aware_splitter.py:87-106 | every table has `start < end <= len(text)` and `content == text[start:end]`, and tables come in increasing order without overlap |
| Tables.BlockOfTable | src/document_processors/table_aware_splitter.py:87-98 | each table's content is a table block, and its id and title are the first identifier search and the first title search over that content |
| Tables.TableHeaderId | src/document_processors/table_aware_splitter.py:93-94 | a table's id is the identifier of its own `### Table <id>:` header line, never `"Unknown"` |
| Tables.TableTitleLine | src/document_processors/table_aware_splitter.py:97-98 | when a space follows the header colon, the title is the rest of the header line after `": "`, and it holds no newline |
| Tables.SplitAroundTables | src/document_processors/table_aware_splitter.py:110-147 | the cursor loop builds the specification sections `SectionsFrom(text, tables, 0)` |
| Tables.PreTableSection | src/document_processors/table_aware_splitter.py:116-124 | nothing exactly when the gap from the cursor to the table is all whitespace (empty when the table starts at the cursor); otherwise one `Text before <id>` section holding that gap stripped |
| Tables.PostTableSection | src/document_processors/table_aware_splitter.py:137-145 | nothing exactly when the text after the cursor is all whitespace (or there is none); otherwise one `Text after tables` section holding it stripped |
| Tables.OneSectionPerTable | src/document_processors/table_aware_splitter.py:115-135 | the table sections, in order, are exactly one section per table, with verbatim content, id, title and context `Table <id>: <title>` |
| Tables.TableSectionOfSomeTable | src/document_processors/table_aware_splitter.py:126-133 | every table section comes from one of the given tables |
| Tables.TextSectionsStripped | src/document_processors/table_aware_splitter.py:116-145 | every text section is non-empty, has no whitespace at either end and occurs in the text |
| Tables.GapSectionSound | src/document_processors/table_aware_splitter.py:117-124 | a gap gives no section exactly when it is all whitespace, and otherwise one section holding the gap stripped |
| Tables.GapsAt | src/document_processors/table_aware_splitter.py:113-139 | the i-th gap runs from the end of the table before it (or the cursor) to the start of the i-th table (or the end of the text) |
| Tables.SectionsRoundTrip | src/document_processors/table_aware_splitter.py:110-147 | for tables laid out in order: the gaps and the tables' contents, alternated, give back the text from the cursor on; the sections are, in order, each non-blank gap stripped and labelled `Text before <id>` or `Text after tables`, around each table's section |
| Tables.SectionsOfText | src/document_processors/table_aware_splitter.py:60-64 | for the tables `_extract_tables` finds: the document is its gaps and tables alternated, and its sections are the stripped non-blank gaps around the table sections |
| Splitter.ProcessTableSection | src/document_processors/table_aware_splitter.py:149-169 | a table that fits is one intact `table` chunk with the section's context; every chunk carries the table's id and title and is within `chunk_size` unless it holds a single data row |
| Splitter.TableSectionChunksSound | src/document_processors/table_aware_splitter.py:155-169 | a table of at most `chunk_size` characters yields one `table` chunk with its content and context unchanged; every chunk of a table is tabular and carries its id and title; a chunk over the size holds a single data line |
| TableParts.KindOf | src/document_processors/table_aware_splitter.py:181-192 | the line classes: a separator row is a pipe line containing `---`, a title line starts with `###`, and a row line is any other pipe line |
| TableParts.ClassifyCount | src/document_processors/table_aware_splitter.py:181-192 | classification puts every line in either the header lines or the data lines, losing none |
| TableParts.DataLinesAreRows | src/document_processors/table_aware_splitter.py:181-192 | no data line is a title line or a separator row, since a `---` row is always header |
| TableParts.InHeaderUntilSeparator | src/document_processors/table_aware_splitter.py:184-187 | the header phase ends exactly when a separator row has been seen |
| TableParts.NoSeparatorNoData | src/document_processors/table_aware_splitter.py:187-192 | without a separator row every line is a header line and there are no data lines |
| TableParts.TrailingEmptyLineIsData | src/document_processors/table_aware_splitter.py:174-192 | the `''` that follows the final newline becomes the last data line once a separator row has been seen |
| TableParts.PackInvariant | src/document_processors/table_aware_splitter.py:198-221 | the packing loop's invariant: the running size is the header size plus the buffered rows, and the flushed groups followed by the buffer are the rows so far; no group is empty; every group fits or holds one row; each flush happened because the next row did not fit |
| TableParts.GroupsSound | src/document_processors/table_aware_splitter.py:201-234 | the groups concatenate to the data lines, none is empty, there are none exactly when there are no data lines, each fits or holds one row, and each is closed only when the next row would overflow |
| TableParts.PartContentSize | src/document_processors/table_aware_splitter.py:206 | a part is `header_text + '\n'` followed by its rows, and its length is the running size at flush time |
| TableParts.SplitLargeTable | src/document_processors/table_aware_splitter.py:171-236 | the classify-and-pack loops build the specification parts `LargeTableChunks` |
| TableParts.LargeTableChunksSound | src/document_processors/table_aware_splitter.py:194-236 | one part per group: each starts with the header and a newline; the parts' rows concatenate to the data lines; each is at most `chunk_size` long unless it holds one row; each is a `table_part` with the table's id and title and context `<context> (Part k)` for k = 1, 2, … in order; no data lines means no parts |
| Splitter.ProcessTextSection | src/document_processors/table_aware_splitter.py:238-252 | the pieces of the base splitter, labelled as the specification `TextSectionChunks` |
| Splitter.TextSectionChunksSound | src/document_processors/table_aware_splitter.py:245-250 | each piece keeps its content and becomes a `text` chunk with the section's context; `part` is i+1 when there are several pieces and None when there is one; no other metadata changes |
| Splitter.TableMapKeys | src/document_processors/table_aware_splitter.py:257-262 | an id is a key of the table map exactly when some `table` or `table_part` chunk has that non-empty id |
| Splitter.TableMapLastWins | src/document_processors/table_aware_splitter.py:262 | the map holds the title of the last chunk with each id |
| Splitter.EnhanceWithCrossReferences | src/document_processors/table_aware_splitter.py:254-283 | the two loops build the specification `CrossReferenced(chunks)` |
| Splitter.CrossReferencedSound | src/document_processors/table_aware_splitter.py:265-281 | each chunk keeps its content and all other metadata; its references are the resolved mentions in match order, set only when there are some; each names a key of the table map with that key's title, a valid id, and a mention text that occurs in the chunk and contains `Table <id>` |
| Splitter.IdSearchSound | src/document_processors/table_aware_splitter.py:270-272 | the case-sensitive identifier search, when it succeeds, yields an identifier that follows `Table ` in the mention |
| Splitter.NoRefsWithoutUpperT | src/document_processors/table_aware_splitter.py:267-273 | a chunk with no capital `T` resolves no reference, even though the IGNORECASE mention pattern may match in it |
| Splitter.LowerCaseMentionFound | src/document_processors/table_aware_splitter.py:40-43 | the IGNORECASE mention pattern matches all of `see table 1.1` |
| Splitter.GetTableSummary | src/document_processors/table_aware_splitter.py:285-310 | the counting loop builds the specification summary `TableSummaryOf` |
| Splitter.SummaryEntry | src/document_processors/table_aware_splitter.py:289-301 | an id has an entry exactly when some table chunk carries it; the entry holds the first such chunk's title, the number of such chunks and the sum of their lengths |
| Splitter.SummaryIds | src/document_processors/table_aware_splitter.py:303-305 | `total_tables` is the number of distinct ids, and the ids are those of the table chunks |
| Splitter.CountWithRefsBound | src/document_processors/table_aware_splitter.py:306-309 | `cross_references_found` is at most the number of chunks and is 0 exactly when no chunk has references |
| Splitter.SplitSingleDocument | src/document_processors/table_aware_splitter.py:55-81 | extract tables, split around them, process each section in order, then add cross-references: the specification `DocumentChunks` |
| Splitter.SplitDocuments | src/document_processors/table_aware_splitter.py:45-53 | the concatenation of every document's chunks, in document order |
| Splitter.DocumentTableChunks | src/document_processors/table_aware_splitter.py:55-81 | every table chunk of a document carries the id and title of a table extracted from that document |
| Tables.FirstLineHoldsHeader | src/document_processors/table_aware_splitter.py:37 | the first line of a table block holds its whole `### Table <id>:` header |
| TableParts.PartStartsWithFirstLine | src/document_processors/table_aware_splitter.py:195-206 | every part of a large table starts with the table's first line, the one with its header |
| Splitter.NoMentionAt | src/document_processors/table_aware_splitter.py:40-43 | no mention can start where the next three characters are not `see`, `ref` or `tab` in any case |
| Splitter.OnlyLeadingMention | src/document_processors/table_aware_splitter.py:267 | a mention at the start of a text, with no other mention starting after it, is the only match `finditer` yields |
| Splitter.HeaderRefersToItself | src/document_processors/table_aware_splitter.py:265-278 | when a chunk starts with a `### Table <id>:` header and the id is in the table map, its first reference is to that table, with mention text `Table <id>` |
| Splitter.TableChunksReferToThemselves | src/document_processors/table_aware_splitter.py:254-281 | every table chunk of a document, whole or part, has references, and the first one names the chunk's own table by the text `Table <id>` |
| Example.SampleTables | src/document_processors/table_aware_splitter.py:83-108 | the sample document (header `### Table 1.1: Personal Loan Rates`, four rows, then a sentence) has exactly one table: id `1.1`, its title, the header and rows as content, from index 0 to the end of the rows |
| Example.SampleSections | src/document_processors/table_aware_splitter.py:110-147 | the sample's sections are the table and then the text after it, with context `Text after tables` |
| Example.SentenceRefs | src/document_processors/table_aware_splitter.py:265-278 | the sentence `See Table 1.1 for details.` resolves exactly one reference, `See Table 1.1` to table `1.1` |
| Example.SampleDocumentChunks | src/document_processors/table_aware_splitter.py:55-81 | with chunk size 1000, the sample gives two chunks: the intact table, whose first reference is to itself, and the sentence as a text chunk whose only reference is to table `1.1` |
| Loader.IdentifyDocumentType | src/document_processors/banking_document_loader.py:105-118 | the entry of the first key, in declaration order, that occurs in the lowercased file name; the `general_banking`/`low` default when none does |
| Loader.ContentTypesSound | src/document_processors/banking_document_loader.py:127-149 | a label is listed exactly when its keyword test passes, and the labels come in test order without duplicates |
| Loader.TableChunksAreTabular | src/document_processors/banking_document_loader.py:142-143 | a `table` or `table_part` chunk is labelled `tabular_data` |
| Loader.EnhancedTabular | src/document_processors/banking_document_loader.py:142-143 | `tabular_data` is listed exactly when the chunk type is `table` or `table_part` |
| Loader.NumericalDataSound | src/document_processors/banking_document_loader.py:159-182 | numerical data is present exactly when rates, amounts or terms were found, and it holds exactly the non-empty lists |
| Loader.ExtractNumericalData | src/document_processors/banking_document_loader.py:154-182 | the chunk keeps its content; `numerical_data` is set to the found numbers when there are any, and otherwise the chunk is unchanged |
| Loader.EnhanceChunk | src/document_processors/banking_document_loader.py:123-152 | one chunk's update, proved equal to the specification `Enhanced` |
| Loader.EnhanceBankingMetadata | src/document_processors/banking_document_loader.py:120-152 | every chunk updated in order, as `Enhanced` maps it |
| Loader.EnhancedKeeps | src/document_processors/banking_document_loader.py:120-152 | an updated chunk keeps its content and every other key, gets its content types, gets numerical data when any number was found, and is `tabular_data` exactly when it is a table chunk |
| Loader.GetDocumentSummary | src/document_processors/banking_document_loader.py:184-214 | the counting loops build the specification summary `DocumentSummaryOf` |
| Loader.CountContentTypes | src/document_processors/banking_document_loader.py:197-199 | the inner loop adds one to the counter of every label of a chunk |
| Loader.DocumentTypesSound | src/document_processors/banking_document_loader.py:192-194 | the document-type counts sum to `total_chunks`; a type is counted exactly when some chunk has it, with `unknown` for a missing type; each count is that type's number of occurrences |
| Loader.ContentTypeCountsSound | src/document_processors/banking_document_loader.py:196-199 | the content-type counts sum to the number of labels over all chunks, and each count is that label's number of occurrences |
| Loader.SourceFilesBound | src/document_processors/banking_document_loader.py:209 | `files_loaded` is the number of distinct `source_file` values, including a missing one: at most the chunk count, and at least 1 for a non-empty list |
| Loader.CountNumericalBound | src/document_processors/banking_document_loader.py:210-213 | `chunks_with_numerical_data` is at most the chunk count and is 0 exactly when no chunk has numerical data |
| Loader.DocumentsByType | src/document_processors/banking_document_loader.py:221-226 | an order-preserving filter: a chunk is kept exactly when its `document_type` is the one asked for |
| Loader.DocumentsWithTables | src/document_processors/banking_document_loader.py:228-233 | an order-preserving filter: a chunk is kept exactly when it is a `table` or `table_part` chunk |
| Loader.CrossReferencedDocuments | src/document_processors/banking_document_loader.py:235-240 | an order-preserving filter: a chunk is kept exactly when it has cross-references |
| Collections.Filter | src/document_processors/banking_document_loader.py:223-226 | a list comprehension with a condition: every kept element satisfies the condition and comes from the list, and every element that satisfies it is kept |
| Collections.TallyIntoCount | src/document_processors/banking_document_loader.py:194 | the `d[k] = d.get(k, 0) + 1` counter loop: a key is present exactly when it was there or was counted, and its count grows by its number of occurrences |
| Numbers.RateCapture | src/document_processors/banking_document_loader.py:162-165 | each rate is a number `\d+\.?\d*` taken from the text, followed after optional whitespace by `%` |
| Numbers.RatesNonNegative | src/evaluation/langsmith_evaluator.py:63-66 | no captured rate is negative, since the pattern has no sign |
| Numbers.AmountCapture | src/document_processors/banking_document_loader.py:168-173 | each dollar capture follows a `$`, and is 1–3 digits, then `,ddd` groups, then an optional `.dd` |
| Numbers.AmountWithoutSeparators | src/document_processors/banking_document_loader.py:168-173 | `$10000` yields the single amount 100, because `\d{1,3}` is not anchored at a separator |
| Numbers.AmountWithSeparatorAndCents | src/document_processors/banking_document_loader.py:168-173 | `$1,250.50` yields the single amount 1250.5, its digits with the comma removed |
| Numbers.TermCapture | src/document_processors/banking_document_loader.py:176-179 | each term is a run of digits from the text followed, after optional whitespace, by `month` or `year` in any case |
| Evaluator.NonNegative | src/evaluation/langsmith_evaluator.py:56 | `max(0, score)` is non-negative, at least the score, and the score itself when the score is non-negative |
| Evaluator.EvaluateAccuracy | src/evaluation/langsmith_evaluator.py:21-61 | the score is `max(0, 1 - penalty)`, the feedback is the notes in order, and the three counts are the numbers of rates, amounts and terms found |
| Evaluator.CheckRates | src/evaluation/langsmith_evaluator.py:39-42 | the rate loop appends one note per rate outside [0, 50] and subtracts 0.2 for each |
| Evaluator.CheckAmounts | src/evaluation/langsmith_evaluator.py:45-48 | the amount loop appends one note per amount at most 0 and subtracts 0.2 for each |
| Evaluator.RateNotesSound | src/evaluation/langsmith_evaluator.py:39-42 | a note names a questionable rate from the list; there is none exactly when every rate is within [0, 50] |
| Evaluator.AmountNotesSound | src/evaluation/langsmith_evaluator.py:45-48 | a note names an amount at most 0 from the list; there is none exactly when every amount is positive |
| Evaluator.AccuracyScoreSound | src/evaluation/langsmith_evaluator.py:35-56 | the score is in [0, 1], is 1 exactly when there is no note, a questionable rate is always above 50, and an invalid amount is always 0 |
| Evaluator.EvaluateTableContext | src/evaluation/langsmith_evaluator.py:87-124 | the score is `max(0, 1 - penalty)`, the feedback is the notes joined by `; ` or `No table context issues`, and the two lists are the found and broken references |
| Evaluator.TableContextScoreSound | src/evaluation/langsmith_evaluator.py:96-120 | the score is in [0, 1], and it is 1 exactly when there is no broken reference and either the text shows table structure or it has no table reference |
| Evaluator.TableReferenceSound | src/evaluation/langsmith_evaluator.py:126-129 | each table reference is a valid identifier that follows `Table ` in the text |
| Evaluator.BrokenReferenceSound | src/evaluation/langsmith_evaluator.py:131-135 | each broken reference is the 9-character `see Table` text, in any case, at a position where no identifier follows |
| Evaluator.BrokenReferenceComplete | src/evaluation/langsmith_evaluator.py:131-135 | every position holding a `see Table` with no identifier after it yields a broken reference |
| Evaluator.ChecksFailWhen | src/evaluation/langsmith_evaluator.py:183-209 | each compliance check fails exactly when a trigger term occurs in the lowercased input and none of its phrases occurs in the lowercased answer, or none of the citations in the uppercased answer |
| Evaluator.NoInputPasses | src/evaluation/langsmith_evaluator.py:183-209 | with no input every compliance check passes |
| Evaluator.RunChecks | src/evaluation/langsmith_evaluator.py:170-175 | the loop subtracts 0.25 per failed check and gives one note per check, in order |
| Evaluator.FailedCountBound | src/evaluation/langsmith_evaluator.py:170-175 | the number of failed checks is at most the number of checks and is 0 exactly when all pass |
| Evaluator.EvaluateCompliance | src/evaluation/langsmith_evaluator.py:151-181 | the score is `max(0, 1 - 0.25 × failed)`, the feedback joins the check notes, and `compliance_checks` maps each check name to its pass flag |
| Evaluator.ComplianceScoreSound | src/evaluation/langsmith_evaluator.py:170-181 | the compliance score is `1 - 0.25 × failed`, which lies in [0.25, 1] and is 1 exactly when all three checks pass |
| Evaluator.CrossRefRequestSound | src/evaluation/langsmith_evaluator.py:255-267 | each request is an identifier that occurs in the input |
| Evaluator.PrefixedIdSound | src/evaluation/langsmith_evaluator.py:258-265 | each identifier found by one request pattern (`see Table`, `refer to Table` or `Table`) is valid under IGNORECASE and occurs in the text |
| Evaluator.NoRequestsInEmpty | src/evaluation/langsmith_evaluator.py:232-235 | the empty input holds no request, so treating it as falsy changes nothing |
| Evaluator.IndicatorResolvesAll | src/evaluation/langsmith_evaluator.py:269-274 | an answer containing any indicator resolves every request |
| Evaluator.CheckRequests | src/evaluation/langsmith_evaluator.py:237-248 | the loop over the request set subtracts 0.5 per unresolved request, writes one note per unresolved request, then the resolved-count note |
| Evaluator.EvaluateCrossReference | src/evaluation/langsmith_evaluator.py:219-253 | with no input or no requests the score is 1 with `No cross-reference issues`; otherwise the score is `max(0, 1 - 0.5 × unresolved)` and the notes are the unresolved notes followed by the count note |
| Evaluator.CrossReferenceScoreSound | src/evaluation/langsmith_evaluator.py:238-251 | the cross-reference score is in [0, 1] and is 1 exactly when every request is resolved |
| Evaluator.PartitionContent | src/evaluation/langsmith_evaluator.py:422-429 | the loop's found list is the order-preserving filter of items whose lowercase form occurs in the lowercased answer, and its missing list is the filter of the rest |
| Evaluator.CheckExpectedContent | src/evaluation/langsmith_evaluator.py:419-438 | found and missing as above, score `len(found)/len(expected)` or 1.0 for an empty list, and the `Found k/n` feedback |
| Evaluator.ExpectedContentPartition | src/evaluation/langsmith_evaluator.py:422-429 | found and missing together are a permutation of the expected items |
| Evaluator.ExpectedContentScore | src/evaluation/langsmith_evaluator.py:431 | the coverage score is in [0, 1] and is 1 exactly when nothing is missing |
| Rag.FirstApplicable | src/banking_rag.py:211-214 | the first term index, in dict order, whose term occurs in the lowercased question while its context does not |
| Rag.EnhanceQuestion | src/banking_rag.py:197-216 | the loop with `break` computes the specification `EnhancedQuestion` as written |
| Rag.EnhancedQuestionSound | src/banking_rag.py:210-216 | the question comes back unchanged exactly when no term applies, and otherwise with exactly the suffix `(related to <context>)` of the first applicable term; the original is always a prefix |
| Rag.CapitalisedContextIgnored | src/banking_rag.py:203-212 | for the two mixed-case contexts the `context not in enhanced` guard never holds them out, so the term alone decides |
| Rag.RepeatedContextAsWritten | src/banking_rag.py:207-213 | `fdic regulatory requirement` already holds its context in lower case, yet the code appends `(related to FDIC regulatory requirement)` |
| Rag.CorrectedNeverRepeatsContext | src/banking_rag.py:212 | with the context lowercased before the test, the appended context never already occurs in the question |
| Rag.CorrectedLeavesFdicQuestion | src/banking_rag.py:207-213 | with the correction, `fdic regulatory requirement` is left unchanged |
| Rag.PostProcessShape | src/banking_rag.py:218-231 | the answer is extended only by appending: first the rate note when needed, then the compliance note when needed |
| Rag.DisclaimerSaysSubjectToChange | src/banking_rag.py:224 | the rate note contains `subject to change` |
| Rag.NoteSaysConsult | src/banking_rag.py:229 | the compliance note contains `consult` |
| Rag.DisclaimerNeverSaysConsult | src/banking_rag.py:224-228 | the rate note holds no `consult` in any case |
| Rag.DisclaimerKeepsConsult | src/banking_rag.py:224-228 | appending the rate note changes nothing for the `consult` test |
| Rag.PostProcessMentions | src/banking_rag.py:222-229 | after post-processing, a rate question's answer says `subject to change` and a regulatory question's answer says `consult` |
| Rag.PostProcessIdempotent | src/banking_rag.py:218-231 | post-processing twice for the same question gives the same answer as once |
| Rag.ResolveCrossReference | src/banking_rag.py:253-262 | None exactly when no chunk's non-empty `table_id` contains the reference; otherwise the first such chunk in list order |
| Rag.EmptyReferenceResolvesAnyTable | src/banking_rag.py:259 | the empty reference is contained in every non-empty `table_id`, so it resolves to the first chunk that has one |

## Left out

- File and clock I/O are not part of this model: `load_all_documents`, `_load_single_file` and `_get_timestamp` read the filesystem and the clock.
- The external services around the core are not part of this model, nor is console output:
  - the LangChain, Chroma, Ollama, HuggingFace and LangSmith wiring in `banking_rag.py` outside the three helpers;
  - `LangSmithEvaluator.__init__`, `run_evaluation` and `_generate_evaluation_report`;
  - `demo.py`, `main.py` and `config.py`.
- The `reference` and `**kwargs` parameters of the `evaluate` methods are never read, so the model omits them.
- The base `RecursiveCharacterTextSplitter` is outside the core, so it is a parameter `baseSplit`. Only the labelling of its pieces is modelled, with no size or overlap guarantee.
- The character classes are simplified:
  - `\d`, `lower()`, `upper()` and IGNORECASE use the ASCII letters and digits only;
  - `\s` and `strip()` use Python's set of ASCII and Unicode whitespace, listed in `Text.IsSpace`, with no Unicode case folding.
- Python floats are idealised. Rates, amounts and scores are exact reals. `float(...)` parsing, rounding, and the float formatting in feedback strings are not modelled.
- `json.dumps` serialisation is not modelled: `cross_references` and `numerical_data` are typed lists and records.
- `Loader.EnhanceBankingMetadata`: `content_types` is the typed list, not its `', '.join`. `Loader.GetDocumentSummary` therefore counts the list directly instead of splitting the joined string back; the labels are non-empty and hold no `, `, so the two counts agree.
- `Evaluator.EvaluateAccuracy`: the feedback is the list of typed notes, not the `"; "`-joined string. The notes show floats with Python's float formatting.
- `Evaluator.CheckRequests`: the source walks a Python set in hash order. The model states the set of unresolved notes and their count, not their order.
- `Evaluator.EvaluateCrossReference`: the same ordering caveat applies to its notes.
- `Tables.TableTitleLine`: it states the title only when a space follows the header colon. Otherwise `TitleOf` is still the exact search, which may find a later line or fall back to `"Untitled Table"`, but no lemma describes that case.
- `Regex.MatchAt` for the table pattern: the models of Python's backtracking are exact only for the constructs the core's patterns use. There is no general regular-expression engine.
- `Example.SampleDocumentChunks`: the base splitter is a parameter, so the lemma requires that it keeps the 26-character sentence as one piece. For the table chunk it states only the first reference; the mention `Table 1.1` inside the header is not traced any further.

## Findings

| source | as written | input that shows it | evidently intended | confidence | as-written member | corrected member |
|---|---|---|---|---|---|---|
| src/banking_rag.py:210-213 | `context not in enhanced` compares the mixed-case contexts `Annual Percentage Rate` and `FDIC regulatory requirement` with the lowercased question, so for `apr` and `fdic` the guard never holds | `fdic regulatory requirement` becomes `fdic regulatory requirement (related to FDIC regulatory requirement)` | compare the lowercased context, so a question that already states its context is left alone | not executed | Rag.RepeatedContextAsWritten | Rag.CorrectedNeverRepeatsContext |
