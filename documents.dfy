/**
 * The chunks that flow through the pipeline: LangChain `Document`s whose
 * metadata dictionary is written out as a record. A key that may be absent
 * (or hold `None`) is an `Option`; the values the code stores as JSON strings
 * (`cross_references`, `numerical_data`) and as comma-joined strings
 * (`content_types`) are kept as typed lists.
 */
module Documents {
  import opened Wrappers

  /** The `chunk_type` metadata value. */
  datatype ChunkType = TextChunk | TableChunk | TablePartChunk

  /** One entry of the `cross_references` list. */
  datatype CrossRef = CrossRef(referencedTable: string, tableTitle: string, referenceText: string)

  /** The labels of `content_types`, in the order the loader tests them. */
  datatype ContentType = LoanProducts | RatesPricing | Regulatory | TabularData | Calculations

  /** The `numerical_data` dictionary: a key is present only when its list is non-empty. */
  datatype NumericalData = NumericalData(
    rates: Option<seq<real>>,
    dollarAmounts: Option<seq<real>>,
    terms: Option<seq<nat>>)

  /**
   * The metadata keys the core reads or writes. `crossReferences` is the
   * empty list when the key is absent (the code only ever stores a non-empty one).
   */
  datatype Metadata = Metadata(
    sourceFile: Option<string>,
    documentType: Option<string>,
    chunkType: Option<ChunkType>,
    tableId: Option<string>,
    tableTitle: Option<string>,
    context: Option<string>,
    part: Option<nat>,
    crossReferences: seq<CrossRef>,
    contentTypes: Option<seq<ContentType>>,
    numericalData: Option<NumericalData>)

  datatype Document = Document(content: string, metadata: Metadata)

  /** `chunk_type in ['table', 'table_part']`. */
  predicate IsTableChunk(d: Document) {
    d.metadata.chunkType == Some(TableChunk) || d.metadata.chunkType == Some(TablePartChunk)
  }

  /** The `table_id` of a chunk when it is truthy (present and non-empty). */
  predicate HasTableId(d: Document) {
    d.metadata.tableId.Some? && d.metadata.tableId.value != ""
  }
}
