/**
 * `BankingDocumentLoader` without its file I/O: the document type read off a
 * file name, the content types and literal numbers attached to every chunk,
 * the summary of a list of chunks and the three filters over such a list.
 */
module Loader {
  import opened Wrappers
  import opened Text
  import opened Documents
  import opened Numbers
  import opened Collections
  import Splitter

  // ---------------------------------------------------------------------------
  // Document type
  // ---------------------------------------------------------------------------

  /** One value of `doc_type_mapping`: `type`, `contains` and `priority`. */
  datatype DocTypeInfo = DocTypeInfo(docType: string, contains: seq<string>, priority: string)

  /** `doc_type_mapping`, in its declaration order. */
  const DocTypeMapping: seq<(string, DocTypeInfo)> := [
    ("loan_handbook", DocTypeInfo("loan_products", ["rates", "terms", "amortization"], "high")),
    ("regulatory_manual", DocTypeInfo("compliance", ["regulations", "requirements", "procedures"], "critical")),
    ("rate_sheet", DocTypeInfo("current_rates", ["rates", "pricing", "fees"], "high")),
    ("policy", DocTypeInfo("internal_policy", ["procedures", "guidelines", "standards"], "medium"))
  ]

  /** The type of a file whose name holds none of the keys. */
  const DefaultDocType := DocTypeInfo("general_banking", ["general"], "low")

  /** The `i`-th key of the mapping occurs in the lowercased file name. */
  predicate KeyIn(filenameLower: string, i: nat)
    requires i < |DocTypeMapping|
  {
    Contains(filenameLower, DocTypeMapping[i].0)
  }

  /**
   * `_identify_document_type`: the entry of the first key, in declaration order,
   * that occurs in the lowercased file name, else the default.
   */
  method IdentifyDocumentType(filename: string) returns (info: DocTypeInfo)
    ensures forall i | 0 <= i < |DocTypeMapping| ::
      KeyIn(Lower(filename), i) && (forall j | 0 <= j < i :: !KeyIn(Lower(filename), j)) ==> info == DocTypeMapping[i].1
    ensures (forall i | 0 <= i < |DocTypeMapping| :: !KeyIn(Lower(filename), i)) ==> info == DefaultDocType
  {
    var filenameLower := Lower(filename);
    for i := 0 to |DocTypeMapping|
      invariant forall j | 0 <= j < i :: !KeyIn(filenameLower, j)
    {
      var (key, entry) := DocTypeMapping[i];
      if Contains(filenameLower, key) {
        assert KeyIn(filenameLower, i);
        return entry;
      }
    }
    return DefaultDocType;
  }

  // ---------------------------------------------------------------------------
  // Content types
  // ---------------------------------------------------------------------------

  const LoanTerms: seq<string> := ["apr", "loan", "mortgage", "rate", "payment"]
  const PricingTerms: seq<string> := ["%", "rate", "apr", "fee", "cost", "price"]
  const RegulatoryTerms: seq<string> := ["compliance", "regulation", "fdic", "requirement"]
  const CalculationTerms: seq<string> := ["amortization", "payment", "principal", "interest"]

  /** The position of a label in the order the loader tests them. */
  function Rank(t: ContentType): nat {
    match t
    case LoanProducts => 0
    case RatesPricing => 1
    case Regulatory => 2
    case TabularData => 3
    case Calculations => 4
  }

  /** Every label, in the order the loader tests them. */
  const AllContentTypes: seq<ContentType> := [LoanProducts, RatesPricing, Regulatory, TabularData, Calculations]

  /** The test for one label: its keywords in the lowercased content, or a table chunk. */
  predicate HasContentType(d: Document, t: ContentType) {
    var content := Lower(d.content);
    match t
    case LoanProducts => ContainsAny(content, LoanTerms)
    case RatesPricing => ContainsAny(content, PricingTerms)
    case Regulatory => ContainsAny(content, RegulatoryTerms)
    case TabularData => IsTableChunk(d)
    case Calculations => ContainsAny(content, CalculationTerms)
  }

  /**
   * The `content_types` list `_enhance_banking_metadata` builds for a chunk: the
   * labels whose test passes, appended in test order.
   */
  function ContentTypesOf(d: Document): seq<ContentType> {
    Filter(AllContentTypes, (t: ContentType) => HasContentType(d, t))
  }

  /** The labels come in strictly increasing rank. */
  predicate Ranked(xs: seq<ContentType>) {
    forall i, j | 0 <= i < j < |xs| :: Rank(xs[i]) < Rank(xs[j])
  }

  lemma {:induction false} FilterRanked(xs: seq<ContentType>, p: ContentType -> bool)
    requires Ranked(xs)
    ensures Ranked(Filter(xs, p))
    decreases |xs|
  {
    if xs != [] {
      var rest := Filter(xs[1..], p);
      FilterRanked(xs[1..], p);
      forall k | 0 <= k < |rest| ensures Rank(xs[0]) < Rank(rest[k]) {
        var i :| 0 <= i < |xs[1..]| && xs[1..][i] == rest[k];
        assert xs[1 + i] == rest[k];
      }
      if p(xs[0]) {
        RankedCons(xs[0], rest);
      } else {
        assert Filter(xs, p) == rest;
      }
    }
  }

  lemma RankedCons(x: ContentType, rest: seq<ContentType>)
    requires Ranked(rest) && forall k | 0 <= k < |rest| :: Rank(x) < Rank(rest[k])
    ensures Ranked([x] + rest)
  {
    var r := [x] + rest;
    forall i, j | 0 <= i < j < |r| ensures Rank(r[i]) < Rank(r[j]) {
      assert r[j] == rest[j - 1];
      if i > 0 {
        assert r[i] == rest[i - 1];
      }
    }
  }

  lemma EveryLabelListed(t: ContentType)
    ensures Rank(t) < |AllContentTypes| && AllContentTypes[Rank(t)] == t
  {
  }

  lemma LabelKept(d: Document, i: nat)
    requires i < |AllContentTypes| && HasContentType(d, AllContentTypes[i])
    ensures AllContentTypes[i] in ContentTypesOf(d)
  {
  }

  /**
   * Each label is present exactly when its keywords occur in the lowercased
   * content (`tabular_data`: when the chunk is a table or table part), and the
   * labels come in test order, each at most once.
   */
  lemma ContentTypesSound(d: Document)
    ensures forall t :: t in ContentTypesOf(d) <==> HasContentType(d, t)
    ensures Ranked(ContentTypesOf(d))
  {
    ContentTypesPass(d);
    ContentTypesComplete(d);
    FilterRanked(AllContentTypes, (t: ContentType) => HasContentType(d, t));
  }

  lemma ContentTypesPass(d: Document)
    ensures forall t | t in ContentTypesOf(d) :: HasContentType(d, t)
  {
    var r := ContentTypesOf(d);
    forall t | t in r ensures HasContentType(d, t) {
      var i :| 0 <= i < |r| && r[i] == t;
    }
  }

  lemma ContentTypesComplete(d: Document)
    ensures forall t | HasContentType(d, t) :: t in ContentTypesOf(d)
  {
    forall t | HasContentType(d, t) ensures t in ContentTypesOf(d) {
      EveryLabelListed(t);
      LabelKept(d, Rank(t));
    }
  }

  /** A table chunk is always labelled `tabular_data`. */
  lemma TableChunksAreTabular(d: Document)
    requires IsTableChunk(d)
    ensures TabularData in ContentTypesOf(d)
  {
    ContentTypesSound(d);
  }

  // ---------------------------------------------------------------------------
  // Numerical data
  // ---------------------------------------------------------------------------

  /** The `numerical_data` dictionary of a content, if it has any key. */
  function NumericalDataOf(content: string): Option<NumericalData> {
    var rates := RatesIn(content);
    var amounts := AmountsIn(content);
    var terms := TermsIn(content);
    if rates == [] && amounts == [] && terms == [] then None
    else Some(NumericalData(
      if rates == [] then None else Some(rates),
      if amounts == [] then None else Some(amounts),
      if terms == [] then None else Some(terms)))
  }

  /**
   * The dictionary is attached exactly when some list is non-empty, and it holds
   * exactly the non-empty lists, each as found.
   */
  lemma NumericalDataSound(content: string)
    ensures NumericalDataOf(content).Some?
      <==> RatesIn(content) != [] || AmountsIn(content) != [] || TermsIn(content) != []
    ensures NumericalDataOf(content).Some? ==> var n := NumericalDataOf(content).value;
      && (n.rates.Some? <==> RatesIn(content) != [])
      && (n.dollarAmounts.Some? <==> AmountsIn(content) != [])
      && (n.terms.Some? <==> TermsIn(content) != [])
      && (n.rates.Some? ==> n.rates.value == RatesIn(content))
      && (n.dollarAmounts.Some? ==> n.dollarAmounts.value == AmountsIn(content))
      && (n.terms.Some? ==> n.terms.value == TermsIn(content))
  {
  }

  /** `_extract_numerical_data`: sets `numerical_data` when there is any, else leaves the chunk alone. */
  method ExtractNumericalData(d: Document) returns (r: Document)
    ensures r.content == d.content
    ensures NumericalDataOf(d.content).Some? ==> r.metadata == d.metadata.(numericalData := NumericalDataOf(d.content))
    ensures NumericalDataOf(d.content).None? ==> r == d
  {
    var content := d.content;
    var numericalData := NumericalData(None, None, None);
    var rates := RatesIn(content);
    if rates != [] {
      numericalData := numericalData.(rates := Some(rates));
    }
    var amounts := AmountsIn(content);
    if amounts != [] {
      numericalData := numericalData.(dollarAmounts := Some(amounts));
    }
    var terms := TermsIn(content);
    if terms != [] {
      numericalData := numericalData.(terms := Some(terms));
    }
    r := d;
    if numericalData != NumericalData(None, None, None) {
      r := d.(metadata := d.metadata.(numericalData := Some(numericalData)));
    }
  }

  /** A chunk after `_enhance_banking_metadata`. */
  function Enhanced(d: Document): Document {
    var n := NumericalDataOf(d.content);
    d.(metadata := d.metadata.(
      contentTypes := Some(ContentTypesOf(d)),
      numericalData := if n.Some? then n else d.metadata.numericalData))
  }

  /**
   * `_enhance_banking_metadata`: every chunk gets its content types and, when
   * it has any, its numerical data; nothing else changes.
   */
  method EnhanceBankingMetadata(documents: seq<Document>) returns (result: seq<Document>)
    ensures result == Map(Enhanced, documents)
  {
    result := [];
    for i := 0 to |documents|
      invariant result == Map(Enhanced, documents[..i])
    {
      var doc := EnhanceChunk(documents[i]);
      assert documents[..i + 1] == documents[..i] + [documents[i]];
      MapAppend(Enhanced, documents[..i], documents[i]);
      result := result + [doc];
    }
    assert documents[..|documents|] == documents;
  }

  /** The loop body of `_enhance_banking_metadata` for one chunk. */
  method EnhanceChunk(d: Document) returns (doc: Document)
    ensures doc == Enhanced(d)
  {
    var contentTypes := ContentTypesOf(d);
    doc := d.(metadata := d.metadata.(contentTypes := Some(contentTypes)));
    ghost var tagged := doc;
    doc := ExtractNumericalData(doc);
    EnhancedStep(d, tagged, doc);
  }

  /** The two steps of the loop body of `_enhance_banking_metadata` together give `Enhanced`. */
  lemma EnhancedStep(d: Document, tagged: Document, r: Document)
    requires tagged == d.(metadata := d.metadata.(contentTypes := Some(ContentTypesOf(d))))
    requires r.content == tagged.content
    requires NumericalDataOf(tagged.content).Some? ==> r.metadata == tagged.metadata.(numericalData := NumericalDataOf(tagged.content))
    requires NumericalDataOf(tagged.content).None? ==> r == tagged
    ensures r == Enhanced(d)
  {
  }

  /** Enhancing changes only the two keys it writes. */
  lemma EnhancedKeeps(d: Document)
    ensures var e := Enhanced(d);
      && e.content == d.content
      && e.metadata.(contentTypes := None, numericalData := None) == d.metadata.(contentTypes := None, numericalData := None)
      && e.metadata.contentTypes == Some(ContentTypesOf(d))
      && (RatesIn(d.content) != [] || AmountsIn(d.content) != [] || TermsIn(d.content) != [] ==> e.metadata.numericalData.Some?)
      && (TabularData in e.metadata.contentTypes.value <==> IsTableChunk(d))
  {
    EnhancedNumbers(d);
    EnhancedTabular(d);
  }

  lemma EnhancedNumbers(d: Document)
    ensures RatesIn(d.content) != [] || AmountsIn(d.content) != [] || TermsIn(d.content) != []
      ==> Enhanced(d).metadata.numericalData.Some?
  {
    NumericalDataSound(d.content);
  }

  lemma EnhancedTabular(d: Document)
    ensures TabularData in ContentTypesOf(d) <==> IsTableChunk(d)
  {
    ContentTypesSound(d);
  }

  // ---------------------------------------------------------------------------
  // Summary
  // ---------------------------------------------------------------------------

  /** What `get_document_summary` returns. */
  datatype DocumentSummary = DocumentSummary(
    totalChunks: nat,
    documentTypes: map<string, nat>,
    contentTypes: map<ContentType, nat>,
    tableSummary: Splitter.TableSummary,
    filesLoaded: nat,
    chunksWithNumericalData: nat)

  /** `metadata.get('document_type', 'unknown')`. */
  function TypeOrUnknown(d: Document): string {
    if d.metadata.documentType.Some? then d.metadata.documentType.value else "unknown"
  }

  /** The document type of every chunk, in order. */
  function Types(docs: seq<Document>): (r: seq<string>)
    ensures |r| == |docs|
    ensures forall i | 0 <= i < |docs| :: r[i] == TypeOrUnknown(docs[i])
  {
    seq(|docs|, i requires 0 <= i < |docs| => TypeOrUnknown(docs[i]))
  }

  /** The content types of a chunk; none when the key is absent. */
  function Labels(d: Document): seq<ContentType> {
    if d.metadata.contentTypes.Some? then d.metadata.contentTypes.value else []
  }

  /** The content types of all chunks, chunk after chunk. */
  function AllLabels(docs: seq<Document>): seq<ContentType>
    decreases |docs|
  {
    if docs == [] then [] else AllLabels(docs[..|docs| - 1]) + Labels(docs[|docs| - 1])
  }

  /** `len(set(doc.metadata.get('source_file') for doc in documents))`: absent counts as one value. */
  function SourceFiles(docs: seq<Document>): set<Option<string>> {
    set d | d in docs :: d.metadata.sourceFile
  }

  /** The number of chunks with `numerical_data`. */
  function CountNumerical(docs: seq<Document>): nat
    decreases |docs|
  {
    if docs == [] then 0
    else CountNumerical(docs[..|docs| - 1]) + (if docs[|docs| - 1].metadata.numericalData.Some? then 1 else 0)
  }

  function DocumentSummaryOf(docs: seq<Document>): DocumentSummary {
    DocumentSummary(
      |docs|,
      TallyInto(map[], Types(docs)),
      TallyInto(map[], AllLabels(docs)),
      Splitter.TableSummaryOf(docs),
      |SourceFiles(docs)|,
      CountNumerical(docs))
  }

  /** `get_document_summary`. */
  method GetDocumentSummary(documents: seq<Document>) returns (summary: DocumentSummary)
    ensures summary == DocumentSummaryOf(documents)
  {
    var typeCounts: map<string, nat> := map[];
    var contentTypeCounts: map<ContentType, nat> := map[];
    var totalChunks := |documents|;
    assert Types(documents)[..0] == [] && documents[..0] == [];
    for i := 0 to |documents|
      invariant typeCounts == TallyInto(map[], Types(documents)[..i])
      invariant contentTypeCounts == TallyInto(map[], AllLabels(documents[..i]))
    {
      SummaryStep(documents, i);
      var doc := documents[i];
      var docType := TypeOrUnknown(doc);
      typeCounts := typeCounts[docType := Get(typeCounts, docType) + 1];
      var contentTypes := Labels(doc);
      TallyIntoAppend(map[], AllLabels(documents[..i]), contentTypes);
      contentTypeCounts := CountContentTypes(contentTypeCounts, contentTypes);
    }
    assert Types(documents)[..|documents|] == Types(documents);
    assert documents[..|documents|] == documents;
    var tableSummary := Splitter.GetTableSummary(documents);
    var filesLoaded := |SourceFiles(documents)|;
    var withNumbers := CountNumerical(documents);
    summary := DocumentSummary(totalChunks, typeCounts, contentTypeCounts, tableSummary, filesLoaded, withNumbers);
  }

  /** One more chunk adds its type and its content types to the tallies. */
  lemma SummaryStep(documents: seq<Document>, i: nat)
    requires i < |documents|
    ensures TallyInto(map[], Types(documents)[..i + 1]) == Inc(TallyInto(map[], Types(documents)[..i]), TypeOrUnknown(documents[i]))
    ensures AllLabels(documents[..i + 1]) == AllLabels(documents[..i]) + Labels(documents[i])
  {
    assert Types(documents)[..i + 1][..i] == Types(documents)[..i];
    assert documents[..i + 1][..i] == documents[..i];
  }

  /** The inner loop of `get_document_summary`: one more count for each content type of a chunk. */
  method CountContentTypes(counts0: map<ContentType, nat>, contentTypes: seq<ContentType>) returns (counts: map<ContentType, nat>)
    ensures counts == TallyInto(counts0, contentTypes)
  {
    counts := counts0;
    for j := 0 to |contentTypes|
      invariant counts == TallyInto(counts0, contentTypes[..j])
    {
      assert contentTypes[..j + 1][..j] == contentTypes[..j];
      var ct := contentTypes[j];
      counts := counts[ct := Get(counts, ct) + 1];
    }
    assert contentTypes[..|contentTypes|] == contentTypes;
  }

  /**
   * The document-type counts add up to the number of chunks; each type that
   * occurs is counted once per chunk of that type, and no other key appears.
   */
  lemma DocumentTypesSound(docs: seq<Document>, t: string)
    ensures SumOver(DocumentSummaryOf(docs).documentTypes) == |docs|
    ensures t in DocumentSummaryOf(docs).documentTypes <==> exists i | 0 <= i < |docs| :: TypeOrUnknown(docs[i]) == t
    ensures Get(DocumentSummaryOf(docs).documentTypes, t) == multiset(Types(docs))[t]
  {
    TallyIntoSum(map[], Types(docs));
    TallyIntoCount(map[], Types(docs), t);
    if t in Types(docs) {
      var i :| 0 <= i < |docs| && Types(docs)[i] == t;
    }
  }

  /** The content-type counts add up to the number of labels over all chunks. */
  lemma ContentTypeCountsSound(docs: seq<Document>, ct: ContentType)
    ensures SumOver(DocumentSummaryOf(docs).contentTypes) == |AllLabels(docs)|
    ensures Get(DocumentSummaryOf(docs).contentTypes, ct) == multiset(AllLabels(docs))[ct]
  {
    TallyIntoSum(map[], AllLabels(docs));
    TallyIntoCount(map[], AllLabels(docs), ct);
  }

  /** There are at most as many files as chunks, and at least one when there is a chunk. */
  lemma {:induction false} SourceFilesBound(docs: seq<Document>)
    ensures |SourceFiles(docs)| <= |docs|
    ensures docs != [] ==> |SourceFiles(docs)| >= 1
    decreases |docs|
  {
    if docs != [] {
      var init := docs[..|docs| - 1];
      SourceFilesBound(init);
      assert docs == init + [docs[|docs| - 1]];
      SourceFilesSnoc(init, docs[|docs| - 1]);
      SetCardAddOne(SourceFiles(init), docs[|docs| - 1].metadata.sourceFile);
    }
  }

  lemma SourceFilesSnoc(init: seq<Document>, d: Document)
    ensures SourceFiles(init + [d]) == SourceFiles(init) + {d.metadata.sourceFile}
  {
    forall f | f in SourceFiles(init + [d]) ensures f in SourceFiles(init) + {d.metadata.sourceFile} {
      var e :| e in init + [d] && e.metadata.sourceFile == f;
      if e != d {
        assert e in init;
      }
    }
    forall f | f in SourceFiles(init) ensures f in SourceFiles(init + [d]) {
      var e :| e in init && e.metadata.sourceFile == f;
      assert e in init + [d];
    }
    assert d in init + [d];
  }

  lemma SetCardAddOne<T>(s: set<T>, x: T)
    ensures |s| <= |s + {x}| <= |s| + 1
  {
    if x in s {
      assert s + {x} == s;
    } else {
      assert |s + {x}| == |s| + 1;
    }
  }

  /** The chunks with numerical data are at most all chunks. */
  lemma {:induction false} CountNumericalBound(docs: seq<Document>)
    ensures CountNumerical(docs) <= |docs|
    ensures CountNumerical(docs) == 0 <==> forall i | 0 <= i < |docs| :: docs[i].metadata.numericalData.None?
    decreases |docs|
  {
    if docs != [] {
      var init := docs[..|docs| - 1];
      CountNumericalBound(init);
      assert forall i | 0 <= i < |init| :: init[i] == docs[i];
    }
  }

  // ---------------------------------------------------------------------------
  // Filters
  // ---------------------------------------------------------------------------

  /** `get_documents_by_type`. */
  function DocumentsByType(documents: seq<Document>, docType: string): (r: seq<Document>)
    ensures forall d: Document :: d in r <==> d in documents && d.metadata.documentType == Some(docType)
  {
    Filter(documents, (d: Document) => d.metadata.documentType == Some(docType))
  }

  /** `get_documents_with_tables`. */
  function DocumentsWithTables(documents: seq<Document>): (r: seq<Document>)
    ensures forall d: Document :: d in r <==> d in documents && IsTableChunk(d)
  {
    Filter(documents, (d: Document) => IsTableChunk(d))
  }

  /** `get_cross_referenced_documents`. */
  function CrossReferencedDocuments(documents: seq<Document>): (r: seq<Document>)
    ensures forall d: Document :: d in r <==> d in documents && d.metadata.crossReferences != []
  {
    Filter(documents, (d: Document) => d.metadata.crossReferences != [])
  }
}
