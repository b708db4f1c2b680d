/** The persisted records: annotations and documents, as the controllers
    read and write them. */
module Records {
  import opened Values
  import opened ObjectIds

  /** Character offsets into the extracted text. */
  datatype Selector = Selector(start: int, end: int)

  /** The textual anchor; `exact` is the quoted text, `rest` any further
      fields the client sends, carried along unchanged. */
  datatype QuoteSelector = QuoteSelector(exact: JsValue, rest: JsValue)

  /** The fingerprint `Annotation.buildRangeHash` computes from a document id
      (as the string it was given), a selector and a user id. Built as a
      constructor, it is injective. */
  datatype RangeHash = RangeHash(documentId: string, start: int, end: int, userId: string)

  function BuildRangeHash(documentId: string, selector: Selector, userId: string): (h: RangeHash)
    ensures h.documentId == documentId && h.userId == userId
    ensures h.start == selector.start && h.end == selector.end
  {
    RangeHash(documentId, selector.start, selector.end, userId)
  }

  /** Two fingerprints agree exactly when all four inputs agree; the body
      and the quote never enter it. */
  lemma BuildRangeHashInjective(d1: string, s1: Selector, u1: string, d2: string, s2: Selector, u2: string)
    ensures BuildRangeHash(d1, s1, u1) == BuildRangeHash(d2, s2, u2) <==> d1 == d2 && s1 == s2 && u1 == u2
  {
  }

  datatype Annotation = Annotation(
    id: ObjectId,
    documentId: ObjectId,
    userId: string,
    selector: Selector,
    quoteSelector: QuoteSelector,
    body: JsValue,
    orphaned: bool,
    rangeHash: RangeHash)

  /** The annotations collection is keyed by `_id`. */
  predicate KeyedById(m: map<ObjectId, Annotation>) {
    forall k :: k in m ==> m[k].id == k
  }

  /** `pending` is a value the schema admits; no code path of the core sets it. */
  datatype ExtractionStatus = Pending | Processing | Complete | Failed

  datatype Document = Document(
    id: ObjectId,
    title: string,
    ownerId: string,
    storageLocation: string,
    mimeType: string,
    extractionStatus: ExtractionStatus,
    textLocation: Option<string>,
    textMetadataLocation: Option<string>,
    textExtractedAt: Option<int>,
    extractionError: Option<string>)
}
