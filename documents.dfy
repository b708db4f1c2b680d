/** The document controller: offset listing, upload with its detached text
    extraction, the text and metadata readiness gates, and the cursor listing
    of a document's annotations. The database collections are maps keyed by
    id; the text and metadata files are maps keyed by file name. */
module Documents {
  import opened Values
  import opened ObjectIds
  import opened Records
  import opened Auth
  import opened CursorPaging

  const CAST_ERROR: string := "Cast to ObjectId failed"
  const DUPLICATE_KEY_ERROR: string := "E11000 duplicate key error"
  const DOCUMENT_NOT_FOUND: string := "Document not found"

  /** `Document.findById(id)`: a string that is not an ObjectId makes the
      query throw, and the generic error handler answers 500. */
  function GetDocument(documents: map<ObjectId, Document>, id: string): (r: Reply<Document>)
    ensures ParseObjectId(id).None? ==> r == Fail(500, CAST_ERROR)
    ensures ParseObjectId(id).Some? && ParseObjectId(id).value !in documents ==>
      r == Fail(404, DOCUMENT_NOT_FOUND)
    ensures r.Ok? <==> ParseObjectId(id).Some? && ParseObjectId(id).value in documents
    ensures r.Ok? ==> r.status == 200 && r.value == documents[ParseObjectId(id).value]
  {
    match ParseObjectId(id)
    case None => Fail(500, CAST_ERROR)
    case Some(key) => if key in documents then Ok(200, documents[key]) else Fail(404, DOCUMENT_NOT_FOUND)
  }

  /** A document's own id, as a client writes it, finds it. */
  lemma GetDocumentByHex(documents: map<ObjectId, Document>, key: ObjectId)
    requires key in documents
    ensures GetDocument(documents, Hex(key)) == Ok(200, documents[key])
  {
    ParseHex(key);
  }

  // ---------------------------------------------------------------------
  // listDocuments: offset pagination
  // ---------------------------------------------------------------------

  const DEFAULT_PAGE: int := 1
  const DEFAULT_PAGE_SIZE: int := 10

  datatype Pagination = Pagination(page: int, limit: int, total: nat, pages: nat)
  datatype DocumentList = DocumentList(data: seq<Document>, pagination: Pagination)

  function Min(a: int, b: int): int {
    if a <= b then a else b
  }

  /** `Math.ceil(total / limit)` on integers: the fewest pages of `limit`
      items that hold `total` items. */
  function CeilDiv(total: nat, limit: int): (pages: nat)
    requires limit >= 1
    ensures pages * limit >= total
    ensures pages == 0 || (pages - 1) * limit < total
  {
    var q := total / limit;
    var r := total % limit;
    assert total == limit * q + r;
    if r == 0 then q else q + 1
  }

  /** `(page - 1) * limit`. */
  function Skip(page: int, limit: int): nat
    requires page >= 1 && limit >= 1
  {
    MulLeq(0, page - 1, limit);
    (page - 1) * limit
  }

  lemma MulLeq(a: int, b: int, c: int)
    requires 0 <= a <= b && c >= 0
    ensures a * c <= b * c
  {
  }

  lemma SkipStep(page: int, limit: int)
    requires page >= 1 && limit >= 1
    ensures Skip(page + 1, limit) == Skip(page, limit) + limit
  {
    assert page * limit == (page - 1) * limit + limit;
  }

  /** `.skip(skip).limit(count)` over a sequence. */
  function OffsetSlice<T>(s: seq<T>, skip: nat, count: nat): (r: seq<T>)
    ensures |r| == (if skip >= |s| then 0 else Min(count, |s| - skip))
    ensures forall k :: 0 <= k < |r| ==> r[k] == s[skip + k]
  {
    if skip >= |s| then [] else s[skip..Min(skip + count, |s|)]
  }

  /** `Document.find({}).sort({ createdAt: -1 }).skip(skip).limit(limit)`
      with the total count, where `newestFirst` is the collection in that
      order. A missing page or limit takes its default. */
  function ListDocuments(newestFirst: seq<Document>, page: Option<int>, limit: Option<int>): (r: DocumentList)
    requires page.Some? ==> page.value >= 1
    requires limit.Some? ==> limit.value >= 1
    ensures r.pagination.page == PageOrDefault(page)
    ensures r.pagination.limit == LimitOrDefault(limit)
    ensures r.pagination.total == |newestFirst|
    ensures var skip := Skip(PageOrDefault(page), LimitOrDefault(limit));
      && |r.data| == (if skip >= |newestFirst| then 0 else Min(LimitOrDefault(limit), |newestFirst| - skip))
      && forall k :: 0 <= k < |r.data| ==> r.data[k] == newestFirst[skip + k]
    ensures r.pagination.pages * LimitOrDefault(limit) >= |newestFirst|
    ensures r.pagination.pages == 0 || (r.pagination.pages - 1) * LimitOrDefault(limit) < |newestFirst|
  {
    var p := PageOrDefault(page);
    var l := LimitOrDefault(limit);
    var total := |newestFirst|;
    DocumentList(OffsetSlice(newestFirst, Skip(p, l), l), Pagination(p, l, total, CeilDiv(total, l)))
  }

  function PageOrDefault(page: Option<int>): int {
    if page.Some? then page.value else DEFAULT_PAGE
  }

  function LimitOrDefault(limit: Option<int>): int {
    if limit.Some? then limit.value else DEFAULT_PAGE_SIZE
  }

  /** The documents of pages `p` through `last`, concatenated. */
  function ListedFrom(newestFirst: seq<Document>, limit: int, p: int, last: int): seq<Document>
    requires limit >= 1 && p >= 1
    decreases last - p + 1
  {
    if p > last then []
    else ListDocuments(newestFirst, Some(p), Some(limit)).data + ListedFrom(newestFirst, limit, p + 1, last)
  }

  /** Page `p` starts inside the list exactly when `p` is at most the page count. */
  lemma SkipWithinPages(n: nat, limit: int, pages: nat, p: int)
    requires limit >= 1 && 1 <= p <= pages + 1
    requires pages == CeilDiv(n, limit)
    ensures p <= pages ==> Skip(p, limit) < n
    ensures p == pages + 1 ==> Skip(p, limit) >= n
  {
    if p <= pages {
      MulLeq(p - 1, pages - 1, limit);
    }
  }

  /** Page `p` of a listing is the slice of `limit` documents from its skip. */
  lemma PageSlice(newestFirst: seq<Document>, limit: int, p: int)
    requires limit >= 1 && p >= 1 && Skip(p, limit) < |newestFirst|
    ensures var skip := Skip(p, limit);
      ListDocuments(newestFirst, Some(p), Some(limit)).data == newestFirst[skip..Min(skip + limit, |newestFirst|)]
  {
  }

  lemma ConcatSlices<T>(s: seq<T>, i: nat, j: nat)
    requires i <= j <= |s|
    ensures s[i..j] + s[j..] == s[i..]
  {
  }

  /** Page `p` followed by the pages after it lists the documents from the
      skip of page `p` on, when the pages after it list those from theirs. */
  lemma ListedStep(newestFirst: seq<Document>, limit: int, pages: nat, p: int)
    requires limit >= 1 && 1 <= p <= pages
    requires pages == CeilDiv(|newestFirst|, limit)
    requires ListedFrom(newestFirst, limit, p + 1, pages) == newestFirst[Min(Skip(p + 1, limit), |newestFirst|)..]
    ensures ListedFrom(newestFirst, limit, p, pages) == newestFirst[Skip(p, limit)..]
  {
    var skip := Skip(p, limit);
    var end := Min(skip + limit, |newestFirst|);
    SkipWithinPages(|newestFirst|, limit, pages, p);
    assert ListDocuments(newestFirst, Some(p), Some(limit)).data == newestFirst[skip..end] by {
      PageSlice(newestFirst, limit, p);
    }
    assert ListedFrom(newestFirst, limit, p + 1, pages) == newestFirst[end..] by {
      SkipStep(p, limit);
    }
    ConcatSlices(newestFirst, skip, end);
  }

  lemma {:induction false} ListedSuffix(newestFirst: seq<Document>, limit: int, pages: nat, p: int)
    requires limit >= 1 && 1 <= p <= pages + 1
    requires pages == CeilDiv(|newestFirst|, limit)
    ensures ListedFrom(newestFirst, limit, p, pages) == newestFirst[Min(Skip(p, limit), |newestFirst|)..]
    decreases pages - p
  {
    SkipWithinPages(|newestFirst|, limit, pages, p);
    if p <= pages {
      ListedSuffix(newestFirst, limit, pages, p + 1);
      ListedStep(newestFirst, limit, pages, p);
    }
  }

  /** Asking for pages 1 to `pages` in turn lists every document exactly once,
      in order. */
  lemma ListedPagesCoverAll(newestFirst: seq<Document>, limit: int)
    requires limit >= 1
    ensures var pages := ListDocuments(newestFirst, None, Some(limit)).pagination.pages;
      ListedFrom(newestFirst, limit, 1, pages) == newestFirst
  {
    ListedSuffix(newestFirst, limit, CeilDiv(|newestFirst|, limit), 1);
  }

  /** Every page past the last one is empty. */
  lemma PagesPastEndEmpty(newestFirst: seq<Document>, limit: int, p: int)
    requires limit >= 1
    requires p > ListDocuments(newestFirst, None, Some(limit)).pagination.pages
    ensures ListDocuments(newestFirst, Some(p), Some(limit)).data == []
  {
    var pages := ListDocuments(newestFirst, None, Some(limit)).pagination.pages;
    MulLeq(pages, p - 1, limit);
  }

  // ---------------------------------------------------------------------
  // uploadDocument and the detached extraction
  // ---------------------------------------------------------------------

  const PDF_MIME: string := "application/pdf"
  const UNTITLED: string := "Untitled Document"
  const FILE_REQUIRED: string := "PDF file is required"
  const PDF_ONLY: string := "Only PDF files are supported"

  /** The uploaded file part. */
  datatype FilePart = FilePart(mimetype: string, originalname: Option<string>, buffer: seq<bv8>)

  /** `fields.title || filePart.originalname || 'Untitled Document'`. */
  function DocumentTitle(title: Option<string>, originalname: Option<string>): (t: string)
    ensures t != ""
    ensures Present(title) ==> t == title.value
    ensures !Present(title) && Present(originalname) ==> t == originalname.value
    ensures !Present(title) && !Present(originalname) ==> t == UNTITLED
  {
    if Present(title) then title.value
    else if Present(originalname) then originalname.value
    else UNTITLED
  }

  /** The record `Document.create` writes for an accepted upload. */
  function NewDocument(id: ObjectId, user: User, file: FilePart, title: Option<string>): (d: Document)
    ensures d.id == id && d.ownerId == user.sub && d.mimeType == file.mimetype
    ensures d.storageLocation == Hex(id) + ".pdf"
    ensures d.extractionStatus == Processing
    ensures d.textLocation.None? && d.textMetadataLocation.None? && d.extractionError.None?
    ensures d.title == DocumentTitle(title, file.originalname)
  {
    Document(id, DocumentTitle(title, file.originalname), user.sub, Hex(id) + ".pdf",
             file.mimetype, Processing, None, None, None, None)
  }

  /** What `storeExtractedText` produced: the two file names, or the message
      of the error it threw. */
  datatype ExtractionOutcome = Extracted(textFileName: string, metaFileName: string) | ExtractionFailed(message: string)

  /** The one `findByIdAndUpdate` the detached job performs. */
  function Finish(d: Document, outcome: ExtractionOutcome, now: int): (r: Document)
    ensures r.id == d.id && r.title == d.title && r.ownerId == d.ownerId
    ensures r.storageLocation == d.storageLocation && r.mimeType == d.mimeType
    ensures outcome.Extracted? ==>
      r.extractionStatus == Complete && r.extractionError.None? &&
      r.textLocation == Some(outcome.textFileName) && r.textMetadataLocation == Some(outcome.metaFileName) &&
      r.textExtractedAt == Some(now)
    ensures outcome.ExtractionFailed? ==>
      r.extractionStatus == Failed && r.extractionError == Some(outcome.message) &&
      r.textLocation == d.textLocation && r.textMetadataLocation == d.textMetadataLocation &&
      r.textExtractedAt == d.textExtractedAt
  {
    match outcome
    case Extracted(textFile, metaFile) =>
      d.(textLocation := Some(textFile), textMetadataLocation := Some(metaFile), textExtractedAt := Some(now),
         extractionStatus := Complete, extractionError := None)
    case ExtractionFailed(message) =>
      d.(extractionStatus := Failed, extractionError := Some(message))
  }

  /** How a document's fields relate to its status; `scheduled` says whether
      its extraction job is still to run. */
  predicate Consistent(d: Document, scheduled: bool) {
    && d.extractionStatus != Pending
    && (d.extractionStatus == Processing <==> scheduled)
    && (d.textLocation.Some? <==> d.extractionStatus == Complete)
    && (d.textMetadataLocation.Some? <==> d.extractionStatus == Complete)
    && (d.extractionError.Some? <==> d.extractionStatus == Failed)
    && (d.extractionStatus == Complete ==> d.textExtractedAt.Some?)
  }

  ghost predicate StoreInvariant(documents: map<ObjectId, Document>, jobs: set<ObjectId>) {
    && jobs <= documents.Keys
    && forall key :: key in documents ==>
         documents[key].id == key && Consistent(documents[key], key in jobs)
  }

  /** An accepted upload starts consistent, with its job pending. */
  lemma NewDocumentConsistent(id: ObjectId, user: User, file: FilePart, title: Option<string>)
    ensures Consistent(NewDocument(id, user, file, title), true)
  {
  }

  /** The job leaves a processing document in exactly one terminal state,
      consistent and no longer scheduled. */
  lemma FinishIsTerminal(d: Document, outcome: ExtractionOutcome, now: int)
    requires Consistent(d, true)
    ensures var r := Finish(d, outcome, now);
      Consistent(r, false) && (r.extractionStatus == Complete <==> outcome.Extracted?) &&
      (r.extractionStatus == Failed <==> outcome.ExtractionFailed?)
  {
  }

  /** `Document.findByIdAndUpdate(id, ...)` with the update of `Finish`: an
      unknown id updates nothing. */
  function RunJob(documents: map<ObjectId, Document>, id: ObjectId, outcome: ExtractionOutcome, now: int)
    : (r: map<ObjectId, Document>)
    ensures r.Keys == documents.Keys
    ensures id in documents ==> r[id] == Finish(documents[id], outcome, now)
    ensures forall key :: key in documents && key != id ==> r[key] == documents[key]
  {
    if id in documents then documents[id := Finish(documents[id], outcome, now)] else documents
  }

  lemma RunJobPreserves(documents: map<ObjectId, Document>, jobs: set<ObjectId>, id: ObjectId,
                        outcome: ExtractionOutcome, now: int)
    requires StoreInvariant(documents, jobs) && id in jobs
    ensures StoreInvariant(RunJob(documents, id, outcome, now), jobs - {id})
  {
    FinishIsTerminal(documents[id], outcome, now);
  }

  /** One run of each pending job, in the order the event loop picks. */
  datatype JobRun = JobRun(id: ObjectId, outcome: ExtractionOutcome, now: int)

  function RunAll(documents: map<ObjectId, Document>, runs: seq<JobRun>): map<ObjectId, Document> {
    if runs == [] then documents
    else RunAll(RunJob(documents, runs[0].id, runs[0].outcome, runs[0].now), runs[1..])
  }

  function RunIds(runs: seq<JobRun>): set<ObjectId> {
    set k | 0 <= k < |runs| :: runs[k].id
  }

  predicate DistinctRuns(runs: seq<JobRun>) {
    forall i, j :: 0 <= i < j < |runs| ==> runs[i].id != runs[j].id
  }

  /** Once every scheduled job has run once, whatever each outcome, no
      document is left processing. */
  lemma {:induction false} AllJobsTerminate(documents: map<ObjectId, Document>, jobs: set<ObjectId>, runs: seq<JobRun>)
    requires StoreInvariant(documents, jobs)
    requires DistinctRuns(runs) && RunIds(runs) == jobs
    ensures StoreInvariant(RunAll(documents, runs), {})
    ensures forall key :: key in RunAll(documents, runs) ==>
      RunAll(documents, runs)[key].extractionStatus in {Complete, Failed}
  {
    if runs == [] {
      assert jobs == {};
    } else {
      var r := runs[0];
      assert r.id in jobs;
      RunJobPreserves(documents, jobs, r.id, r.outcome, r.now);
      assert RunIds(runs[1..]) == jobs - {r.id} by {
        forall x ensures x in RunIds(runs[1..]) <==> x in jobs - {r.id} {
          if x in RunIds(runs[1..]) {
            var k :| 0 <= k < |runs[1..]| && runs[1..][k].id == x;
            assert runs[k + 1].id == x;
          }
          if x in jobs - {r.id} {
            var k :| 0 <= k < |runs| && runs[k].id == x;
            assert k != 0;
            assert runs[1..][k - 1].id == x;
          }
        }
      }
      AllJobsTerminate(RunJob(documents, r.id, r.outcome, r.now), jobs - {r.id}, runs[1..]);
    }
  }

  /** The documents collection and the extraction callbacks scheduled with
      `setImmediate` that have not run yet. */
  class DocumentStore {
    var documents: map<ObjectId, Document>
    var jobs: set<ObjectId>

    ghost predicate Valid()
      reads this
    {
      StoreInvariant(documents, jobs)
    }

    constructor ()
      ensures Valid() && documents == map[] && jobs == {}
    {
      documents := map[];
      jobs := {};
    }

    /** `uploadDocument`: validate the file part, create the record in
      `processing` under a new id, schedule its extraction, answer 202. */
    method Upload(user: User, file: Option<FilePart>, title: Option<string>, freshId: ObjectId)
      returns (reply: Reply<Document>)
      requires Valid()
      modifies this
      ensures Valid()
      ensures file.None? ==> reply == Fail(400, FILE_REQUIRED)
      ensures file.Some? && file.value.mimetype != PDF_MIME ==> reply == Fail(400, PDF_ONLY)
      ensures file.Some? && file.value.mimetype == PDF_MIME && freshId in old(documents) ==>
        reply == Fail(500, DUPLICATE_KEY_ERROR)
      ensures reply.Fail? ==> documents == old(documents) && jobs == old(jobs)
      ensures reply.Ok? <==> file.Some? && file.value.mimetype == PDF_MIME && freshId !in old(documents)
      ensures reply.Ok? ==>
        && reply == Ok(202, NewDocument(freshId, user, file.value, title))
        && documents == old(documents)[freshId := reply.value]
        && jobs == old(jobs) + {freshId}
    {
      if file.None? {
        return Fail(400, FILE_REQUIRED);
      }
      if file.value.mimetype != PDF_MIME {
        return Fail(400, PDF_ONLY);
      }
      if freshId in documents {
        return Fail(500, DUPLICATE_KEY_ERROR);
      }
      var document := NewDocument(freshId, user, file.value, title);
      NewDocumentConsistent(freshId, user, file.value, title);
      documents := documents[freshId := document];
      jobs := jobs + {freshId};
      reply := Ok(202, document);
    }

    /** The scheduled callback for document `id`: one terminal update from
      the outcome of `storeExtractedText`, at time `now`. */
    method RunExtraction(id: ObjectId, outcome: ExtractionOutcome, now: int)
      requires Valid() && id in jobs
      modifies this
      ensures Valid()
      ensures jobs == old(jobs) - {id}
      ensures documents == old(documents)[id := Finish(old(documents)[id], outcome, now)]
      ensures documents[id].extractionStatus == (if outcome.Extracted? then Complete else Failed)
    {
      RunJobPreserves(documents, jobs, id, outcome, now);
      documents := documents[id := Finish(documents[id], outcome, now)];
      jobs := jobs - {id};
    }
  }

  // ---------------------------------------------------------------------
  // getDocumentText and getDocumentTextMetadata: readiness gates
  // ---------------------------------------------------------------------

  const TEXT_PENDING: string := "Text extraction pending"
  const METADATA_PENDING: string := "Metadata not ready"
  const TEXT_MISSING: string := "Extracted text missing"
  const METADATA_UNREADABLE: string := "Failed to read metadata"

  /** 202 with the current status while the file is not ready, else the contents. */
  datatype Readiness<T> = NotReady(message: string, status: ExtractionStatus) | Ready(contents: T)

  /** `textFiles` maps a text file name to its contents; a name it lacks
      cannot be read. */
  function GetDocumentText(documents: map<ObjectId, Document>, textFiles: map<string, string>, id: string)
    : (r: Reply<Readiness<string>>)
    ensures GetDocument(documents, id).Fail? ==>
      r == Fail(GetDocument(documents, id).status, GetDocument(documents, id).message)
    ensures GetDocument(documents, id).Ok? ==>
      var d := GetDocument(documents, id).value;
      && (!Present(d.textLocation) ==> r == Ok(202, NotReady(TEXT_PENDING, d.extractionStatus)))
      && (Present(d.textLocation) && d.textLocation.value in textFiles ==>
            r == Ok(200, Ready(textFiles[d.textLocation.value])))
      && (Present(d.textLocation) && d.textLocation.value !in textFiles ==> r == Fail(500, TEXT_MISSING))
  {
    match GetDocument(documents, id)
    case Fail(status, message) => Fail(status, message)
    case Ok(_, d) =>
      if !Present(d.textLocation) then Ok(202, NotReady(TEXT_PENDING, d.extractionStatus))
      else if d.textLocation.value in textFiles then Ok(200, Ready(textFiles[d.textLocation.value]))
      else Fail(500, TEXT_MISSING)
  }

  /** `metadataFiles` maps a metadata file name to its parsed JSON; a name it
      lacks cannot be read or parsed. */
  function GetDocumentTextMetadata(documents: map<ObjectId, Document>, metadataFiles: map<string, JsValue>, id: string)
    : (r: Reply<Readiness<JsValue>>)
    ensures GetDocument(documents, id).Fail? ==>
      r == Fail(GetDocument(documents, id).status, GetDocument(documents, id).message)
    ensures GetDocument(documents, id).Ok? ==>
      var d := GetDocument(documents, id).value;
      && (!Present(d.textMetadataLocation) ==> r == Ok(202, NotReady(METADATA_PENDING, d.extractionStatus)))
      && (Present(d.textMetadataLocation) && d.textMetadataLocation.value in metadataFiles ==>
            r == Ok(200, Ready(metadataFiles[d.textMetadataLocation.value])))
      && (Present(d.textMetadataLocation) && d.textMetadataLocation.value !in metadataFiles ==>
            r == Fail(500, METADATA_UNREADABLE))
  {
    match GetDocument(documents, id)
    case Fail(status, message) => Fail(status, message)
    case Ok(_, d) =>
      if !Present(d.textMetadataLocation) then Ok(202, NotReady(METADATA_PENDING, d.extractionStatus))
      else if d.textMetadataLocation.value in metadataFiles then Ok(200, Ready(metadataFiles[d.textMetadataLocation.value]))
      else Fail(500, METADATA_UNREADABLE)
  }

  /** In a consistent store the text and its metadata are held back (202)
      exactly while extraction has not completed, or when it completed with
      an empty file name, which the falsy test cannot tell from a missing one. */
  lemma ReadyExactlyWhenComplete(documents: map<ObjectId, Document>, jobs: set<ObjectId>,
                                 textFiles: map<string, string>, metadataFiles: map<string, JsValue>, key: ObjectId)
    requires StoreInvariant(documents, jobs) && key in documents
    ensures GetDocumentText(documents, textFiles, Hex(key)).status == 202 <==>
      documents[key].extractionStatus != Complete || documents[key].textLocation == Some("")
    ensures GetDocumentTextMetadata(documents, metadataFiles, Hex(key)).status == 202 <==>
      documents[key].extractionStatus != Complete || documents[key].textMetadataLocation == Some("")
  {
    GetDocumentByHex(documents, key);
  }

  /** A job whose extraction reports an empty text file name completes the
      document, yet its text stays held back with 202 and status `complete`. */
  lemma EmptyTextNameStaysPending(documents: map<ObjectId, Document>, jobs: set<ObjectId>,
                                  textFiles: map<string, string>, key: ObjectId, metaFileName: string, now: int)
    requires StoreInvariant(documents, jobs) && key in jobs
    ensures var after := RunJob(documents, key, Extracted("", metaFileName), now);
      after[key].extractionStatus == Complete &&
      GetDocumentText(after, textFiles, Hex(key)) == Ok(202, NotReady(TEXT_PENDING, Complete))
  {
    var after := RunJob(documents, key, Extracted("", metaFileName), now);
    GetDocumentByHex(after, key);
  }

  // ---------------------------------------------------------------------
  // getAnnotations
  // ---------------------------------------------------------------------

  const INVALID_CURSOR: string := "Invalid cursor"

  /** The smallest id of a non-empty set. */
  ghost function Least(s: set<ObjectId>): (m: ObjectId)
    requires s != {}
    ensures m in s && forall x :: x in s ==> m <= x
    decreases |s|
  {
    var y :| y in s;
    var rest := s - {y};
    if rest == {} then
      assert forall x :: x in s ==> x in rest || x == y;
      y
    else
      var m := Least(rest);
      assert forall x :: x in s ==> x == y || x in rest;
      if y < m then y else m
  }

  predicate Increasing(r: seq<ObjectId>) {
    forall i, j :: 0 <= i < j < |r| ==> r[i] < r[j]
  }

  lemma IncreasingCons(m: ObjectId, tail: seq<ObjectId>)
    requires Increasing(tail)
    requires forall i :: 0 <= i < |tail| ==> m < tail[i]
    ensures Increasing([m] + tail)
  {
    var r := [m] + tail;
    forall i, j | 0 <= i < j < |r| ensures r[i] < r[j] {
      assert r[j] == tail[j - 1];
      if i > 0 {
        assert r[i] == tail[i - 1];
      }
    }
  }

  /** The ids of a set in ascending order. */
  ghost function SortedIds(s: set<ObjectId>): (r: seq<ObjectId>)
    ensures forall x :: x in r <==> x in s
    ensures Increasing(r)
    decreases |s|
  {
    if s == {} then []
    else
      var m := Least(s);
      var tail := SortedIds(s - {m});
      assert forall i :: 0 <= i < |tail| ==> tail[i] in s - {m};
      IncreasingCons(m, tail);
      [m] + tail
  }

  /** The ids of the annotations on one document. */
  function IdsOn(annotations: map<ObjectId, Annotation>, documentId: ObjectId): set<ObjectId> {
    set k | k in annotations && annotations[k].documentId == documentId
  }

  /** The records under the given ids, in that order. */
  function Fetch(annotations: map<ObjectId, Annotation>, ids: seq<ObjectId>): (r: seq<Annotation>)
    requires forall x :: x in ids ==> x in annotations
    ensures |r| == |ids|
    ensures forall i :: 0 <= i < |ids| ==> r[i] == annotations[ids[i]]
  {
    if ids == [] then [] else [annotations[ids[0]]] + Fetch(annotations, ids[1..])
  }

  lemma FetchAscending(annotations: map<ObjectId, Annotation>, ids: seq<ObjectId>)
    requires KeyedById(annotations) && Increasing(ids)
    requires forall x :: x in ids ==> x in annotations
    ensures Ascending(Fetch(annotations, ids))
  {
    var r := Fetch(annotations, ids);
    assert forall i :: 0 <= i < |ids| ==> r[i].id == ids[i];
  }

  lemma FetchMembers(annotations: map<ObjectId, Annotation>, documentId: ObjectId, ids: seq<ObjectId>)
    requires forall x :: x in ids <==> x in IdsOn(annotations, documentId)
    ensures forall a :: a in Fetch(annotations, ids) <==> a in annotations.Values && a.documentId == documentId
  {
    var r := Fetch(annotations, ids);
    forall a ensures a in r <==> a in annotations.Values && a.documentId == documentId {
      if a in r {
        var i :| 0 <= i < |r| && r[i] == a;
        assert ids[i] in IdsOn(annotations, documentId);
      }
      if a in annotations.Values && a.documentId == documentId {
        var k :| k in annotations && annotations[k] == a;
        assert k in IdsOn(annotations, documentId);
        var i :| 0 <= i < |ids| && ids[i] == k;
        assert r[i] == a;
      }
    }
  }

  /** `Annotation.find({ documentId }).sort({ _id: 1 })`. */
  ghost function AnnotationsOf(annotations: map<ObjectId, Annotation>, documentId: ObjectId): (r: seq<Annotation>)
    requires KeyedById(annotations)
    ensures Ascending(r)
    ensures forall a :: a in r <==> a in annotations.Values && a.documentId == documentId
  {
    var ids := SortedIds(IdsOn(annotations, documentId));
    FetchAscending(annotations, ids);
    FetchMembers(annotations, documentId, ids);
    Fetch(annotations, ids)
  }

  /** The parsed cursor, when one is given. */
  function CursorOf(cursor: Option<string>): Option<ObjectId> {
    if Present(cursor) then ParseObjectId(cursor.value) else None
  }

  /** `getAnnotations`: the document must exist before the cursor is looked
      at; a cursor that is not an ObjectId is a 400; otherwise one page. */
  ghost function GetAnnotations(documents: map<ObjectId, Document>, annotations: map<ObjectId, Annotation>,
                                id: string, limit: Option<nat>, cursor: Option<string>): (r: Reply<AnnotationPage>)
    requires KeyedById(annotations)
    ensures GetDocument(documents, id).Fail? ==>
      r == Fail(GetDocument(documents, id).status, GetDocument(documents, id).message)
    ensures GetDocument(documents, id).Ok? && Present(cursor) && ParseObjectId(cursor.value).None? ==>
      r == Fail(400, INVALID_CURSOR)
    ensures GetDocument(documents, id).Ok? && !(Present(cursor) && ParseObjectId(cursor.value).None?) ==>
      r == CursorPage(AnnotationsOf(annotations, ParseObjectId(id).value), CursorOf(cursor),
                      if limit.Some? then limit.value else DEFAULT_LIMIT)
  {
    match GetDocument(documents, id)
    case Fail(status, message) => Fail(status, message)
    case Ok(_, d) =>
      if Present(cursor) && ParseObjectId(cursor.value).None? then Fail(400, INVALID_CURSOR)
      else CursorPage(AnnotationsOf(annotations, ParseObjectId(id).value), CursorOf(cursor),
                      if limit.Some? then limit.value else DEFAULT_LIMIT)
  }

  /** An unknown document answers 404 whatever the cursor, malformed or not. */
  lemma UnknownDocumentBeforeCursor(documents: map<ObjectId, Document>, annotations: map<ObjectId, Annotation>,
                                    key: ObjectId, limit: Option<nat>, cursor: Option<string>)
    requires KeyedById(annotations) && key !in documents
    ensures GetAnnotations(documents, annotations, Hex(key), limit, cursor) == Fail(404, DOCUMENT_NOT_FOUND)
  {
    ParseHex(key);
  }

  /** Sending back the `cursor` of the previous page, as its hex string,
      continues right after that page. */
  lemma {:induction false} EchoedCursorContinues(documents: map<ObjectId, Document>, annotations: map<ObjectId, Annotation>,
                                                 key: ObjectId, limit: nat, previous: AnnotationPage)
    requires KeyedById(annotations) && key in documents
    requires limit > 0 && previous.cursor.Some?
    ensures GetAnnotations(documents, annotations, Hex(key), Some(limit), Some(Hex(previous.cursor.value))) ==
      CursorPage(AnnotationsOf(annotations, key), previous.cursor, limit)
  {
    ParseHex(key);
    ParseHex(previous.cursor.value);
  }
}
