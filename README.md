# PDF annotation backend: a Dafny model of its request handlers

This project models the core of an Express/MongoDB backend for a shared PDF
reader. Users upload PDFs. Each upload is stored and its text is extracted in
the background. Users then place annotations on ranges of the extracted text,
and every viewer of a document sees changes live over socket rooms.

The model covers four pieces:

- **The annotation controller.** `canEditAnnotation` and the create, update
  and delete handlers. The collection is a map from ObjectId to record, held
  by the class `AnnotationStore`. Its two unique indexes (on `_id` and on the
  `rangeHash` fingerprint) are explicit checks in `Insert` and `Save`.
- **The document controller.**
  - Offset listing with its page arithmetic.
  - The upload state machine: the class `DocumentStore` holds the documents
    and the extraction jobs still scheduled.
  - The readiness gates on the extracted text and its metadata.
  - The cursor listing of a document's annotations.
- **The socket hub.** `parseOrigins`, and the `joinDocument`,
  `leaveDocument` and `user.cursor` handlers. These are methods of the class
  `Hub`, which holds each connection's rooms and a log of every emission.
  The annotation handlers broadcast through the same hub.
- **The bearer-token gate.** `authenticate`, as a method that sets
  `req.user` and says whether `next` is called.

MongoDB, the file system and socket.io become values. ObjectIds are numbers
below 16^24, written as 24 hex digits. `Document.findById` with a string that
is not an ObjectId throws a cast error. The generic error handler answers that
with 500, and the model returns that 500. The id a new record receives is a
parameter. JWT verification is a function parameter from token to claims. The
outcome of text extraction is a parameter: two file names, or an error message.

The model follows the code where the code and its documentation disagree:

- Create and update reject a selector only when `end < start`. An empty range
  (`end == start`) is accepted, although the message says "greater than".
- Changing an annotation's selector onto a range that another record of the
  same author already holds does not give a 409. The duplicate-key error
  escapes from `save()` to the generic handler, which answers 500.
- Create builds the fingerprint from the document id exactly as the client
  wrote it. Update rebuilds it from the stored id and from the stored author
  (not the requester). The model renders the stored id as lower-case hex;
  "## Left out" says why that is an assumption.
- `getAnnotations` with `limit` 0 and at least one matching annotation reads
  the id of the last element of an empty page. That TypeError becomes a 500.
- The create handler broadcasts to the room named after the document id as
  the client wrote it. Update and delete broadcast to the room of the stored
  id, rendered as lower-case hex.
- The text and metadata gates test the stored file name for truthiness. A
  document completed with an empty file name therefore still answers 202,
  with status `complete`.

Modules, one file each: `Values` (options, JavaScript values and truthiness,
replies), `ObjectIds`, `Records` (the stored annotation and document records),
`Auth`, `Realtime`, `CursorPaging`, `Documents` and `Annotations`.

## Model

| member | source | states |
|---|---|---|
| Values.Truthy | backend/src/controllers/annotationController.js:14-19 | `Boolean(v)` is false exactly for undefined, null, false, 0 and the empty string |
| ObjectIds.Hex | backend/src/controllers/documentController.js:73 | `id.toString()` is 24 hex digits |
| ObjectIds.ParseObjectId | backend/src/controllers/documentController.js:174-178 | a string is accepted as an ObjectId exactly when it is 24 hex digits |
| ObjectIds.ToHexValue | backend/src/controllers/documentController.js:188 | reading back the n-digit hex rendering of x gives x modulo 16^n |
| ObjectIds.ParseHex | backend/src/controllers/documentController.js:174-178 | the id handed out as `nextCursor`, sent back as a string, parses to the same id |
| ObjectIds.HexInjective | backend/src/controllers/annotationController.js:100 | two ids have the same string form exactly when they are equal |
| Records.BuildRangeHash | backend/src/controllers/annotationController.js:33-37 | the fingerprint holds the document id as given, both offsets and the user id, and nothing of the quote or body |
| Records.BuildRangeHashInjective | backend/src/controllers/annotationController.js:33-37 | the fingerprint of (document id, selector, user) determines all three |
| Auth.BearerToken | backend/src/middleware/authenticate.js:5-6 | a token is found exactly when the header starts with `Bearer `, and the header is the prefix followed by the token |
| Auth.BearerTokenRoundTrip | backend/src/middleware/authenticate.js:6 | whatever follows the 7-character prefix is recovered exactly |
| Auth.BareBearerGivesEmptyToken | backend/src/middleware/authenticate.js:6-10 | a header that is only `Bearer ` gives the empty token |
| Auth.Authenticate | backend/src/middleware/authenticate.js:4-19 | `next` is reached exactly when the token is present, non-empty and verifies; then `req.user` is `{sub, role}` of the claims; otherwise 401 `Unauthorized` and `req.user` is unchanged |
| Realtime.TrimStartDrops | backend/src/websocket/socketServer.js:9 | the white space removed in front is a prefix made only of white space |
| Realtime.TrimEndDrops | backend/src/websocket/socketServer.js:9 | the white space removed at the end is a suffix made only of white space |
| Realtime.Trim | backend/src/websocket/socketServer.js:9 | the result has no white space at either end and is no longer than the input |
| Realtime.TrimInfix | backend/src/websocket/socketServer.js:9 | trimming keeps one contiguous piece of the input and drops only white space around it |
| Realtime.TrimEndOfSuffix | backend/src/websocket/socketServer.js:9 | trimming the end of a suffix keeps an infix followed only by white space |
| Realtime.TrimKeepsCharacters | backend/src/websocket/socketServer.js:9 | every character of the trimmed string occurs in the input |
| Realtime.TrimTrimmed | backend/src/websocket/socketServer.js:9 | trimming a string without white space at its ends changes nothing |
| Realtime.Split | backend/src/websocket/socketServer.js:8 | splitting gives at least one piece, and no piece holds the separator |
| Realtime.JoinSplit | backend/src/websocket/socketServer.js:8 | joining the pieces with the separator gives the input back |
| Realtime.SplitJoin | backend/src/websocket/socketServer.js:8 | splitting a join of separator-free pieces gives the pieces back |
| Realtime.SplitSeparated | backend/src/websocket/socketServer.js:8 | a leading separator starts a new, empty piece |
| Realtime.SplitPiece | backend/src/websocket/socketServer.js:8 | a separator-free prefix is glued onto the first piece of what follows |
| Realtime.CleanOrigins | backend/src/websocket/socketServer.js:9-10 | every kept origin is non-empty and trimmed, and no more origins come out than went in |
| Realtime.CleanOriginsKeepsTrimmed | backend/src/websocket/socketServer.js:9-10 | the result is the parts, trimmed, in their order, with exactly those dropped that trim to the empty string |
| Realtime.CleanOriginsNoSeparator | backend/src/websocket/socketServer.js:8-10 | trimming and filtering never reintroduces a comma |
| Realtime.CleanOriginsClean | backend/src/websocket/socketServer.js:9-10 | a list of non-empty trimmed origins passes through unchanged |
| Realtime.ParseOrigins | backend/src/websocket/socketServer.js:4-10 | the result is "any origin" exactly for `*`; otherwise every origin is non-empty, trimmed and free of commas |
| Realtime.ParseOriginsKeepsTrimmed | backend/src/websocket/socketServer.js:7-10 | any other setting is cut at every comma, and the origins are the pieces, trimmed, in order, without those that trim to nothing |
| Realtime.ParseOriginsRoundTrip | backend/src/websocket/socketServer.js:4-10 | a well-formed origin list written comma-joined parses back to itself |
| Realtime.RoomName | backend/src/websocket/socketServer.js:24 | the room of a document is `doc:` followed by its id |
| Realtime.RoomNameInjective | backend/src/websocket/socketServer.js:24 | two document ids share a room exactly when they are equal |
| Realtime.Members | backend/src/websocket/socketServer.js:35 | a connection is a member of a room exactly when the room is among its rooms |
| Realtime.JoinMembers | backend/src/websocket/socketServer.js:24 | joining adds the connection to that room only, and no other connection's rooms change |
| Realtime.LeaveMembers | backend/src/websocket/socketServer.js:30 | leaving removes the connection from that room only, and its other rooms are kept |
| Realtime.JoinThenLeave | backend/src/websocket/socketServer.js:24-30 | joining a new room and then leaving it restores the memberships |
| Realtime.Hub.Broadcast | backend/src/controllers/annotationController.js:50 | `io.to(room).emit` reaches every member of the room, the sender included, and changes no membership |
| Realtime.Hub.JoinDocument | backend/src/websocket/socketServer.js:22-26 | a falsy id changes and sends nothing; otherwise the socket joins `doc:<id>` and only it receives `{documentId}` |
| Realtime.Hub.LeaveDocument | backend/src/websocket/socketServer.js:28-31 | a falsy id is ignored; otherwise the socket leaves `doc:<id>`; nothing is sent |
| Realtime.Hub.UserCursorMoved | backend/src/websocket/socketServer.js:33-39 | a payload without a document id is dropped; otherwise `{userId, selection}` goes to every other member of the room |
| CursorPaging.After | backend/src/controllers/documentController.js:178 | the query never returns more records than there are |
| CursorPaging.AfterMembers | backend/src/controllers/documentController.js:178 | a record is returned exactly when it is stored and its id is above the cursor |
| CursorPaging.Take | backend/src/controllers/documentController.js:183 | `.limit(n)` keeps the first min(n, length) records for n at least 1, and everything for 0 (the handler always passes `limit + 1`) |
| CursorPaging.CursorPage | backend/src/controllers/documentController.js:181-196 | `hasMore` holds exactly when more than `limit` records remain; `data` is the first `limit` of them, or all; `cursor` is the last id of `data` when `hasMore`, else null; 500 exactly when `limit` is 0 and a record remains |
| CursorPaging.AllBeyond | backend/src/controllers/documentController.js:178 | when every record is above the cursor, nothing is dropped |
| CursorPaging.AfterNoCursor | backend/src/controllers/documentController.js:173-179 | without a cursor every record is fetched |
| CursorPaging.Skipped | backend/src/controllers/documentController.js:178 | the number of leading records at or below the cursor is at most the length |
| CursorPaging.AfterIsSuffix | backend/src/controllers/documentController.js:178-182 | on records sorted by id, the records above a cursor form a suffix |
| CursorPaging.AfterElement | backend/src/controllers/documentController.js:178-182 | the id of a listed record, used as cursor, resumes right after that record |
| CursorPaging.FullPage | backend/src/controllers/documentController.js:183-188 | when more than `limit` records remain, the page is the first `limit` of them, `hasMore` is true and the cursor is the id of the last one |
| CursorPaging.ResumeAfter | backend/src/controllers/documentController.js:186-188 | on sorted records, the id at position `limit - 1` above a cursor, used as the next cursor, skips exactly `limit` records |
| CursorPaging.NextPageResumes | backend/src/controllers/documentController.js:186-188 | after a full page the next cursor resumes exactly where the page ends |
| CursorPaging.PagesUnfold | backend/src/controllers/documentController.js:181-196 | a full page is the first `limit` records, followed by the pages from its cursor, which list the records from position `limit` on |
| CursorPaging.CoverFullPage | backend/src/controllers/documentController.js:181-196 | a full page followed by the pages that cover the rest covers everything above its cursor |
| CursorPaging.CoverLastPage | backend/src/controllers/documentController.js:183-188 | a page that is not full covers everything that is left |
| CursorPaging.PagesCoverAfter | backend/src/controllers/documentController.js:181-196 | following the cursors from any start yields, in order, exactly the records above it |
| CursorPaging.PagesVisitAll | backend/src/controllers/documentController.js:181-196 | following the cursors from none visits every annotation exactly once, in ascending id order |
| CursorPaging.RequestsAfterFullPage | backend/src/controllers/documentController.js:183-188 | with more than L records left, a full page takes one request and leaves L fewer |
| CursorPaging.RequestsOfLastPage | backend/src/controllers/documentController.js:183-188 | between 1 and L records take exactly one request |
| CursorPaging.CountFullPage | backend/src/controllers/documentController.js:183-188 | a full page adds one request to those of the pages after it |
| CursorPaging.CountLastPage | backend/src/controllers/documentController.js:183-188 | a page that is not full is the last request |
| CursorPaging.PageCount | backend/src/controllers/documentController.js:183-188 | N records at page size L take ceil(N / L) requests, and one request when there are none |
| Documents.GetDocument | backend/src/controllers/documentController.js:116-120 | a string that is not an ObjectId gives 500; an unknown id gives 404; otherwise the stored document |
| Documents.GetDocumentByHex | backend/src/controllers/documentController.js:116 | a document's own id in hex finds it |
| Documents.CeilDiv | backend/src/controllers/documentController.js:34 | `pages` is the fewest pages of `limit` items that hold `total` items |
| Documents.SkipStep | backend/src/controllers/documentController.js:17 | each page starts `limit` items after the previous one |
| Documents.OffsetSlice | backend/src/controllers/documentController.js:22-23 | `.skip(k).limit(n)` keeps min(n, length - k) items, starting at item k |
| Documents.ListDocuments | backend/src/controllers/documentController.js:14-37 | page defaults to 1 and limit to 10; items start at (page - 1) * limit and number at most `limit`; `total` is the count; `pages` is ceil(total / limit) |
| Documents.SkipWithinPages | backend/src/controllers/documentController.js:17-34 | page p starts inside the list exactly when p is at most `pages` |
| Documents.PageSlice | backend/src/controllers/documentController.js:17-23 | a page that starts inside the list holds the `limit` documents from its skip, or those up to the end |
| Documents.ListedStep | backend/src/controllers/documentController.js:14-37 | page p followed by pages p + 1 onwards lists the documents from page p's first item on |
| Documents.ListedSuffix | backend/src/controllers/documentController.js:14-37 | pages p through `pages`, concatenated, are the list from page p's first item on |
| Documents.ListedPagesCoverAll | backend/src/controllers/documentController.js:14-37 | pages 1 to `pages` list every document exactly once, newest first |
| Documents.PagesPastEndEmpty | backend/src/controllers/documentController.js:17-34 | every page past `pages` is empty |
| Documents.DocumentTitle | backend/src/controllers/documentController.js:53 | the title is `fields.title`, else `originalname`, else `Untitled Document`, and never empty |
| Documents.NewDocument | backend/src/controllers/documentController.js:56-68 | a new document is `processing`, owned by the uploader, stored as `<id>.pdf`, with no text location, metadata location or error |
| Documents.Finish | backend/src/controllers/documentController.js:70-98 | success sets `complete`, both locations and the time, and clears the error; failure sets `failed` and the message and keeps both locations and the time; id, title, owner, storage and MIME type never change |
| Documents.NewDocumentConsistent | backend/src/controllers/documentController.js:61-70 | an accepted upload starts consistent, with its job scheduled |
| Documents.FinishIsTerminal | backend/src/controllers/documentController.js:70-98 | the job leaves a processing document in exactly one terminal state, `complete` on success and `failed` on failure |
| Documents.RunJob | backend/src/controllers/documentController.js:76-95 | `findByIdAndUpdate` replaces that one document by its finished form and leaves every other document and the key set alone |
| Documents.RunJobPreserves | backend/src/controllers/documentController.js:70-98 | running one scheduled job keeps every document consistent and removes that job |
| Documents.AllJobsTerminate | backend/src/controllers/documentController.js:70-98 | once every scheduled job has run once, whatever each outcome, every document is `complete` or `failed` |
| Documents.DocumentStore.Upload | backend/src/controllers/documentController.js:39-101 | no file or a non-PDF gives 400 and creates nothing; otherwise the document is created in `processing`, its job is scheduled, and the reply is 202 |
| Documents.DocumentStore.RunExtraction | backend/src/controllers/documentController.js:70-98 | the scheduled job performs exactly one terminal update of that document and is then gone |
| Documents.GetDocumentText | backend/src/controllers/documentController.js:114-139 | an unknown document gives 404; a missing or empty text file name gives 202 with the status; otherwise the text, or 500 when the file cannot be read |
| Documents.GetDocumentTextMetadata | backend/src/controllers/documentController.js:141-161 | an unknown document gives 404; a missing or empty metadata file name gives 202 with the status; otherwise the metadata, or 500 when it cannot be read |
| Documents.ReadyExactlyWhenComplete | backend/src/controllers/documentController.js:122-124 | in a consistent store, text (and metadata) are held back with 202 exactly while extraction is not `complete` or its stored file name is empty |
| Documents.EmptyTextNameStaysPending | backend/src/controllers/documentController.js:122-124 | a job that reports an empty text file name completes the document, yet its text answers 202 with status `complete` |
| Documents.Least | backend/src/controllers/documentController.js:182 | the smallest id of a non-empty set |
| Documents.IncreasingCons | backend/src/controllers/documentController.js:182 | an id below every id of an increasing list can be put in front of it |
| Documents.SortedIds | backend/src/controllers/documentController.js:182 | the ids of a set, each once, in increasing order |
| Documents.Fetch | backend/src/controllers/documentController.js:181 | the records under the given ids, in the order of the ids |
| Documents.FetchAscending | backend/src/controllers/documentController.js:182 | records fetched under increasing ids are in ascending id order |
| Documents.FetchMembers | backend/src/controllers/documentController.js:173-181 | fetching every id of a document's annotations gives exactly those annotations |
| Documents.AnnotationsOf | backend/src/controllers/documentController.js:173-182 | `find({ documentId }).sort({ _id: 1 })` lists exactly the document's annotations, in ascending id order |
| Documents.GetAnnotations | backend/src/controllers/documentController.js:163-197 | the document is looked up first (404, or 500 for a malformed id); then a cursor that is not an ObjectId gives 400; otherwise the page of the document's annotations above the cursor, with `limit` defaulting to 50 |
| Documents.UnknownDocumentBeforeCursor | backend/src/controllers/documentController.js:167-177 | an unknown document gives 404 whatever the cursor, malformed or not |
| Documents.EchoedCursorContinues | backend/src/controllers/documentController.js:174-188 | sending back the previous page's cursor as its hex string continues right after that page |
| Annotations.CanEditAnnotation | backend/src/controllers/annotationController.js:5-9 | false for a missing annotation; otherwise true exactly when the user is the author or has role `owner` |
| Annotations.Lookup | backend/src/controllers/annotationController.js:65-68 | a string that is not an ObjectId gives 500; an unknown id gives 404; otherwise the stored annotation |
| Annotations.LookupByHex | backend/src/controllers/annotationController.js:65-68 | an annotation's own id in hex finds it, and an unknown one gives 404 |
| Annotations.AnnotationStore.Insert | backend/src/controllers/annotationController.js:40-56 | the record is added exactly when neither its id nor its fingerprint is present; otherwise nothing changes; both indexes still hold |
| Annotations.AnnotationStore.Save | backend/src/controllers/annotationController.js:98 | the record is replaced exactly when no other record has its fingerprint; otherwise nothing changes; both indexes still hold |
| Annotations.AnnotationStore.Remove | backend/src/controllers/annotationController.js:116 | exactly that key is removed; both indexes still hold |
| Annotations.NewAnnotation | backend/src/controllers/annotationController.js:40-48 | the created record has the fresh id, the parsed document id, the requester as author, the selector, quote and body as sent, `orphaned` coerced to boolean, and the fingerprint of (document id as sent, selector, requester) |
| Annotations.CheckCreate | backend/src/controllers/annotationController.js:14-26 | 400 when `documentId`, either offset, `quoteSelector.exact` or `body` is missing; then 400 exactly when `end < start`; otherwise the selector |
| Annotations.CreateReply | backend/src/controllers/annotationController.js:11-59 | the 400s, then the document lookup (404, or 500 for a malformed id), then 409 exactly when the id or fingerprint is taken; a 201 record is authored by the requester, with `orphaned` coerced to boolean and the fingerprint of (document id as sent, selector, requester) |
| Annotations.CreateAnnotation | backend/src/controllers/annotationController.js:11-59 | the reply is the one described above; only a 201 adds the record and broadcasts it to the document's room; any other reply writes and sends nothing |
| Annotations.ZeroStartIsPresent | backend/src/controllers/annotationController.js:16 | a start offset of 0 counts as given |
| Annotations.CreateKeepsIndex | backend/src/controllers/annotationController.js:33-48 | a created record keeps the id and fingerprint indexes |
| Annotations.RepeatedCreateConflicts | backend/src/controllers/annotationController.js:54-56 | sending the same create request again gives 409, whatever id the database would assign |
| Annotations.ApplyUpdate | backend/src/controllers/annotationController.js:74-96 | a selector replaces the selector and rebuilds the fingerprint from the stored document and author; the quote is replaced when given, `body` only when truthy, `orphaned` only when boolean; id, document and author never change |
| Annotations.EditFields | backend/src/controllers/annotationController.js:78-96 | the field-by-field edits of the handler produce exactly the record described above |
| Annotations.UpdateReply | backend/src/controllers/annotationController.js:61-103 | 500 or 404 from the lookup, then 403 for a user who may not edit, then 400 exactly when `end < start`; 500 when the new fingerprint belongs to another record; otherwise 200 with the edited record |
| Annotations.UpdateAnnotation | backend/src/controllers/annotationController.js:61-103 | the reply is the one described above; only a 200 replaces the record and broadcasts it to the room of its stored document; any other reply writes and sends nothing |
| Annotations.UpdateKeepsIndex | backend/src/controllers/annotationController.js:74-98 | a saved update stays under the same key and keeps both indexes |
| Annotations.UpdateWithoutSelectorSucceeds | backend/src/controllers/annotationController.js:86-98 | an authorized update without a selector keeps the fingerprint and always succeeds |
| Annotations.CollidingSelectorIsServerError | backend/src/controllers/annotationController.js:74-98 | moving a record onto a range another record of the same author and document holds gives 500, not 409 |
| Annotations.OthersAreForbidden | backend/src/controllers/annotationController.js:70-72 | a user who is neither the author nor an owner gets 403 from both update and delete |
| Annotations.OwnerEditKeepsAuthor | backend/src/controllers/annotationController.js:79-83 | when an owner re-anchors a record, it keeps its author, and its fingerprint is built from the author, not the owner |
| Annotations.DeleteReply | backend/src/controllers/annotationController.js:105-121 | 500 or 404 from the lookup; 403 for a user who may not edit; otherwise 204 |
| Annotations.DeleteAnnotation | backend/src/controllers/annotationController.js:105-121 | the reply is the one described above; only a 204 removes that one record and broadcasts `{id}` to the room of its stored document |
| Annotations.DeleteRemovesOnlyThat | backend/src/controllers/annotationController.js:116 | a delete keeps both indexes and every other record, and a second lookup of that id gives 404 |
| Annotations.CreateThenDelete | backend/src/controllers/annotationController.js:11-121 | the author may delete what they just created, and doing so restores the collection |

## Left out

- `backend/src/models/Annotation.js` and `backend/src/models/Document.js` are not part of this model. `Annotation.buildRangeHash` is a constructor of a record type, so it is exactly injective. The schemas' other fields, defaults and `createdAt`/`updatedAt` timestamps are not modelled. `listDocuments` takes the collection already in `createdAt` order.
- Documents.ListedPagesCoverAll: documents with equal `createdAt` are taken to come back in the same order on every request; MongoDB does not promise that for a sort on a non-unique key with `.skip()`/`.limit()`.
- Documents.AllJobsTerminate: database writes are taken to succeed. A rejected `findByIdAndUpdate` on the failure path would leave the document `processing` and the scheduled callback's promise rejected and unhandled; the property rests on this assumption.
- The text form of a stored ObjectId that `Annotation.buildRangeHash` and the room name see is taken to be its 24-digit lower-case hex string (`ObjectIds.Hex`); `buildRangeHash` is not part of this model.
- The file names `storeExtractedText` returns are a parameter and may be empty; the service is not part of this model.
- `Number(...)` parsing of `page`, `limit` and the annotation `limit`, NaN, and floating-point division. Page and limit are integers.
- Documents.ListDocuments: page or limit below 1 (a negative skip, or a division by zero in `Math.ceil`) is excluded by its precondition.
- Request bodies are typed: offsets are integers, ids and origins are strings, and an update's `selector` is either absent or carries both offsets. A partial selector on update, or a non-numeric offset, is not modelled.
- The exact set of strings `mongoose.Types.ObjectId.isValid` accepts. Only 24 hex digits are modelled; a 12-character string also passes there.
- `userId` is held as a string; its cast to an ObjectId on create is not modelled.
- File I/O: `ensureDirs`, `writeFile`, `readFile` and `JSON.parse`. A failed write, or a failed directory creation, is not modelled. A read is a lookup in a map from file name to contents.
- The PDF extraction inside `storeExtractedText` is foreign. Only its outcome is kept: two file names, or an error message.
- Asynchrony (`setImmediate`, `Promise.all`) and concurrent requests. Each handler is one atomic step. A scheduled job runs at any later point chosen by the caller. A second job for the same document cannot be scheduled, because upload uses a fresh id.
- The socket.io transport (connection, disconnection, delivery, buffering, reconnection) and the per-socket automatic room. Emissions are recorded in `Hub.sent`.
- `backend/scripts/build.js`, `backend/src/index.js`, `backend/src/app.js` (wiring, CORS, static files, generic error handler), the route tables and `backend/src/controllers/authController.js` are not part of this model.
- JWT signing, expiry checking and the secret: verification is a function parameter.
- `getDocument` (a plain lookup) is covered only through `Documents.GetDocument`.
