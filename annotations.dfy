/** The annotation controller: who may edit an annotation, and the create,
    update and delete handlers over the annotations collection, with the
    events they broadcast to the document's room. The collection's unique
    index on `rangeHash` is an explicit check in the store. */
module Annotations {
  import opened Values
  import opened ObjectIds
  import opened Records
  import opened Auth
  import opened Realtime
  import opened Documents

  const OWNER_ROLE: string := "owner"
  const FIELDS_REQUIRED: string := "documentId, selector, quoteSelector.exact and body are required"
  const BAD_RANGE: string := "selector.end must be greater than selector.start"
  const ANNOTATION_NOT_FOUND: string := "Annotation not found"
  const FORBIDDEN: string := "Forbidden"
  const DUPLICATE_ANNOTATION: string := "Duplicate annotation for this range"

  /** `canEditAnnotation`: only an existing annotation can be edited, by its
      author or by anyone whose role is `owner`. */
  function CanEditAnnotation(annotation: Option<Annotation>, user: User): (allowed: bool)
    ensures annotation.None? ==> !allowed
    ensures annotation.Some? ==>
      (allowed <==> annotation.value.userId == user.sub || user.role == OWNER_ROLE)
  {
    if annotation.None? then false
    else if annotation.value.userId == user.sub then true
    else user.role == OWNER_ROLE
  }

  // ---------------------------------------------------------------------
  // The collection and its indexes
  // ---------------------------------------------------------------------

  /** Some record carries fingerprint `h`. */
  predicate HashTaken(m: map<ObjectId, Annotation>, h: RangeHash) {
    exists k :: k in m && m[k].rangeHash == h
  }

  /** A record other than `key` carries fingerprint `h`. */
  predicate HashTakenByOther(m: map<ObjectId, Annotation>, h: RangeHash, key: ObjectId) {
    exists k :: k in m && k != key && m[k].rangeHash == h
  }

  /** The unique index on `rangeHash`. */
  predicate UniqueHashes(m: map<ObjectId, Annotation>) {
    forall j, k :: j in m && k in m && m[j].rangeHash == m[k].rangeHash ==> j == k
  }

  /** Both indexes of the collection hold. */
  predicate Indexed(m: map<ObjectId, Annotation>) {
    KeyedById(m) && UniqueHashes(m)
  }

  /** `Annotation.findById(id)`: a string that is not an ObjectId makes the
      query throw (500 through the generic handler); an unknown id is a 404. */
  function Lookup(annotations: map<ObjectId, Annotation>, id: string): (r: Reply<Annotation>)
    ensures ParseObjectId(id).None? ==> r == Fail(500, CAST_ERROR)
    ensures ParseObjectId(id).Some? && ParseObjectId(id).value !in annotations ==>
      r == Fail(404, ANNOTATION_NOT_FOUND)
    ensures r.Ok? <==> ParseObjectId(id).Some? && ParseObjectId(id).value in annotations
    ensures r.Ok? ==> r.status == 200 && r.value == annotations[ParseObjectId(id).value]
  {
    match ParseObjectId(id)
    case None => Fail(500, CAST_ERROR)
    case Some(key) => if key in annotations then Ok(200, annotations[key]) else Fail(404, ANNOTATION_NOT_FOUND)
  }

  /** An annotation's own id, as a client writes it, finds it. */
  lemma LookupByHex(annotations: map<ObjectId, Annotation>, key: ObjectId)
    ensures key in annotations ==> Lookup(annotations, Hex(key)) == Ok(200, annotations[key])
    ensures key !in annotations ==> Lookup(annotations, Hex(key)) == Fail(404, ANNOTATION_NOT_FOUND)
  {
    ParseHex(key);
  }

  /** The annotations collection. */
  class AnnotationStore {
    var annotations: map<ObjectId, Annotation>

    ghost predicate Valid()
      reads this
    {
      Indexed(annotations)
    }

    constructor ()
      ensures Valid() && annotations == map[]
    {
      annotations := map[];
    }

    /** `Annotation.create`: refused with a duplicate-key error when the id or
      the fingerprint is already present. */
    method Insert(a: Annotation) returns (ok: bool)
      requires Valid()
      modifies this
      ensures Valid()
      ensures ok <==> a.id !in old(annotations) && !HashTaken(old(annotations), a.rangeHash)
      ensures annotations == if ok then old(annotations)[a.id := a] else old(annotations)
    {
      if a.id in annotations || HashTaken(annotations, a.rangeHash) {
        return false;
      }
      annotations := annotations[a.id := a];
      ok := true;
    }

    /** `annotation.save()` of an existing record: refused with a
      duplicate-key error when another record has the same fingerprint. */
    method Save(a: Annotation) returns (ok: bool)
      requires Valid() && a.id in annotations
      modifies this
      ensures Valid()
      ensures ok <==> !HashTakenByOther(old(annotations), a.rangeHash, a.id)
      ensures annotations == if ok then old(annotations)[a.id := a] else old(annotations)
    {
      if HashTakenByOther(annotations, a.rangeHash, a.id) {
        return false;
      }
      annotations := annotations[a.id := a];
      ok := true;
    }

    /** `Annotation.deleteOne({ _id })`. */
    method Remove(key: ObjectId)
      requires Valid()
      modifies this
      ensures Valid()
      ensures annotations == old(annotations) - {key}
    {
      annotations := annotations - {key};
    }
  }

  // ---------------------------------------------------------------------
  // createAnnotation
  // ---------------------------------------------------------------------

  /** The selector of a create request; either offset may be missing. */
  datatype SelectorInput = SelectorInput(start: Option<int>, end: Option<int>)

  /** The body of a create request. A missing `documentId`, `selector` or
      `quoteSelector` is `None`. */
  datatype CreateRequest = CreateRequest(
    documentId: Option<string>,
    selector: Option<SelectorInput>,
    quoteSelector: Option<QuoteSelector>,
    body: JsValue,
    orphaned: JsValue)

  /** The presence test of the create handler: a truthy `documentId`, both
      offsets defined (0 included), a truthy `quoteSelector.exact` and a
      truthy `body`. */
  predicate HasRequiredFields(req: CreateRequest) {
    && Present(req.documentId)
    && req.selector.Some? && req.selector.value.start.Some? && req.selector.value.end.Some?
    && req.quoteSelector.Some? && Truthy(req.quoteSelector.value.exact)
    && Truthy(req.body)
  }

  function RequestedSelector(req: CreateRequest): Selector
    requires HasRequiredFields(req)
  {
    Selector(req.selector.value.start.value, req.selector.value.end.value)
  }

  /** The two 400 checks of the create handler. Only `end < start` is a bad
      range: an empty range passes, whatever the message says. */
  function CheckCreate(req: CreateRequest): (r: Reply<Selector>)
    ensures !HasRequiredFields(req) ==> r == Fail(400, FIELDS_REQUIRED)
    ensures HasRequiredFields(req) && RequestedSelector(req).end < RequestedSelector(req).start ==>
      r == Fail(400, BAD_RANGE)
    ensures r.Ok? <==> HasRequiredFields(req) && RequestedSelector(req).start <= RequestedSelector(req).end
    ensures r.Ok? ==> r.value == RequestedSelector(req)
  {
    if !HasRequiredFields(req) then Fail(400, FIELDS_REQUIRED)
    else
      var selector := RequestedSelector(req);
      if selector.end < selector.start then Fail(400, BAD_RANGE) else Ok(200, selector)
  }

  /** The record the create handler writes: authored by the requester,
      `orphaned` coerced with `Boolean`, and the fingerprint built from the
      document id as the client wrote it. */
  function NewAnnotation(id: ObjectId, documentId: ObjectId, rawDocumentId: string, user: User,
                         selector: Selector, req: CreateRequest): (a: Annotation)
    requires req.quoteSelector.Some?
    ensures a.id == id && a.documentId == documentId && a.userId == user.sub && a.selector == selector
    ensures a.quoteSelector == req.quoteSelector.value && a.body == req.body
    ensures a.orphaned == Truthy(req.orphaned)
    ensures a.rangeHash == BuildRangeHash(rawDocumentId, selector, user.sub)
  {
    Annotation(id, documentId, user.sub, selector, req.quoteSelector.value, req.body, Truthy(req.orphaned),
               BuildRangeHash(rawDocumentId, selector, user.sub))
  }

  /** The reply of `createAnnotation` for the collection `annotations`, the
      documents `documents` and the id `freshId` the database would assign. */
  function CreateReply(annotations: map<ObjectId, Annotation>, documents: map<ObjectId, Document>,
                       user: User, req: CreateRequest, freshId: ObjectId): (r: Reply<Annotation>)
    ensures CheckCreate(req).Fail? ==> r == Fail(400, CheckCreate(req).message)
    ensures CheckCreate(req).Ok? && GetDocument(documents, req.documentId.value).Fail? ==>
      r == Fail(GetDocument(documents, req.documentId.value).status, GetDocument(documents, req.documentId.value).message)
    ensures r.Ok? <==>
      && CheckCreate(req).Ok?
      && GetDocument(documents, req.documentId.value).Ok?
      && freshId !in annotations
      && !HashTaken(annotations, BuildRangeHash(req.documentId.value, RequestedSelector(req), user.sub))
    ensures CheckCreate(req).Ok? && GetDocument(documents, req.documentId.value).Ok? && r.Fail? ==>
      r == Fail(409, DUPLICATE_ANNOTATION)
    ensures r.Ok? ==>
      && r.status == 201
      && r.value.id == freshId
      && Some(r.value.documentId) == ParseObjectId(req.documentId.value)
      && r.value.userId == user.sub
      && r.value.selector == RequestedSelector(req)
      && r.value.quoteSelector == req.quoteSelector.value
      && r.value.body == req.body
      && r.value.orphaned == Truthy(req.orphaned)
      && r.value.rangeHash == BuildRangeHash(req.documentId.value, RequestedSelector(req), user.sub)
  {
    match CheckCreate(req)
    case Fail(status, message) => Fail(status, message)
    case Ok(_, selector) =>
      var rawDocumentId := req.documentId.value;
      match GetDocument(documents, rawDocumentId)
      case Fail(status, message) => Fail(status, message)
      case Ok(_, _) =>
        var a := NewAnnotation(freshId, ParseObjectId(rawDocumentId).value, rawDocumentId, user, selector, req);
        if freshId in annotations || HashTaken(annotations, a.rangeHash) then Fail(409, DUPLICATE_ANNOTATION)
        else Ok(201, a)
  }

  /** `createAnnotation`. `io` is the hub `req.app.get('io')`, null when none
      is attached; the new record is broadcast to the room named after the
      document id as the client wrote it. */
  method CreateAnnotation(store: AnnotationStore, documents: map<ObjectId, Document>, io: Hub?,
                          user: User, req: CreateRequest, freshId: ObjectId)
    returns (reply: Reply<Annotation>)
    requires store.Valid()
    modifies store, io
    ensures store.Valid()
    ensures reply == CreateReply(old(store.annotations), documents, user, req, freshId)
    ensures store.annotations ==
      if reply.Ok? then old(store.annotations)[freshId := reply.value] else old(store.annotations)
    ensures io != null ==> io.memberships == old(io.memberships)
    ensures io != null ==>
      io.sent == old(io.sent) +
        (if reply.Ok?
         then [Emission(Members(old(io.memberships), RoomName(req.documentId.value)), AnnotationCreated(reply.value))]
         else [])
  {
    var check := CheckCreate(req);
    if check.Fail? {
      return Fail(check.status, check.message);
    }
    var selector := check.value;
    var rawDocumentId := req.documentId.value;
    var document := GetDocument(documents, rawDocumentId);
    if document.Fail? {
      return Fail(document.status, document.message);
    }
    var annotation := NewAnnotation(freshId, ParseObjectId(rawDocumentId).value, rawDocumentId, user, selector, req);
    var ok := store.Insert(annotation);
    if !ok {
      return Fail(409, DUPLICATE_ANNOTATION);
    }
    if io != null {
      io.Broadcast(RoomName(rawDocumentId), AnnotationCreated(annotation));
    }
    reply := Ok(201, annotation);
  }

  /** A start offset of 0 counts as given: with the other fields present and
      a non-negative range the request passes validation. */
  lemma ZeroStartIsPresent(documentId: string, end: int, quote: QuoteSelector, body: JsValue, orphaned: JsValue)
    requires documentId != "" && Truthy(quote.exact) && Truthy(body) && end >= 0
    ensures CheckCreate(CreateRequest(Some(documentId), Some(SelectorInput(Some(0), Some(end))), Some(quote), body, orphaned))
      == Ok(200, Selector(0, end))
  {
  }

  /** A created record keeps both indexes of the collection. */
  lemma CreateKeepsIndex(annotations: map<ObjectId, Annotation>, documents: map<ObjectId, Document>,
                         user: User, req: CreateRequest, freshId: ObjectId)
    requires Indexed(annotations)
    requires CreateReply(annotations, documents, user, req, freshId).Ok?
    ensures Indexed(annotations[freshId := CreateReply(annotations, documents, user, req, freshId).value])
  {
  }

  /** Sending the same create request again, whatever id the database would
      assign, is a 409 and writes nothing. */
  lemma RepeatedCreateConflicts(annotations: map<ObjectId, Annotation>, documents: map<ObjectId, Document>,
                                user: User, req: CreateRequest, firstId: ObjectId, secondId: ObjectId)
    requires CreateReply(annotations, documents, user, req, firstId).Ok?
    ensures var after := annotations[firstId := CreateReply(annotations, documents, user, req, firstId).value];
      CreateReply(after, documents, user, req, secondId) == Fail(409, DUPLICATE_ANNOTATION)
  {
    var a := CreateReply(annotations, documents, user, req, firstId).value;
    var after := annotations[firstId := a];
    assert after[firstId].rangeHash == BuildRangeHash(req.documentId.value, RequestedSelector(req), user.sub);
  }

  // ---------------------------------------------------------------------
  // updateAnnotation
  // ---------------------------------------------------------------------

  /** The body of an update request. `selector` is `None` when absent; a
      present selector carries both offsets. */
  datatype UpdateRequest = UpdateRequest(
    selector: Option<Selector>,
    quoteSelector: Option<QuoteSelector>,
    body: JsValue,
    orphaned: JsValue)

  /** The in-place edits of the update handler: a new selector re-anchors the
      record and rebuilds its fingerprint from the stored document id and the
      stored author; `body` replaces only when truthy and `orphaned` only when
      boolean. The id, document and author never change. */
  function ApplyUpdate(a: Annotation, req: UpdateRequest): (r: Annotation)
    ensures r.id == a.id && r.documentId == a.documentId && r.userId == a.userId
    ensures r.selector == (if req.selector.Some? then req.selector.value else a.selector)
    ensures r.rangeHash ==
      if req.selector.Some? then BuildRangeHash(Hex(a.documentId), req.selector.value, a.userId) else a.rangeHash
    ensures r.quoteSelector == (if req.quoteSelector.Some? then req.quoteSelector.value else a.quoteSelector)
    ensures r.body == (if Truthy(req.body) then req.body else a.body)
    ensures r.orphaned == (if req.orphaned.Bool? then req.orphaned.b else a.orphaned)
  {
    var r1 := if req.selector.Some? then
      a.(selector := req.selector.value, rangeHash := BuildRangeHash(Hex(a.documentId), req.selector.value, a.userId))
      else a;
    var r2 := if req.quoteSelector.Some? then r1.(quoteSelector := req.quoteSelector.value) else r1;
    var r3 := if Truthy(req.body) then r2.(body := req.body) else r2;
    if req.orphaned.Bool? then r3.(orphaned := req.orphaned.b) else r3
  }

  /** The reply of `updateAnnotation`. A fingerprint that collides with
      another record escapes from `save()` as a duplicate-key error, which the
      generic handler answers with 500. */
  function UpdateReply(annotations: map<ObjectId, Annotation>, user: User, id: string, req: UpdateRequest)
    : (r: Reply<Annotation>)
    ensures Lookup(annotations, id).Fail? ==> r == Fail(Lookup(annotations, id).status, Lookup(annotations, id).message)
    ensures Lookup(annotations, id).Ok? && !CanEditAnnotation(Some(Lookup(annotations, id).value), user) ==>
      r == Fail(403, FORBIDDEN)
    ensures (Lookup(annotations, id).Ok? && CanEditAnnotation(Some(Lookup(annotations, id).value), user) &&
             req.selector.Some? && req.selector.value.end < req.selector.value.start) ==> r == Fail(400, BAD_RANGE)
    ensures r.Ok? <==>
      && Lookup(annotations, id).Ok?
      && CanEditAnnotation(Some(Lookup(annotations, id).value), user)
      && !(req.selector.Some? && req.selector.value.end < req.selector.value.start)
      && !HashTakenByOther(annotations, ApplyUpdate(Lookup(annotations, id).value, req).rangeHash,
                           ParseObjectId(id).value)
    ensures r.Fail? && r.status == 500 && ParseObjectId(id).Some? ==> r == Fail(500, DUPLICATE_KEY_ERROR)
    ensures r.Ok? ==> r == Ok(200, ApplyUpdate(Lookup(annotations, id).value, req))
  {
    match Lookup(annotations, id)
    case Fail(status, message) => Fail(status, message)
    case Ok(_, a) =>
      if !CanEditAnnotation(Some(a), user) then Fail(403, FORBIDDEN)
      else if req.selector.Some? && req.selector.value.end < req.selector.value.start then Fail(400, BAD_RANGE)
      else
        var updated := ApplyUpdate(a, req);
        if HashTakenByOther(annotations, updated.rangeHash, ParseObjectId(id).value) then Fail(500, DUPLICATE_KEY_ERROR)
        else Ok(200, updated)
  }

  /** The field-by-field edits of the update handler, once the range check
      has passed. */
  method EditFields(original: Annotation, req: UpdateRequest) returns (annotation: Annotation)
    ensures annotation == ApplyUpdate(original, req)
  {
    annotation := original;
    if req.selector.Some? {
      annotation := annotation.(selector := req.selector.value);
      annotation := annotation.(rangeHash := BuildRangeHash(Hex(annotation.documentId), req.selector.value, annotation.userId));
    }
    if req.quoteSelector.Some? {
      annotation := annotation.(quoteSelector := req.quoteSelector.value);
    }
    if Truthy(req.body) {
      annotation := annotation.(body := req.body);
    }
    if req.orphaned.Bool? {
      annotation := annotation.(orphaned := req.orphaned.b);
    }
  }

  /** `updateAnnotation`: look up, authorize, edit the record field by field,
      save it, and broadcast it to the room of its stored document id. */
  method UpdateAnnotation(store: AnnotationStore, io: Hub?, user: User, id: string, req: UpdateRequest)
    returns (reply: Reply<Annotation>)
    requires store.Valid()
    modifies store, io
    ensures store.Valid()
    ensures reply == UpdateReply(old(store.annotations), user, id, req)
    ensures store.annotations ==
      if reply.Ok? then old(store.annotations)[reply.value.id := reply.value] else old(store.annotations)
    ensures io != null ==> io.memberships == old(io.memberships)
    ensures io != null ==>
      io.sent == old(io.sent) +
        (if reply.Ok?
         then [Emission(Members(old(io.memberships), RoomName(Hex(reply.value.documentId))), AnnotationUpdated(reply.value))]
         else [])
  {
    var found := Lookup(store.annotations, id);
    if found.Fail? {
      return Fail(found.status, found.message);
    }
    var annotation := found.value;
    if !CanEditAnnotation(Some(annotation), user) {
      return Fail(403, FORBIDDEN);
    }
    if req.selector.Some? && req.selector.value.end < req.selector.value.start {
      return Fail(400, BAD_RANGE);
    }
    annotation := EditFields(annotation, req);
    var ok := store.Save(annotation);
    if !ok {
      return Fail(500, DUPLICATE_KEY_ERROR);
    }
    if io != null {
      io.Broadcast(RoomName(Hex(annotation.documentId)), AnnotationUpdated(annotation));
    }
    reply := Ok(200, annotation);
  }

  /** A saved update keeps both indexes of the collection, under the same key. */
  lemma UpdateKeepsIndex(annotations: map<ObjectId, Annotation>, user: User, id: string, req: UpdateRequest)
    requires Indexed(annotations)
    requires UpdateReply(annotations, user, id, req).Ok?
    ensures var r := UpdateReply(annotations, user, id, req).value;
      r.id == ParseObjectId(id).value && Indexed(annotations[r.id := r])
  {
  }

  /** An update without a selector keeps the fingerprint, so an authorized
      one always succeeds. */
  lemma UpdateWithoutSelectorSucceeds(annotations: map<ObjectId, Annotation>, user: User, key: ObjectId,
                                      req: UpdateRequest)
    requires Indexed(annotations) && key in annotations
    requires CanEditAnnotation(Some(annotations[key]), user) && req.selector.None?
    ensures UpdateReply(annotations, user, Hex(key), req) == Ok(200, ApplyUpdate(annotations[key], req))
    ensures ApplyUpdate(annotations[key], req).rangeHash == annotations[key].rangeHash
  {
    LookupByHex(annotations, key);
    ParseHex(key);
  }

  /** Moving a record onto the range another record of the same author and
      document already holds fails with the duplicate-key 500, not a 409. */
  lemma CollidingSelectorIsServerError(annotations: map<ObjectId, Annotation>, user: User, key: ObjectId,
                                       other: ObjectId, req: UpdateRequest)
    requires key in annotations && other in annotations && other != key
    requires CanEditAnnotation(Some(annotations[key]), user)
    requires req.selector.Some? && req.selector.value.start <= req.selector.value.end
    requires annotations[other].rangeHash ==
      BuildRangeHash(Hex(annotations[key].documentId), req.selector.value, annotations[key].userId)
    ensures UpdateReply(annotations, user, Hex(key), req) == Fail(500, DUPLICATE_KEY_ERROR)
  {
    LookupByHex(annotations, key);
    ParseHex(key);
    assert HashTakenByOther(annotations, ApplyUpdate(annotations[key], req).rangeHash, key);
  }

  /** Someone who is neither the author nor an owner can change nothing:
      update and delete both answer 403. */
  lemma OthersAreForbidden(annotations: map<ObjectId, Annotation>, user: User, key: ObjectId, req: UpdateRequest)
    requires key in annotations
    requires annotations[key].userId != user.sub && user.role != OWNER_ROLE
    ensures UpdateReply(annotations, user, Hex(key), req) == Fail(403, FORBIDDEN)
    ensures DeleteReply(annotations, user, Hex(key)) == Fail(403, FORBIDDEN)
  {
    LookupByHex(annotations, key);
  }

  /** An owner who re-anchors someone else's record leaves it, fingerprint
      included, attributed to its author. */
  lemma OwnerEditKeepsAuthor(annotations: map<ObjectId, Annotation>, user: User, id: string, req: UpdateRequest)
    requires user.role == OWNER_ROLE
    requires UpdateReply(annotations, user, id, req).Ok? && req.selector.Some?
    ensures var before, after := Lookup(annotations, id).value, UpdateReply(annotations, user, id, req).value;
      after.userId == before.userId &&
      after.rangeHash == BuildRangeHash(Hex(before.documentId), req.selector.value, before.userId)
  {
  }

  // ---------------------------------------------------------------------
  // deleteAnnotation
  // ---------------------------------------------------------------------

  /** The reply of `deleteAnnotation`: 204 on success, carrying (for the
      model only) the record that was removed. */
  function DeleteReply(annotations: map<ObjectId, Annotation>, user: User, id: string): (r: Reply<Annotation>)
    ensures Lookup(annotations, id).Fail? ==> r == Fail(Lookup(annotations, id).status, Lookup(annotations, id).message)
    ensures r.Ok? <==> Lookup(annotations, id).Ok? && CanEditAnnotation(Some(Lookup(annotations, id).value), user)
    ensures Lookup(annotations, id).Ok? && !r.Ok? ==> r == Fail(403, FORBIDDEN)
    ensures r.Ok? ==> r == Ok(204, annotations[ParseObjectId(id).value])
  {
    match Lookup(annotations, id)
    case Fail(status, message) => Fail(status, message)
    case Ok(_, a) => if CanEditAnnotation(Some(a), user) then Ok(204, a) else Fail(403, FORBIDDEN)
  }

  /** `deleteAnnotation`: look up, authorize, remove that one record, and
      broadcast `{id}` (the id as the client wrote it) to the room of its
      stored document id. */
  method DeleteAnnotation(store: AnnotationStore, io: Hub?, user: User, id: string) returns (reply: Reply<Annotation>)
    requires store.Valid()
    modifies store, io
    ensures store.Valid()
    ensures reply == DeleteReply(old(store.annotations), user, id)
    ensures store.annotations ==
      if reply.Ok? then old(store.annotations) - {ParseObjectId(id).value} else old(store.annotations)
    ensures io != null ==> io.memberships == old(io.memberships)
    ensures io != null ==>
      io.sent == old(io.sent) +
        (if reply.Ok?
         then [Emission(Members(old(io.memberships), RoomName(Hex(reply.value.documentId))), AnnotationDeleted(id))]
         else [])
  {
    var found := Lookup(store.annotations, id);
    if found.Fail? {
      return Fail(found.status, found.message);
    }
    var annotation := found.value;
    if !CanEditAnnotation(Some(annotation), user) {
      return Fail(403, FORBIDDEN);
    }
    store.Remove(ParseObjectId(id).value);
    if io != null {
      io.Broadcast(RoomName(Hex(annotation.documentId)), AnnotationDeleted(id));
    }
    reply := Ok(204, annotation);
  }

  /** Removing a record keeps both indexes, leaves every other record as it
      was, and a second lookup of the same id is a 404. */
  lemma DeleteRemovesOnlyThat(annotations: map<ObjectId, Annotation>, user: User, id: string)
    requires Indexed(annotations)
    requires DeleteReply(annotations, user, id).Ok?
    ensures var key := ParseObjectId(id).value;
      && Indexed(annotations - {key})
      && (annotations - {key}).Keys == annotations.Keys - {key}
      && (forall k :: k in annotations && k != key ==> (annotations - {key})[k] == annotations[k])
      && Lookup(annotations - {key}, id) == Fail(404, ANNOTATION_NOT_FOUND)
  {
  }

  /** The author may delete what they just created, and doing so restores
      the collection. */
  lemma CreateThenDelete(annotations: map<ObjectId, Annotation>, documents: map<ObjectId, Document>,
                         user: User, req: CreateRequest, freshId: ObjectId)
    requires CreateReply(annotations, documents, user, req, freshId).Ok?
    ensures var a := CreateReply(annotations, documents, user, req, freshId).value;
      var after := annotations[freshId := a];
      DeleteReply(after, user, Hex(freshId)) == Ok(204, a) && after - {freshId} == annotations
  {
    var a := CreateReply(annotations, documents, user, req, freshId).value;
    var after := annotations[freshId := a];
    LookupByHex(after, freshId);
    ParseHex(freshId);
    assert after - {freshId} == annotations;
  }
}
