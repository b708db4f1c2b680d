/** Cursor pagination of a document's annotations: fetch `limit + 1` records
    with ids above the cursor in ascending order, keep `limit`, and hand out
    the last kept id as the next cursor when more remain. */
module CursorPaging {
  import opened Values
  import opened ObjectIds
  import opened Records

  const DEFAULT_LIMIT: nat := 50
  /** What the TypeError of `data[data.length - 1]._id` on an empty page says. */
  const EMPTY_PAGE_ERROR: string := "Cannot read properties of undefined (reading '_id')"

  datatype AnnotationPage = AnnotationPage(data: seq<Annotation>, cursor: Option<ObjectId>, hasMore: bool)

  /** The order `find` returns with a sort on `_id`: strictly ascending ids. */
  predicate Ascending(s: seq<Annotation>) {
    IdsIncrease(s)
  }

  /** Kept apart from `Ascending` so that the page lemmas, which only pass the
      order along, do not carry its quantifier. */
  predicate IdsIncrease(s: seq<Annotation>) {
    forall i, j :: 0 <= i < j < |s| ==> s[i].id < s[j].id
  }

  predicate Beyond(a: Annotation, cursor: Option<ObjectId>) {
    cursor.None? || a.id > cursor.value
  }

  /** The records matching `{ _id: { $gt: cursor } }`, in the given order. */
  function After(s: seq<Annotation>, cursor: Option<ObjectId>): (r: seq<Annotation>)
    ensures |r| <= |s|
  {
    if s == [] then []
    else (if Beyond(s[0], cursor) then [s[0]] else []) + After(s[1..], cursor)
  }

  /** Exactly the records above the cursor are kept. */
  lemma {:induction false} AfterMembers(s: seq<Annotation>, cursor: Option<ObjectId>)
    ensures forall a :: a in After(s, cursor) <==> a in s && Beyond(a, cursor)
  {
    if s != [] {
      AfterMembers(s[1..], cursor);
      assert s == [s[0]] + s[1..];
    }
  }

  /** `.limit(n)`; MongoDB reads a limit of 0 as no limit. */
  function Take<T>(s: seq<T>, n: nat): (r: seq<T>)
    ensures n == 0 ==> r == s
    ensures n > 0 ==> |r| == (if n <= |s| then n else |s|) && r == s[..|r|]
  {
    if n == 0 || |s| < n then s else s[..n]
  }

  /** The page `getAnnotations` answers for records already sorted by id.
      With a limit of 0 and any record left, the code reads the id of the
      last element of an empty page and fails with a 500. */
  function CursorPage(sorted: seq<Annotation>, cursor: Option<ObjectId>, limit: nat): (r: Reply<AnnotationPage>)
    ensures r.Fail? <==> limit == 0 && |After(sorted, cursor)| > 0
    ensures r.Fail? ==> r.status == 500
    ensures r.Ok? ==>
      var rest, p := After(sorted, cursor), r.value;
      && r.status == 200
      && (p.hasMore <==> |rest| > limit)
      && |p.data| == (if p.hasMore then limit else |rest|)
      && p.data == rest[..|p.data|]
      && p.cursor == (if p.hasMore then Some(p.data[|p.data| - 1].id) else None)
  {
    var fetched := Take(After(sorted, cursor), limit + 1);
    var hasMore := |fetched| > limit;
    var data := if hasMore then fetched[..limit] else fetched;
    if hasMore && data == [] then
      Fail(500, EMPTY_PAGE_ERROR)
    else
      Ok(200, AnnotationPage(data, if hasMore then Some(data[|data| - 1].id) else None, hasMore))
  }

  lemma {:induction false} AllBeyond(s: seq<Annotation>, cursor: Option<ObjectId>)
    requires forall k :: 0 <= k < |s| ==> Beyond(s[k], cursor)
    ensures After(s, cursor) == s
  {
    if s != [] {
      AllBeyond(s[1..], cursor);
      assert [s[0]] + s[1..] == s;
    }
  }

  /** Without a cursor every record is fetched. */
  lemma AfterNoCursor(s: seq<Annotation>)
    ensures After(s, None) == s
  {
    AllBeyond(s, None);
  }

  /** The number of leading records at or below the cursor. */
  function Skipped(s: seq<Annotation>, cursor: Option<ObjectId>): (k: nat)
    ensures k <= |s|
  {
    if s == [] || Beyond(s[0], cursor) then 0 else 1 + Skipped(s[1..], cursor)
  }

  /** On a sorted list the records above a cursor form a suffix. */
  lemma {:induction false} AfterIsSuffix(s: seq<Annotation>, cursor: Option<ObjectId>)
    requires Ascending(s)
    ensures After(s, cursor) == s[Skipped(s, cursor)..]
  {
    if s != [] {
      if Beyond(s[0], cursor) {
        AllBeyond(s, cursor);
      } else {
        AfterIsSuffix(s[1..], cursor);
        assert [] + After(s[1..], cursor) == After(s[1..], cursor);
        assert s[1..][Skipped(s[1..], cursor)..] == s[1 + Skipped(s[1..], cursor)..];
      }
    }
  }

  /** Using the id of a listed record as cursor resumes right after it. */
  lemma {:induction false} AfterElement(s: seq<Annotation>, i: nat)
    requires Ascending(s) && i < |s|
    ensures After(s, Some(s[i].id)) == s[i + 1..]
  {
    var c := Some(s[i].id);
    if i == 0 {
      AllBeyond(s[1..], c);
      assert [] + After(s[1..], c) == After(s[1..], c);
    } else {
      AfterElement(s[1..], i - 1);
      assert s[1..][i - 1] == s[i];
      assert [] + After(s[1..], c) == After(s[1..], c);
      assert s[1..][i..] == s[i + 1..];
    }
  }

  /** With more than `limit` records left, the page is the first `limit` of
      them and its cursor is the id of the last one. */
  lemma FullPage(sorted: seq<Annotation>, cursor: Option<ObjectId>, limit: nat)
    requires limit > 0 && |After(sorted, cursor)| > limit
    ensures var rest := After(sorted, cursor);
      CursorPage(sorted, cursor, limit) == Ok(200, AnnotationPage(rest[..limit], Some(rest[limit - 1].id), true))
  {
  }

  /** On sorted records, the id of the record at position `limit - 1` above
      a cursor, used as the next cursor, skips exactly `limit` records. */
  lemma ResumeAfter(sorted: seq<Annotation>, cursor: Option<ObjectId>, limit: nat)
    requires Ascending(sorted) && 0 < limit < |After(sorted, cursor)|
    ensures var rest := After(sorted, cursor);
      After(sorted, Some(rest[limit - 1].id)) == rest[limit..]
  {
    var rest := After(sorted, cursor);
    var k := Skipped(sorted, cursor);
    assert rest == sorted[k..] by {
      AfterIsSuffix(sorted, cursor);
    }
    var i := k + limit - 1;
    assert After(sorted, Some(sorted[i].id)) == sorted[i + 1..] by {
      AfterElement(sorted, i);
    }
    assert rest[limit - 1] == sorted[i];
    assert sorted[i + 1..] == rest[limit..];
  }

  /** After a full page, the next cursor resumes exactly where the page ends. */
  lemma NextPageResumes(sorted: seq<Annotation>, cursor: Option<ObjectId>, limit: nat)
    requires Ascending(sorted) && limit > 0
    requires |After(sorted, cursor)| > limit
    ensures CursorPage(sorted, cursor, limit).Ok?
    ensures var p := CursorPage(sorted, cursor, limit).value;
      p.cursor.Some? && After(sorted, p.cursor) == After(sorted, cursor)[limit..]
  {
    FullPage(sorted, cursor, limit);
    ResumeAfter(sorted, cursor, limit);
  }

  /** The pages a client collects by following `cursor` while `hasMore`. */
  function Pages(sorted: seq<Annotation>, cursor: Option<ObjectId>, limit: nat): seq<seq<Annotation>>
    requires Ascending(sorted) && limit > 0
    decreases |After(sorted, cursor)|
  {
    var p := CursorPage(sorted, cursor, limit).value;
    if p.hasMore then
      NextPageResumes(sorted, cursor, limit);
      [p.data] + Pages(sorted, p.cursor, limit)
    else
      [p.data]
  }

  function Flatten<T>(pages: seq<seq<T>>): seq<T> {
    if pages == [] then [] else pages[0] + Flatten(pages[1..])
  }

  lemma FlattenCons<T>(x: seq<T>, tail: seq<seq<T>>)
    ensures Flatten([x] + tail) == x + Flatten(tail)
  {
    assert ([x] + tail)[1..] == tail;
  }

  /** The cursor a full page hands out: the id of its last record. */
  function NextCursor(sorted: seq<Annotation>, cursor: Option<ObjectId>, limit: nat): Option<ObjectId>
    requires 0 < limit < |After(sorted, cursor)|
  {
    Some(After(sorted, cursor)[limit - 1].id)
  }

  /** A full page is the first `limit` records, followed by the pages from
      its cursor, which start `limit` records further on. */
  lemma PagesUnfold(sorted: seq<Annotation>, cursor: Option<ObjectId>, limit: nat)
    requires Ascending(sorted) && 0 < limit < |After(sorted, cursor)|
    ensures var rest := After(sorted, cursor);
      var next := NextCursor(sorted, cursor, limit);
      Pages(sorted, cursor, limit) == [rest[..limit]] + Pages(sorted, next, limit) &&
      After(sorted, next) == rest[limit..]
  {
    FullPage(sorted, cursor, limit);
    ResumeAfter(sorted, cursor, limit);
  }

  /** Putting a prefix before the pages that cover the remainder covers all. */
  lemma FlattenSplit<T>(rest: seq<T>, limit: nat, tail: seq<seq<T>>)
    requires limit <= |rest| && Flatten(tail) == rest[limit..]
    ensures Flatten([rest[..limit]] + tail) == rest
  {
    FlattenCons(rest[..limit], tail);
    assert rest[..limit] + rest[limit..] == rest;
  }

  /** A full page followed by the pages after it covers what the full page
      started from. */
  lemma CoverFullPage(sorted: seq<Annotation>, cursor: Option<ObjectId>, limit: nat)
    requires Ascending(sorted) && 0 < limit < |After(sorted, cursor)|
    requires var next := NextCursor(sorted, cursor, limit);
      Flatten(Pages(sorted, next, limit)) == After(sorted, next)
    ensures Flatten(Pages(sorted, cursor, limit)) == After(sorted, cursor)
  {
    var rest := After(sorted, cursor);
    var tail := Pages(sorted, NextCursor(sorted, cursor, limit), limit);
    PagesUnfold(sorted, cursor, limit);
    FlattenSplit(rest, limit, tail);
  }

  /** The last page covers everything that is left. */
  lemma CoverLastPage(sorted: seq<Annotation>, cursor: Option<ObjectId>, limit: nat)
    requires Ascending(sorted) && limit > 0
    requires |After(sorted, cursor)| <= limit
    ensures Flatten(Pages(sorted, cursor, limit)) == After(sorted, cursor)
  {
    var p := CursorPage(sorted, cursor, limit).value;
    assert Pages(sorted, cursor, limit) == [p.data] + [];
    FlattenCons(p.data, []);
  }

  /** Following the cursors from a starting cursor yields, in order, exactly
      the records above it. */
  lemma {:induction false} PagesCoverAfter(sorted: seq<Annotation>, cursor: Option<ObjectId>, limit: nat)
    requires Ascending(sorted) && limit > 0
    ensures Flatten(Pages(sorted, cursor, limit)) == After(sorted, cursor)
    decreases |After(sorted, cursor)|
  {
    if |After(sorted, cursor)| > limit {
      PagesUnfold(sorted, cursor, limit);
      PagesCoverAfter(sorted, NextCursor(sorted, cursor, limit), limit);
      CoverFullPage(sorted, cursor, limit);
    } else {
      CoverLastPage(sorted, cursor, limit);
    }
  }

  /** From no cursor, the pages visit every annotation exactly once, in
      ascending id order. */
  lemma PagesVisitAll(sorted: seq<Annotation>, limit: nat)
    requires Ascending(sorted) && limit > 0
    ensures Flatten(Pages(sorted, None, limit)) == sorted
  {
    PagesCoverAfter(sorted, None, limit);
    AfterNoCursor(sorted);
  }

  /** The number of requests a client makes for n records at page size L:
      ceil(n / L), and one when there are none. */
  function Requests(n: nat, limit: nat): nat
    requires limit > 0
  {
    if n == 0 then 1 else (n + limit - 1) / limit
  }

  /** A full page takes one request and leaves `limit` fewer records. */
  lemma RequestsAfterFullPage(n: nat, limit: nat)
    requires limit > 0 && n > limit
    ensures Requests(n, limit) == Requests(n - limit, limit) + 1
  {
    DivShift(n - 1, limit);
  }

  /** At most `limit` records, and at least one, take one request. */
  lemma RequestsOfLastPage(n: nat, limit: nat)
    requires 0 < n <= limit
    ensures Requests(n, limit) == 1
  {
    DivBetween(n + limit - 1, limit);
  }

  /** A full page adds one request to those of the pages after it. */
  lemma CountFullPage(sorted: seq<Annotation>, cursor: Option<ObjectId>, limit: nat)
    requires Ascending(sorted) && 0 < limit < |After(sorted, cursor)|
    requires var next := NextCursor(sorted, cursor, limit);
      |Pages(sorted, next, limit)| == Requests(|After(sorted, next)|, limit)
    ensures |Pages(sorted, cursor, limit)| == Requests(|After(sorted, cursor)|, limit)
  {
    PagesUnfold(sorted, cursor, limit);
    RequestsAfterFullPage(|After(sorted, cursor)|, limit);
  }

  /** The last page is one request. */
  lemma CountLastPage(sorted: seq<Annotation>, cursor: Option<ObjectId>, limit: nat)
    requires Ascending(sorted) && limit > 0
    requires |After(sorted, cursor)| <= limit
    ensures |Pages(sorted, cursor, limit)| == Requests(|After(sorted, cursor)|, limit)
  {
    var n := |After(sorted, cursor)|;
    assert |Pages(sorted, cursor, limit)| == 1;
    if n > 0 {
      RequestsOfLastPage(n, limit);
    }
  }

  /** N records with page size L take ceil(N / L) requests, and one request
      when there are none. */
  lemma {:induction false} PageCount(sorted: seq<Annotation>, cursor: Option<ObjectId>, limit: nat)
    requires Ascending(sorted) && limit > 0
    ensures |Pages(sorted, cursor, limit)| == Requests(|After(sorted, cursor)|, limit)
    decreases |After(sorted, cursor)|
  {
    if |After(sorted, cursor)| > limit {
      PagesUnfold(sorted, cursor, limit);
      PageCount(sorted, NextCursor(sorted, cursor, limit), limit);
      CountFullPage(sorted, cursor, limit);
    } else {
      CountLastPage(sorted, cursor, limit);
    }
  }

  lemma DivShift(a: nat, b: nat)
    requires b > 0
    ensures (a + b) / b == a / b + 1
  {
    var q, r := a / b, a % b;
    assert a + b == b * (q + 1) + r;
    DivModUnique(a + b, b, q + 1, r);
  }

  lemma DivBetween(a: nat, b: nat)
    requires b > 0 && b <= a < 2 * b
    ensures a / b == 1
  {
  }
}
