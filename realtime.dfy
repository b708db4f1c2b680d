/** The socket hub: per-connection room memberships, the three socket
    handlers, room broadcasts, and the parsing of the allowed CORS origins. */
module Realtime {
  import opened Values
  import opened Records

  // ---------------------------------------------------------------------
  // parseOrigins: '*' or a comma-separated list, trimmed, empties dropped
  // ---------------------------------------------------------------------

  /** The characters `String.prototype.trim` removes: white space and line
      terminators. */
  predicate IsJsWhitespace(c: char) {
    c == '\t' || c == '\n' || c == '\U{000B}' || c == '\U{000C}' || c == '\r' || c == ' ' ||
    c == '\U{00A0}' || c == '\U{1680}' || ('\U{2000}' <= c <= '\U{200A}') ||
    c == '\U{2028}' || c == '\U{2029}' || c == '\U{202F}' || c == '\U{205F}' ||
    c == '\U{3000}' || c == '\U{FEFF}'
  }

  predicate IsTrimmed(s: string) {
    s == [] || (!IsJsWhitespace(s[0]) && !IsJsWhitespace(s[|s| - 1]))
  }

  function TrimStart(s: string): (r: string)
    ensures |r| <= |s|
    ensures r == [] || !IsJsWhitespace(r[0])
  {
    if s != [] && IsJsWhitespace(s[0]) then TrimStart(s[1..]) else s
  }

  /** What `TrimStart` drops is a prefix made only of white space. */
  lemma {:induction false} TrimStartDrops(s: string)
    ensures var r := TrimStart(s);
      r == s[|s| - |r|..] && forall i :: 0 <= i < |s| - |r| ==> IsJsWhitespace(s[i])
  {
    if s != [] && IsJsWhitespace(s[0]) {
      TrimStartDrops(s[1..]);
      var r := TrimStart(s);
      assert r == s[1..][|s| - 1 - |r|..];
      forall i | 1 <= i < |s| - |r|
        ensures IsJsWhitespace(s[i])
      {
        assert s[i] == s[1..][i - 1];
      }
    }
  }

  function TrimEnd(s: string): (r: string)
    ensures |r| <= |s|
    ensures r == [] || !IsJsWhitespace(r[|r| - 1])
  {
    if s != [] && IsJsWhitespace(s[|s| - 1]) then TrimEnd(s[..|s| - 1]) else s
  }

  /** What `TrimEnd` drops is a suffix made only of white space. */
  lemma {:induction false} TrimEndDrops(s: string)
    ensures var r := TrimEnd(s);
      r == s[..|r|] && forall i :: |r| <= i < |s| ==> IsJsWhitespace(s[i])
  {
    if s != [] && IsJsWhitespace(s[|s| - 1]) {
      TrimEndDrops(s[..|s| - 1]);
      var r := TrimEnd(s);
      assert r == s[..|s| - 1][..|r|];
      forall i | |r| <= i < |s| - 1
        ensures IsJsWhitespace(s[i])
      {
        assert s[i] == s[..|s| - 1][i];
      }
    }
  }

  /** `value.trim()`: white space dropped at both ends. */
  function Trim(s: string): (r: string)
    ensures IsTrimmed(r) && |r| <= |s|
  {
    var t := TrimStart(s);
    TrimEndDrops(t);
    TrimEnd(t)
  }

  /** Trimming the end of a suffix of `s` keeps an infix of `s` followed only
      by white space. */
  lemma TrimEndOfSuffix(s: string, i: nat, t: string)
    requires i <= |s| && t == s[i..]
    ensures var r := TrimEnd(t);
      i + |r| <= |s| && r == s[i..i + |r|] &&
      (forall k :: i + |r| <= k < |s| ==> IsJsWhitespace(s[k]))
  {
    var r := TrimEnd(t);
    TrimEndDrops(t);
    assert r == t[..|r|];
    forall k | i + |r| <= k < |s|
      ensures IsJsWhitespace(s[k])
    {
      assert s[k] == t[k - i];
    }
  }

  /** Trimming keeps a contiguous infix and drops only white space around it. */
  lemma TrimInfix(s: string)
    ensures var i, r := |s| - |TrimStart(s)|, Trim(s);
      i + |r| <= |s| && r == s[i..i + |r|] &&
      (forall k :: 0 <= k < i ==> IsJsWhitespace(s[k])) &&
      (forall k :: i + |r| <= k < |s| ==> IsJsWhitespace(s[k]))
  {
    var t := TrimStart(s);
    TrimStartDrops(s);
    TrimEndOfSuffix(s, |s| - |t|, t);
    assert Trim(s) == TrimEnd(t);
  }

  /** Trimming introduces no character that was not there. */
  lemma TrimKeepsCharacters(s: string)
    ensures forall c :: c in Trim(s) ==> c in s
  {
    TrimInfix(s);
    var i, r := |s| - |TrimStart(s)|, Trim(s);
    forall c | c in r
      ensures c in s
    {
      var k :| 0 <= k < |r| && r[k] == c;
      assert s[i + k] == c;
    }
  }

  /** Trimming a string that has no white space at either end changes nothing. */
  lemma TrimTrimmed(s: string)
    requires IsTrimmed(s)
    ensures Trim(s) == s
  {
  }

  /** `s.split(sep)`: the pieces between separators; an empty string gives one
      empty piece. */
  function Split(s: string, sep: char): (parts: seq<string>)
    ensures |parts| >= 1
    ensures forall k :: 0 <= k < |parts| ==> sep !in parts[k]
  {
    if s == [] then [""]
    else
      var rest := Split(s[1..], sep);
      if s[0] == sep then [""] + rest else [[s[0]] + rest[0]] + rest[1..]
  }

  /** `parts.join(sep)`. */
  function Join(parts: seq<string>, sep: char): string {
    if parts == [] then ""
    else if |parts| == 1 then parts[0]
    else parts[0] + [sep] + Join(parts[1..], sep)
  }

  /** Splitting loses nothing: joining the pieces gives the input back. */
  lemma {:induction false} JoinSplit(s: string, sep: char)
    ensures Join(Split(s, sep), sep) == s
  {
    if s != [] {
      var rest := Split(s[1..], sep);
      JoinSplit(s[1..], sep);
      if s[0] == sep {
        assert Split(s, sep) == [""] + rest;
        assert ([""] + rest)[1..] == rest;
      } else {
        var parts := [[s[0]] + rest[0]] + rest[1..];
        assert Split(s, sep) == parts;
        if |rest| == 1 {
          assert parts == [[s[0]] + rest[0]];
        } else {
          assert parts[1..] == rest[1..];
          assert Join(rest, sep) == rest[0] + [sep] + Join(rest[1..], sep);
        }
      }
    }
  }

  /** Splitting a join of separator-free pieces gives the pieces back. */
  lemma {:induction false} SplitJoin(parts: seq<string>, sep: char)
    requires |parts| >= 1
    requires forall k :: 0 <= k < |parts| ==> sep !in parts[k]
    ensures Split(Join(parts, sep), sep) == parts
  {
    if |parts| == 1 {
      SplitPiece(parts[0], sep, []);
      assert parts[0] + [] == parts[0];
    } else {
      var tail := Join(parts[1..], sep);
      SplitJoin(parts[1..], sep);
      assert Join(parts, sep) == parts[0] + ([sep] + tail);
      SplitSeparated(tail, sep);
      SplitPiece(parts[0], sep, [sep] + tail);
      var after := Split([sep] + tail, sep);
      assert after[0] == "" && after[1..] == parts[1..];
      assert parts[0] + after[0] == parts[0];
      assert [parts[0]] + parts[1..] == parts;
    }
  }

  /** A leading separator starts a new piece. */
  lemma SplitSeparated(tail: string, sep: char)
    ensures Split([sep] + tail, sep) == [""] + Split(tail, sep)
  {
    assert ([sep] + tail)[1..] == tail;
  }

  /** A separator-free prefix is glued onto the first piece of what follows. */
  lemma {:induction false} SplitPiece(piece: string, sep: char, rest: string)
    requires sep !in piece
    ensures var after := Split(rest, sep);
      Split(piece + rest, sep) == [piece + after[0]] + after[1..]
  {
    if piece == [] {
      var after := Split(rest, sep);
      assert piece + rest == rest;
      assert piece + after[0] == after[0];
      assert [after[0]] + after[1..] == after;
    } else {
      SplitPiece(piece[1..], sep, rest);
      assert (piece + rest)[1..] == piece[1..] + rest;
      assert (piece + rest)[0] == piece[0];
      assert [piece[0]] + (piece[1..] + Split(rest, sep)[0]) == piece + Split(rest, sep)[0];
    }
  }

  /** `.map(trim).filter(Boolean)`. */
  function CleanOrigins(parts: seq<string>): (r: seq<string>)
    ensures forall k :: 0 <= k < |r| ==> r[k] != "" && IsTrimmed(r[k])
    ensures |r| <= |parts|
  {
    if parts == [] then []
    else
      var t := Trim(parts[0]);
      (if t == "" then [] else [t]) + CleanOrigins(parts[1..])
  }

  /** The `origin` option: every origin, or a list of them. */
  datatype Origins = AnyOrigin | OriginList(origins: seq<string>)

  function ParseOrigins(corsOrigin: string): (r: Origins)
    ensures r.AnyOrigin? <==> corsOrigin == "*"
    ensures r.OriginList? ==>
      forall k :: 0 <= k < |r.origins| ==>
        r.origins[k] != "" && IsTrimmed(r.origins[k]) && ',' !in r.origins[k]
  {
    if corsOrigin == "*" then AnyOrigin
    else
      var parts := Split(corsOrigin, ',');
      var r := CleanOrigins(parts);
      CleanOriginsNoSeparator(parts, ',');
      OriginList(r)
  }

  /** `r` is `parts` mapped through `f` with the empty results dropped:
      `idx` lists, in increasing order, the positions of the parts that
      survive, and `r[j]` is the image of the part at position `idx[j]`. */
  predicate KeepsNonEmpty(parts: seq<string>, f: string -> string, r: seq<string>, idx: seq<nat>) {
    Images(parts, f, r, idx) && StrictlyIncreasing(idx) && KeptExactly(parts, f, idx)
  }

  predicate Images(parts: seq<string>, f: string -> string, r: seq<string>, idx: seq<nat>) {
    |idx| == |r| && forall j :: 0 <= j < |idx| ==> idx[j] < |parts| && r[j] == f(parts[idx[j]])
  }

  predicate StrictlyIncreasing(idx: seq<nat>) {
    forall i, j :: 0 <= i < j < |idx| ==> idx[i] < idx[j]
  }

  predicate KeptExactly(parts: seq<string>, f: string -> string, idx: seq<nat>) {
    forall k :: 0 <= k < |parts| ==> (k in idx <==> f(parts[k]) != "")
  }

  /** The positions of `idx` moved one place on. */
  function Shifted(idx: seq<nat>): (r: seq<nat>)
    ensures |r| == |idx| && forall j :: 0 <= j < |idx| ==> r[j] == idx[j] + 1
  {
    seq(|idx|, j requires 0 <= j < |idx| => idx[j] + 1)
  }

  lemma ShiftedMembers(idx: seq<nat>)
    ensures forall k: int :: k in Shifted(idx) <==> k > 0 && k - 1 in idx
  {
    var sh := Shifted(idx);
    forall k: int
      ensures k in sh <==> k > 0 && k - 1 in idx
    {
      if k in sh {
        var j :| 0 <= j < |sh| && sh[j] == k;
        assert idx[j] == k - 1;
      }
      if k > 0 && k - 1 in idx {
        var j :| 0 <= j < |idx| && idx[j] == k - 1;
        assert sh[j] == k;
      }
    }
  }

  /** A first part that maps to the empty string is dropped; the kept
      positions of the rest move one place on. */
  lemma KeepsNonEmptyDrop(parts: seq<string>, f: string -> string, rest: seq<string>, idx: seq<nat>)
    requires parts != [] && f(parts[0]) == "" && KeepsNonEmpty(parts[1..], f, rest, idx)
    ensures KeepsNonEmpty(parts, f, rest, Shifted(idx))
  {
    var sh := Shifted(idx);
    ShiftedMembers(idx);
    forall j | 0 <= j < |sh|
      ensures sh[j] < |parts| && rest[j] == f(parts[sh[j]])
    {
      assert parts[sh[j]] == parts[1..][idx[j]];
    }
    forall k | 0 <= k < |parts|
      ensures k in sh <==> f(parts[k]) != ""
    {
      if k > 0 {
        assert parts[k] == parts[1..][k - 1];
      }
    }
  }

  /** A first part that maps to a non-empty string is kept in front, at
      position 0. */
  lemma KeepsNonEmptyKeep(parts: seq<string>, f: string -> string, rest: seq<string>, idx: seq<nat>)
    requires parts != [] && f(parts[0]) != "" && KeepsNonEmpty(parts[1..], f, rest, idx)
    ensures KeepsNonEmpty(parts, f, [f(parts[0])] + rest, [0] + Shifted(idx))
  {
    ImagesKeep(parts, f, rest, idx);
    IncreasingKeep(idx);
    KeptExactlyKeep(parts, f, idx);
  }

  lemma ImagesKeep(parts: seq<string>, f: string -> string, rest: seq<string>, idx: seq<nat>)
    requires parts != [] && Images(parts[1..], f, rest, idx)
    ensures Images(parts, f, [f(parts[0])] + rest, [0] + Shifted(idx))
  {
    var sh := Shifted(idx);
    var both := [0] + sh;
    var r := [f(parts[0])] + rest;
    forall j | 0 < j < |both|
      ensures both[j] < |parts| && r[j] == f(parts[both[j]])
    {
      assert both[j] == sh[j - 1] && r[j] == rest[j - 1];
      assert parts[sh[j - 1]] == parts[1..][idx[j - 1]];
    }
  }

  lemma IncreasingKeep(idx: seq<nat>)
    requires StrictlyIncreasing(idx)
    ensures StrictlyIncreasing([0] + Shifted(idx))
  {
    var sh := Shifted(idx);
    var both := [0] + sh;
    forall i, j | 0 <= i < j < |both|
      ensures both[i] < both[j]
    {
      assert both[j] == sh[j - 1];
      if i > 0 {
        assert both[i] == sh[i - 1];
      }
    }
  }

  lemma KeptExactlyKeep(parts: seq<string>, f: string -> string, idx: seq<nat>)
    requires parts != [] && f(parts[0]) != "" && KeptExactly(parts[1..], f, idx)
    ensures KeptExactly(parts, f, [0] + Shifted(idx))
  {
    var sh := Shifted(idx);
    var both := [0] + sh;
    ShiftedMembers(idx);
    forall k | 0 <= k < |parts|
      ensures k in both <==> f(parts[k]) != ""
    {
      assert k in both <==> k == 0 || k in sh;
      if k > 0 {
        assert parts[k] == parts[1..][k - 1];
      }
    }
  }

  /** `.map(trim).filter(Boolean)` keeps, in their order, exactly the parts
      that do not trim to the empty string, each trimmed. */
  lemma {:induction false} CleanOriginsKeepsTrimmed(parts: seq<string>)
    ensures exists idx :: KeepsNonEmpty(parts, Trim, CleanOrigins(parts), idx)
  {
    if parts == [] {
      assert KeepsNonEmpty(parts, Trim, CleanOrigins(parts), []);
    } else {
      CleanOriginsKeepsTrimmed(parts[1..]);
      var rest := CleanOrigins(parts[1..]);
      var idx :| KeepsNonEmpty(parts[1..], Trim, rest, idx);
      if Trim(parts[0]) == "" {
        KeepsNonEmptyDrop(parts, Trim, rest, idx);
        assert CleanOrigins(parts) == rest;
        assert KeepsNonEmpty(parts, Trim, CleanOrigins(parts), Shifted(idx));
      } else {
        KeepsNonEmptyKeep(parts, Trim, rest, idx);
        assert CleanOrigins(parts) == [Trim(parts[0])] + rest;
        assert KeepsNonEmpty(parts, Trim, CleanOrigins(parts), [0] + Shifted(idx));
      }
    }
  }

  /** Any setting other than `*` is cut at every comma into separator-free
      pieces, and the allowed origins are those pieces, trimmed, in order,
      without the ones that trim to nothing. */
  lemma ParseOriginsKeepsTrimmed(corsOrigin: string)
    ensures corsOrigin != "*" ==>
      exists parts, idx ::
        && Join(parts, ',') == corsOrigin
        && (forall k :: 0 <= k < |parts| ==> ',' !in parts[k])
        && KeepsNonEmpty(parts, Trim, ParseOrigins(corsOrigin).origins, idx)
  {
    if corsOrigin != "*" {
      var parts := Split(corsOrigin, ',');
      JoinSplit(corsOrigin, ',');
      CleanOriginsKeepsTrimmed(parts);
      var idx :| KeepsNonEmpty(parts, Trim, CleanOrigins(parts), idx);
      assert ParseOrigins(corsOrigin).origins == CleanOrigins(parts);
    }
  }

  lemma {:induction false} CleanOriginsNoSeparator(parts: seq<string>, sep: char)
    requires forall k :: 0 <= k < |parts| ==> sep !in parts[k]
    ensures forall k :: 0 <= k < |CleanOrigins(parts)| ==> sep !in CleanOrigins(parts)[k]
  {
    if parts != [] {
      CleanOriginsNoSeparator(parts[1..], sep);
      assert sep !in Trim(parts[0]) by {
        TrimKeepsCharacters(parts[0]);
      }
    }
  }

  lemma {:induction false} CleanOriginsClean(origins: seq<string>)
    requires forall k :: 0 <= k < |origins| ==> origins[k] != "" && IsTrimmed(origins[k])
    ensures CleanOrigins(origins) == origins
  {
    if origins != [] {
      TrimTrimmed(origins[0]);
      CleanOriginsClean(origins[1..]);
      assert [origins[0]] + origins[1..] == origins;
    }
  }

  /** A well-formed origin list, written as the comma-joined setting, parses
      back to itself (a one-element list holding `*` would read as "any"). */
  lemma ParseOriginsRoundTrip(origins: seq<string>)
    requires forall k :: 0 <= k < |origins| ==>
      origins[k] != "" && IsTrimmed(origins[k]) && ',' !in origins[k]
    requires origins != ["*"]
    ensures ParseOrigins(Join(origins, ',')) == OriginList(origins)
  {
    var s := Join(origins, ',');
    if origins == [] {
      assert Split(s, ',') == [""];
      assert CleanOrigins([""]) == [] by { assert Trim("") == ""; }
    } else {
      if |origins| >= 2 {
        assert s == origins[0] + [','] + Join(origins[1..], ',');
        assert s[|origins[0]|] == ',';
      }
      assert s != "*";
      SplitJoin(origins, ',');
      CleanOriginsClean(origins);
    }
  }

  // ---------------------------------------------------------------------
  // Rooms and deliveries
  // ---------------------------------------------------------------------

  type ConnId = nat
  type Memberships = map<ConnId, set<string>>

  /** The room of one document's viewers: `doc:<id>`. */
  function RoomName(documentId: string): (room: string)
    ensures |room| == |documentId| + 4 && room[..4] == "doc:" && room[4..] == documentId
  {
    "doc:" + documentId
  }

  lemma RoomNameInjective(a: string, b: string)
    ensures RoomName(a) == RoomName(b) <==> a == b
  {
    if RoomName(a) == RoomName(b) {
      assert a == RoomName(a)[4..] && b == RoomName(b)[4..];
    }
  }

  /** The payloads the server emits. */
  datatype Event =
    | JoinedDocument(documentId: string)
    | UserCursor(userId: JsValue, selection: JsValue)
    | AnnotationCreated(annotation: Annotation)
    | AnnotationUpdated(annotation: Annotation)
    | AnnotationDeleted(id: string)

  /** One `emit`: who receives it and what. */
  datatype Emission = Emission(recipients: set<ConnId>, event: Event)

  function RoomsOf(m: Memberships, c: ConnId): set<string> {
    if c in m then m[c] else {}
  }

  function Members(m: Memberships, room: string): (r: set<ConnId>)
    ensures forall c :: c in r <==> room in RoomsOf(m, c)
  {
    set c | c in m && room in m[c]
  }

  function WithRoom(m: Memberships, c: ConnId, room: string): Memberships {
    m[c := RoomsOf(m, c) + {room}]
  }

  function WithoutRoom(m: Memberships, c: ConnId, room: string): Memberships {
    if c in m then m[c := m[c] - {room}] else m
  }

  /** Joining puts the connection in the room and touches no other room or
      connection. */
  lemma {:induction false} JoinMembers(m: Memberships, c: ConnId, room: string, other: string)
    ensures Members(WithRoom(m, c, room), room) == Members(m, room) + {c}
    ensures other != room ==> Members(WithRoom(m, c, room), other) == Members(m, other)
    ensures forall d :: d != c ==> RoomsOf(WithRoom(m, c, room), d) == RoomsOf(m, d)
  {
    var m' := WithRoom(m, c, room);
    assert forall d :: RoomsOf(m', d) == if d == c then RoomsOf(m, c) + {room} else RoomsOf(m, d);
  }

  /** Leaving takes the connection out of that room only. */
  lemma {:induction false} LeaveMembers(m: Memberships, c: ConnId, room: string, other: string)
    ensures Members(WithoutRoom(m, c, room), room) == Members(m, room) - {c}
    ensures other != room ==> Members(WithoutRoom(m, c, room), other) == Members(m, other)
    ensures RoomsOf(WithoutRoom(m, c, room), c) == RoomsOf(m, c) - {room}
  {
    var m' := WithoutRoom(m, c, room);
    assert forall d :: RoomsOf(m', d) == if d == c then RoomsOf(m, c) - {room} else RoomsOf(m, d);
  }

  /** A join followed by a leave of a room the connection was not in restores
      its memberships. */
  lemma JoinThenLeave(m: Memberships, c: ConnId, room: string)
    requires c in m && room !in m[c]
    ensures WithoutRoom(WithRoom(m, c, room), c, room) == m
  {
    assert m[c] + {room} - {room} == m[c];
  }

  /** The payload of a `user.cursor` message. */
  datatype CursorPayload = CursorPayload(documentId: Option<string>, userId: JsValue, selection: JsValue)

  /** The hub: `io` and the per-socket rooms of socket.io, with the record of
      everything emitted so far, in emission order. */
  class Hub {
    var memberships: Memberships
    var sent: seq<Emission>

    constructor ()
      ensures memberships == map[] && sent == []
    {
      memberships := map[];
      sent := [];
    }

    /** `io.to(room).emit(event)`: every member, the sender included. */
    method Broadcast(room: string, event: Event)
      modifies this
      ensures memberships == old(memberships)
      ensures sent == old(sent) + [Emission(Members(old(memberships), room), event)]
    {
      sent := sent + [Emission(Members(memberships, room), event)];
    }

    /** The `joinDocument` handler: a falsy id is ignored; otherwise the socket
      joins `doc:<id>` and only the socket itself is acknowledged. */
    method JoinDocument(c: ConnId, documentId: Option<string>)
      modifies this
      ensures !Present(documentId) ==> memberships == old(memberships) && sent == old(sent)
      ensures Present(documentId) ==>
        memberships == WithRoom(old(memberships), c, RoomName(documentId.value)) &&
        sent == old(sent) + [Emission({c}, JoinedDocument(documentId.value))]
    {
      if !Present(documentId) {
        return;
      }
      memberships := WithRoom(memberships, c, RoomName(documentId.value));
      sent := sent + [Emission({c}, JoinedDocument(documentId.value))];
    }

    /** The `leaveDocument` handler: a falsy id is ignored; otherwise the socket
      leaves `doc:<id>`. Nothing is sent. */
    method LeaveDocument(c: ConnId, documentId: Option<string>)
      modifies this
      ensures sent == old(sent)
      ensures memberships ==
        if Present(documentId) then WithoutRoom(old(memberships), c, RoomName(documentId.value))
        else old(memberships)
    {
      if !Present(documentId) {
        return;
      }
      memberships := WithoutRoom(memberships, c, RoomName(documentId.value));
    }

    /** The `user.cursor` handler: a payload without a document id is dropped;
      otherwise `{userId, selection}` goes to every other member of the room. */
    method UserCursorMoved(c: ConnId, payload: Option<CursorPayload>)
      modifies this
      ensures memberships == old(memberships)
      ensures sent ==
        if payload.Some? && Present(payload.value.documentId) then
          old(sent) + [Emission(Members(old(memberships), RoomName(payload.value.documentId.value)) - {c},
                                UserCursor(payload.value.userId, payload.value.selection))]
        else old(sent)
    {
      if payload.None? || !Present(payload.value.documentId) {
        return;
      }
      var room := RoomName(payload.value.documentId.value);
      sent := sent + [Emission(Members(memberships, room) - {c}, UserCursor(payload.value.userId, payload.value.selection))];
    }
  }
}
