/** The message queries of the router: selecting a file's messages, counting them, deleting
    them, and the cursor window `findMany({ take, cursor, orderBy: createdAt desc })`. */
module Messages {
  import opened Wrappers
  import opened Records

  /** The messages whose `fileId` is (`matching`) or is not (`!matching`) the given file,
      in stored order: the file's chat when matching, what `deleteMany` leaves otherwise. */
  function Select(ms: seq<Message>, fileId: string, matching: bool): (r: seq<Message>)
    ensures |r| <= |ms|
    ensures forall m :: m in r <==> m in ms && (m.fileId == fileId) == matching
  {
    if ms == [] then []
    else if (ms[0].fileId == fileId) == matching then [ms[0]] + Select(ms[1..], fileId, matching)
    else Select(ms[1..], fileId, matching)
  }

  function MessagesOf(ms: seq<Message>, fileId: string): seq<Message> {
    Select(ms, fileId, true)
  }

  function WithoutFile(ms: seq<Message>, fileId: string): seq<Message> {
    Select(ms, fileId, false)
  }

  /** The `fileId` column, for counting. */
  function FileIds(ms: seq<Message>): (r: seq<string>)
    ensures |r| == |ms| && forall i :: 0 <= i < |ms| ==> r[i] == ms[i].fileId
  {
    if ms == [] then [] else [ms[0].fileId] + FileIds(ms[1..])
  }

  /** `message.count({ where: { fileId } })` is the size of the file's chat. */
  lemma {:induction false} CountMatches(ms: seq<Message>, fileId: string)
    ensures |MessagesOf(ms, fileId)| == multiset(FileIds(ms))[fileId]
  {
    if ms != [] {
      CountMatches(ms[1..], fileId);
      assert FileIds(ms) == [ms[0].fileId] + FileIds(ms[1..]);
    }
  }

  /** Selecting with and without the file partitions the messages. */
  lemma {:induction false} SelectPartitions(ms: seq<Message>, fileId: string)
    ensures |MessagesOf(ms, fileId)| + |WithoutFile(ms, fileId)| == |ms|
  {
    if ms != [] {
      SelectPartitions(ms[1..], fileId);
    }
  }

  /** Selection keeps the newest-first order. */
  lemma {:induction false} SelectNewestFirst(ms: seq<Message>, fileId: string, matching: bool)
    requires NewestFirst(ms)
    ensures NewestFirst(Select(ms, fileId, matching))
  {
    if ms != [] {
      var rest := Select(ms[1..], fileId, matching);
      SelectNewestFirst(ms[1..], fileId, matching);
      if (ms[0].fileId == fileId) == matching {
        forall j | 0 <= j < |rest| ensures ms[0].createdAt >= rest[j].createdAt {
          assert rest[j] in ms[1..];
        }
      }
    }
  }

  /** Selection keeps ids non-empty and distinct. */
  lemma {:induction false} SelectIdsDistinct(ms: seq<Message>, fileId: string, matching: bool)
    requires IdsDistinct(ms)
    ensures IdsDistinct(Select(ms, fileId, matching))
  {
    if ms != [] {
      var rest := Select(ms[1..], fileId, matching);
      SelectIdsDistinct(ms[1..], fileId, matching);
      if (ms[0].fileId == fileId) == matching {
        forall j | 0 <= j < |rest| ensures ms[0].id != rest[j].id {
          assert rest[j] in ms[1..];
        }
      }
    }
  }

  /** Deleting a file's messages leaves none of them, and every other file's chat as it was. */
  lemma {:induction false} WithoutFileSelects(ms: seq<Message>, fileId: string, other: string)
    ensures MessagesOf(WithoutFile(ms, fileId), fileId) == []
    ensures other != fileId ==> MessagesOf(WithoutFile(ms, fileId), other) == MessagesOf(ms, other)
  {
    if ms != [] {
      WithoutFileSelects(ms[1..], fileId, other);
    }
  }

  /** The position of the message with that id, if any. */
  function IndexOfId(ms: seq<Message>, id: string): (r: Option<nat>)
    ensures r.Some? ==> r.value < |ms| && ms[r.value].id == id
    ensures r.None? <==> forall i :: 0 <= i < |ms| ==> ms[i].id != id
  {
    if ms == [] then None
    else if ms[0].id == id then Some(0)
    else match IndexOfId(ms[1..], id)
      case Some(i) => Some(i + 1)
      case None => None
  }

  /** Where a fetch starts: at the top without a cursor (an empty cursor is falsy), else at the
      cursor's message; a cursor naming no message of the list yields nothing. */
  function StartOf(ms: seq<Message>, cursor: Option<string>): (r: Option<nat>)
    ensures (cursor.None? || cursor == Some("")) ==> r == Some(0)
    ensures cursor.Some? && cursor.value != "" ==>
      && (r.Some? ==> r.value < |ms| && ms[r.value].id == cursor.value)
      && (r.None? <==> forall i :: 0 <= i < |ms| ==> ms[i].id != cursor.value)
  {
    if cursor.None? || cursor.value == "" then Some(0) else IndexOfId(ms, cursor.value)
  }

  /** `findMany({ take, cursor })` over a list already filtered and ordered. */
  function Fetch(ms: seq<Message>, cursor: Option<string>, take: nat): (r: seq<Message>)
    ensures |r| <= take
  {
    match StartOf(ms, cursor)
    case None => []
    case Some(s) => Window(ms, s, take)
  }

  /** At most `take` messages from position `s` on. */
  function Window(ms: seq<Message>, s: nat, take: nat): seq<Message>
    requires s <= |ms|
  {
    ms[s .. if s + take <= |ms| then s + take else |ms|]
  }

  /** In a list with distinct ids, the id of the message at `i` leads back to `i`. */
  lemma IndexOfDistinct(ms: seq<Message>, i: nat)
    requires IdsDistinct(ms) && i < |ms|
    ensures IndexOfId(ms, ms[i].id) == Some(i)
  {
  }

  /** A fetch from a file's chat returns messages of that file only, newest first. */
  lemma FetchFromChat(ms: seq<Message>, fileId: string, cursor: Option<string>, take: nat)
    requires NewestFirst(ms)
    ensures NewestFirst(Fetch(MessagesOf(ms, fileId), cursor, take))
    ensures forall m :: m in Fetch(MessagesOf(ms, fileId), cursor, take) ==> m in ms && m.fileId == fileId
  {
    var chat := MessagesOf(ms, fileId);
    SelectNewestFirst(ms, fileId, true);
    match StartOf(chat, cursor)
    case None =>
    case Some(s) =>
      RunNewestFirst(chat, s, if s + take <= |chat| then s + take else |chat|);
      assert Fetch(chat, cursor, take) == chat[s .. if s + take <= |chat| then s + take else |chat|];
  }

  /** A contiguous run of a newest-first list is newest first and holds only its items. */
  lemma RunNewestFirst(ms: seq<Message>, a: nat, b: nat)
    requires a <= b <= |ms| && NewestFirst(ms)
    ensures NewestFirst(ms[a..b])
    ensures forall m :: m in ms[a..b] ==> m in ms
  {
  }

  /** `page` and `nextCursor` are what popping the look-ahead item off `fetched` leaves for a
      page size of `limit`: a next cursor exactly when the look-ahead item was fetched, naming it. */
  ghost predicate PagedFrom(page: seq<Message>, nextCursor: Option<string>, fetched: seq<Message>, limit: nat) {
    && |page| <= limit
    && (|fetched| == limit + 1 ==> nextCursor.Some?)
    && (nextCursor.Some? ==> |fetched| == limit + 1 && page == fetched[..limit] && nextCursor.value == fetched[limit].id)
    && (nextCursor.None? ==> page == fetched)
  }

  /** Dropping the look-ahead item keeps what FetchFromChat promises. */
  lemma PrefixFromChat(fetched: seq<Message>, n: nat, ms: seq<Message>, fileId: string)
    requires n <= |fetched|
    requires NewestFirst(fetched)
    requires forall m :: m in fetched ==> m in ms && m.fileId == fileId
    ensures NewestFirst(fetched[..n])
    ensures forall m :: m in fetched[..n] ==> m in ms && m.fileId == fileId
  {
    forall m | m in fetched[..n] ensures m in fetched {
    }
  }

  /** Following the cursor a full page hands out loses and repeats nothing: the page shown and the
      next page fetched from its cursor are together one longer run of the same list. */
  lemma {:induction false} CursorResumes(ms: seq<Message>, cursor: Option<string>, limit: nat, take: nat)
    requires IdsDistinct(ms)
    requires |Fetch(ms, cursor, limit + 1)| == limit + 1
    ensures var next := Fetch(ms, cursor, limit + 1)[limit].id;
            Fetch(ms, cursor, limit + 1)[..limit] + Fetch(ms, Some(next), take) == Fetch(ms, cursor, limit + take)
  {
    var s := StartOf(ms, cursor).value;
    assert s + limit < |ms|;
    IndexOfDistinct(ms, s + limit);
    ResumeAt(ms, cursor, limit, take);
  }

  /** CursorResumes once the look-ahead item's id is known to lead back to it. */
  lemma ResumeAt(ms: seq<Message>, cursor: Option<string>, limit: nat, take: nat)
    requires StartOf(ms, cursor).Some?
    requires var s := StartOf(ms, cursor).value;
             s + limit < |ms| && ms[s + limit].id != "" && IndexOfId(ms, ms[s + limit].id) == Some(s + limit)
    ensures |Fetch(ms, cursor, limit + 1)| == limit + 1
    ensures var next := Fetch(ms, cursor, limit + 1)[limit].id;
            Fetch(ms, cursor, limit + 1)[..limit] + Fetch(ms, Some(next), take) == Fetch(ms, cursor, limit + take)
  {
    var s := StartOf(ms, cursor).value;
    assert Fetch(ms, cursor, limit + 1) == Window(ms, s, limit + 1);
    assert Fetch(ms, cursor, limit + take) == Window(ms, s, limit + take);
    assert Fetch(ms, Some(ms[s + limit].id), take) == Window(ms, s + limit, take);
    WindowsJoin(ms, s, limit, take);
  }

  /** The look-ahead window without its last item, followed by the window from that item, is
      the longer window. */
  lemma WindowsJoin(ms: seq<Message>, s: nat, limit: nat, take: nat)
    requires s + limit < |ms|
    ensures Window(ms, s, limit + 1)[..limit] + Window(ms, s + limit, take) == Window(ms, s, limit + take)
  {
    var e := if s + limit + take <= |ms| then s + limit + take else |ms|;
    assert Window(ms, s, limit + 1)[..limit] == ms[s .. s + limit];
    assert ms[s .. s + limit] + ms[s + limit .. e] == ms[s .. e];
  }
}
