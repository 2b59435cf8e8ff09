/** The RPC router (src/trpc/index.ts): each handler is a method on an in-memory model of the
    stores it talks to. The relational database holds `users`, `files` and `messages`; the blob
    store (UploadThing) holds `blobs` by key; the vector index (Pinecone) holds `namespaces`.
    What the vendor SDKs and the clock would decide comes in as parameters. */
module Router {
  import opened Wrappers
  import opened Plans
  import opened Records
  import opened Limits
  import opened Messages

  /** The identity the session provider reports; a null or empty field counts as missing. */
  datatype Identity = Identity(id: Option<string>, email: Option<string>)

  predicate Present(field: Option<string>) {
    field.Some? && field.value != ""
  }

  /** What `getFileMessages` returns. */
  datatype MessagePage = MessagePage(messages: seq<Message>, nextCursor: Option<string>)

  /** How the database step of a deletion went: `deleteMany` of the messages, then `delete` of the row. */
  datatype DbOutcome = DbOk | MessagesDeleteFailed | RowDeleteFailed

  /** The `{ title, description }` the admin deletion answers with. */
  datatype AdminReport =
    | NoSuchFile(fileId: string)
    | ErrorDeleting(fileId: string, system: System)
    | DeletedSuccessfully(name: string)
    | SomethingWentWrong

  /** A status the ingestion wrote to a file row, in the order written. */
  datatype StatusWrite = StatusWrite(fileId: string, status: UploadStatus)

  /** A deletion a handler attempted against one of the stores, in the order attempted. */
  datatype Deletion =
    | DeleteVectors(namespace: string)
    | DeleteBlob(key: string)
    | DeleteMessages(fileId: string)
    | DeleteRow(fileId: string)

  /** The largest page `getFileMessages` accepts. */
  const MAX_LIMIT: nat := 100

  /** The order of the admin deletion: vectors, blob, messages, row. */
  function AdminOrder(fileId: string, key: string): seq<Deletion> {
    [DeleteVectors(fileId), DeleteBlob(key), DeleteMessages(fileId), DeleteRow(fileId)]
  }

  /** The order of the owner's deletion: messages, row, blob, vectors. */
  function OwnerOrder(fileId: string, key: string): seq<Deletion> {
    [DeleteMessages(fileId), DeleteRow(fileId), DeleteBlob(key), DeleteVectors(fileId)]
  }

  /** How many admin deletion steps run: every step up to and including the first that fails. */
  function AdminStepsRun(pineconeOk: bool, uploadthingOk: bool, db: DbOutcome): nat {
    if !pineconeOk then 1 else if !uploadthingOk then 2 else if db == MessagesDeleteFailed then 3 else 4
  }

  /** How many owner deletion steps run before the first failure throws. */
  function OwnerStepsRun(db: DbOutcome, blobOk: bool): nat {
    if db == MessagesDeleteFailed then 1 else if db == RowDeleteFailed then 2 else if !blobOk then 3 else 4
  }

  /** The users table after `authCallback` found or created the caller. */
  function Provisioned(users: map<string, User>, id: string, email: string): (r: map<string, User>)
    ensures r.Keys == users.Keys + {id}
    ensures forall k :: k in users ==> r[k] == users[k]
    ensures id !in users ==> r[id] == User(id, email)
  {
    if id in users then users else users[id := User(id, email)]
  }

  /** Provisioning leaves exactly one user under that id, keeps an existing user as it was
      and changes nothing the second time. */
  lemma ProvisionOnce(users: map<string, User>, id: string, email: string, email': string)
    requires UsersKeyed(users)
    ensures var u := Provisioned(users, id, email);
            && UsersKeyed(u)
            && u.Keys == users.Keys + {id}
            && u[id].id == id
            && (id in users ==> u == users)
            && Provisioned(u, id, email') == u
  {
  }

  /** The row `addFilesDataToDb` creates: owned by the caller, served from the fixed prefix. */
  function NewFile(id: string, key: string, name: string, userId: string, now: YearMonth): (r: File)
    ensures r.id == id && r.key == key && r.name == name
    ensures r.uploadStatus == Processing && !Terminal(r.uploadStatus)
    ensures r.userId == Some(userId) && InMonth(r.createdAt, now)
    ensures |r.url| == |UPLOAD_URL_PREFIX| + |key|
    ensures r.url[..|UPLOAD_URL_PREFIX|] == UPLOAD_URL_PREFIX && r.url[|UPLOAD_URL_PREFIX|..] == key
  {
    File(id, key, name, UPLOAD_URL_PREFIX + key, Processing, Some(userId), now)
  }

  /** Adding a row under a fresh id with an unused key keeps rows keyed and keys unique. */
  lemma InsertKeepsKeys(files: map<string, File>, f: File)
    requires FilesKeyed(files)
    requires f.id !in files && !KeyInUse(files, f.key)
    ensures FilesKeyed(files[f.id := f])
  {
  }

  /** Removing a row keeps rows keyed and keys unique. */
  lemma RemoveKeepsKeys(files: map<string, File>, fileId: string)
    requires FilesKeyed(files)
    ensures FilesKeyed(files - {fileId})
  {
  }

  /** `deleteMany` of a file's messages keeps the store's message invariants. */
  lemma DeleteMessagesKeepsOrder(ms: seq<Message>, fileId: string)
    requires NewestFirst(ms) && IdsDistinct(ms)
    ensures NewestFirst(WithoutFile(ms, fileId)) && IdsDistinct(WithoutFile(ms, fileId))
  {
    SelectNewestFirst(ms, fileId, false);
    SelectIdsDistinct(ms, fileId, false);
  }

  class AppRouter {
    /** The configured administrator (`ADMIN_ID`). */
    const adminId: string
    /** The default page size (`INFINITE_QUERY_LIMIT`). */
    const queryLimit: nat

    var users: map<string, User>
    var files: map<string, File>
    var messages: seq<Message>
    var blobs: set<string>
    var namespaces: set<string>

    ghost var statusWrites: seq<StatusWrite>
    ghost var attempts: seq<Deletion>

    ghost predicate Valid()
      reads this
    {
      && UsersKeyed(users)
      && FilesKeyed(files)
      && NewestFirst(messages)
      && IdsDistinct(messages)
    }

    constructor (adminId: string, queryLimit: nat, users: map<string, User>, files: map<string, File>,
                 messages: seq<Message>, blobs: set<string>, namespaces: set<string>)
      requires UsersKeyed(users) && FilesKeyed(files)
      requires NewestFirst(messages) && IdsDistinct(messages)
      ensures Valid()
      ensures this.adminId == adminId && this.queryLimit == queryLimit
      ensures this.users == users && this.files == files && this.messages == messages
      ensures this.blobs == blobs && this.namespaces == namespaces
      ensures statusWrites == [] && attempts == []
    {
      this.adminId := adminId;
      this.queryLimit := queryLimit;
      this.users := users;
      this.files := files;
      this.messages := messages;
      this.blobs := blobs;
      this.namespaces := namespaces;
      statusWrites := [];
      attempts := [];
    }

    /** `authCallback`: refuses an identity without id or email, else creates the user if absent. */
    method AuthCallback(who: Identity) returns (r: Result<bool, Error>)
      requires Valid()
      modifies this`users
      ensures Valid()
      ensures !(Present(who.id) && Present(who.email)) ==> r == Err(Unauthorized) && users == old(users)
      ensures Present(who.id) && Present(who.email) ==>
        r == Ok(true) && users == Provisioned(old(users), who.id.value, who.email.value)
    {
      if !Present(who.id) || !Present(who.email) {
        return Err(Unauthorized);
      }
      var id := who.id.value;
      if id !in users {
        users := users[id := User(id, who.email.value)];
      }
      return Ok(true);
    }

    /** `getUserFiles`: exactly the caller's files. */
    method GetUserFiles(userId: string) returns (r: set<File>)
      ensures forall f :: f in r <==> f in files.Values && f.userId == Some(userId)
    {
      r := set id | id in files && files[id].userId == Some(userId) :: files[id];
    }

    /** `getUserQuota`: whether the caller has used up this month's uploads under their plan. */
    method GetUserQuota(userId: string, planName: string, now: YearMonth) returns (completed: bool)
      ensures completed <==> IsQuotaCompleted(files, userId, planName, now)
    {
      var thisMonth := set id | id in files && files[id].userId == Some(userId) && InMonth(files[id].createdAt, now);
      completed := |thisMonth| >= QuotaFor(planName);
    }

    predicate LimitAccepted(limit: Option<int>) {
      limit.None? || 1 <= limit.value <= MAX_LIMIT
    }

    /** `input.limit ?? INFINITE_QUERY_LIMIT` */
    function PageSize(limit: Option<int>): nat
      requires LimitAccepted(limit)
    {
      if limit.Some? then limit.value else queryLimit
    }

    /** `getFileMessages`: one page of the caller's file's chat, newest first, fetching one
        message beyond the page to learn the next cursor. */
    method GetFileMessages(userId: string, fileId: string, limit: Option<int>, cursor: Option<string>)
      returns (r: Result<MessagePage, Error>)
      requires Valid()
      ensures !LimitAccepted(limit) ==> r == Err(BadRequest("limit"))
      ensures LimitAccepted(limit) && !Owns(files, fileId, userId) ==> r == Err(NotFound)
      ensures LimitAccepted(limit) && Owns(files, fileId, userId) ==> r.Ok?
      ensures r.Ok? ==>
        var lim := PageSize(limit);
        var fetched := Fetch(MessagesOf(messages, fileId), cursor, lim + 1);
        var page := r.value;
        && PagedFrom(page.messages, page.nextCursor, fetched, lim)
        && (forall m :: m in page.messages ==> m in messages && m.fileId == fileId)
        && NewestFirst(page.messages)
    {
      if !LimitAccepted(limit) {
        return Err(BadRequest("limit"));
      }
      var lim := PageSize(limit);
      if !Owns(files, fileId, userId) {
        return Err(NotFound);
      }
      var fetched := Fetch(MessagesOf(messages, fileId), cursor, lim + 1);
      FetchFromChat(messages, fileId, cursor, lim + 1);
      var page := fetched;
      var nextCursor: Option<string> := None;
      if |page| > lim {
        var nextItem := page[|page| - 1];
        page := page[..|page| - 1];
        nextCursor := Some(nextItem.id);
        PrefixFromChat(fetched, lim, messages, fileId);
      }
      assert PagedFrom(page, nextCursor, fetched, lim);
      return Ok(MessagePage(page, nextCursor));
    }

    /** `getMessageCount`: the number of messages of the caller's file. */
    method GetMessageCount(userId: string, fileId: string) returns (r: Result<nat, Error>)
      ensures !Owns(files, fileId, userId) ==> r == Err(NotFound)
      ensures Owns(files, fileId, userId) ==> r == Ok(multiset(FileIds(messages))[fileId])
    {
      if !Owns(files, fileId, userId) {
        return Err(NotFound);
      }
      CountMatches(messages, fileId);
      return Ok(|MessagesOf(messages, fileId)|);
    }

    /** `getFileUploadStatus`: the stored status of the caller's file, `Pending` for any other id. */
    method GetFileUploadStatus(userId: string, fileId: string) returns (s: UploadStatus)
      requires Valid()
      ensures Owns(files, fileId, userId) ==> s == files[fileId].uploadStatus
      ensures !Owns(files, fileId, userId) ==> s == Pending
    {
      if !Owns(files, fileId, userId) {
        return Pending;
      }
      return files[fileId].uploadStatus;
    }

    /** `getFile`: the caller's file with that storage key. */
    method GetFile(userId: string, key: string) returns (r: Result<File, Error>)
      requires Valid()
      ensures r.Ok? <==> exists id :: id in files && files[id].key == key && files[id].userId == Some(userId)
      ensures r.Err? ==> r.error == NotFound
      ensures r.Ok? ==> r.value.key == key && r.value.userId == Some(userId)
      ensures r.Ok? ==> forall id :: id in files && files[id].key == key ==> files[id] == r.value
    {
      if id :| id in files && files[id].key == key && files[id].userId == Some(userId) {
        return Ok(files[id]);
      }
      return Err(NotFound);
    }

    /** `deleteFile`: the owner's deletion, in the order messages, row, blob, vectors; a failing
        step throws and leaves the later ones undone. */
    method DeleteFile(userId: string, fileId: string, db: DbOutcome, blobOk: bool, vectorsOk: bool)
      returns (r: Result<File, Error>)
      requires Valid()
      modifies this`files, this`messages, this`blobs, this`namespaces, this`attempts
      ensures Valid()
      ensures !Owns(old(files), fileId, userId) ==> r == Err(NotFound) && unchanged(this)
      ensures Owns(old(files), fileId, userId) ==>
        var f := old(files)[fileId];
        var n := OwnerStepsRun(db, blobOk);
        && attempts == old(attempts) + OwnerOrder(fileId, f.key)[..n]
        && messages == (if n >= 2 then WithoutFile(old(messages), fileId) else old(messages))
        && files == (if n >= 3 then old(files) - {fileId} else old(files))
        && blobs == (if n >= 4 then old(blobs) - {f.key} else old(blobs))
        && namespaces == (if n >= 4 && vectorsOk then old(namespaces) - {fileId} else old(namespaces))
        && users == old(users)
        && r == (if n == 1 || n == 2 then Err(ExternalFailure(Database))
                 else if n == 3 then Err(ExternalFailure(Uploadthing))
                 else if !vectorsOk then Err(ExternalFailure(Pinecone))
                 else Ok(f))
    {
      if !Owns(files, fileId, userId) {
        return Err(NotFound);
      }
      var file := files[fileId];
      ghost var order, attempted := OwnerOrder(fileId, file.key), attempts;
      attempts := attempted + order[..1];
      if db == MessagesDeleteFailed {
        return Err(ExternalFailure(Database));
      }
      DeleteMessagesKeepsOrder(messages, fileId);
      messages := WithoutFile(messages, fileId);
      attempts := attempted + order[..2];
      if db == RowDeleteFailed {
        return Err(ExternalFailure(Database));
      }
      RemoveKeepsKeys(files, fileId);
      files := files - {fileId};
      attempts := attempted + order[..3];
      if !blobOk {
        return Err(ExternalFailure(Uploadthing));
      }
      blobs := blobs - {file.key};
      attempts := attempted + order;
      if !vectorsOk {
        return Err(ExternalFailure(Pinecone));
      }
      namespaces := namespaces - {fileId};
      return Ok(file);
    }

    /** Writes one upload status to an existing row and logs the write. */
    method SetStatus(fileId: string, status: UploadStatus)
      requires fileId in files
      modifies this`files, this`statusWrites
      ensures files == old(files)[fileId := old(files)[fileId].(uploadStatus := status)]
      ensures statusWrites == old(statusWrites) + [StatusWrite(fileId, status)]
    {
      files := files[fileId := files[fileId].(uploadStatus := status)];
      statusWrites := statusWrites + [StatusWrite(fileId, status)];
    }

    /** `addFilesDataToDb`: refuses a key already in use, else creates the row `PROCESSING` and
        ingests the document, ending in `SUCCESS` or `FAILED`. `newId` is the id the database
        assigns; `loaded` is the page count, or None when fetching or parsing failed;
        `isSubscribed` is the billing answer; `indexed` says whether embedding and upsert went
        through. The `url` input is not used: the row's url is built from the key. */
    method AddFilesDataToDb(userId: string, key: string, url: string, name: string, newId: string,
                            now: YearMonth, loaded: Option<nat>, isSubscribed: bool, indexed: bool)
      returns (r: Result<(), Error>)
      requires Valid()
      requires newId !in files
      modifies this`files, this`namespaces, this`statusWrites
      ensures Valid()
      ensures KeyInUse(old(files), key) ==>
        && r == Err(BadRequest("File already exists"))
        && files == old(files) && namespaces == old(namespaces) && statusWrites == old(statusWrites)
      ensures !KeyInUse(old(files), key) ==>
        var ok := loaded.Some? && !PageLimitExceeded(userId == adminId, isSubscribed, loaded.value) && indexed;
        var status := if ok then Success else Failed;
        && r == Ok(())
        && files == old(files)[newId := NewFile(newId, key, name, userId, now).(uploadStatus := status)]
        && namespaces == (if ok then old(namespaces) + {newId} else old(namespaces))
        && statusWrites == old(statusWrites) + [StatusWrite(newId, Processing), StatusWrite(newId, status)]
      ensures !KeyInUse(old(files), key) ==> Terminal(files[newId].uploadStatus)
    {
      if KeyInUse(files, key) {
        return Err(BadRequest("File already exists"));
      }
      ghost var before := files;
      var created := NewFile(newId, key, name, userId, now);
      files := files[newId := created];
      statusWrites := statusWrites + [StatusWrite(newId, Processing)];
      Ingest(newId, userId, loaded, isSubscribed, indexed);
      assert files == before[newId := created][newId := files[newId]];
      InsertKeepsKeys(before, files[newId]);
      return Ok(());
    }

    /** The guarded part of `addFilesDataToDb`: load, check the page limit, index, and write the
        terminal status; any failure ends in `FAILED` without an error to the caller. */
    method Ingest(fileId: string, userId: string, loaded: Option<nat>, isSubscribed: bool, indexed: bool)
      requires fileId in files
      modifies this`files, this`namespaces, this`statusWrites
      ensures var ok := loaded.Some? && !PageLimitExceeded(userId == adminId, isSubscribed, loaded.value) && indexed;
        var status := if ok then Success else Failed;
        && files == old(files)[fileId := old(files)[fileId].(uploadStatus := status)]
        && namespaces == (if ok then old(namespaces) + {fileId} else old(namespaces))
        && statusWrites == old(statusWrites) + [StatusWrite(fileId, status)]
    {
      if loaded.None? {
        SetStatus(fileId, Failed);
        return;
      }
      var isAdmin := userId == adminId;
      if PageLimitExceeded(isAdmin, isSubscribed, loaded.value) {
        SetStatus(fileId, Failed);
        return;
      }
      if !indexed {
        SetStatus(fileId, Failed);
        return;
      }
      namespaces := namespaces + {fileId};
      SetStatus(fileId, Success);
    }

    /** `deleteFileFromEverywhere`: the admin's deletion, in the order vectors, blob, messages,
        row, stopping at the first failure with a report naming the failing system. */
    method DeleteFileFromEverywhere(userId: string, fileId: string, pineconeOk: bool, uploadthingOk: bool, db: DbOutcome)
      returns (r: Result<AdminReport, Error>)
      requires Valid()
      modifies this`files, this`messages, this`blobs, this`namespaces, this`attempts
      ensures Valid()
      ensures userId != adminId ==> r == Err(Unauthorized) && unchanged(this)
      ensures userId == adminId && fileId !in old(files) ==> r == Ok(NoSuchFile(fileId)) && unchanged(this)
      ensures userId == adminId && fileId in old(files) && (fileId == "" || old(files)[fileId].key == "") ==>
        r == Ok(SomethingWentWrong) && unchanged(this)
      ensures userId == adminId && fileId in old(files) && fileId != "" && old(files)[fileId].key != "" ==>
        var f := old(files)[fileId];
        var n := AdminStepsRun(pineconeOk, uploadthingOk, db);
        && attempts == old(attempts) + AdminOrder(fileId, f.key)[..n]
        && namespaces == (if n >= 2 then old(namespaces) - {fileId} else old(namespaces))
        && blobs == (if n >= 3 then old(blobs) - {f.key} else old(blobs))
        && messages == (if n >= 4 then WithoutFile(old(messages), fileId) else old(messages))
        && files == (if n >= 4 && db == DbOk then old(files) - {fileId} else old(files))
        && users == old(users)
        && r == Ok(if n == 1 then ErrorDeleting(fileId, Pinecone)
                   else if n == 2 then ErrorDeleting(fileId, Uploadthing)
                   else if db != DbOk then ErrorDeleting(fileId, Database)
                   else DeletedSuccessfully(f.name))
    {
      if userId != adminId {
        return Err(Unauthorized);
      }
      if fileId !in files {
        return Ok(NoSuchFile(fileId));
      }
      var file := files[fileId];
      if fileId == "" || file.key == "" {
        return Ok(SomethingWentWrong);
      }
      ghost var order, attempted := AdminOrder(fileId, file.key), attempts;
      attempts := attempted + order[..1];
      if !pineconeOk {
        return Ok(ErrorDeleting(fileId, Pinecone));
      }
      namespaces := namespaces - {fileId};
      attempts := attempted + order[..2];
      if !uploadthingOk {
        return Ok(ErrorDeleting(fileId, Uploadthing));
      }
      blobs := blobs - {file.key};
      attempts := attempted + order[..3];
      if db == MessagesDeleteFailed {
        return Ok(ErrorDeleting(fileId, Database));
      }
      DeleteMessagesKeepsOrder(messages, fileId);
      messages := WithoutFile(messages, fileId);
      attempts := attempted + order;
      if db == RowDeleteFailed {
        return Ok(ErrorDeleting(fileId, Database));
      }
      RemoveKeepsKeys(files, fileId);
      files := files - {fileId};
      return Ok(DeletedSuccessfully(file.name));
    }
  }
}
