/** The database records the router reads and writes, and the invariants the store keeps. */
module Records {
  import opened Wrappers

  /** The `UploadStatus` enum; `Pending` is only ever reported for a file the caller cannot see. */
  datatype UploadStatus = Pending | Processing | Failed | Success

  /** A creation time as far as the quota needs it: `getFullYear()` and `getMonth()` (0 to 11). */
  datatype YearMonth = YearMonth(year: int, month: int)

  datatype User = User(id: string, email: string)

  /** A file row; `userId` is nullable in the schema. */
  datatype File = File(
    id: string,
    key: string,
    name: string,
    url: string,
    uploadStatus: UploadStatus,
    userId: Option<string>,
    createdAt: YearMonth)

  /** A chat message row; `createdAt` is a timestamp. */
  datatype Message = Message(id: string, fileId: string, isUserMessage: bool, text: string, createdAt: int)

  /** The external systems a deletion can fail in. */
  datatype System = Pinecone | Uploadthing | Database

  /** The tRPC error codes the handlers throw, and errors thrown by an external client. */
  datatype Error = Unauthorized | NotFound | BadRequest(message: string) | ExternalFailure(system: System)

  /** Where every uploaded file is served from; a file's url is this prefix followed by its key. */
  const UPLOAD_URL_PREFIX: string := "https://uploadthing-prod.s3.us-west-2.amazonaws.com/"

  predicate Terminal(s: UploadStatus) {
    s == Success || s == Failed
  }

  /** The row `findFirst({ where: { id, userId } })` finds: the file exists and the caller owns it. */
  predicate Owns(files: map<string, File>, fileId: string, userId: string) {
    fileId in files && files[fileId].userId == Some(userId)
  }

  /** Some file, of any owner, already has this storage key. */
  predicate KeyInUse(files: map<string, File>, key: string) {
    exists id :: id in files && files[id].key == key
  }

  ghost predicate UsersKeyed(users: map<string, User>) {
    forall id :: id in users ==> users[id].id == id
  }

  /** Rows are stored under their own id and storage keys are unique. */
  ghost predicate FilesKeyed(files: map<string, File>) {
    && (forall id :: id in files ==> files[id].id == id)
    && (forall a, b :: a in files && b in files && files[a].key == files[b].key ==> a == b)
  }

  /** Messages are kept newest first. */
  ghost predicate NewestFirst(ms: seq<Message>) {
    forall i, j :: 0 <= i < j < |ms| ==> ms[i].createdAt >= ms[j].createdAt
  }

  /** Message ids are non-empty (so a cursor built from one is never falsy) and distinct. */
  ghost predicate IdsDistinct(ms: seq<Message>) {
    && (forall i :: 0 <= i < |ms| ==> ms[i].id != "")
    && (forall i, j :: 0 <= i < j < |ms| ==> ms[i].id != ms[j].id)
  }
}
