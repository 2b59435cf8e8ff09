# PDFMate router, modelled in Dafny

PDFMate lets a signed-in user upload PDF documents, indexes each document's pages in a vector
store and lets the user chat with it. This project models the part of it that has rules of its
own: the RPC router (`src/trpc/index.ts`) and the plan table it consults
(`src/config/stripe.ts`).

The router is modelled as a class, `Router.AppRouter`, over an in-memory store:

- `users`: the users table, a map from id to user;
- `files`: the files table, a map from id to a row with storage key, owner, name, url, upload
  status and creation time as (year, month);
- `messages`: the messages table, a sequence kept newest first;
- `blobs`: the keys held by the blob store (UploadThing);
- `namespaces`: the namespaces held by the vector index (Pinecone).

Each handler is a method on that state. What the vendor SDKs and the clock decide comes in as
parameters: the page count of the loaded PDF (or None when fetching or parsing failed), whether
embedding and upsert went through, whether each deletion step succeeded, the billing answer
(plan name, subscribed or not), the current (year, month), and the id the database assigns to a
new row. The administrator id (`ADMIN_ID`) and the default page size (`INFINITE_QUERY_LIMIT`)
are constructor parameters.

Modules:

- `Wrappers` (`wrappers.dfy`): `Option` and `Result`.
- `Plans` (`plans.dfy`): the plan table and the lookups by name.
- `Records` (`records.dfy`): the rows, the error codes, the store invariants.
- `Limits` (`limits.dfy`): the monthly quota predicate and the per-document page-limit rule.
- `Messages` (`messages.dfy`): selecting, counting and deleting a file's messages, and the
  cursor window of `findMany`.
- `Router` (`router.dfy`): the handlers.

The class invariant `Valid()` says: users and files are stored under their own ids, storage keys
are unique, messages are newest first and their
ids are distinct and non-empty. Every handler that changes the store keeps it. Two ghost logs
record what the model cannot show through the final state alone: `statusWrites` (each status
written to a row, in order) and `attempts` (each deletion tried against a store, in order).

## Model

| member | source | states |
|---|---|---|
| `Plans.Find` | src/trpc/index.ts:69 | `PLANS.find` by name: None exactly when no plan has the name, otherwise the plan at the first position holding that name |
| `Plans.FindUnique` | src/config/stripe.ts:3-15 | in a table with distinct names, the lookup returns exactly the plan so named |
| `Plans.PlanNamesDistinct` | src/config/stripe.ts:3-15 | the table's plan names are distinct, so every lookup by name is deterministic |
| `Plans.LookupByName` | src/config/stripe.ts:1-27 | looking up "Free" gives entry 0, "Pro" gives entry 1, any other name gives nothing |
| `Plans.FreePlanLimits` | src/config/stripe.ts:3-6 | the Free plan has quota 10 and 5 pages per document |
| `Plans.ProPlanLimits` | src/config/stripe.ts:15-18 | the Pro plan has quota 50 and 25 pages per document |
| `Plans.FallbackIsFree` | src/trpc/index.ts:68-70 | entry 0, the fallback of the quota lookup, is the Free plan |
| `Plans.ProNotStricter` | src/config/stripe.ts:5-18 | Pro's quota and page limit are at least Free's |
| `Plans.PagePerPdf` | src/trpc/index.ts:316-319 | a non-null lookup yields the page limit of a table entry carrying that name |
| `Plans.QuotaFor` | src/trpc/index.ts:68-70 | the quota of the named plan, falling back to entry 0: 50 for "Pro", 10 for every other name |
| `Limits.IsQuotaCompleted` | src/trpc/index.ts:72-77 | the quota is completed iff the caller's files created in the given month and year number at least 50 (Pro) or 10 (any other plan name) |
| `Limits.QuotaThreshold` | src/trpc/index.ts:72-77 | the quota is completed iff the caller's files created this month number at least 50 (Pro) or 10 (otherwise); exactly the quota completes it, one fewer does not |
| `Limits.UploadCounts` | src/trpc/index.ts:72-77 | a new file of the caller created this month raises the count by exactly one |
| `Limits.OtherMonthIgnored` | src/trpc/index.ts:73-76 | a file of another caller, another year or another month leaves the count, and so the verdict for every plan, unchanged |
| `Limits.QuotaStaysCompleted` | src/trpc/index.ts:72-77 | once completed, the quota stays completed as files are added |
| `Limits.PageLimitExceeded` | src/trpc/index.ts:316-324 | the page-limit test is true iff the caller is not the admin and the document has more than 25 pages (subscribed) or more than 5 (not subscribed) |
| `Limits.PageLimitRule` | src/trpc/index.ts:316-324 | a document fails the page limit iff the caller is not the admin and it has more than 25 pages (subscribed) or more than 5 (not subscribed); a document at the limit passes |
| `Limits.SubscribedNeverStricter` | src/trpc/index.ts:316-324 | whatever a subscribed caller is refused, a free caller is refused too |
| `Messages.Select` | src/trpc/index.ts:151-155 | the messages of (or not of) a file, in stored order: exactly the stored messages with (or without) that file id |
| `Messages.CountMatches` | src/trpc/index.ts:194-198 | the size of a file's chat is the number of occurrences of its id in the messages' file-id column |
| `Messages.SelectPartitions` | src/trpc/index.ts:248-252 | a file's messages and the messages `deleteMany` leaves together account for every message |
| `Messages.SelectNewestFirst` | src/trpc/index.ts:156-158 | selecting keeps the newest-first order |
| `Messages.SelectIdsDistinct` | src/trpc/index.ts:159 | selecting keeps message ids non-empty and distinct |
| `Messages.WithoutFileSelects` | src/trpc/index.ts:248-252 | after `deleteMany`, the file has no messages left and every other file's chat is as it was |
| `Messages.IndexOfId` | src/trpc/index.ts:159 | the position of the cursor's message: a position holding that id, or None exactly when no message has it |
| `Messages.StartOf` | src/trpc/index.ts:159 | a missing or empty (falsy) cursor starts at the top; any other cursor starts at a position holding its id, or yields nothing exactly when no message has it |
| `Messages.Fetch` | src/trpc/index.ts:151-166 | `findMany` with `take` returns at most `take` messages |
| `Messages.FetchFromChat` | src/trpc/index.ts:151-166 | a fetch from a file's chat returns only that file's stored messages, newest first |
| `Messages.PrefixFromChat` | src/trpc/index.ts:169-171 | dropping the look-ahead item keeps the page newest first and within the file |
| `Messages.CursorResumes` | src/trpc/index.ts:168-172 | with distinct ids, a full page followed by the page fetched from its next cursor is exactly one longer run of the chat: no message skipped or repeated |
| `Router.Provisioned` | src/trpc/index.ts:35-43 | the users after provisioning: the old ids plus the caller's, every existing user unchanged, and a new user with the caller's id and email when absent |
| `Router.ProvisionOnce` | src/trpc/index.ts:29-43 | provisioning leaves exactly one user under the id, keeps an existing user unchanged, and a second call changes nothing |
| `Router.NewFile` | src/trpc/index.ts:289-297 | the created row: the given id, key and name, status `PROCESSING` (not terminal), owned by the caller, counted in the current month, its url the upload prefix followed by the key |
| `Router.InsertKeepsKeys` | src/trpc/index.ts:278-297 | adding a row under a fresh id with an unused key keeps ids and keys unique |
| `Router.RemoveKeepsKeys` | src/trpc/index.ts:254-258 | deleting a row keeps ids and keys unique |
| `Router.DeleteMessagesKeepsOrder` | src/trpc/index.ts:248-252 | `deleteMany` keeps the messages newest first with distinct ids |
| `Router.AppRouter.AuthCallback` | src/trpc/index.ts:22-46 | UNAUTHORIZED with no change iff the identity lacks an id or an email; otherwise success, with the user created only if absent |
| `Router.AppRouter.GetUserFiles` | src/trpc/index.ts:48-57 | exactly the caller's files |
| `Router.AppRouter.GetUserQuota` | src/trpc/index.ts:59-80 | the monthly quota predicate for the caller, plan and current month |
| `Router.AppRouter.GetFileMessages` | src/trpc/index.ts:129-178 | BAD_REQUEST for a limit outside 1..100, NOT_FOUND unless the caller owns the file; otherwise at most `limit` messages of that file, newest first, with a next cursor iff `limit + 1` were fetched, naming the dropped item |
| `Router.AppRouter.GetMessageCount` | src/trpc/index.ts:180-201 | NOT_FOUND unless the caller owns the file, else the number of messages with that file id |
| `Router.AppRouter.GetFileUploadStatus` | src/trpc/index.ts:203-216 | the stored status of the caller's file (`PROCESSING` included), `PENDING` for an absent or foreign file |
| `Router.AppRouter.GetFile` | src/trpc/index.ts:218-232 | the caller's file with that key, the only row with that key; NOT_FOUND iff the caller has none |
| `Router.AppRouter.DeleteFile` | src/trpc/index.ts:234-271 | NOT_FOUND with no change unless the caller owns the file; otherwise messages, row, blob, vectors are deleted in that order, and the first failing step throws and leaves the later ones undone |
| `Router.AppRouter.SetStatus` | src/trpc/index.ts:326-333 | one status write to an existing row, logged |
| `Router.AppRouter.AddFilesDataToDb` | src/trpc/index.ts:273-369 | BAD_REQUEST "File already exists" with no change if any file has the key; otherwise exactly one new row owned by the caller at the upload url, written `PROCESSING` then `SUCCESS` or `FAILED`, ending terminal, with a namespace equal to its id only on `SUCCESS` |
| `Router.AppRouter.Ingest` | src/trpc/index.ts:299-368 | the guarded block: `SUCCESS` (and a namespace named by the file id) iff the document loaded, passed the page limit and was indexed; `FAILED` otherwise, never an error |
| `Router.AppRouter.DeleteFileFromEverywhere` | src/trpc/index.ts:371-450 | UNAUTHORIZED for a non-admin, "No such File" or "Something went wrong" with no change; otherwise vectors, blob, messages, row are deleted in that order, stopping at the first failure with a report naming Pinecone, UploadThing or the database |

## Left out

- `createStripeSession` (src/trpc/index.ts:82-127): a wrapper over the billing SDK; its only branch chooses between the portal and checkout.
- The price block of each plan (amount, price ids): only billing uses it.
- The React components (`UploadButton`, `Dashboard`, `DashboardCard`, `Navbar`): rendering and UI timers.
- Fetching and parsing the PDF, computing embeddings, and the Pinecone and UploadThing clients: each is an outcome parameter (a page count or failure, success or failure).
- A failed upsert is modelled as writing no vectors; a partial write to the namespace is not modelled.
- `Router.AppRouter.Ingest`: the status updates themselves (`db.file.update`) are taken to succeed; a failing update inside the catch block, which would reach the caller, is not modelled.
- `Router.AppRouter.Ingest`: a failing billing lookup (`getUserSubscriptionPlan`) is not a separate outcome; its effect, `FAILED`, is the same as a failed load.
- `Router.AppRouter.DeleteFileFromEverywhere`: a failure to create the Pinecone client before the lookup is not modelled.
- Clock and time zone: `getMonth`/`getFullYear` of the current date are a (year, month) parameter; creation times of files are stored as (year, month).
- The file id assigned by the database is a parameter required to be unused.
- `INFINITE_QUERY_LIMIT` (src/config/infinite-query) is not part of this model; it is a constructor parameter.
- Prisma's cursor for an id that is not among the file's messages is modelled as an empty fetch; a falsy (empty) cursor as no cursor.
- Input validation by zod is modelled only for the `limit` bound; non-integer limits are not modelled.
- `Router.AppRouter.AddFilesDataToDb`: the handler is one atomic step, so the window in which its row is `PROCESSING` shows only in the `statusWrites` log and not to a concurrent read (`getFile` or `getFileUploadStatus` polled during ingestion); such stores are still allowed, since `Valid()` places no constraint on statuses.
- Concurrency: two `addFilesDataToDb` calls racing on one key, or a deletion during ingestion, are properties of the database, not of this sequential code.
- Logging and the wording of messages beyond the failing system.
