# Bulk email processor: a verified Dafny model

This project models the core of the bulk email processor, a TypeScript
application: an Express backend with a BullMQ worker, and a React frontend.
The model covers the path from a bulk-send request to a delivered
message:

- **Recipient extraction.** The controller turns pasted text, a text
  file or a spreadsheet into recipient addresses.
- **Batch submission.** The service splits the addresses into valid and
  invalid ones. For each valid one it creates a delivery log and enqueues
  a job carrying the log's id, reporting progress to the user's room.
- **Delivery.** The worker sends each job, writes 'sent' or 'failed' into
  the log, and tells the user's room.
- **Log store.** The repository's `email_logs` table keeps the delivery
  logs and lists them newest first.

Around that path it models:

- the account lifecycle: register, verify, then log in;
- the bearer-token middleware and the zod request schemas;
- the Socket.IO and Redis singletons;
- the template seeding script;
- the frontend state behind the bulk-send form, the live log list, the
  dashboard counters, the sign-in and sign-up forms, and the
  authentication context.

## How the model is built

- **Tables and the clock.** The tables are in-memory state of one
  `Database.Db` object. `users` and `email_templates` are sequences
  whose ids are positions plus one. `email_logs` is a map from id to row,
  with the next id to hand out. A logical clock stands for `NOW()` and
  `new Date()`.
- **Repositories.** Each repository is a class holding that database.
  Its writes are methods whose postconditions give the whole new state.
  Its reads are functions.
- **Singletons.** The socket server, the Redis connection slot and the
  queue are classes with the fields the source updates.
- **Frontend state.** The React components keep state in `useState`
  hooks, which become classes whose methods are the event handlers.
- **Pure transforms.** Tokenisers, filters and validators are functions
  with named results, and lemmas give their properties.
- **Outside calls are parameters.** These are `validator.isEmail`, zod's
  `.email()`, `xlsx`, bcrypt, `jwt.sign`/`jwt.verify`, `sendMail`,
  `JSON.parse`/`JSON.stringify` and `Number()`.
- **Failures are inputs.** Where the code reacts to a failure, the failure
  is an input: an `Option`-valued one, or a function indexed by the
  recipient's position. This covers driver errors, broker errors, mail
  errors and emit errors. The model then proves how each failure
  propagates. The statements whose errors are only logged and rethrown
  are listed under "Left out".
- **Concurrency.** The `p-limit` pool runs its tasks in input order. The
  counts the service reports do not depend on the interleaving.

The JavaScript string operations the code relies on are written out in
`Strings` and `Seqs`:

- `trim`, whose white space is JavaScript's `\s`;
- `split` on a character class, with and without `+`;
- `join`, `includes`, `toLowerCase`, `filter` and `map`;
- Node's `path.extname`, in `Paths`.

## Model

| member | source | states |
|---|---|---|
| EmailController.TokensSpec | backend/src/controllers/email.controller.ts:146-153 | a string is kept by split-trim-filter iff it holds '@' and is the trim of some split piece; every kept token is trimmed, holds no separator and is a contiguous part of the input |
| EmailController.ParseEmailsFromText | backend/src/controllers/email.controller.ts:146-153 | every token of pasted text holds '@', is trimmed, holds no whitespace, ',', ';' or '\|', and occurs contiguously in the text |
| EmailController.ParseTextContent | backend/src/controllers/email.controller.ts:135-144 | every token of a text file holds '@', is trimmed, holds none of \r \n , ; \| \t, and occurs contiguously in the contents |
| EmailController.KeepAddressesOfTokens | backend/src/controllers/email.controller.ts:139-141 | trimmed pieces that hold '@' pass the trim-and-filter step unchanged and in order |
| EmailController.FileLineIsOneToken | backend/src/controllers/email.controller.ts:138-141 | a trimmed line with '@' and no file separator, spaces allowed, is exactly one token |
| EmailController.FileRuleKeepsSpaces | backend/src/controllers/email.controller.ts:138-141 | the file rule yields the single token "a@x.com b@y.com" for that line |
| EmailController.PlainAddressChars | backend/src/controllers/email.controller.ts:148 | lower-case letters, '@' and '.' are not text separators, and a string of them is already trimmed |
| EmailController.SpaceSplitsText | backend/src/controllers/email.controller.ts:147-150 | two separator-free addresses with one space between them parse to exactly those two addresses |
| EmailController.TextRuleSplitsSpaces | backend/src/controllers/email.controller.ts:147-150 | pasted "a@x.com b@y.com" yields ["a@x.com", "b@y.com"] |
| EmailController.Lookup | backend/src/controllers/email.controller.ts:87 | `row[colName]` is present iff the row has that column, and is then that column's cell |
| EmailController.ColumnEmailsMembership | backend/src/controllers/email.controller.ts:86-88 | a column's values are exactly the non-blank string cells of that column, untrimmed, at most one per row |
| EmailController.RowCellsWithAtMembership | backend/src/controllers/email.controller.ts:95-97 | a row contributes exactly its string cells that contain '@' |
| EmailController.CellsWithAtMembership | backend/src/controllers/email.controller.ts:93-99 | the fallback yields exactly the string cells containing '@', from every row and column |
| EmailController.FirstColumnHitEmpty | backend/src/controllers/email.controller.ts:85-91 | the column loop finds nothing iff every listed column is empty |
| EmailController.FirstColumnHitAt | backend/src/controllers/email.controller.ts:85-91 | when the loop finds something, it is the values of some column j, and every column listed before j is empty |
| EmailController.FirstColumnHitSpec | backend/src/controllers/email.controller.ts:82-91 | the first column in the fixed priority list that yields a value wins; the result is empty iff all columns are empty |
| EmailController.SelectEmails | backend/src/controllers/email.controller.ts:82-101 | the loop with its early `break` and the fallback return the column rule's result: the first non-empty column, else every '@' cell |
| EmailController.ParseSheet | backend/src/controllers/email.controller.ts:73-101 | a read error propagates, a missing sheet fails with the reader's own "empty or corrupted" message, and a sheet yields the column rule's addresses |
| EmailController.FileFilter | backend/src/controllers/email.controller.ts:14-31 | an upload passes iff its mimetype is one of the five listed or its lower-cased extension is .csv/.txt/.xls/.xlsx; otherwise it fails with the fixed message |
| EmailController.FileFilterByName | backend/src/controllers/email.controller.ts:23-26 | a name ending in an allowed extension, in any letter case, passes whatever its mimetype |
| EmailController.FileFilterDotFile | backend/src/controllers/email.controller.ts:24-26 | a file named ".csv" has no extension, so an unlisted mimetype is refused |
| Paths.Extname | backend/src/controllers/email.controller.ts:24 | `path.extname` is empty, or a '.' followed by no further '.' and no '/' |
| Paths.ExtnameOfName | backend/src/controllers/email.controller.ts:24 | `path.extname("stem.ext")` is ".ext" for a plain file name |
| Paths.ExtnameDotFile | backend/src/controllers/email.controller.ts:24 | `path.extname(".ext")` is "" |
| EmailController.ParseEmailsFromFile | backend/src/controllers/email.controller.ts:50-71 | every parse failure becomes a 400 whose message starts "Failed to parse <ext> file: " |
| EmailController.ReaderFor | backend/src/controllers/email.controller.ts:55-66 | the spreadsheet reader exactly for ".xlsx" and ".xls", the CSV reader exactly for ".csv", the text reader for every other extension |
| EmailController.ParseEmailsFromFileDispatch | backend/src/controllers/email.controller.ts:55-66 | .xlsx/.xls go to the spreadsheet reader and .csv to the CSV reader, each with its own empty message; every other extension is read as text |
| EmailController.ExtractRecipients | backend/src/controllers/email.controller.ts:167-185 | a non-blank text field is parsed and the file ignored; with neither text nor file, or with nothing found, the request fails with 400; a success is never empty |
| EmailController.TextOverridesFile | backend/src/controllers/email.controller.ts:169-178 | with non-blank text, the result does not depend on the upload |
| EmailController.SourceMislabelsFile | backend/src/controllers/email.controller.ts:194 | a blank-but-truthy text field takes the file branch, yet the response as written says 'text' |
| EmailController.SourceLabelsDiffer | backend/src/controllers/email.controller.ts:169-194 | the label as written and the branch taken disagree exactly when the field is truthy but the text branch is not taken: a blank string, or a value that is not a string |
| EmailController.SourceAsWritten | backend/src/controllers/email.controller.ts:194 | the label as written: 'text' iff the text field is truthy, otherwise 'file' |
| EmailController.SourceLabel | backend/src/controllers/email.controller.ts:194 | the corrected label: 'text' iff the text branch supplied the addresses, otherwise 'file' |
| EmailController.ErrorResponse | backend/src/controllers/email.controller.ts:197-201 | the status is `statusCode \|\| 500` and the body is `message \|\| 'Failed to queue emails'` |
| EmailController.SendBulkEmails | backend/src/controllers/email.controller.ts:155-201 | no user gives 401 "Unauthorized"; an extraction error gives its own response and changes no table or queue; a failed reference check gives the `catch` response of its error, and no valid address gives 400 "No valid email addresses found"; the status is 200 iff the references check out and some address is valid; the body then reports total, valid, the invalid list and the source as line 194 writes it, 'text' whenever the field is truthy |
| EmailService.ValidEmails | backend/src/services/email.service.ts:44-47 | every entry of the valid list is accepted: its trim is non-empty and passes `isEmail` |
| EmailService.InvalidEmails | backend/src/services/email.service.ts:49-52 | no entry of the invalid list is accepted |
| EmailService.PartitionSizes | backend/src/services/email.service.ts:44-52 | \|valid\| + \|invalid\| = \|emails\| |
| EmailService.PartitionMembership | backend/src/services/email.service.ts:44-52 | an entry is in the valid list iff its trim is non-empty and passes `isEmail`, and otherwise in the invalid list, untrimmed |
| EmailService.PartitionConcat | backend/src/services/email.service.ts:44-52 | both lists keep input order: the partition of a + b is the partition of a followed by that of b |
| EmailService.JobsOfSnoc | backend/src/services/email.service.ts:75-81 | a task that queued appends exactly its job; a failed task appends nothing |
| EmailService.CountsAddUp | backend/src/services/email.service.ts:125-127 | successful + failed equals the number of tasks |
| EmailService.JobsCount | backend/src/services/email.service.ts:70-81 | the queue grows by exactly the successful count |
| EmailService.ProgressBounded | backend/src/services/email.service.ts:88-118 | every progress event goes to `user_<id>`, carries total and userId, and has 1 <= processed <= n, strictly increasing |
| EmailService.ProgressEndsAtTotal | backend/src/services/email.service.ts:88-95 | when the last emit goes through, the last event reports processed = total |
| EmailService.ValidateUserAndTemplate | backend/src/services/email.service.ts:150-168 | passes iff neither lookup fails and user and template exist; a missing user gives 400 "Invalid user: …" whatever the template; a missing template, for an existing user, gives 400 "Invalid template: …"; a failed lookup goes through the same message test, so the driver's error is rethrown unless its message mentions a user or template id; a plain error arises only from a failed lookup |
| EmailRepository.ForeignKeyMessagesClassify | backend/src/services/email.service.ts:156-165 | the repository's user messages, and only those, contain "User with id"; its template messages contain "Template with id" |
| EmailService.GetLogs | backend/src/services/email.service.ts:170-177 | a query error gives 500 "Failed to fetch email logs"; otherwise exactly the user's rows, newest first |
| EmailService.EmitProgress | backend/src/services/email.service.ts:89-98 | emits one progress event when the server is initialised and the emit does not throw; a failure is swallowed |
| EmailService.TaskLookupFaultIsInsertFault | backend/src/repositories/email.repository.ts:19-47 | inside a task the rows exist, so a failed foreign-key lookup in `createLog` fails with the driver's error and goes through the same attribution as a failed INSERT |
| EmailService.CreateAndEnqueue | backend/src/services/email.service.ts:72-105 | the log is created for the trimmed address; a job with that log's id is enqueued only after the log exists; an insert or enqueue error becomes a failed result with the untrimmed address |
| EmailService.TrackedStep | backend/src/services/email.service.ts:70-81 | after each task, the new logs are exactly one fresh pending row per successful insert, in task order, and the old rows are untouched |
| EmailService.RecordTask | backend/src/services/email.service.ts:72-120 | one task's database and queue effects keep the per-task result, log and job invariants |
| EmailService.RunTask | backend/src/services/email.service.ts:71-121 | one task also emits the progress event `processed = i + 1` |
| EmailService.RunTasks | backend/src/services/email.service.ts:70-125 | every valid entry gets one task in order, whatever fails; the queue grows by the jobs of the successful ones; the events are the progress sequence for the valid count |
| EmailService.QueueBulkEmails | backend/src/services/email.service.ts:25-148 | empty input gives 400 "No emails provided", then a failed reference check gives its error, then no valid entry gives 400 "No valid email addresses found", each with no log, job or event; every failure is a 400 AppError or a driver error of a failed lookup, rethrown; success returns {total, valid, invalid, successful, failed} with every task's result, its log and its job tied to its own faults |
| EmailQueue.Queue.Add | backend/src/services/email.service.ts:75-81 | a broker error leaves the queue as it was; otherwise the job is appended |
| EmailRepository.AttributeInsertError | backend/src/repositories/email.repository.ts:34-47 | a 23503 violation whose detail names user_id is blamed on the user, then template_id on the template; anything else is rethrown unchanged |
| EmailRepository.EmailRepository.ValidateForeignKeys | backend/src/repositories/email.repository.ts:51-68 | passes iff neither SELECT fails and both rows exist; the user is looked up and checked first; a failed SELECT rethrows the driver's error |
| EmailRepository.EmailRepository.CreateLogCheck | backend/src/repositories/email.repository.ts:9-19 | non-positive userId, blank emailTo and non-positive templateId are refused in that order, before the foreign-key lookups; it passes iff the arguments are valid, no lookup fails and both rows exist |
| EmailRepository.CaughtByCreateLog | backend/src/repositories/email.repository.ts:34-47 | the `catch` of `createLog`: driver errors go through the foreign-key attribution, and the method's own errors pass unchanged |
| EmailRepository.EmailRepository.CreateLog | backend/src/repositories/email.repository.ts:5-49 | a failed check, a failed lookup included, is reported through the `catch`; on success exactly one pending row is added under a fresh id, holding the given ids and the trimmed address; on any failure the table is unchanged |
| Database.Db.InsertLog | backend/src/repositories/email.repository.ts:21-24 | the INSERT adds one row under the next id, with both timestamps at the next clock tick, and keeps the table invariants |
| EmailRepository.EmailRepository.EnsureDefaultTemplate | backend/src/repositories/email.repository.ts:70-92 | returns the first template's id if any exists; otherwise it inserts "Default Template" and returns its id |
| EmailRepository.EnsureDefaultTemplateIdempotent | backend/src/repositories/email.repository.ts:70-86 | a second call inserts nothing and returns the same id |
| EmailRepository.EmailRepository.UpdateLogStatus | backend/src/repositories/email.repository.ts:94-115 | an unknown id gives "No email log found" and changes nothing; otherwise that row alone gets the trimmed status, the error message (null when omitted) and a new updated_at |
| EmailRepository.EmailRepository.GetLogsByUser | backend/src/repositories/email.repository.ts:117-132 | exactly that user's rows, each once, in strictly decreasing created_at |
| EmailRepository.EmailRepository.AllLogs | backend/src/repositories/email.repository.ts:170-172 | every row, in strictly decreasing created_at |
| EmailRepository.Page | backend/src/repositories/email.repository.ts:171 | LIMIT/OFFSET: at most limit rows, taken in order from position offset, short only at the end |
| EmailRepository.EmailRepository.ListLogs | backend/src/repositories/email.repository.ts:168-183 | at most limit rows of the newest-first order after skipping offset |
| EmailRepository.EmailRepository.GetLogById | backend/src/repositories/email.repository.ts:134-149 | null iff the id is absent, otherwise that row |
| EmailRepository.EmailRepository.DeleteLog | backend/src/repositories/email.repository.ts:151-166 | removes exactly that row, or fails with "No email log found" and changes nothing |
| EmailWorker.CaughtMessage | backend/src/workers/email.worker.ts:36-37 | the message stored on failure is sendMail's error whenever sendMail threw |
| EmailWorker.EmitStatus | backend/src/workers/email.worker.ts:21-34 | emits only when the socket server is initialised; an uninitialised server is not an error |
| EmailWorker.TrySend | backend/src/workers/email.worker.ts:17-35 | the try block completes iff send, 'sent' write and emit all succeed; only then is the log 'sent' with a null error and the event emitted |
| EmailWorker.RecordFailure | backend/src/workers/email.worker.ts:36-56 | the log is written 'failed' with the caught message before the event, and an error is always rethrown |
| EmailWorker.HandleJob | backend/src/workers/email.worker.ts:14-57 | success iff the try block completes; any error in it, a failed 'sent' write included, ends 'failed' and rethrown; only this job's row changes, only to 'sent' or 'failed'; an event always follows the stored status it reports |
| Sockets.IoServer.Emit | backend/src/services/email.service.ts:91-95 | a delivered event is appended to the server's record; a throwing transport delivers nothing |
| Sockets.SocketServer.Init | backend/src/socket/server.ts:18-41 | the first call creates the server; later calls return that same server and create nothing |
| Sockets.SocketServer.GetIO | backend/src/socket/server.ts:43-48 | fails with "Socket.io not initialized…" iff `init` has not run; otherwise returns the server |
| Sockets.Singleton.GetInstance | backend/src/socket/server.ts:11-16 | every call returns the same SocketServer, created on the first call |
| Sockets.InitThenGetIO | backend/src/socket/server.ts:18-48 | after `init`, `getIO` returns the server `init` returned, and a second `init` returns it too |
| RedisClient.OrDefault | backend/src/db/redisClient.ts:11-13 | `v \|\| default`: the value when it is a non-empty string, else the default |
| RedisClient.Resolve | backend/src/db/redisClient.ts:10-23 | an unset port means 6379; a NaN or out-of-range port raises "Invalid Redis port…" before the password is checked; a missing password raises; success carries host, port, user and password |
| RedisClient.DefaultsApply | backend/src/db/redisClient.ts:10-13 | with only a password set, the client goes to localhost:6379 as "default" |
| RedisClient.RedisConnection.GetInstance | backend/src/db/redisClient.ts:8-36 | the client is built at most once; a cached client is returned whatever the environment says |
| SeedTemplates.InsertIfAbsent | backend/seed/templates.ts:92-105 | inserts the template only when no row has its name, under the next id |
| SeedTemplates.SeedAll | backend/seed/templates.ts:91-105 | the table after the loop starts with the table before it: seeding never changes or removes a row |
| SeedTemplates.SeedAllAppends | backend/seed/templates.ts:91-105 | seeding only appends: existing rows, same-name ones included, stay as they are, and every seeded name is present afterwards |
| SeedTemplates.SeedAllPresent | backend/seed/templates.ts:92-97 | when every name is present, nothing is inserted |
| SeedTemplates.SeedIdempotent | backend/seed/templates.ts:91-105 | running the seed twice leaves the table as one run does |
| SeedTemplates.SeedStockIntoEmpty | backend/seed/templates.ts:4-105 | on an empty table, Welcome Email, Password Reset and Newsletter get ids 1, 2, 3 in that order |
| SeedTemplates.SeedAllKeepsIds | backend/seed/templates.ts:98-101 | serial ids survive seeding |
| SeedTemplates.RunSeed | backend/seed/templates.ts:89-112 | exit 0 iff every seed was handled; on exit 1 the table holds the inserts before the failing seed, and that seed's lookup or needed insert failed |
| UserRepository.FirstWithEmail | backend/src/repositories/user.repository.ts:19-25 | `rows[0] \|\| null` for WHERE email: the first row with that address, or none iff no row has it |
| UserRepository.UpdateByEmail | backend/src/repositories/user.repository.ts:45-51 | the UPDATE changes exactly the rows with that address |
| UserRepository.UpdateByEmailIdempotent | backend/src/repositories/user.repository.ts:45-51 | verifying (or setting a hash) twice equals doing it once |
| UserRepository.UpdateKeepsOtherColumns | backend/src/repositories/user.repository.ts:63-69 | the update touches only its own column: ids, addresses and the other column stay |
| UserRepository.UpdateWithoutMatch | backend/src/repositories/user.repository.ts:45-51 | an address with no row changes nothing |
| UserRepository.FindByEmail | backend/src/repositories/user.repository.ts:19-30 | the first row with that address without its hash, null iff none; a query error gives 500 "Error finding user" |
| UserRepository.FindByEmailWithPassword | backend/src/repositories/user.repository.ts:32-43 | the same row with its hash |
| UserRepository.FindById | backend/src/repositories/user.repository.ts:58-61 | the row with that id or null; a query error propagates unwrapped |
| UserRepository.FindByEmailOmitsHash | backend/src/repositories/user.repository.ts:22-35 | both lookups find the same row; only one returns password_hash |
| UserRepository.UserRepository.CreateUser | backend/src/repositories/user.repository.ts:6-17 | adds one unverified row with the given address and hash, returning {id, email}; an error gives 500 and adds nothing |
| UserRepository.UserRepository.UpdateWhereEmail | backend/src/repositories/user.repository.ts:45-56 | applies the change to the rows with that address and returns the first of them, or null; an error gives 500 and changes nothing |
| UserRepository.UserRepository.VerifyUser | backend/src/repositories/user.repository.ts:45-56 | sets verified on that address's rows and returns {id, email} or null |
| UserRepository.UserRepository.UpdatePassword | backend/src/repositories/user.repository.ts:63-74 | replaces password_hash on that address's rows and returns {id, email} or null |
| AuthService.Rethrown | backend/src/services/auth.service.ts:31 | an AppError passes through unchanged; anything else becomes the fallback with 500 |
| AuthService.Login | backend/src/services/auth.service.ts:49-66 | success iff the row exists, the password matches and the row is verified; unknown address and wrong password give 401, unverified gives 403, compare errors give 500; success returns {user:{id,email}, token for userId} |
| AuthService.LoginHidesAccounts | backend/src/services/auth.service.ts:51-55 | a wrong password and an unknown address get identical answers |
| AuthService.VerifyUnlocksLogin | backend/src/services/auth.service.ts:54-61 | with the right password, login answers 403 before verification and succeeds after it |
| AuthService.FirstWithEmailAfterUpdate | backend/src/repositories/user.repository.ts:48-51 | an UPDATE by address leaves the first row with that address in place |
| AuthService.AuthService.Register | backend/src/services/auth.service.ts:13-33 | a taken address gives 400 before anything is hashed or stored; otherwise the hash, never the password, goes into one new unverified row and {id, email, token} is returned; AppErrors pass through and other errors become 500 |
| AuthService.AuthService.VerifyEmail | backend/src/services/auth.service.ts:35-47 | succeeds iff the token checks out and names an address with an account, and then marks it verified; every failure is 400 "Invalid or expired token" and changes nothing |
| AuthMiddleware.BearerToken | backend/src/middlewares/auth.middleware.ts:14 | `split(' ')[1]` is a space-free word |
| AuthMiddleware.TokenIsFirstWord | backend/src/middlewares/auth.middleware.ts:14 | for "Bearer w1 w2 …" the token is w1 |
| AuthMiddleware.Authenticate | backend/src/middlewares/auth.middleware.ts:8-22 | a missing or non-"Bearer " header gives 401 "token missing"; a failed verify gives 401 "invalid token"; otherwise next with the decoded payload |
| AuthMiddleware.LowerCaseSchemeRejected | backend/src/middlewares/auth.middleware.ts:10 | "bearer …" counts as no token: the match is case-sensitive |
| Validation.MinIssues | backend/src/utils/validation.ts:9-10 | `z.string().min(n)` accepts iff the field is present and its `length`, in UTF-16 code units, is at least n |
| Validation.EmailIssues | backend/src/utils/validation.ts:4-7 | the email field is accepted iff present, email-valid and non-empty; an empty one reports "Email is required" |
| Validation.RegisterIssues | backend/src/utils/validation.ts:3-11 | registerSchema accepts iff the email is accepted and the password's `length` is at least 6 UTF-16 code units |
| Validation.LoginIssues | backend/src/utils/validation.ts:13-21 | loginSchema accepts iff the email is accepted and the password is non-empty |
| Validation.VerifyIssues | backend/src/utils/validation.ts:23-27 | verifySchema accepts iff the token is present and non-empty |
| Validation.RegisterStricterThanLogin | backend/src/utils/validation.ts:9-20 | every body registerSchema accepts, loginSchema accepts; a 3-character password shows the converse fails |
| Strings.TrimSpec | backend/src/controllers/email.controller.ts:149 | `trim` yields a trimmed, contiguous part of its input |
| Strings.TrimEmpty | backend/src/controllers/email.controller.ts:169 | `s.trim()` is falsy iff s is all white space |
| Strings.SplitRunsPieceIsInfix | backend/src/controllers/email.controller.ts:148 | every piece of `split(/[cs]+/)` is a contiguous part of the input |
| Strings.SplitRunsOneSeparator | backend/src/controllers/email.controller.ts:148 | two separator-free parts around one separator split into exactly those two parts |
| Strings.SplitJoin | frontend/src/components/email/BulkEmailForm.tsx:91 | joining separator-free pieces with a separator, then splitting on single separators, gives the pieces back |
| Strings.Utf16Length | frontend/src/components/auth/RegisterForm.tsx:38 | `password.length` counts UTF-16 code units: between the number of characters and twice it, and 0 only for the empty string |
| Strings.Utf16LengthBmp | frontend/src/components/auth/RegisterForm.tsx:38 | with no character above U+FFFF, `length` is the number of characters |
| Strings.Utf16LengthAstral | backend/src/utils/validation.ts:10 | three characters above U+FFFF have `length` 6 |
| Seqs.FilterComplementSizes | backend/src/services/email.service.ts:44-52 | a filter and its complement split the input's length |
| BulkEmailForm.TextareaEmails | frontend/src/components/email/BulkEmailForm.tsx:74-77 | every address parsed from the textarea is trimmed, non-empty and free of ',' and '\n' |
| BulkEmailForm.FileEmails | frontend/src/components/email/BulkEmailForm.tsx:86-89 | every address parsed from a file is clean in the textarea's sense and holds '@' |
| BulkEmailForm.ParsedAreClean | frontend/src/components/email/BulkEmailForm.tsx:74-89 | both tokenisers yield trimmed, non-empty items with no ',' or '\n'; the file rule's items also hold '@' |
| BulkEmailForm.CleanRoundTrip | frontend/src/components/email/BulkEmailForm.tsx:74-77 | clean addresses joined with '\n' parse back to themselves under the textarea rule |
| BulkEmailForm.FileThenTextarea | frontend/src/components/email/BulkEmailForm.tsx:86-92 | the file list written into the textarea re-parses to the same list |
| BulkEmailForm.Without | frontend/src/components/email/BulkEmailForm.tsx:119 | drops exactly position i and keeps the rest in order; an out-of-range i changes nothing |
| BulkEmailForm.Preview | frontend/src/components/email/BulkEmailForm.tsx:262-277 | shows the first min(10, n) addresses, and "+(n-10) more" iff n > 10 |
| BulkEmailForm.SubmitCheck | frontend/src/components/email/BulkEmailForm.tsx:127-138 | refuses an empty list, then a blank subject, then a blank body; accepts iff none applies |
| BulkEmailForm.Form.constructor | frontend/src/components/email/BulkEmailForm.tsx:25-31 | the form starts empty with templateId 0 and an empty list, in sync |
| BulkEmailForm.Form.EmailsChanged | frontend/src/components/email/BulkEmailForm.tsx:71-79 | the textarea and the chip list change together and stay in sync |
| BulkEmailForm.Form.FileLoaded | frontend/src/components/email/BulkEmailForm.tsx:84-94 | the list is the file rule's, the textarea shows it one per line, and they stay in sync |
| BulkEmailForm.Form.RemoveEmail | frontend/src/components/email/BulkEmailForm.tsx:118-122 | removes one chip and rewrites the textarea from the list, keeping them in sync |
| BulkEmailForm.Form.FieldChanged | frontend/src/components/email/BulkEmailForm.tsx:63-68 | changes only the named field |
| BulkEmailForm.Form.SelectTemplate | frontend/src/components/email/BulkEmailForm.tsx:52-60 | takes the template's id, subject and body and leaves the addresses |
| BulkEmailForm.Form.Submit | frontend/src/components/email/BulkEmailForm.tsx:125-164 | a refused submit sends nothing and changes nothing; otherwise the request carries the list and fields, and only a successful send resets the form |
| EmailLogsView.ApplyStatusUpdate | frontend/src/components/email/EmailLogs.tsx:59-69 | entries with that id take the new status and time; every other entry, the length and the order stay |
| EmailLogsView.UpdateOfAbsentId | frontend/src/components/email/EmailLogs.tsx:59-69 | an event for an id not in the list changes nothing |
| EmailLogsView.UpdateIdempotent | frontend/src/components/email/EmailLogs.tsx:59-69 | the same event twice equals once |
| EmailLogsView.UpdatesCommute | frontend/src/components/email/EmailLogs.tsx:59-69 | events for different logs commute |
| EmailLogsView.ErrorOutlivesSentEvent | frontend/src/components/email/EmailLogs.tsx:54-69 | the event does not carry the error text, so a failed entry that turns 'sent' keeps showing its old error box |
| EmailLogsView.StatusVariant | frontend/src/components/email/EmailLogs.tsx:113-114 | success iff 'sent', error iff 'failed', warning otherwise |
| EmailLogsView.StatusIcon | frontend/src/components/email/EmailLogs.tsx:104-111 | tick iff 'sent', cross iff 'failed', clock otherwise |
| EmailLogsView.IconMatchesVariant | frontend/src/components/email/EmailLogs.tsx:104-114 | the icon always goes with the badge |
| EmailLogsView.DisplayConditions | frontend/src/components/email/EmailLogs.tsx:176-192 | a fresh pending entry shows neither extra line; an entry with the "Updated:" line has the error badge |
| EmailLogsView.LogList.StatusUpdated | frontend/src/components/email/EmailLogs.tsx:54-71 | the list becomes the status-update map of the old list |
| EmailLogsView.LogList.ProgressReceived | frontend/src/components/email/EmailLogs.tsx:73-88 | events for another user are ignored; otherwise the toast shows the counts, and at processed = total it is dismissed and the list refetched |
| Dashboard.StatsOf | frontend/src/pages/Dashboard/Dashboard.tsx:27-32 | total is the number of fetched logs, and the three status counters never add up to more |
| Dashboard.Count | frontend/src/pages/Dashboard/Dashboard.tsx:28-30 | a status count never exceeds the number of logs |
| Dashboard.CountsAddUp | frontend/src/pages/Dashboard/Dashboard.tsx:27-30 | sent + failed + pending <= total, with equality when every status is one of the three |
| Dashboard.StatsAddUp | frontend/src/pages/Dashboard/Dashboard.tsx:27-32 | the stored counters have total = number of logs and sum to it |
| Dashboard.Page.FetchStats | frontend/src/pages/Dashboard/Dashboard.tsx:21-36 | without a user id, with the falsy id 0, or when the fetch fails, the counters stay; otherwise they are the counts of the fetched logs |
| Dashboard.Page.EmailsSent | frontend/src/pages/Dashboard/Dashboard.tsx:43-45 | the refresh key grows by exactly one |
| Sanitize.StripTags | frontend/src/components/auth/RegisterForm.tsx:22 | `replace(/<[^>]*>/g, '')` only deletes: the result is no longer than the input, and a changed result is at least a two-character tag shorter |
| Sanitize.SanitizeInput | frontend/src/components/auth/LoginForm.tsx:18-22 | trim then strip: the sanitized value has nothing left to strip |
| Sanitize.StripTagsLeavesNoTag | frontend/src/components/auth/RegisterForm.tsx:22 | after `replace(/<[^>]*>/g, '')` no '<' is followed anywhere later by '>' |
| Sanitize.StripTagsFixed | frontend/src/components/auth/RegisterForm.tsx:22 | text without such a span is left unchanged |
| Sanitize.StripTagsIdempotent | frontend/src/components/auth/RegisterForm.tsx:22 | stripping twice equals stripping once |
| Sanitize.StripTagsExample | frontend/src/components/auth/LoginForm.tsx:20 | "a<b>c" becomes "ac" |
| RegisterForm.RegisterErrors | frontend/src/components/auth/RegisterForm.tsx:36-41 | an email error iff the email is empty; a password error iff it is shorter than 6 UTF-16 code units (its `length`), "Password is required" when empty; a confirm error iff the two differ; with the fixed messages |
| RegisterForm.AcceptedExactly | frontend/src/components/auth/RegisterForm.tsx:36-44 | no errors iff the email is non-empty, the password's `length` is at least 6 UTF-16 code units and the confirmation equals it |
| RegisterForm.AstralPasswordAccepted | frontend/src/components/auth/RegisterForm.tsx:38 | three characters above U+FFFF have `length` 6, so such a password passes the length check |
| RegisterForm.AcceptedPassesSchema | frontend/src/components/auth/RegisterForm.tsx:36-41 | what the form accepts, with an address the server accepts, passes registerSchema |
| RegisterForm.Form.Change | frontend/src/components/auth/RegisterForm.tsx:24-28 | stores the value and blanks only that field's error |
| RegisterForm.CollectErrors | frontend/src/components/auth/RegisterForm.tsx:31-41 | the `if` chain of `validateForm`, run in order on the sanitized values, builds exactly the error map RegisterErrors specifies |
| RegisterForm.Form.ValidateForm | frontend/src/components/auth/RegisterForm.tsx:30-45 | the errors become those of the sanitized values; returns true iff there are none |
| RegisterForm.Form.Submit | frontend/src/components/auth/RegisterForm.tsx:47-60 | calls register, with the sanitized email and password, iff validation passes; a failure shows the server's error or "Registration failed" |
| LoginForm.LoginErrors | frontend/src/components/auth/LoginForm.tsx:41-43 | an error per empty sanitized field, with the fixed messages |
| LoginForm.AcceptedExactly | frontend/src/components/auth/LoginForm.tsx:41-45 | no errors iff both fields are non-empty |
| LoginForm.NoticeHidesPassword | frontend/src/components/auth/LoginForm.tsx:48-51 | the notice depends on the password only through its `length` in UTF-16 code units, and after the prefix it shows exactly that many '*' |
| LoginForm.Form.Change | frontend/src/components/auth/LoginForm.tsx:24-31 | stores the value and blanks only that field's error |
| LoginForm.Form.Submit | frontend/src/components/auth/LoginForm.tsx:33-56 | the errors become those of the sanitized values; with none, the masked notice is shown and both fields are emptied, otherwise the fields stay |
| AuthContext.Restore | frontend/src/contexts/Authcontext.tsx:36-51 | the token is restored iff both keys hold something; a user only when it parses; an unparsable user removes both keys but leaves the token set |
| AuthContext.LoginSurvivesReload | frontend/src/contexts/Authcontext.tsx:54-59 | a login with a non-empty token whose user parses back comes back authenticated after a reload |
| AuthContext.LogoutSurvivesReload | frontend/src/contexts/Authcontext.tsx:62-67 | after logout a reload restores nothing |
| AuthContext.CorruptUserHalfRestores | frontend/src/contexts/Authcontext.tsx:40-48 | a corrupt stored user leaves the token set, the user null, the context unauthenticated and both keys gone |
| AuthContext.AuthProvider.constructor | frontend/src/contexts/Authcontext.tsx:31-33 | a fresh provider has no user, no token and is loading |
| AuthContext.AuthProvider.Init | frontend/src/contexts/Authcontext.tsx:36-51 | the state and storage become Restore of the stored keys, and loading ends in every case |
| AuthContext.AuthProvider.IsAuthenticated | frontend/src/contexts/Authcontext.tsx:74 | authenticated only with a user and a non-empty token |
| AuthContext.AuthProvider.Login | frontend/src/contexts/Authcontext.tsx:54-59 | sets user and token, writes both keys, and is authenticated iff the token is non-empty |
| AuthContext.AuthProvider.Logout | frontend/src/contexts/Authcontext.tsx:62-67 | clears both values and both keys, leaving the context unauthenticated |

## Left out

- Concurrency: the `p-limit` pool and the BullMQ worker's concurrency are not modelled. Tasks run one after another in input order, and jobs are handled one at a time.
- The queue is a sequence the producer appends to. Durability, retries and redelivery belong to BullMQ and Redis.
- The worker's 'completed' and 'failed' listeners only log, so they are not modelled.
- Outside calls are parameters or inputs: `validator.isEmail`, zod's `.email()`, `xlsx.readFile`/`sheet_to_json`, bcrypt, `jwt.sign`/`jwt.verify`, `sendMail`, `JSON.parse`/`JSON.stringify`, `Number()`.
- The pg pool, the ioredis client, the logger and `process.exit` are not modelled. The seed script's exit code is a result.
- The file reads and the `finally` block that unlinks the upload are not modelled. A file reaches the model as its contents or its workbook.
- The ioredis client is not constructed. Its settings stand for it.
- The `connection` export, which calls `getInstance` when the module loads, is not modelled.
- Wall-clock time: `NOW()` and `new Date()` are ticks of a logical clock.
- UserRepository.UserRepository.UpdateWhereEmail: `RETURNING … rows[0]` after an UPDATE is modelled as the first matching row in id order. PostgreSQL promises no order. The users table is not assumed to hold unique addresses, because its schema is not part of this model.
- UserRepository.FirstWithEmail: `WHERE email = $1` and then `rows[0] || null` has no ORDER BY. The model takes the lowest-id row. FindByEmail, FindByEmailWithPassword and FindByEmailOmitsHash inherit this choice.
- EmailRepository.EmailRepository.EnsureDefaultTemplate: `SELECT id FROM email_templates LIMIT 1` has no ORDER BY. The model takes the template with the lowest id.
- EmailRepository.EmailRepository.EnsureDefaultTemplate, GetLogsByUser, AllLogs, ListLogs, GetLogById and DeleteLog: a driver error in these is only logged and rethrown unchanged, before any write, so the model takes their statements to succeed. The service's `getLogs` does model a failing read, as its 500.
- EmailService.CreateAndEnqueue: a task's `insertFault` is the error of the first of `createLog`'s statements to fail. A failing lookup and a failing INSERT end the same way there (EmailService.TaskLookupFaultIsInsertFault), so the two are not told apart.
- Number parsing: `Number(req.body.templateId)` is taken as an integer.
- RedisClient.Resolve: the port parse returns an optional integer, so a fractional port such as "80.5", which passes the source's range check, is not modelled.
- Request fields that zod rejects for their type are not modelled. A field is present text or absent.
- The `emails` field of a bulk request is text, absent, or a non-string value carrying only its truthiness.
- `debugDataIntegrity` and `debugUserInfo` are diagnostics and are not modelled.
- The `getInstance` singletons of `EmailService` and `EmailController` only cache an object without fields, so they are not modelled.
- The `getLogs` and `getTemplates` HTTP handlers are not modelled. `getTemplates` calls an `emailService.getAllTemplates` that the service class does not define.
- multer's file-size limit and upload directory are not modelled.
- The three stock templates' HTML bodies are parameters of `SeedTemplates.StockSeeds`.
- Frontend rendering is not modelled: JSX, toasts other than the submit outcomes, navigation, drag state, loading and refreshing flags, and the template fetch on mount.
- The success toast `Successfully queued ${response.successful} emails!` is not modelled. The controller's response has no `successful` field.
- The `connected` gate on the socket handlers, and the socket handshake, are not modelled.
- AuthContext.AuthProvider.Init: requires a fresh provider, with no user and no token, as on mount. It runs once.
- The `updated_at` the log list writes is a tick of the logical clock, not an ISO date string.
- `sanitizeInput`'s `/<[^>]*>/g` is modelled as its matching rule: a `<`, then up to the first `>`. No general regular-expression engine is modelled.
- `toLowerCase` is modelled on ASCII letters only.
- Strings are sequences of Unicode scalar values, so a lone UTF-16 surrogate cannot be represented; lengths that JavaScript reads (`password.length`, zod's `.min`) are measured with Strings.Utf16Length, which counts a character above U+FFFF twice.

## Findings

| source | as written | input that shows it | evidently intended | confidence | as-written member | corrected member |
|---|---|---|---|---|---|---|
| backend/src/controllers/email.controller.ts:194 | `source: plainTextEmails ? 'text' : 'file'` labels the response by the truthiness of the text field; EmailController.SendBulkEmails keeps this label, as the program does, and EmailController.SourceLabelsDiffer gives every input where it parts from the branch taken | `emails` = " " (one space) with an uploaded file: line 169 skips the blank text, so the file is parsed, yet the response says 'text' (EmailController.SourceMislabelsFile) | the label names the branch that supplied the addresses: 'text' exactly when the text branch of line 169 was taken | high; not executed | EmailController.SourceAsWritten | EmailController.SourceLabel |
