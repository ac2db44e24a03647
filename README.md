# Forum core in Dafny

A model of the core of a small Go web forum, in three parts:

- the form validator;
- the three SQLite-backed stores (users, threads, posts);
- the decision logic of the HTTP handlers that create accounts, threads and messages, log users in and log them out.

The model is written in Dafny, and its properties are proved.

Modules follow the program's structure:

- `Validator`: the `Validator` struct, modelled as a class whose methods update its fields in place. Beside it are the pure string predicates `NotBlank`, `MaxChars` and `StrongPassword`; `CheckPassword` is a method with its flag-setting loop.
- `Unicode`: the rune classes the validator uses, and UTF-8 widths. A string is its sequence of runes.
- `Strconv`: `strconv.Atoi` on the `{id}` path segment (64-bit range) and `%d` formatting.
- `Database`: the shared database as a class holding the three tables as sequences of rows in rowid order. Its invariant is primary-key uniqueness and the UNIQUE email column. The module also holds the error values (with `%w` wrapping and `errors.Is`) and the outcome of each driver round trip.
- `Queries`: what `ORDER BY created ASC/DESC` and `LIMIT` return, as pure functions.
- `Users`, `Threads`, `Posts`: the stores.
  - Each store is a class over the shared database.
  - State-changing operations are methods: `Insert`, and the `for rows.Next()` loops of `Latests` and `getPosts`.
  - Each method is specified by pure functions: the joins, lookups and error mapping.
- `Session`: the session manager as a token plus a key/value map, with a ghost history of changes in order.
- `Handlers`: the forms' `CheckField` sequences, the path-id guard, and each handler as a method over the stores and the session. A handler's response is a value; HTTP is not modelled.

The environment supplies these as parameters:

- what the driver reports for each round trip (`Io`: `Ready` or `Broken(code)`);
- where reading a result set fails (`ReadFault`);
- the CURRENT_TIMESTAMP of an insert (`now`);
- the bcrypt pair, modelled as two uninterpreted functions in `Users.Hasher` with a salt argument;
- `mail.ParseAddress`, as the predicate `isAddress`;
- the token a renewal produces.

A fresh row's id is one more than the largest id in its table, and clients rely only on that id being fresh.

All three inserts leave the row in the table when `LastInsertId` fails after a successful `Exec`. They still return 0 and an error, and the model keeps both.

Where the code and its documentation disagree, the model follows the code:

- `accountCreatePOST` stores `authenticatedUserID` without renewing the session token. Of the handlers that store the user id, only login renews the token; logout renews it too.
- `Latests` lists at most 9 threads (`LIMIT 9`), although the comments say 10.
- `threads.Get` reports a missing thread as a wrapped `sql.ErrNoRows`, never as `ErrNoRecord`. See Findings.

## Model

| member | source | states |
|---|---|---|
| Validator.IsValid | forum/internal/validator/validator.go:18-20 | valid exactly when there are no field errors and no non-field errors |
| Validator.WithFieldError | forum/internal/validator/validator.go:24-31 | the key is present afterwards; a key already present keeps its first message and the whole value is unchanged; other keys and the non-field messages are kept |
| Validator.WithNonFieldError | forum/internal/validator/validator.go:34-36 | the message is appended at the end; the earlier messages stay, in order, as a prefix; field errors are untouched |
| Validator.Validator.constructor | forum/internal/validator/validator.go:12-15 | a fresh validator holds no errors (Go's zero value) |
| Validator.Validator.AddFieldError | forum/internal/validator/validator.go:24-31 | the new state is the old state with the first-message-wins update |
| Validator.Validator.AddNonFieldError | forum/internal/validator/validator.go:34-36 | the new state is the old state with the message appended |
| Validator.Validator.CheckField | forum/internal/validator/validator.go:44-48 | a passing check changes nothing; a failing one is exactly AddFieldError(key, message) |
| Validator.ApplyAllExtends | forum/internal/validator/validator.go:24-48 | no sequence of validator calls removes or rewrites a recorded message |
| Validator.ApplyAllSnoc | forum/internal/validator/validator.go:44-48 | one more call after a run of calls is applied to the run's result |
| Validator.InvalidStaysInvalid | forum/internal/validator/validator.go:18-48 | once Valid() is false, no sequence of calls makes it true again |
| Validator.FirstErrorWins | forum/internal/validator/validator.go:28-30 | the first message recorded for a key survives every later call |
| Validator.PassingChecksChangeNothing | forum/internal/validator/validator.go:44-48 | CheckField calls whose checks all pass leave the validator as it was |
| Validator.ChecksRecordFirstFailures | forum/internal/validator/validator.go:44-48 | after a run of CheckField calls, a key has a message iff it had one or some check for it failed; that message is the old one or the first failing check's |
| Validator.TrimLeft | forum/internal/validator/validator.go:40 | the result is a suffix of the value; it starts with a non-space rune or is empty; everything dropped is white space |
| Validator.TrimRight | forum/internal/validator/validator.go:40 | the result is a prefix of the value; it ends with a non-space rune or is empty; everything dropped is white space |
| Validator.TrimSpace | forum/internal/validator/validator.go:40 | the result is the value with the leading white space dropped and then the trailing white space dropped, and only white space is dropped; what is left has no white space at either end; it is empty iff every rune is white space |
| Validator.NotBlankTrims | forum/internal/validator/validator.go:39-41 | NotBlank equals strings.TrimSpace(value) != ""; it is false exactly for the empty string and all-white-space strings |
| Validator.MaxCharsCountsRunes | forum/internal/validator/validator.go:51-53 | MaxChars counts runes, not bytes: a byte length within n implies a rune count within n, but not conversely ("é": 1 rune, 2 bytes) |
| Validator.MaxCharsBoundsBytes | forum/internal/validator/validator.go:51-53 | a string that passes MaxChars(value, n) takes at most 4n bytes in UTF-8 |
| Unicode.Utf8Width | forum/internal/validator/validator.go:52 | a rune takes 1 to 4 bytes in UTF-8, and 1 exactly when it is ASCII |
| Unicode.ByteLength | forum/internal/validator/validator.go:52 | the byte length of a string is at least its rune count |
| Validator.CheckPassword | forum/internal/validator/validator.go:57-71 | the flag-setting loop returns true iff there is an upper-case rune, a digit and at least 8 runes |
| Validator.PasswordExamples | forum/internal/validator/validator.go:57-71 | "Abc12345" passes; "abcdefgh" and "Ab1" fail |
| Strconv.Atoi | forum/cmd/web/handlers.go:107 | only a non-empty digit string, optionally after one '+' or '-', is accepted, and only when its value is in the 64-bit range; unsigned and '+' strings give their decimal value, '-' strings its negation; out of range is an error |
| Strconv.AtoiItoa | forum/cmd/web/handlers.go:102 | reading back a formatted in-range integer gives the same integer |
| Strconv.DigitsValue | forum/cmd/web/handlers.go:102 | the decimal digits of a natural number are non-empty, all digits, and read back as the number |
| Strconv.AtoiExamples | forum/cmd/web/handlers.go:107 | "42", "-3" and "+7" parse; "", "abc", "4x" and "-" do not |
| Database.NextId | forum/internal/models/users.go:67-71 | the id given to a new row is at least 1 |
| Database.NextIdFresh | forum/internal/models/users.go:67-71 | the new id is above every id in the table, and it is 1 or one more than an existing id |
| Database.AppendFresh | forum/internal/models/threads.go:57 | appending a row with the next id keeps the primary keys distinct |
| Database.Database.constructor | forum/internal/models/users.go:36-42 | an empty database satisfies the schema's constraints |
| Users.FindById | forum/internal/models/users.go:77-79 | a row is found iff some row has the id; it is a row of the table with that id |
| Users.FindByEmail | forum/internal/models/users.go:107-109 | a row is found iff some row has the email; it is a row of the table with that email |
| Users.FindByEmailUnique | forum/internal/models/users.go:40 | with the UNIQUE email column, the row found by a row's email is that row |
| Users.FindByIdUnique | forum/internal/models/users.go:77-79 | with unique ids, the row found by a row's id is that row |
| Users.GetUser | forum/internal/models/users.go:75-87 | ErrNoRecord exactly when no row has the id; otherwise the row with that id, hash included; a driver failure is wrapped with "querying user by ID" |
| Users.EmailExists | forum/internal/models/users.go:90-101 | (true, nil) iff some row has exactly this email; (false, nil) on absence; a driver failure gives false and the wrapped error |
| Users.CheckCredentials | forum/internal/models/users.go:104-126 | no error means a row with the email, that id and a matching hash; an unknown email is ErrInvalidCredentials; every error gives id 0 |
| Users.CheckCredentialsOfRow | forum/internal/models/users.go:104-126 | for a stored row's email: a password bcrypt accepts returns the row's id and no error; a mismatch is ErrInvalidCredentials; another bcrypt failure is wrapped with "verifying password" |
| Users.WrongPasswordLooksLikeUnknownEmail | forum/internal/models/users.go:109-121 | a hash mismatch for a known email gives the same result as an unknown email: (0, ErrInvalidCredentials) |
| Users.SignedUpUserCanLogIn | forum/internal/models/users.go:52-72 | after a row for the hashed password is added under a fresh id, Exists(email) is true, Get(id) returns the row, Authenticate(email, password) returns id, and the stored hash is not the plaintext (given a sound and hiding bcrypt) |
| Users.UserModel.Insert | forum/internal/models/users.go:52-72 | a hashing failure, a driver failure and a duplicate email each return 0 and the wrapped error and add no row; otherwise exactly one row (username, email, hash) is appended under a fresh id and that id is returned; other tables and the invariant are kept |
| Queries.SortByRankCorrect | forum/internal/models/threads.go:89 | stable insertion sort returns a permutation of its input, with ranks non-decreasing |
| Queries.InsertByRankPermutes | forum/internal/models/threads.go:89 | inserting adds exactly one occurrence of the element |
| Queries.InsertByRankAscending | forum/internal/models/threads.go:89 | inserting into a sorted sequence keeps it sorted |
| Queries.SortByCorrect | forum/internal/models/threads.go:148 | ORDER BY created ASC/DESC returns a permutation of the rows, ordered in that direction |
| Queries.SortByMembers | forum/internal/models/threads.go:148 | a row is in the ordered result iff it is in the input |
| Queries.SortedByMeaning | forum/internal/models/threads.go:148 | ordered means non-decreasing keys under ASC and non-increasing under DESC |
| Queries.SortStrictlyIncreasing | forum/internal/models/threads.go:148 | rows with strictly increasing keys come back as they are under ASC and reversed under DESC |
| Queries.SortIncreasingRanks | forum/internal/models/threads.go:148 | rows already in strictly increasing rank come back unchanged |
| Queries.SortDecreasingRanks | forum/internal/models/threads.go:148 | rows in strictly decreasing rank come back reversed |
| Queries.Limit | forum/internal/models/threads.go:90 | LIMIT n returns a prefix of length min(n, rows) |
| Queries.Reverse | forum/internal/models/threads.go:148 | element i of the result is element len-1-i of the input |
| Threads.SelectPost | forum/internal/models/threads.go:145-147 | a joined post row carries the post's id, body, created and author id |
| Threads.PostJoinMembers | forum/internal/models/threads.go:145-147 | the join yields a row for each post of the thread whose author exists, and no other |
| Threads.PostJoinOnce | forum/internal/models/threads.go:145-147 | with distinct post ids the join yields each row at most once |
| Threads.PostQueryOnce | forum/internal/models/threads.go:142-148 | getPosts's ordered query lists no post row twice |
| Threads.ThreadPostsMembers | forum/internal/models/threads.go:142-179 | the posts returned for a thread are exactly its post rows whose author exists, each scanned with its author |
| Threads.SelectedPostIsRow | forum/internal/models/threads.go:160-172 | a scanned post has the row's id, body and created; its author is a user of the table with the row's author id, with no hashed password |
| Threads.ThreadPostsOrdered | forum/internal/models/threads.go:148 | posts come out in non-decreasing creation order under ASC and non-increasing under DESC |
| Threads.PostJoinIncreasing | forum/internal/models/threads.go:145-147 | the join keeps table order, so rows written at strictly increasing times stay strictly increasing |
| Threads.NewestFirstReversesOldestFirst | forum/internal/models/threads.go:148 | with strictly increasing timestamps, the DESC listing is the reverse of the ASC one |
| Threads.SelectThread | forum/internal/models/threads.go:71-73 | a joined thread row carries the thread's id, title, created and author id |
| Threads.ThreadJoinMembers | forum/internal/models/threads.go:86-88 | the join yields a row for each thread whose author exists, and no other |
| Threads.ThreadLookup | forum/internal/models/threads.go:70-75 | Get's query finds a row iff a thread with that id has an existing author, and the row is that thread joined with its author |
| Threads.LatestThreadsCount | forum/internal/models/threads.go:89-90 | Latests lists min(9, joined threads) threads |
| Threads.LatestThreadsMembers | forum/internal/models/threads.go:84-111 | every listed thread is a thread row whose author exists, with its posts newest first |
| Threads.LatestThreadsNewestFirst | forum/internal/models/threads.go:89 | listed threads are in non-increasing creation order |
| Threads.LatestThreadsAreTheNewest | forum/internal/models/threads.go:89-90 | a thread whose author exists is listed, or nine threads are listed and the ninth is at least as new |
| Threads.ThreadModel.Insert | forum/internal/models/threads.go:52-66 | an Exec failure adds no row and returns 0 and the wrapped error; otherwise one row (title, author id, now) is appended under a fresh id, which is returned unless LastInsertId fails |
| Threads.ThreadModel.GetPosts | forum/internal/models/threads.go:142-179 | without a read failure, the thread's posts in the requested order; any failure returns no posts and the driver error, unwrapped |
| Threads.ThreadModel.NewThread | forum/internal/models/threads.go:120-138 | a scan failure or a post-loading failure returns no thread and a wrapped error (never ErrNoRecord); otherwise the scanned thread with its posts |
| Threads.ThreadModel.Get | forum/internal/models/threads.go:69-81 | a missing thread or missing author gives an error wrapping sql.ErrNoRows and never ErrNoRecord; otherwise the thread with its posts oldest first, or, when they fail to load, the driver error wrapped with "getting posts with thread id N" and then "creating new thread" |
| Threads.ThreadModel.GetIntended | forum/internal/models/threads.go:69-81 | as Get, but a missing thread is reported as ErrNoRecord, exactly then |
| Threads.ThreadModel.ScanLatests | forum/internal/models/threads.go:98-110 | the rows.Next() loop returns every row with its posts newest first, or no threads and the error of the first failure: a row's scan or posts error wrapped with "creating thread", else the wrapped rows.Err() |
| Threads.ScanErrorNone | forum/internal/models/threads.go:98-110 | the loop ends without an error exactly when no scan, no post loading and not rows.Err() fails |
| Threads.ThreadModel.Latests | forum/internal/models/threads.go:84-111 | no error iff no read fails, and then the latest-threads listing; any error returns no threads at all; a query failure is wrapped with "getting latests threads", and any other error is the loop's first failure |
| Posts.PostModel.Insert | forum/internal/models/posts.go:51-65 | an Exec failure adds no row and returns 0 and the driver error, unwrapped; otherwise one row (body, author, thread, now) is appended under a fresh id, which is returned unless LastInsertId fails; other tables are unchanged |
| Posts.InsertedPostListed | forum/internal/models/posts.go:51-56 | after an insert, a thread's posts are the earlier ones plus the new post iff it belongs to that thread and its author exists |
| Session.SessionManager.Put | forum/cmd/web/handlers.go:100-101 | the key now maps to the value; the token is unchanged; the change is recorded |
| Session.SessionManager.Remove | forum/cmd/web/handlers.go:305 | the key is gone; the token is unchanged; the change is recorded |
| Session.SessionManager.GetInt | forum/cmd/web/handlers.go:159 | a non-zero result is the integer stored under the key; a stored integer is returned as it is |
| Session.SessionManager.PopString | forum/cmd/web/handlers.go:123 | returns the stored string, or "" when there is none, and removes the key |
| Session.SessionManager.RenewToken | forum/cmd/web/handlers.go:286-290 | on a store failure nothing changes and the error is returned; otherwise the token is the new one and the data is kept |
| Handlers.PathId | forum/cmd/web/handlers.go:107-111 | an id is accepted iff Atoi succeeds and gives at least 1 |
| Handlers.PathIdAcceptsRedirectIds | forum/cmd/web/handlers.go:102 | every id a redirect names (1 up to the 64-bit maximum) passes the guard and denotes itself |
| Handlers.PathIdRejects | forum/cmd/web/handlers.go:173-177 | "0", "-4", "", "abc" and "1x" are turned away; "12" is accepted |
| Handlers.AccountChecksInOrder | forum/cmd/web/handlers.go:72-76 | replaying the five CheckField calls on a fresh validator gives the sign-up form's errors |
| Handlers.BoundedTextChecksInOrder | forum/cmd/web/handlers.go:149-150 | replaying the two CheckField calls gives the bounded text field's errors |
| Handlers.AccountErrorsFor | forum/cmd/web/handlers.go:72-76 | for any outcome of the five checks: only "name", "email" and "password" can have messages; each has one iff one of its checks failed, and the message is its first failing check's |
| Handlers.AccountErrors | forum/cmd/web/handlers.go:72-76 | username errors go under "name"; a blank email gets only the blank message, never the format one; a non-blank weak password gets the length message |
| Handlers.AccountFormValid | forum/cmd/web/handlers.go:72-78 | the sign-up form is valid iff every field passes all its checks |
| Handlers.BoundedTextErrors | forum/cmd/web/handlers.go:149-150 | one message at most, under the field's key, the blank one taking precedence; valid iff non-blank and within the limit |
| Handlers.ThreadTitleErrors | forum/cmd/web/handlers.go:149-152 | a title is accepted iff non-blank and at most 100 runes; a blank title gets only the blank message; an over-long one only the length message |
| Handlers.MessageBodyErrors | forum/cmd/web/handlers.go:229-232 | a body is accepted iff non-blank and at most 1000 runes, with the same message precedence |
| Handlers.AccountForm | forum/cmd/web/handlers.go:66-76 | the form after its five CheckField calls holds the sign-up form's errors |
| Handlers.ThreadForm | forum/cmd/web/handlers.go:145-150 | the form after its two CheckField calls holds the title's errors |
| Handlers.MessageForm | forum/cmd/web/handlers.go:225-230 | the form after its two CheckField calls holds the body's errors |
| Handlers.Application.AccountCreatePost | forum/cmd/web/handlers.go:59-103 | branch order: parse, then validate, then the email check (an Exists error counts as "not taken"), then insert. Only a valid form with an untaken email reaches Insert; a taken email re-shows the form with the extra "email" error. On success the new id and the flash are stored, in that order, and the redirect names the id. A failed insert is a 500: the users table keeps the new row only when LastInsertId alone failed, and is unchanged otherwise. The token is never renewed. Every earlier exit leaves the tables and the session unchanged |
| Handlers.Application.AccountView | forum/cmd/web/handlers.go:106-128 | a rejected id is a 404 before any lookup; a missing user is a 404 and other failures a 500; showing the account pops the flash |
| Handlers.Application.ThreadCreatePost | forum/cmd/web/handlers.go:138-168 | an invalid title re-shows the form and changes nothing; otherwise a thread authored by the session's user id is inserted; on success the flash is set and the redirect names the new thread; a failure is a 500 without touching the session |
| Handlers.Application.ThreadView | forum/cmd/web/handlers.go:171-193 | as written: a rejected id is a 404, and it is the only 404; a missing thread is a 500; otherwise the thread with its posts oldest first |
| Handlers.Application.ThreadViewIntended | forum/cmd/web/handlers.go:179-187 | over GetIntended: a missing thread is a 404 |
| Handlers.Application.PostCreate | forum/cmd/web/handlers.go:196-208 | a rejected id is a 404, otherwise an empty message form for that thread |
| Handlers.Application.PostCreatePost | forum/cmd/web/handlers.go:211-250 | a form that does not parse is a 400 and a rejected id a 404, before any store call; an invalid body re-shows the form; otherwise a post is inserted under the session's user id; on success the flash names the new post and the redirect goes to the thread |
| Handlers.Application.UserLoginPost | forum/cmd/web/handlers.go:261-294 | bad credentials re-show the form with only the "generic" error; other failures are a 500; on success the token is renewed before the user id is stored; a renewal failure stops before the id is stored |
| Handlers.Application.UserLogoutPost | forum/cmd/web/handlers.go:298-308 | renew the token, then remove the user id, then set the flash; a renewal failure changes nothing |
| Handlers.Application.Home | forum/cmd/web/handlers.go:40-49 | the latest threads when no read fails, otherwise a 500 |

## Left out

- bcrypt internals: cost factor, salt generation and constant-time comparison. The pair is uninterpreted, and `Sound`/`Hiding` state what the lemmas assume of it.
- `mail.ParseAddress`: the address grammar is the predicate parameter `isAddress`.
- Unicode tables: `IsUpper` and `IsDigit` are exact on Latin-1 only. General properties do not depend on their bodies.
- UTF-8 decoding: a string is already its sequence of runes.
- SQL engine specifics: the resolution of CURRENT_TIMESTAMP, and the order SQLite gives rows with equal timestamps. The model's ORDER BY is a stable sort, so the method contracts (`ThreadModel.GetPosts`, `Get`, `GetIntended`, `Latests`, and the handlers `ThreadView` and `Home` over them) return tied rows in table order. SQLite does not promise that order, and with one-second timestamps ties are common. Only the lemmas `ThreadPostsOrdered`, `LatestThreadsNewestFirst` and `LatestThreadsAreTheNewest` are independent of how ties are broken; `NewestFirstReversesOldestFirst` requires strictly increasing timestamps.
- Foreign keys: they are off in the database, so an insert with an unknown author or thread succeeds.
- Table creation and wiring: `createTable`, the `New*Model` constructors and `helpers.go`, plus `main.go`, `routes.go` and `templates.go` (rendering, and the flash pop in `newTemplateData`).
- Session manager internals: the store, cookies, lifetimes and `LoadAndSave`. The session is a token and a map, and a renewal's outcome and new token are parameters.
- Concurrency, response writing and the debug `fmt.Printf` in threadView. A response is one value, and `Status` maps it to its code.
- The form pages for GET requests and the form structs' other fields: they only render.
- The extra `order` argument that `getPosts` passes to `Query` next to `threadID`: the model assumes the driver ignores it.
- Integer width of ids: ids are unbounded. The 64-bit range matters only where `Atoi` reads an id back.
- Threads.ThreadModel.Insert: the table is not unchanged after every error. A LastInsertId failure leaves the inserted row, as the code does.
- Users.UserModel.Get, Users.UserModel.Exists, Users.UserModel.Authenticate: these read the shared table and return `GetUser`, `EmailExists` and `CheckCredentials`, whose contracts, with `CheckCredentialsOfRow` for a stored row, carry the promises.

## Findings

| source | as written | input that shows it | evidently intended | confidence | as-written member | corrected member |
|---|---|---|---|---|---|---|
| forum/internal/models/threads.go:75-80 | Get wraps the scan error of a missing row ("creating new thread: scanning row: sql: no rows"), so `errors.Is(err, ErrNoRecord)` in threadView (forum/cmd/web/handlers.go:181) never holds, and a missing thread is answered with 500 | GET /thread/view/5 on a database without thread 5: Get returns the wrapped sql.ErrNoRows and threadView calls serverError | report ErrNoRecord for sql.ErrNoRows, as UserModel.Get does (forum/internal/models/users.go:81-83), so a missing thread is a 404 | not executed | Handlers.Application.ThreadView | Handlers.Application.ThreadViewIntended |
