# Expense Tracker — a Dafny model of its core

Expense Tracker is a personal finance application. Its Express backend keeps
users and their transactions. A user signs up or logs in with an emailed
one-time password (OTP) and is then identified by a JWT carried in an
`Authorization: Bearer` header or a `token` cookie. Transactions are debits
or credits with a subject, merchant, amount, date and category, and each may
carry uploaded receipt files. The React frontend lists and edits
transactions, draws a dashboard (totals, balance, average expense, a pie of
debits by category, a bar chart by month, the five most recent
transactions), and guards its pages by login state.

The project models that core in Dafny and proves what the code promises:

- **Backend transaction service** (`transaction_service.dfy`): a store
  class holds the transaction records (a map from id to record) and the
  receipt files on disk (a set of paths). Its handlers are methods whose
  contracts give the new records and the new set of files. The upload step
  that runs before the create and update handlers is part of it. They cover the ownership lookup, ordered
  validation, partial patching, receipt removal and append, cascade delete,
  the summary with its per-category breakdown, and receipt download.
- **OTP authentication** (`auth_service.dfy`): a user store keyed by email.
  It covers sign-up (create, overwrite while unverified, or 409), OTP
  verification, resend and login, and the pairing of `otp` with
  `otpExpiry`.
- **Middleware**: token extraction and the strict and optional JWT
  middlewares (`jwt_auth.dfy`), and the upload filename sanitiser and size
  limit (`upload.dfy`).
- **Frontend logic**:
  - the transaction form and its receipts (`add_transaction.dfy`);
  - the transaction list's delete, download and size display
    (`transactions_page.dfy`);
  - the dashboard figures (`ledger.dfy`, `dashboard_charts.dfy`,
    `recent_transactions.dfy`);
  - the navigation bar's menus and logout (`navbar.dfy`);
  - the route table (`router.dfy`);
  - the sign-up and login pages (`signup_page.dfy`, `login_page.dfy`).
- **Shared helpers**:
  - `common.dfy`: JavaScript truthiness, `split`/`join`, `trim`, `includes`
    and decimal digits;
  - `json.dfy`: a JSON reader, enough for the receipt-id lists the form
    sends;
  - `sorting.dfy`: a stable sort by key, newest first.

Some conventions apply throughout:

- A field the request may omit is an `Option`. A text field is truthy when
  it is present and non-empty.
- Amounts are exact reals.
- Times are integers in milliseconds.
- The clock, the random OTP draw, JWT verification, mail delivery and the
  server's answers reach the model as parameters.

A summary category keeps the type of its first transaction: the handler
(`backend/controllers/transactionController.js:228-230`) sets the type only
when it creates the entry (`TransactionService.BreakdownEntry`).

Where the code departs from what it evidently intends (see "## Findings"),
the handlers are modelled as written (`TransactionService.BreakdownAsWritten`,
`AuthService.OtpCheckAsWritten`), and the corrected definitions stand beside
them with the intended properties proved.

## Model

| member | source | states |
|---|---|---|
| TransactionService.ParseType | backend/controllers/transactionController.js:66-68 | Only "debit" and "credit" are transaction types. |
| TransactionService.FindOwned | backend/controllers/transactionController.js:8-17 | 404 if and only if the id is unknown; 403 if and only if another user owns it; otherwise the stored record itself. |
| TransactionService.CreateProblem | backend/controllers/transactionController.js:58-68 | The create checks, first failure wins: a missing (falsy) required field, then a non-positive amount, then a type other than debit or credit; `CreateChecksInOrder` states what each answer means. |
| TransactionService.CreateChecksInOrder | backend/controllers/transactionController.js:58-68 | A create body passes if and only if all six fields are present, the amount is positive and the type is debit or credit. Any missing field answers "Missing required fields"; "Amount must be greater than 0" means all six fields were present and the amount is not positive; "Invalid transaction type" means all fields were present, the amount positive and the type neither debit nor credit. |
| TransactionService.ReceiptsOf | backend/controllers/transactionController.js:70-74 | One receipt per uploaded file, in upload order, with the file's id, original name and size, and the path `uploads/<stored filename>`. |
| TransactionService.NewTransaction | backend/controllers/transactionController.js:76-88 | A new record belongs to the caller, carries exactly the uploaded receipts, defaults the description to "", and is a valid record. |
| TransactionService.UpdateProblem | backend/controllers/transactionController.js:122-128 | The update checks look only at supplied values: a present non-positive amount, then a truthy type other than debit or credit; `TransactionStore.Update` answers 400 with that message. |
| TransactionService.Patch | backend/controllers/transactionController.js:130-136 | A field is replaced only by a truthy supplied value, the description whenever it is supplied; `PatchProperties` states its properties and `AssignFields` computes it step by step. |
| TransactionService.AssignFields | backend/controllers/transactionController.js:130-136 | The step-by-step field assignment computes the partial patch. |
| TransactionService.PatchProperties | backend/controllers/transactionController.js:130-136 | A patch keeps the owner and the receipts and preserves validity. It is idempotent. An empty body changes nothing. An empty description clears it. |
| TransactionService.RemovalIds | backend/controllers/transactionController.js:138-148 | The ids to remove: none for an absent or falsy field, the array itself, or the array a string parses to; `RemovedReceiptsTakesPrecedence` and `FormRemovalRoundTrip` state its cases. |
| TransactionService.Kept | backend/controllers/transactionController.js:150-158 | The receipts whose id is not listed, in order; `KeptExactly`, `KeptAppend` and `KeptIdempotent` state its properties. |
| TransactionService.KeptAppend | backend/controllers/transactionController.js:150-158 | Filtering receipts distributes over concatenation, so kept receipts keep their order. |
| TransactionService.KeptExactly | backend/controllers/transactionController.js:150-158 | A receipt is kept if and only if it was there and its id is not listed; the list never grows. |
| TransactionService.KeptIdempotent | backend/controllers/transactionController.js:150-158 | Filtering twice by the same ids is filtering once. |
| TransactionService.RemovedReceiptsTakesPrecedence | backend/controllers/transactionController.js:138-148 | A present `removedReceipts` is used instead of `removeReceipts`. An empty string removes nothing. |
| TransactionService.FormRemovalRoundTrip | backend/controllers/transactionController.js:139-158 | A JSON array string of ids is parsed back into the same ids, and exactly the receipts with those ids are dropped. |
| TransactionService.Updated | backend/controllers/transactionController.js:130-168 | The record after an update: the patched fields, then the kept receipts followed by the new uploads; `UpdatedReceipts` states its receipts. |
| TransactionService.UpdatedReceipts | backend/controllers/transactionController.js:150-168 | After an update, the receipts are the filtered old ones followed by the new uploads. Without a removal list, the old ones are kept whole. |
| TransactionService.FindReceipt | backend/controllers/transactionController.js:259-262 | Finds the first receipt with the requested id, or reports that none has it. |
| TransactionService.PathsOfMembers | backend/controllers/transactionController.js:193-196 | A path is among a record's receipt paths exactly when one of its receipts has it. |
| TransactionService.DownloadName | backend/controllers/transactionController.js:269 | The name offered for a download: the receipt's name, or "receipt" when it is empty. |
| TransactionService.BreakdownSums | backend/controllers/transactionController.js:226-233 | Per-category counts add up to the number of transactions; per-category totals add up to all amounts. |
| TransactionService.Breakdown | backend/controllers/transactionController.js:226-233 | The corrected breakdown, with an own entry for every category; `BreakdownSums`, `BreakdownEntry` and `FirstTypeIsEarliest` state its properties. |
| TransactionService.BreakdownEntry | backend/controllers/transactionController.js:226-233 | A category has an entry if and only if some transaction has it. Its count and total are that category's, and its type is the type of its first transaction. |
| TransactionService.FirstTypeIsEarliest | backend/controllers/transactionController.js:228-230 | The recorded category type is that of the earliest transaction in the category. |
| TransactionService.BreakdownAsWritten | backend/controllers/transactionController.js:226-233 | The breakdown as the handler builds it on a plain object: a category named after an inherited member of `Object.prototype` gets no entry; `AsWrittenAgreesOffPrototype` and `PrototypeCategoryLost` state how it relates to the corrected `Breakdown`. |
| TransactionService.AsWrittenAgreesOffPrototype | backend/controllers/transactionController.js:226-233 | The breakdown as written equals the corrected one when no category is named after an inherited object property. |
| TransactionService.PrototypeCategoryLost | backend/controllers/transactionController.js:228-232 | As written, a category named "toString" gets no entry, so the counts no longer add up to the number of transactions; the corrected breakdown counts it. |
| TransactionService.Summarize | backend/controllers/transactionController.js:216-241 | The summary: income is the sum of credits, expenses the sum of debits, balance their difference, the count is the list length, and the breakdown is the handler's own (`BreakdownAsWritten`), built by the loop one transaction at a time. |
| TransactionService.DeletedIsNotFound | backend/controllers/transactionController.js:198 | After a delete, looking the id up again answers 404. |
| TransactionService.TransactionStore.constructor | backend/controllers/transactionController.js:8-17 | The store starts with no records and no files. |
| TransactionService.TransactionStore.StoreUploads | backend/middleware/upload.js:11-17 | The upload step before create and update puts every uploaded file's `uploads/<filename>` path on disk and changes no record. |
| TransactionService.TransactionStore.OwnedList | backend/controllers/transactionController.js:24 | Lists each of the caller's records exactly once and nothing else. |
| TransactionService.TransactionStore.GetTransactions | backend/controllers/transactionController.js:19-31 | 401 exactly when there is no user id; otherwise all of the caller's records, newest date first. |
| TransactionService.TransactionStore.GetTransaction | backend/controllers/transactionController.js:33-49 | 401 without a user id, then 404 for an unknown id, then 403 for another user's record; otherwise exactly the caller's stored record. |
| TransactionService.TransactionStore.Create | backend/controllers/transactionController.js:51-99 | The uploaded files are on disk whatever the answer. 401 without a user id. A failed check answers 400 with its message and stores no record. Otherwise exactly one record is added, and each of its receipts' files is on disk. |
| TransactionService.TransactionStore.Update | backend/controllers/transactionController.js:101-182 | The uploaded files are on disk whatever the answer. 401, then the ownership lookup, then 400 for a bad amount or type; each leaves the records unchanged. Otherwise only that record is replaced by the patched one with the edited receipts, and of the files on disk after the upload, exactly the removed receipts' files are unlinked. |
| TransactionService.TransactionStore.FilterReceipts | backend/controllers/transactionController.js:150-158 | Keeps the unlisted receipts and deletes the listed receipts' files from disk. |
| TransactionService.TransactionStore.Delete | backend/controllers/transactionController.js:184-207 | 401, then the ownership lookup, each changing nothing. Otherwise the record is removed along with all of its receipt files; a file already missing is no error. |
| TransactionService.TransactionStore.GetSummary | backend/controllers/transactionController.js:209-248 | 401 exactly when there is no user id; otherwise the summary, with the handler's breakdown, of exactly the caller's records. |
| TransactionService.TransactionStore.DownloadReceipt | backend/controllers/transactionController.js:250-275 | 401, then the ownership lookup, then 404 "Receipt not found" if and only if no receipt has the id, then 404 "File not found" if and only if its file is absent. A success is that receipt's path, which is on disk, and its name. Since a created record's files are on disk, its receipts can be downloaded. |
| AuthService.GenerateOtp | backend/controllers/authController.js:8 | An OTP is the six-digit decimal text of the drawn number, and the draw lies in [100000, 999999). |
| AuthService.FormatUser | backend/controllers/authController.js:10-14 | The public user is exactly id, email and name; no password or OTP leaves the server. |
| AuthService.Rotate | backend/controllers/authController.js:123-125 | A rotation sets the OTP to the generated code for the draw and its expiry to 60000 ms from now, and changes nothing else; sign-up (lines 36-38) and login (lines 163-165) rotate the same way. |
| AuthService.OtpCheckAsWritten | backend/controllers/authController.js:79-84 | The handler's check: "Invalid OTP" when the stored and the sent code differ, absent ones included, then "OTP expired" when a present expiry is in the past; `ClearedOtpPassesAsWritten` and `CheckAgreesWhileIssued` state how it relates to the corrected `OtpCheck`. |
| AuthService.OtpCheck | backend/controllers/authController.js:79-84 | The corrected check, refusing a user with no issued code or no expiry; `OtpCheckAcceptsOnlyIssued` states it. |
| AuthService.OtpCheckAcceptsOnlyIssued | backend/controllers/authController.js:79-84 | The corrected check passes if and only if an OTP was issued, the request carries that OTP, and it has not expired. An expiry equal to now still passes. |
| AuthService.ClearedOtpPassesAsWritten | backend/controllers/authController.js:79-91 | As written, a verified user whose OTP was cleared passes verification with a request carrying no OTP; the corrected check refuses it. |
| AuthService.CheckAgreesWhileIssued | backend/controllers/authController.js:79-84 | While an OTP is issued, the corrected check answers exactly as the code does. |
| AuthService.Logout | backend/controllers/authController.js:178-197 | Logout answers 200 and clears the session. |
| AuthService.CurrentUser | backend/controllers/authController.js:199-214 | Answers 200 with whatever user the middleware attached. |
| AuthService.UserStore.constructor | backend/controllers/authController.js:25-69 | The store starts with no users. |
| AuthService.UserStore.SignUp | backend/controllers/authController.js:25-69 | A verified email gives 409 and changes nothing. An unverified one gets its name and password overwritten and a new OTP, then 200. A new email gets one unverified record with an OTP, then 201. A failed mail still leaves the state saved and answers 500. |
| AuthService.UserStore.VerifyOtp | backend/controllers/authController.js:71-112 | 400 for an unknown user, then for a failure of the handler's own check, each changing nothing. Otherwise the user is verified, the OTP and expiry are cleared, and the session is the public user. While an OTP is issued this succeeds exactly when the corrected check passes; once it is cleared, a request with no OTP succeeds again with a session. |
| AuthService.UserStore.ResendOtp | backend/controllers/authController.js:114-135 | 400 for an unknown user. Otherwise the OTP is rotated whether or not the user is verified, and saved before the mail, which may fail with 500. |
| AuthService.UserStore.Login | backend/controllers/authController.js:137-176 | 400 for an unknown user or a wrong password, changing nothing. Otherwise the OTP is rotated and the answer asks for an OTP; no session is ever created. |
| JwtAuth.FindFirst | backend/middleware/jwtAuthMiddleware.js:15-17 | Finds the first cookie entry that starts with the prefix, or reports that none does. |
| JwtAuth.ExtractToken | backend/middleware/jwtAuthMiddleware.js:7-23 | The header's second word when truthy, else the value of the first `token=` cookie; `HeaderTokenWins`, `HeaderWithoutSpaceFallsThrough`, `NoSourcesNoToken`, `CookieValueStopsAtSecondEquals`, `LookalikeCookieIgnored` and `FirstTokenCookieWins` state its cases. |
| JwtAuth.TokenEntryPieces | backend/middleware/jwtAuthMiddleware.js:18 | For a `token=` entry, the second `=`-separated piece is the value up to the next `=`. |
| JwtAuth.HeaderTokenWins | backend/middleware/jwtAuthMiddleware.js:9-12 | The second space-separated word of the Authorization header is the token, whatever the cookies say. |
| JwtAuth.HeaderWithoutSpaceFallsThrough | backend/middleware/jwtAuthMiddleware.js:9-13 | A header with no space yields nothing, and the cookies decide. |
| JwtAuth.NoSourcesNoToken | backend/middleware/jwtAuthMiddleware.js:13-22 | With no header and no cookie, or an empty cookie string, there is no token. |
| JwtAuth.CookieValueStopsAtSecondEquals | backend/middleware/jwtAuthMiddleware.js:13-19 | A `token=` cookie yields the text between the first and second `=`. |
| JwtAuth.LookalikeCookieIgnored | backend/middleware/jwtAuthMiddleware.js:15-17 | A cookie that does not start with `token=`, such as `tokenX=...`, yields no token. |
| JwtAuth.FirstTokenCookieWins | backend/middleware/jwtAuthMiddleware.js:15-17 | The first `token=` entry is the one used. |
| JwtAuth.Request.constructor | backend/middleware/jwtAuthMiddleware.js:25-39 | A request starts with no user attached. |
| JwtAuth.Authenticate | backend/middleware/jwtAuthMiddleware.js:25-39 | 401 "Unauthorized" without a token and 401 "Invalid token" when verification fails, each leaving the user unset. Otherwise the request continues with the verified user attached. |
| JwtAuth.AuthenticateOptionally | backend/middleware/jwtAuthMiddleware.js:42-54 | Always continues, and attaches a user only for a token that verifies. |
| Upload.Sanitize | backend/middleware/upload.js:14 | Each UTF-16 code unit outside `[A-Za-z0-9_.-]` becomes `_`; the `Sanitize...` lemmas below state its properties. |
| Upload.SanitizeUnitwise | backend/middleware/upload.js:14 | Sanitising keeps the length and replaces each disallowed UTF-16 code unit by `_`, keeping allowed ones. |
| Upload.SanitizeAllowedOnly | backend/middleware/upload.js:14 | A sanitised name holds only `[A-Za-z0-9_.-]`. |
| Upload.SanitizeFixedPoints | backend/middleware/upload.js:14 | A name is unchanged by sanitising if and only if it is already all allowed characters. |
| Upload.SanitizeIdempotent | backend/middleware/upload.js:14 | Sanitising twice is sanitising once. |
| Upload.AstralCharBecomesTwoUnderscores | backend/middleware/upload.js:14 | A character outside the Basic Multilingual Plane becomes two underscores. |
| Upload.StoredFilename | backend/middleware/upload.js:15 | The stored name: the timestamp, a `-`, then the sanitised original name; `StoredFilenameShape` states its shape. |
| Upload.StoredFilenameShape | backend/middleware/upload.js:15 | The stored name is the timestamp's digits, a `-`, then the sanitised name; the part before the first `-` reads back as the timestamp. |
| Json.StringifyParseRoundTrip | backend/controllers/transactionController.js:141-143 | Parsing the JSON text of a list of ids gives back an array of the same ids. |
| AddTransactionPage.InitialForm | frontend/src/pages/AddTransaction.jsx:49-59 | The initial form is a debit dated today with subject, merchant, amount, category and description empty, no receipts and nothing to remove. |
| AddTransactionPage.WithField | frontend/src/pages/AddTransaction.jsx:98-108 | The form after a change of one field, a new type also emptying the category; `ChangeSetsOnlyThatField` states it. |
| AddTransactionPage.ChangeSetsOnlyThatField | frontend/src/pages/AddTransaction.jsx:98-108 | A change sets only its own field. Changing the type also empties the category. The receipt lists are untouched. |
| AddTransactionPage.NewIdSerial | frontend/src/pages/AddTransaction.jsx:124 | A new receipt id's middle piece reads back as the file's position in the selection. |
| AddTransactionPage.DropReceipts | frontend/src/pages/AddTransaction.jsx:137-151 | The receipts whose key differs from the id, in order; `DropReceiptsMembers` states it. |
| AddTransactionPage.Accepted | frontend/src/pages/AddTransaction.jsx:110-126 | One receipt per picked file of at most 5 MB, in order, each keeping its position in the selection; `AcceptedSpec` states its properties. |
| AddTransactionPage.AcceptedFiles | frontend/src/pages/AddTransaction.jsx:110-126 | The files the added receipts carry are exactly the picked files within the upload limit, in selection order. |
| AddTransactionPage.PickedFilesMembers | frontend/src/pages/AddTransaction.jsx:181-184 | A file is among those the receipts carry if and only if some receipt holds it. |
| AddTransactionPage.AcceptedSpec | frontend/src/pages/AddTransaction.jsx:110-126 | The files carried by the accepted receipts are exactly the picked files within the limit, in selection order; all files are kept when none is too large. Every accepted receipt carries its file, within the limit, with a fresh local id and no server id, and the ids are distinct. |
| AddTransactionPage.DropReceiptsMembers | frontend/src/pages/AddTransaction.jsx:137-151 | A receipt survives removal if and only if its key differs from the id: the server id for an existing receipt, the local id for a new one. |
| AddTransactionPage.RemoveNewKeepsOthers | frontend/src/pages/AddTransaction.jsx:147-151 | Removing one newly picked receipt removes it and keeps every other one. |
| AddTransactionPage.SubmitProblem | frontend/src/pages/AddTransaction.jsx:159-175 | The submit checks, first failure wins: a blank subject, a blank merchant, an empty, unparsable or non-positive amount, an empty category; the date is not checked (`DateUncheckedByForm`). |
| AddTransactionPage.FileParts | frontend/src/pages/AddTransaction.jsx:181-184 | One `receipts` entry per receipt carrying a file, in order; `FilePartsSpec` states it. |
| AddTransactionPage.Payload | frontend/src/pages/AddTransaction.jsx:179-193 | The multipart body: the text fields in the form's key order, the picked files, then the removed ids as JSON text; `PayloadFilesWithinLimit` and `FormChecksImplyServerChecks` state what the server makes of it. |
| AddTransactionPage.FilePartsSpec | frontend/src/pages/AddTransaction.jsx:181-184 | Every file a receipt carries is uploaded, in receipt order, each as a `receipts` part; nothing else is. |
| AddTransactionPage.FormChecksImplyServerChecks | frontend/src/pages/AddTransaction.jsx:159-193 | A form that passes its checks, with a date, passes the server's create checks. The server reads back exactly the removed ids. |
| AddTransactionPage.ServerBody | frontend/src/pages/AddTransaction.jsx:179-193 | The body the server reads from the payload: the text fields as sent, the parsed amount and date, and the removed ids as one JSON string; `FormChecksImplyServerChecks` states what the server's checks make of it. |
| AddTransactionPage.DateUncheckedByForm | frontend/src/pages/AddTransaction.jsx:159-175 | The form's checks answer the same whatever the date field holds, so a form that passes with its date emptied is sent, and the server refuses it as a missing field. |
| AddTransactionPage.FromServer | frontend/src/pages/AddTransaction.jsx:80 | Loaded receipts are existing ones: server id set, no local id, no file, name kept. |
| AddTransactionPage.PayloadFilesWithinLimit | frontend/src/pages/AddTransaction.jsx:179-184 | Every uploaded file is within the server's upload limit, given that the picker refused the larger ones (line 115). |
| AddTransactionPage.TransactionForm.constructor | frontend/src/pages/AddTransaction.jsx:49-61 | A new page shows the initial form and is not editing. |
| AddTransactionPage.TransactionForm.Open | frontend/src/pages/AddTransaction.jsx:64-69 | A truthy edit id from the navigation state starts editing; otherwise nothing changes. |
| AddTransactionPage.TransactionForm.Load | frontend/src/pages/AddTransaction.jsx:71-96 | When editing, the loaded record's fields replace the form's. The type defaults to debit, the description to "", the date to the previous one, and the receipts to none. |
| AddTransactionPage.TransactionForm.Change | frontend/src/pages/AddTransaction.jsx:98-108 | The form becomes the old form with the one field changed. |
| AddTransactionPage.TransactionForm.AddFiles | frontend/src/pages/AddTransaction.jsx:110-135 | The accepted files are appended after the existing receipts, in selection order. |
| AddTransactionPage.TransactionForm.RemoveReceipt | frontend/src/pages/AddTransaction.jsx:137-154 | An existing receipt's id is appended to the removal list and its entries dropped. A new receipt is dropped by its local id, and the removal list is unchanged. |
| AddTransactionPage.TransactionForm.Submit | frontend/src/pages/AddTransaction.jsx:156-222 | A failed check shows its message and sends nothing. Otherwise the payload goes as an update when editing, else as a create. Success resets the form, ends editing and moves to the list. Failure keeps the form and shows the server's message, else the thrown error's message, else a default. |
| TransactionsPage.RowId | frontend/src/pages/Transactions.jsx:71 | A row's id is the server id when present, else the local id. |
| TransactionsPage.FindRow | frontend/src/pages/Transactions.jsx:85 | Finds the first transaction whose server or local id matches, or reports that none does. |
| TransactionsPage.Without | frontend/src/pages/Transactions.jsx:97 | The rows whose id differs from the deleted one, in order; `WithoutMembers`, `WithoutAppend` and `WithoutLength` state its properties. |
| TransactionsPage.WithoutMembers | frontend/src/pages/Transactions.jsx:97 | A transaction stays in the list if and only if its row id differs from the deleted one. |
| TransactionsPage.WithoutAppend | frontend/src/pages/Transactions.jsx:97 | Filtering distributes over concatenation, so the remaining rows keep their order. |
| TransactionsPage.WithoutLength | frontend/src/pages/Transactions.jsx:97 | The list shrinks when the id occurs, never grows, and is unchanged when the id is absent. |
| TransactionsPage.TransactionList.constructor | frontend/src/pages/Transactions.jsx:71 | The list starts as the loaded transactions. |
| TransactionsPage.TransactionList.RequestDelete | frontend/src/pages/Transactions.jsx:84-85 | Captures the list as it is and the row found in it: a row with that stored or local id, or none when no row has it. |
| TransactionsPage.TransactionList.ConfirmDelete | frontend/src/pages/Transactions.jsx:84-107 | The list is unchanged when the row was not found, the request fails, or the reply's message includes "Error". Otherwise the list becomes the list captured at the request without the rows of the deleted id, whatever the list became in between. |
| TransactionsPage.StaleSnapshotRestoresRow | frontend/src/pages/Transactions.jsx:84-97 | Of two deletes requested on the same list, confirming the second after the first leaves the list without the second row but with the first one back. |
| TransactionsPage.SuccessfulDeleteRemovesRow | frontend/src/pages/Transactions.jsx:93-97 | The backend's success message does not include "Error", so a found row is removed and no row with its id remains. |
| TransactionsPage.ServerBase | frontend/src/pages/Transactions.jsx:135-136 | A trailing "/api" is stripped from the base URL, and a non-empty base without it is kept as it is. A missing or empty base, or one that is exactly "/api", gives the default server, and the result is never empty. |
| TransactionsPage.DownloadName | frontend/src/pages/Transactions.jsx:145 | The download is named after the receipt, or "receipt" when it has no name. |
| TransactionsPage.DownloadUrl | frontend/src/pages/Transactions.jsx:135-141 | The server base, then `/api/transactions/<transaction id>/receipt/<receipt id>`; `DownloadUrlRoute` states its path. |
| TransactionsPage.DownloadUrlRoute | frontend/src/pages/Transactions.jsx:135-141 | With the configured base, the URL's path is `/api/transactions/<transaction id>/receipt/<receipt id>`, the backend's download route. |
| TransactionsPage.FormatSize | frontend/src/pages/Transactions.jsx:154-161 | Bytes if and only if under 1024; kilobytes in [1, 1024) when under 1024²; megabytes otherwise. The value shown times the unit is the size, and a missing size counts as 0. |
| Ledger.TotalsNonNegative | frontend/src/components/DashboardData.jsx:7-13 | Debit and credit totals sum absolute amounts, so neither is negative. |
| Ledger.DebitTotal | frontend/src/components/DashboardData.jsx:7-9 | The sum of the absolute amounts of the debits, an untyped transaction counting as a debit; `TotalsNonNegative` and `UntypedCountsAsDebit` state its properties. |
| Ledger.CreditTotal | frontend/src/components/DashboardData.jsx:11-13 | The sum of the absolute amounts of the credits; `TotalsNonNegative` and `OtherTypeCountsNowhere` state its properties. |
| Ledger.MonthExpenses | frontend/src/components/DashboardData.jsx:17-27 | The absolute amounts of the debits in the given month and year; `MonthExpensesBounded` states its bounds. |
| Ledger.AverageExpense | frontend/src/components/DashboardData.jsx:31-35 | The debit total over the debit count, 0 without debits; `AverageExpenseSpec` states it. |
| Ledger.DebitCount | frontend/src/components/DashboardData.jsx:31-33 | The number of debits, untyped transactions included; `DebitCountBounds` states its bounds. |
| Ledger.Balance | frontend/src/components/DashboardData.jsx:15 | Credits minus debits; `PositiveStyleIff` states how it is shown. |
| Ledger.UntypedCountsAsDebit | frontend/src/components/DashboardData.jsx:7-33 | A transaction without a type adds its absolute amount to the debits and one to the debit count, and nothing to the credits. |
| Ledger.OtherTypeCountsNowhere | frontend/src/components/DashboardData.jsx:7-13 | A transaction with another type counts in neither total. |
| Ledger.MonthExpensesBounded | frontend/src/components/DashboardData.jsx:17-27 | The current month's expenses lie between 0 and the debit total. |
| Ledger.DebitCountBounds | frontend/src/components/DashboardData.jsx:7-33 | There are no more debits than transactions, and without debits the debit total is 0. |
| Ledger.AverageExpenseSpec | frontend/src/components/DashboardData.jsx:34-35 | The average times the number of debits is the debit total, and the average is never negative. |
| Ledger.PositiveStyleIff | frontend/src/components/DashboardHeader.jsx:14-34 | The balance shows in the positive style if and only if credits are at least debits. |
| DashboardCharts.MonthlyData | frontend/src/components/DashboardCharts.jsx:80-82 | There are always exactly twelve month buckets. |
| DashboardCharts.CategoryData | frontend/src/components/DashboardCharts.jsx:35-43 | The per-category table of the debits; `CategoryValues`, `CategoryLabels` and `CategoryFirstSeenOrder` state its amounts, its labels and their order. |
| DashboardCharts.CategoryTotals | frontend/src/components/DashboardCharts.jsx:35-43 | The loop builds the table, and each entry's amount is the sum of the absolute amounts of the debits in its category. |
| DashboardCharts.AddAmountValueOf | frontend/src/components/DashboardCharts.jsx:39-42 | Adding to one category changes that category's amount by the added value and no other category's. |
| DashboardCharts.CategoryValueOf | frontend/src/components/DashboardCharts.jsx:35-43 | Looking a category up in the table gives the sum of the absolute amounts of its debits, 0 when it has none. |
| DashboardCharts.CategoryValues | frontend/src/components/DashboardCharts.jsx:35-43 | Each entry's amount is the sum of the absolute amounts of the debits in its category. |
| DashboardCharts.CategoryFirstSeenOrder | frontend/src/components/DashboardCharts.jsx:35-43 | The categories are listed in first-seen order: a category listed before another has a debit earlier than any debit of the other. |
| DashboardCharts.MonthlyTotals | frontend/src/components/DashboardCharts.jsx:80-90 | The loop fills a fresh twelve-slot array with exactly the per-month debit sums. |
| DashboardCharts.AddAmountSpec | frontend/src/components/DashboardCharts.jsx:38-41 | Adding to a category adds the amount to the sum and adds the label only if it is new. |
| DashboardCharts.ChartTotals | frontend/src/components/DashboardCharts.jsx:55-90 | The pie's total and the sum of the months both equal the total debit amount. |
| DashboardCharts.CategoryLabels | frontend/src/components/DashboardCharts.jsx:35-43 | A category appears in the pie if and only if some debit has it, and no category appears twice. |
| DashboardCharts.MonthsNonNegative | frontend/src/components/DashboardCharts.jsx:84-90 | No month bucket is negative. |
| DashboardCharts.ShownCharts | frontend/src/components/DashboardCharts.jsx:106-140 | The pie is shown if and only if there is a debit. The bar chart is shown only when the pie is. |
| DashboardCharts.ZeroDebitShowsPieOnly | frontend/src/components/DashboardCharts.jsx:106-140 | A single zero debit shows the pie but not the bar chart. |
| DashboardCharts.GetArcLabel | frontend/src/components/DashboardCharts.jsx:57-61 | "0%" if and only if the total is 0; otherwise the percentage times the total is the value times 100. |
| DashboardCharts.PercentSum | frontend/src/components/DashboardCharts.jsx:57-61 | The sum of the slices' percentages; `PercentSumScales` and `SlicesMakeAHundred` state its value. |
| DashboardCharts.PercentSumScales | frontend/src/components/DashboardCharts.jsx:57-61 | The slices' percentages add up to their value sum over the total, times 100. |
| DashboardCharts.SlicesMakeAHundred | frontend/src/components/DashboardCharts.jsx:45-61 | With some debit amount, the slices add up to the debit total and their unrounded percentages to 100; the labels, rounded by `toFixed(0)`, need not (three equal slices read 33% each). |
| Sorting.SortDescSorted | frontend/src/components/DashboardRecentTransaction.jsx:3 | The sort orders by key, largest first. |
| Sorting.SortDescPermutation | frontend/src/components/DashboardRecentTransaction.jsx:2-3 | The sort returns a permutation of its input. |
| Sorting.InsertWithKey | frontend/src/components/DashboardRecentTransaction.jsx:3 | An inserted element goes ahead of every element with the same key. |
| Sorting.SortDescStable | frontend/src/components/DashboardRecentTransaction.jsx:3 | The sort is stable: the elements with any one key keep their relative order. |
| Sorting.SortDescKeepsSorted | frontend/src/components/DashboardRecentTransaction.jsx:3 | An already ordered list is returned unchanged. |
| Sorting.SortDescIdempotent | frontend/src/components/DashboardRecentTransaction.jsx:3 | Sorting twice is sorting once. |
| RecentTransactions.RecentSpec | frontend/src/components/DashboardRecentTransaction.jsx:2-4 | At most five rows, all of them when there are fewer, newest first, all taken from the list, and none left out newer than one shown. |
| RecentTransactions.Recent | frontend/src/components/DashboardRecentTransaction.jsx:2-4 | The first five of the list sorted newest first; `RecentSpec` states its properties. |
| RecentTransactions.RecentOfSorted | frontend/src/components/DashboardRecentTransaction.jsx:2-4 | A list already in date order shows its first five. |
| RecentTransactions.Sign | frontend/src/components/DashboardRecentTransaction.jsx:35-40 | "+" if and only if the transaction is a credit, "-" otherwise, including when it has no type. |
| RecentTransactions.DisplayDateOf | frontend/src/components/DashboardRecentTransaction.jsx:45-50 | An ISO `yyyy-mm-ddT...` date is shown as `dd/mm/yyyy`. |
| RecentTransactions.DisplayDate | frontend/src/components/DashboardRecentTransaction.jsx:45-50 | The day part of an ISO date with its pieces reversed and joined by "/"; `DisplayDateOf` states the result for an ISO date. |
| NavBar.Menus.constructor | frontend/src/components/NavBar.jsx:17-19 | Both menus start closed. |
| NavBar.Menus.ToggleUserMenu | frontend/src/components/NavBar.jsx:22-25 | Flips the user menu; opening it closes the mobile menu, so the two are never open together. |
| NavBar.Menus.ToggleMobileMenu | frontend/src/components/NavBar.jsx:27-30 | Flips the mobile menu; opening it closes the user menu, so the two are never open together. |
| NavBar.Menus.DesktopLinkClicked | frontend/src/components/NavBar.jsx:70 | A desktop link closes the user menu only. |
| NavBar.Menus.MobileLinkClicked | frontend/src/components/NavBar.jsx:158-161 | A mobile link closes both menus. |
| NavBar.Menus.Logout | frontend/src/components/NavBar.jsx:32-49 | Only a reply whose message includes "Error" keeps the session; otherwise the user is logged out and sent to "/". Loading ends either way. |
| NavBar.LogoutOutcomes | frontend/src/components/NavBar.jsx:32-49 | The backend's own logout reply, a missing message and a thrown error all log out; any message with "Error" keeps the session. |
| Router.PublicRoute | frontend/src/Router.jsx:10-15 | Redirects to "/Dashboard" if and only if logged in; otherwise renders its page without the navigation bar. |
| Router.PrivateRoute | frontend/src/Router.jsx:17-22 | Redirects to "/" if and only if not logged in; otherwise renders its page inside the layout with the navigation bar. |
| Router.Resolve | frontend/src/Router.jsx:27-79 | What a path shows in a login state; `GuardsHold`, `RedirectSettles` and `RoutesRender` state its properties. |
| Router.GuardsHold | frontend/src/Router.jsx:27-79 | Private pages render only when logged in and public pages only when not, with the navigation bar exactly when logged in. |
| Router.RedirectSettles | frontend/src/Router.jsx:73-79 | Every redirect leads to a path that renders, so no path loops. |
| Router.RoutesRender | frontend/src/Router.jsx:27-70 | Each page's path renders it in the right login state, case-insensitively, including the "/dashboard" the sign-up page uses. |
| SignUpPage.SignUpProblem | frontend/src/pages/SignUp.jsx:23-41 | The form passes if and only if the trimmed name and email are not blank, the password is not empty and it matches the confirmation. |
| SignUpPage.CheckOrder | frontend/src/pages/SignUp.jsx:23-41 | A blank name is reported first, then a blank email; a mismatch is reported only after all other checks passed. |
| SignUpPage.RestoredDetailsPass | frontend/src/pages/SignUp.jsx:86-100 | Details restored from the sign-up stored at lines 47-51 pass the checks again. |
| SignUpPage.Page.constructor | frontend/src/pages/SignUp.jsx:9-16 | The page starts empty, outside the OTP view, and not logged in. |
| SignUpPage.Page.Submit | frontend/src/pages/SignUp.jsx:19-61 | A failed check sends nothing. Otherwise the untrimmed name and the trimmed email are sent; success stores the trimmed details and enters the OTP view. |
| SignUpPage.Page.SubmitOtp | frontend/src/pages/SignUp.jsx:63-84 | A blank OTP is refused without a request. Otherwise the stored email and the OTP are sent, and success logs in and navigates to "/dashboard". |
| SignUpPage.Page.ChangeDetails | frontend/src/pages/SignUp.jsx:86-100 | Leaves the OTP view and clears the OTP. Stored name, email and password that are present are restored, with the confirmation set to the password. |
| LoginPage.LoginProblem | frontend/src/pages/Login.jsx:21-31 | The form passes if and only if the trimmed email is not blank and the password is not empty; a blank email is reported first. |
| LoginPage.Page.constructor | frontend/src/pages/Login.jsx:9-14 | The page starts empty, without error, outside the OTP view. |
| LoginPage.Page.Submit | frontend/src/pages/Login.jsx:17-53 | A failed check sets the error flag and sends nothing. Otherwise the trimmed email is sent. An answer without an OTP step logs in and goes to "/Dashboard", one with it opens the OTP view, and a failure sets the error flag. |
| LoginPage.Page.SubmitOtp | frontend/src/pages/Login.jsx:55-76 | A blank OTP is refused without a request. Otherwise the trimmed email and the OTP are sent, and success logs in and goes to "/Dashboard". |
| LoginPage.Page.ChangeEmail | frontend/src/pages/Login.jsx:78-81 | Leaves the OTP view and clears the OTP, keeping the email and password. |

## Left out

- Persistence, Mongoose queries and schemas, Express routing, multer's multipart parsing and the axios client are left out. The stores are in-memory maps; `isVerified` is taken to default to false on creation.
- JWT signing and verification are not modelled. Verification is a function parameter, and `generateToken` and the login cookie are left out.
- bcrypt is not modelled: `comparePassword` is plain equality of the stored and the given password.
- Mail delivery is reduced to a success flag, and `crypto.randomInt` to a drawn number in its range. Both are parameters.
- Floating point is not modelled: `parseFloat`, `toFixed`, `Number(...)` and double rounding. Amounts are exact reals. The form's parsed amount is a parameter. A receipt size in kilobytes is exact.
- Non-numeric amount text in a request body is left out; the amount is either absent or a number.
- TransactionService.CreateProblem: the amount is taken as the multipart form sends it, as text, so a present amount is truthy. A JSON body (`backend/app.js:23` parses one) with a numeric `amount` of 0 is falsy: create then answers "Missing required fields", where the model answers "Amount must be greater than 0".
- TransactionService.UpdateProblem: for the same reason, a JSON `amount` of 0 is skipped by update, where the model answers 400.
- TransactionService.BreakdownAsWritten: the increments that land on an inherited member (for `__proto__`, the fields written onto `Object.prototype`) are not modelled; the model records only that no own entry is made.
- Dates and the clock are left out. Timestamps, "today", month indices and years are given integers or strings. `new Date(...).toISOString()` is not modelled.
- A lookup by an undefined email, which Mongoose may answer with some other user, is left out; the email is always a string.
- Chart colours, toasts, rendering and most loading flags are left out; the navigation bar's loading flag is modelled.
- The transaction-count card is the list's length and has no member of its own. The header's welcome name is also left out.
- DashboardCharts.CategoryData: category names that are inherited members of a plain object are not modelled; the table is a plain association list. On the page (frontend/src/components/DashboardCharts.jsx:39-42) such a name behaves differently from the server summary. For a name such as `toString` the inherited function is truthy, so the reset to 0 is skipped. The `+=` then creates an own entry holding a string (the function's text followed by the amount). That string makes `TOTAL` (line 55) a string, so every arc label reads "NaN%". Only `__proto__` loses its debits silently, because assigning a string to it is ignored. The page's own category list offers no such name; only a record created through the API can carry one.
- The iteration order of `Object.entries` for integer-like category names is not modelled; categories keep first-seen order.
- Trailing slashes in route paths are left out.
- Extra keys that the server returns are not modelled. The form copies them in with `...data`, so they are also sent in its payload.
- Multer's refusal of a request with a file over the size limit is left out; the create and update handlers are modelled as reached, with the upload already stored.
- Concurrent requests are left out.
- The resend-OTP buttons on the login and sign-up pages only forward to the backend's resend, which `AuthService.UserStore.ResendOtp` models.
- LoginPage.Page.Submit: the direct-login branch follows the page's code, though against this backend it never runs, because login always asks for an OTP.
- The JSON reader parses lone surrogate `\u` escapes as failures rather than as lone surrogate characters.

## Findings

| source | as written | input that shows it | evidently intended | confidence | as-written member | corrected member |
|---|---|---|---|---|---|---|
| backend/controllers/authController.js:79-91 | Verification compares the stored OTP with the request's by `!==` and the expiry by `<`. A successful verification clears both fields, so absent equals absent and an absent expiry is never in the past. | An already verified user and a verify request with that email and no `otp` field: both checks pass and a login cookie is issued. | Only an issued, matching and unexpired OTP verifies; a user without an OTP is refused. | not executed | AuthService.ClearedOtpPassesAsWritten | AuthService.OtpCheckAcceptsOnlyIssued |
| backend/controllers/transactionController.js:226-233 | The category breakdown is a plain object, and an entry is created only when the lookup is falsy. A category named after an inherited member such as `toString` finds the inherited function and never gets an entry of its own. | One transaction with category "toString": the breakdown is empty, while the transaction count is 1. | Every category gets its own entry, and the counts add up to the number of transactions. | not executed | TransactionService.PrototypeCategoryLost | TransactionService.BreakdownSums |
