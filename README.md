# ThriftShirt Pawnshop — a Dafny model of its bookkeeping core

ThriftShirt is a pawnshop application. A Spring backend keeps customers,
pawn requests, loans, wallet balances, transaction logs and notifications.
A React client shows an administrator dashboard and a customer history
page. This project models the part of it that decides what is stored and
what is shown, and proves what those rules promise.

- **Backend services and controller handlers** (`Pawnshop.Shop`, shop.dfy).
  The class holds one map per table (users, pawn requests, loans,
  transaction logs, notifications) and the next generated id of each.
  Every service operation is a method that changes these maps in place.
  Its contract gives the error for each refused input and states the new
  database as a change of the old one. Every refusal leaves the database
  unchanged, and every method keeps `Valid()`, the database invariant.
- **The same database as a value** (`Store`, store.dfy). It holds the
  invariant: accounts keyed by id with unique usernames and emails, no
  overdrawn wallet, every request owned by a stored account, loans and
  requests linked one-to-one in both directions. It also holds the
  repository queries and one function per change, with lemmas that each
  change keeps the invariant and touches only the rows it should.
- **Rules that do not depend on the database**: the submission checks and
  the loan terms (`Requests`), the wallet arithmetic (`Wallet`), the
  changes to one account (`Accounts`), the image count of a submission's
  photo list (`Photos`), and the log remark texts (`Remarks`).
- **The web client's computations**: the revenue figure of the
  administrator dashboard (`Dashboard`), the history page's
  classification, amount and item-name parsing, search and list updates
  (`History`), and the role labels (`Roles`). They rest on models of the
  JavaScript pieces they use: numbers with NaN (`JsNumber`), the regular
  expressions (`Patterns`), and string helpers (`Text`, `Decimal`).

Modelling conventions:

- Backend money is an integer number of centavos. In the backend, a
  request's requested amount and estimated value are `Double`; loan
  amounts and wallet balances are `BigDecimal`. Wallet amounts come from
  `new BigDecimal(...)` or a request parameter, at any scale.
- JavaScript numbers are exact reals or NaN.
- Dates are whole days and times are whole seconds.
- The clock, random session ids, the password encoder, the JWT issuer
  and the authentication manager are parameters of the methods that use
  them.
- Table order is id order, and `ORDER BY timestamp DESC` is a sort on
  the timestamp, newest first.
- `pawnRequestRepository.findPendingOrApprovedByUser`, `findByUser` and
  `findByStatus` are called by the service but not declared in the
  repository interface. They are modelled by what their names say.

## Model

| member | source | states |
|---|---|---|
| Pawnshop.Shop.CreateLoan | backend/src/main/java/com/thriftshirt/pawnshop/service/LoanService.java:30-76 | unknown request is NotFound; otherwise the result is `LoanFor` of the stored request; a granted loan is stored and linked and the request becomes PAWNED; any refusal leaves the database unchanged |
| Requests.LoanFor | backend/src/main/java/com/thriftshirt/pawnshop/service/LoanService.java:37-68 | succeeds iff the status is exactly APPROVED, there is no loan yet and an amount is present; each refusal has its own message; principal is estimatedValue, else requestedAmount; terms are 5%, due today+30, ACTIVE, penalty 0 |
| Requests.NoSecondLoan | backend/src/main/java/com/thriftshirt/pawnshop/service/LoanService.java:43-45 | a request that has been granted a loan is refused a second one, on any later day |
| Store.WithLoanKeepsInv | backend/src/main/java/com/thriftshirt/pawnshop/service/LoanService.java:66-71 | storing the granted loan keeps the invariant, links request and loan both ways, marks the request PAWNED, and a repeat `createLoan` fails |
| Store.WithFreshLoanKeepsInv | backend/src/main/java/com/thriftshirt/pawnshop/service/LoanService.java:66-71 | a fresh loan for a request without one keeps the invariant |
| Store.LinkFreshLoan | backend/src/main/java/com/thriftshirt/pawnshop/service/LoanService.java:66-68 | linking a fresh loan keeps the one-to-one request/loan link |
| Requests.CheckSubmission | backend/src/main/java/com/thriftshirt/pawnshop/service/PawnRequestService.java:48-70 | a submission passes iff the amount is present and within 150..10,000, does not exceed a present estimated value, and the photos hold at most 2 images; the first failing check gives its BadRequest message |
| Requests.CheckForm | backend/src/main/java/com/thriftshirt/pawnshop/service/PawnRequestService.java:48-70 | the imperative checks agree with `CheckSubmission` on every form |
| Requests.NewRequest | backend/src/main/java/com/thriftshirt/pawnshop/service/PawnRequestService.java:86-103 | the new request is PENDING, owned by the caller, brand defaults to "Unknown" and category to "General", with no loan and no appraisal |
| Pawnshop.Shop.CreatePawnRequest | backend/src/main/java/com/thriftshirt/pawnshop/service/PawnRequestService.java:44-117 | field checks first, then unknown user is NotFound, then an outstanding PENDING/APPROVED request refuses; on success exactly that new request is inserted under the next id; refusals change nothing |
| Store.WithNewRequestKeepsInv | backend/src/main/java/com/thriftshirt/pawnshop/service/PawnRequestService.java:86-107 | inserting a submission keeps the invariant and appends exactly one row to the request table |
| Store.NewRequestLinked | backend/src/main/java/com/thriftshirt/pawnshop/service/PawnRequestService.java:86-107 | a request without a loan under an unused id keeps the request/loan link |
| Store.SecondSubmissionRefused | backend/src/main/java/com/thriftshirt/pawnshop/service/PawnRequestService.java:79-83 | right after a submission the owner has an outstanding request, so a second submission is refused |
| Store.PendingOrApproved | backend/src/main/java/com/thriftshirt/pawnshop/service/PawnRequestService.java:80-83 | exactly the owner's requests whose status is PENDING or APPROVED |
| Store.UserRequests | backend/src/main/java/com/thriftshirt/pawnshop/service/PawnRequestService.java:122-132 | exactly the requests owned by the user |
| Pawnshop.Shop.DeletePawnRequest | backend/src/main/java/com/thriftshirt/pawnshop/service/PawnRequestService.java:222-241 | unknown id is NotFound; a non-owner, then a non-PENDING status, is BadRequest; it succeeds iff the caller owns a PENDING request, which is then deleted; refusals change nothing |
| Store.WithoutRequestKeepsInv | backend/src/main/java/com/thriftshirt/pawnshop/service/PawnRequestService.java:239-239 | deleting a request keeps the invariant and removes exactly that row of the request table |
| Store.RemovedRequestLinked | backend/src/main/java/com/thriftshirt/pawnshop/entity/PawnRequest.java:45-46 | removing a request together with its cascaded loan keeps the request/loan link |
| Requests.StatusUpdated | backend/src/main/java/com/thriftshirt/pawnshop/service/PawnRequestService.java:197-207 | any status string is stored; only APPROVED stamps appraisal date and appraiser, and fails with a null reference when there is no administrator; nothing else of the request changes |
| Pawnshop.Shop.UpdatePawnRequestStatus | backend/src/main/java/com/thriftshirt/pawnshop/service/PawnRequestService.java:191-210 | unknown id is NotFound; otherwise the result is `StatusUpdated`, saved on success, nothing changed on failure |
| Pawnshop.Shop.UpdatePawnRequestStatusWithoutAdmin | backend/src/main/java/com/thriftshirt/pawnshop/service/PawnRequestService.java:215-217 | the overload passes no administrator, so APPROVED always fails and changes nothing |
| Store.WithRequestKeepsInv | backend/src/main/java/com/thriftshirt/pawnshop/service/PawnRequestService.java:207-207 | saving a request with the same id, owner and loan keeps the invariant |
| Requests.InventoryItems | backend/src/main/java/com/thriftshirt/pawnshop/service/PawnRequestService.java:173-186 | exactly the APPROVED and FORFEITED requests, every APPROVED one before every FORFEITED one; its APPROVED rows are the stored APPROVED rows and its FORFEITED rows the stored FORFEITED rows, each once and in stored order |
| Requests.DueSoonWindow | backend/src/main/java/com/thriftshirt/pawnshop/service/PawnRequestService.java:266-271 | only a PAWNED request with a loan is due soon, and then iff its due date lies in [today, today+3] |
| Requests.Dashboard | backend/src/main/java/com/thriftshirt/pawnshop/service/PawnRequestService.java:254-279 | activePawns counts the PAWNED requests, dueSoon those PAWNED with a loan due in [today, today+3], loanAmount is the wallet read as zero when absent; dueSoon never exceeds activePawns |
| Store.DashboardOf | backend/src/main/java/com/thriftshirt/pawnshop/service/PawnRequestService.java:246-280 | unknown user is NotFound; otherwise the figures of that owner's requests and wallet |
| Photos.QuotesToggle | backend/src/main/java/com/thriftshirt/pawnshop/service/PawnRequestService.java:322 | quotes do not toggle iff the first quote of the body comes after a backslash |
| Photos.CommasOutside | backend/src/main/java/com/thriftshirt/pawnshop/service/PawnRequestService.java:319-326 | never more than the length; when quotes do not toggle, every comma counts outside quotes and none inside |
| Photos.ImageCount | backend/src/main/java/com/thriftshirt/pawnshop/service/PawnRequestService.java:305-335 | the count is 0 exactly when the text is absent, blank, does not start with `[` and end with `]`, or has only blanks between the brackets |
| Photos.ArrayBody | backend/src/main/java/com/thriftshirt/pawnshop/service/PawnRequestService.java:310-320 | a body exists iff the text starts with '[' and ends with ']' |
| Photos.CountImagesInJson | backend/src/main/java/com/thriftshirt/pawnshop/service/PawnRequestService.java:305-335 | the character loop returns `ImageCount` of its input |
| Photos.CountOutsideQuotes | backend/src/main/java/com/thriftshirt/pawnshop/service/PawnRequestService.java:322-333 | the loop counts one image plus each comma read outside quotes, with the escape test decided once by the first quote |
| Photos.ImageCountOfArray | backend/src/main/java/com/thriftshirt/pawnshop/service/PawnRequestService.java:305-335 | a JSON array of n quote-free strings counts n images |
| Photos.QuotedListCommas | backend/src/main/java/com/thriftshirt/pawnshop/service/PawnRequestService.java:322-333 | n quoted items separated by commas contribute n - 1 commas outside quotes |
| Photos.QuotedList | backend/src/main/java/com/thriftshirt/pawnshop/service/PawnRequestService.java:322-333 | the listed items start and end with a quote |
| Photos.InsideQuotes | backend/src/main/java/com/thriftshirt/pawnshop/service/PawnRequestService.java:325-330 | quote-free text inside quotes adds no comma |
| Photos.QuotedItem | backend/src/main/java/com/thriftshirt/pawnshop/service/PawnRequestService.java:325-330 | a quoted item adds no comma and ends outside quotes |
| Photos.EscapedQuoteUndercounts | backend/src/main/java/com/thriftshirt/pawnshop/service/PawnRequestService.java:322-333 | the first-quote escape test counts `["a\"b","c"]` as one image |
| Photos.EscapedArrayBody | backend/src/main/java/com/thriftshirt/pawnshop/service/PawnRequestService.java:310-320 | the body of that array is its text between the brackets |
| Photos.EscapedBodyCommas | backend/src/main/java/com/thriftshirt/pawnshop/service/PawnRequestService.java:322-333 | in that body no comma is read outside quotes |
| Wallet.Current | backend/src/main/java/com/thriftshirt/pawnshop/controller/AdminController.java:412-412 | an absent balance reads as zero, a present one as itself |
| Wallet.CheckAmount | backend/src/main/java/com/thriftshirt/pawnshop/controller/AdminController.java:404-407 | passes iff the amount is present and greater than zero, else the "Invalid amount" BadRequest |
| Wallet.Credit | backend/src/main/java/com/thriftshirt/pawnshop/controller/UserController.java:368-369 | a credit gives the current balance (0 when missing) plus the amount, so it raises the balance |
| Wallet.Debit | backend/src/main/java/com/thriftshirt/pawnshop/controller/UserController.java:402-411 | succeeds iff the balance covers the amount, leaving balance − amount, never negative; a refusal reports available and requested |
| Wallet.CreditThenDebit | backend/src/main/java/com/thriftshirt/pawnshop/controller/UserController.java:363-411 | a cash-in followed by a cash-out of the same amount restores the balance |
| Wallet.DebitThenCredit | backend/src/main/java/com/thriftshirt/pawnshop/controller/UserController.java:363-411 | a cash-out followed by a cash-in of the same amount restores the balance |
| Pawnshop.Shop.CashIn | backend/src/main/java/com/thriftshirt/pawnshop/controller/UserController.java:362-374 | succeeds iff the amount is positive; the balance becomes old (absent as 0) + amount and nothing else changes |
| Pawnshop.Shop.CashOut | backend/src/main/java/com/thriftshirt/pawnshop/controller/UserController.java:396-416 | a non-positive amount, then a short balance, is refused with nothing changed; otherwise the balance becomes old − amount, never negative |
| Pawnshop.Shop.AddFunds | backend/src/main/java/com/thriftshirt/pawnshop/controller/AdminController.java:403-431 | a missing or non-positive amount is a BadRequest; then an unknown user fails with "Failed to add funds: User not found" (the not-found exception caught by the handler); success credits the wallet and appends one ADMIN_ADD_FUNDS log attributed to the administrator |
| Pawnshop.Shop.DeductFunds | backend/src/main/java/com/thriftshirt/pawnshop/controller/AdminController.java:447-483 | a missing or non-positive amount is a BadRequest; then an unknown user fails with "Failed to deduct funds: User not found"; otherwise the result is `Debit` of the balance; success lowers the balance, never below zero, and appends one ADMIN_DEDUCT_FUNDS log |
| Pawnshop.Shop.AddCash | backend/src/main/java/com/thriftshirt/pawnshop/controller/AdminController.java:524-581 | missing or malformed amount, non-positive amount, and revenue below the amount (checked before the user lookup) are refused; success credits the wallet and appends ADMIN_ADD_CASH then REVENUE_DEDUCTED_CASH_ADDED for the user |
| Pawnshop.Shop.RemoveCash | backend/src/main/java/com/thriftshirt/pawnshop/controller/AdminController.java:595-650 | amount checks, unknown user, then `Debit` with no revenue check; success lowers the balance and appends ADMIN_REMOVE_CASH then REVENUE_EARNED_CASH_REMOVED |
| Remarks.AddFundsRemark | backend/src/main/java/com/thriftshirt/pawnshop/controller/AdminController.java:420-421 | starts "Admin added ₱", the `%.2f` amount, " to user ", the username; ends ") wallet. New balance: ₱" and the `%.2f` new balance |
| Remarks.DeductFundsRemark | backend/src/main/java/com/thriftshirt/pawnshop/controller/AdminController.java:472-473 | starts "Admin deducted ₱", the `%.2f` amount, " from user ", the username; ends with the `%.2f` new balance |
| Remarks.AddCashRemark | backend/src/main/java/com/thriftshirt/pawnshop/controller/AdminController.java:558-559 | starts "Admin <admin> added ₱", the `%.2f` amount, " to wallet. Reason: "; ends ". New balance: ₱" and the `%.2f` new balance |
| Remarks.RevenueDeductedRemark | backend/src/main/java/com/thriftshirt/pawnshop/controller/AdminController.java:566-567 | starts "Revenue deducted: ₱" and the `%.2f` amount, which the dashboard reads; ends " by admin). Reason: " and the reason |
| Remarks.RemoveCashRemark | backend/src/main/java/com/thriftshirt/pawnshop/controller/AdminController.java:627-628 | starts "Admin <admin> removed ₱", the `%.2f` amount, " from wallet. Reason: "; ends with the `%.2f` new balance |
| Remarks.RevenueEarnedRemark | backend/src/main/java/com/thriftshirt/pawnshop/controller/AdminController.java:635-636 | starts "Revenue earned: ₱" and the `%.2f` amount, which the dashboard reads; ends " by admin). Reason: " and the reason |
| Store.WithUserKeepsInv | backend/src/main/java/com/thriftshirt/pawnshop/controller/AdminController.java:412-414 | saving an account with the same id and logins and a non-negative wallet keeps the invariant |
| Requests.SelectLoanForPawn | backend/src/main/java/com/thriftshirt/pawnshop/controller/UserController.java:204-208 | the first of the customer's loans on that pawn item; NotFound iff none is |
| Requests.PawnedOnly | backend/src/main/java/com/thriftshirt/pawnshop/controller/UserController.java:261-264 | exactly the PAWNED requests, never more than given |
| Requests.PawnedOnlyAppend | backend/src/main/java/com/thriftshirt/pawnshop/controller/UserController.java:261-264 | the stream filter keeps order: the PAWNED requests of a concatenation are those of each part, in turn |
| Requests.PawnedOnlySingle | backend/src/main/java/com/thriftshirt/pawnshop/controller/UserController.java:262 | one request is kept, once, exactly when its status is PAWNED |
| Store.UserLoans | backend/src/main/java/com/thriftshirt/pawnshop/controller/UserController.java:259-271 | for a stored user, exactly that owner's PAWNED requests, and they are the PAWNED ones of the owner's request list, in the same order; otherwise the "Failed to retrieve loans" error |
| Pawnshop.Shop.LogTransaction | backend/src/main/java/com/thriftshirt/pawnshop/service/TransactionLogService.java:29-31 | the entry is stored under the next log id |
| Store.LoggedAppends | backend/src/main/java/com/thriftshirt/pawnshop/service/TransactionLogService.java:29-31 | logging keeps the invariant, appends exactly one entry to the log table and changes nothing else |
| Store.AllLogs | backend/src/main/java/com/thriftshirt/pawnshop/service/TransactionLogService.java:22-24 | every log, newest timestamp first, as a permutation of the table |
| Store.UserLogs | backend/src/main/java/com/thriftshirt/pawnshop/service/TransactionLogService.java:36-38 | exactly that user's logs, newest first |
| Pawnshop.Shop.DeleteUserTransactionLog | backend/src/main/java/com/thriftshirt/pawnshop/service/TransactionLogService.java:43-50 | true iff the log exists and belongs to the user, and then exactly that log is deleted; false leaves the store unchanged |
| Store.WithoutLogKeepsInv | backend/src/main/java/com/thriftshirt/pawnshop/service/TransactionLogService.java:46-46 | deleting a log keeps the invariant and removes exactly the row with that id |
| Pawnshop.Shop.ClearUserTransactionHistory | backend/src/main/java/com/thriftshirt/pawnshop/service/TransactionLogService.java:55-57 | the store becomes the old one without that user's logs |
| Store.ClearedHistory | backend/src/main/java/com/thriftshirt/pawnshop/service/TransactionLogService.java:55-57 | clearing keeps the invariant and removes all and only the user's logs: their history is empty and every other user's history reads the same |
| Store.ClearedHistoryKeepsInv | backend/src/main/java/com/thriftshirt/pawnshop/service/TransactionLogService.java:55-57 | clearing a user's logs keeps the invariant |
| Store.ClearedOwnHistory | backend/src/main/java/com/thriftshirt/pawnshop/repository/TransactionLogRepository.java:19-28 | nothing of the user's own history is left |
| Store.ClearedOtherHistory | backend/src/main/java/com/thriftshirt/pawnshop/repository/TransactionLogRepository.java:19-28 | another user's history is unchanged by the clear |
| Pawnshop.Shop.ToggleUserStatus | backend/src/main/java/com/thriftshirt/pawnshop/service/UserService.java:38-68 | unknown user is NotFound; an ADMIN account is refused; otherwise the account becomes `Toggled` and one USER_BANNED/USER_UNBANNED log attributed to the administrator is appended; refusals change nothing |
| Remarks.ToggleRemark | backend/src/main/java/com/thriftshirt/pawnshop/service/UserService.java:63 | "Banned user: " or "Unbanned user: " and the username, ending in " (ID: <id>)" |
| Accounts.Toggled | backend/src/main/java/com/thriftshirt/pawnshop/service/UserService.java:48-55 | `enabled` is negated; a ban clears the session, an unban keeps it; nothing else changes |
| Accounts.ToggleTwice | backend/src/main/java/com/thriftshirt/pawnshop/service/UserService.java:48-49 | toggling twice restores `enabled`, and the whole account for a banned account without a session |
| Pawnshop.Shop.CreateNotification | backend/src/main/java/com/thriftshirt/pawnshop/service/NotificationService.java:33-52 | succeeds iff the user exists; the new notification is unread, stamped now, under the next id |
| Store.WithNotificationKeepsInv | backend/src/main/java/com/thriftshirt/pawnshop/service/NotificationService.java:38-45 | a notification for a stored user keeps the invariant and appends one row |
| Store.UserNotifications | backend/src/main/java/com/thriftshirt/pawnshop/service/NotificationService.java:57-61 | unknown user is NotFound; otherwise exactly that user's notifications, newest first, each stored row once (the length is the number of that user's rows) |
| Store.UnreadCount | backend/src/main/java/com/thriftshirt/pawnshop/service/NotificationService.java:66-70 | unknown user is NotFound; the count is the number of stored notifications addressed to the user and not read, so it is 0 iff every notification of the user is read |
| Tables.CountInKeyOrder | backend/src/main/java/com/thriftshirt/pawnshop/service/NotificationService.java:69 | counting a table's matching rows counts each matching key once |
| Store.UnreadNotifications | backend/src/main/java/com/thriftshirt/pawnshop/repository/NotificationRepository.java:21-21 | exactly the user's unread notifications, newest first, each stored row once (the length is the number of such rows) |
| Pawnshop.Shop.MarkAsRead | backend/src/main/java/com/thriftshirt/pawnshop/service/NotificationService.java:75-85 | unknown id is NotFound; a non-owner is refused with nothing changed; otherwise the notification becomes read |
| Store.WithReadIdempotent | backend/src/main/java/com/thriftshirt/pawnshop/service/NotificationService.java:83-84 | marking read keeps the invariant and marking it again changes nothing |
| Pawnshop.Shop.MarkAllAsRead | backend/src/main/java/com/thriftshirt/pawnshop/service/NotificationService.java:90-99 | unknown user is NotFound; otherwise every notification of the user is read and no other changes |
| Pawnshop.MarkEachRead | backend/src/main/java/com/thriftshirt/pawnshop/service/NotificationService.java:95-98 | the loop marks read exactly the listed notifications |
| Pawnshop.MarkedIsAllRead | backend/src/main/java/com/thriftshirt/pawnshop/service/NotificationService.java:94-98 | marking the user's unread list is marking all of the user's notifications read |
| Store.AllReadClearsUnread | backend/src/main/java/com/thriftshirt/pawnshop/service/NotificationService.java:90-99 | afterwards the unread count is 0 and other users' notifications are unchanged |
| Pawnshop.Shop.DeleteNotification | backend/src/main/java/com/thriftshirt/pawnshop/service/NotificationService.java:104-113 | unknown id is NotFound; a non-owner is refused; the owner's call deletes exactly that notification |
| Store.WithoutNotificationKeepsInv | backend/src/main/java/com/thriftshirt/pawnshop/service/NotificationService.java:112-112 | deleting keeps the invariant and removes exactly that row |
| Accounts.PortalCheck | backend/src/main/java/com/thriftshirt/pawnshop/service/AuthService.java:58-60 | passes iff the principal is an administrator exactly on the administrator portal; each refusal has its message |
| Accounts.SessionStarted | backend/src/main/java/com/thriftshirt/pawnshop/service/AuthService.java:70-84 | any previous session is replaced by the new id created now; nothing else changes |
| Pawnshop.Shop.StartSession | backend/src/main/java/com/thriftshirt/pawnshop/service/AuthService.java:62-88 | a principal no longer stored is "User not found"; otherwise the stored account gets the new session and the token is issued for that session id |
| Pawnshop.Shop.LoginUser | backend/src/main/java/com/thriftshirt/pawnshop/service/AuthService.java:45-89 | failed authentication and administrators are refused; otherwise the session is replaced and the token returned |
| Pawnshop.Shop.LoginAdmin | backend/src/main/java/com/thriftshirt/pawnshop/service/AuthService.java:91-135 | failed authentication and non-administrators are refused; otherwise the session is replaced and the token returned |
| Store.UserByName | backend/src/main/java/com/thriftshirt/pawnshop/repository/UserRepository.java:27-27 | the id of an account with that username; none iff no account has it |
| Store.UserByEmail | backend/src/main/java/com/thriftshirt/pawnshop/repository/UserRepository.java:35-35 | the id of an account with that email; none iff no account has it |
| Accounts.Registered | backend/src/main/java/com/thriftshirt/pawnshop/service/AuthService.java:148-158 | the new account is an enabled customer with the encoded password, no wallet and no session |
| Pawnshop.Shop.Register | backend/src/main/java/com/thriftshirt/pawnshop/service/AuthService.java:137-162 | a taken username, then a taken email, is refused with nothing created; otherwise exactly one account is added and the answer carries no token |
| Store.WithNewUserKeepsInv | backend/src/main/java/com/thriftshirt/pawnshop/service/AuthService.java:139-158 | an account with a free username and email keeps the invariant and appends one row |
| Store.NewLoginUnique | backend/src/main/java/com/thriftshirt/pawnshop/service/AuthService.java:139-146 | free username and email keep logins unique |
| Pawnshop.Shop.ChangePassword | backend/src/main/java/com/thriftshirt/pawnshop/service/AuthService.java:171-188 | unknown user is NotFound; it succeeds iff the current password matches the stored hash and the confirmation equals the new password, and then stores the encoded new password; a refusal changes nothing |
| Accounts.ProfileUpdated | backend/src/main/java/com/thriftshirt/pawnshop/service/AuthService.java:195-206 | each given field replaces the stored one, each missing one is kept; username, email and password are untouched |
| Pawnshop.Shop.UpdateProfile | backend/src/main/java/com/thriftshirt/pawnshop/service/AuthService.java:190-210 | unknown user is NotFound; otherwise the account becomes `ProfileUpdated` |
| Accounts.DefaultAdmin | backend/src/main/java/com/thriftshirt/pawnshop/service/AuthService.java:217-225 | the administrator "admin" / admin@thriftshirt.com with the encoded password |
| Pawnshop.Shop.CreateDefaultAdmin | backend/src/main/java/com/thriftshirt/pawnshop/service/AuthService.java:212-229 | the administrator is added only when neither its username nor its email is taken |
| Store.DefaultAdminIdempotent | backend/src/main/java/com/thriftshirt/pawnshop/service/AuthService.java:216-228 | keeps the invariant, a second call changes nothing, and afterwards the username or email exists |
| Accounts.LoggedOut | backend/src/main/java/com/thriftshirt/pawnshop/service/AuthService.java:242-244 | no session, updated now, nothing else changed |
| Pawnshop.Shop.Logout | backend/src/main/java/com/thriftshirt/pawnshop/service/AuthService.java:231-259 | an unknown user is a no-op; otherwise the account becomes `LoggedOut`; it never fails |
| Accounts.ExpiryApplied | backend/src/main/java/com/thriftshirt/pawnshop/service/AuthService.java:264-274 | an account afterwards never has an expired session; an expired one is cleared, any other kept |
| Accounts.SessionExpiry | backend/src/main/java/com/thriftshirt/pawnshop/service/AuthService.java:264-268 | only a set session expires; it expires iff more than 3600 seconds have passed since it was created, and stays expired later |
| Store.ExpiredAccounts | backend/src/main/java/com/thriftshirt/pawnshop/service/AuthService.java:264-269 | exactly the accounts whose session is set and created strictly before now − 1 hour |
| Pawnshop.Shop.ClearExpiredSessions | backend/src/main/java/com/thriftshirt/pawnshop/service/AuthService.java:262-279 | the database becomes `ExpiredCleared` of the old one |
| Pawnshop.ClearEachSession | backend/src/main/java/com/thriftshirt/pawnshop/service/AuthService.java:271-275 | the loop clears the session of exactly the listed accounts |
| Pawnshop.ClearedIsExpiredCleared | backend/src/main/java/com/thriftshirt/pawnshop/service/AuthService.java:264-275 | clearing the selected list is clearing every expired session |
| Store.ExpiredClearedKeepsInv | backend/src/main/java/com/thriftshirt/pawnshop/service/AuthService.java:262-279 | afterwards no session is expired, unexpired accounts are unchanged, the invariant holds |
| Store.SameLoginsKeepInv | backend/src/main/java/com/thriftshirt/pawnshop/service/AuthService.java:271-275 | replacing accounts by versions with the same logins and wallet keeps the invariant |
| Dashboard.AmountOf | web/src/pages/AdminDashboard.jsx:98-98 | loanAmount when truthy, else requestedAmount when truthy, else 0, so a zero loanAmount falls through |
| Dashboard.NetTerm | web/src/pages/AdminDashboard.jsx:97-112 | FORFEITED nets +1.05×amount, REDEEMED −0.95×amount, PAWNED −amount, any other status 0 |
| Dashboard.RequestRevenue | web/src/pages/AdminDashboard.jsx:94-112 | the request part of the revenue is the sum of `NetTerm` over the requests |
| Dashboard.PassesByRow | web/src/pages/AdminDashboard.jsx:97-112 | the three passes over the requests add up to the sum of `NetTerm` over them |
| Dashboard.SumOfAppend | web/src/pages/AdminDashboard.jsx:97-112 | sums over a concatenation add up |
| Dashboard.ListingAmounts | web/src/pages/AdminDashboard.jsx:98-110 | without a loanAmount the amount is the requested amount, or 0 |
| Dashboard.RequestPasses | web/src/pages/AdminDashboard.jsx:94-112 | the three forEach loops compute the request part of the revenue |
| Dashboard.LogPass | web/src/pages/AdminDashboard.jsx:117-131 | one pass over the logs adds (or subtracts) the parsed amount of each matching log, and throws iff `Adjustment` does |
| Dashboard.Adjustment | web/src/pages/AdminDashboard.jsx:118-131 | a pass over the logs throws iff one of the logs with its action has no remarks |
| Dashboard.Computed | web/src/pages/AdminDashboard.jsx:92-131 | the computation throws iff a revenue-earned or revenue-deducted log has no remarks |
| Dashboard.ComputedSplit | web/src/pages/AdminDashboard.jsx:92-131 | the computation goes through iff neither log pass throws, and then gives the request part plus the earned pass minus the deducted pass |
| Dashboard.AdjustmentAppend | web/src/pages/AdminDashboard.jsx:118-131 | a pass over one more log is the pass over the others, then that log's step |
| Dashboard.UnmatchedLogIgnored | web/src/pages/AdminDashboard.jsx:118-131 | a log with the action whose remarks do not match the pattern leaves the pass's result unchanged |
| Dashboard.AdjustmentOfOwnAction | web/src/pages/AdminDashboard.jsx:118-131 | logs with another action play no part |
| Dashboard.AdjustmentFails | web/src/pages/AdminDashboard.jsx:118-131 | once a prefix of the logs throws, the whole pass throws |
| Dashboard.MissingRemarksThrow | web/src/pages/AdminDashboard.jsx:118-131 | a revenue log without remarks keeps the dashboard from showing a revenue |
| Dashboard.Shown | web/src/pages/AdminDashboard.jsx:133-143 | always positive: a positive backend figure wins, else a positive computed one, else 1000 |
| Dashboard.Revenue | web/src/pages/AdminDashboard.jsx:92-143 | the figure shown, when shown, is positive |
| Dashboard.ComputeRevenue | web/src/pages/AdminDashboard.jsx:92-143 | the page's accumulation, override and fallback compute `Revenue` |
| Dashboard.PrefixedAmount | web/src/pages/AdminDashboard.jsx:119-127 | the dashboard pattern captures the `%.2f` amount written after the prefix |
| Dashboard.EarnedRemarkRead | backend/src/main/java/com/thriftshirt/pawnshop/controller/AdminController.java:634-636 | the revenue-earned remark is read back by the dashboard as exactly the amount removed |
| Dashboard.DeductedRemarkRead | backend/src/main/java/com/thriftshirt/pawnshop/controller/AdminController.java:565-567 | the revenue-deducted remark is read back as exactly the amount added |
| Dashboard.EarnedLogAdds | web/src/pages/AdminDashboard.jsx:118-123 | a revenue-earned log whose remark reads as x raises the computed revenue by x |
| Dashboard.DeductedLogSubtracts | web/src/pages/AdminDashboard.jsx:126-131 | a revenue-deducted log whose remark reads as x lowers it by x |
| Dashboard.RevenueActionsDiffer | web/src/pages/AdminDashboard.jsx:118-131 | the two passes filter on different action names, so a log the earned pass reads leaves the deducted pass unchanged and the reverse; otherwise one wallet log could move the revenue twice |
| Dashboard.CashRemovedRaisesRevenue | web/src/pages/AdminDashboard.jsx:118-123 | the log remove-cash writes raises the dashboard's computed revenue by the amount removed |
| Dashboard.CashAddedLowersRevenue | web/src/pages/AdminDashboard.jsx:126-131 | the log add-cash writes lowers it by the amount added |
| History.FirstOf | web/src/pages/History.jsx:196-201 | none iff no pattern matches; when pattern i matches and no earlier one does, the group of pattern i |
| History.AmountIn | web/src/pages/History.jsx:180-204 | missing or empty remarks give 0; a "Requested amount" match gives its parsed amount; otherwise the first fallback match gives its parsed amount; no match gives 0; never negative |
| History.ExtractAmount | web/src/pages/History.jsx:180-204 | the early-return loop over the patterns computes `AmountIn` |
| History.LoanAmountContainsAmount | web/src/pages/History.jsx:192-193 | a loan-amount match contains an equal amount-label match |
| History.LoanAmountPatternNeverDecides | web/src/pages/History.jsx:190-201 | the third fallback pattern never changes the result |
| History.RequestedAmountRead | web/src/pages/History.jsx:184-187 | a remark opening with "Requested amount: ₱" and a `%.2f` amount is read as exactly that amount |
| History.RequestedMatch | web/src/pages/History.jsx:184-184 | the requested-amount pattern captures the numeral after the label |
| History.RequestedLabel | web/src/pages/History.jsx:184-184 | the pattern's label pieces match "Requested amount: ₱" |
| History.RequestedWord | web/src/pages/History.jsx:184-184 | "Requested" and the following space match |
| History.RequestedLit | web/src/pages/History.jsx:184-184 | "Requested" matches without case |
| History.AmountWord | web/src/pages/History.jsx:184-184 | "amount:" matches without case |
| History.RequestedSpace | web/src/pages/History.jsx:184-184 | the label has one space between its words |
| History.RenewalFeeIn | web/src/pages/History.jsx:207-216 | empty remarks give 0, remarks without "fee: ₱" give 50, and the fee is never negative |
| History.RenewalAmounts | web/src/pages/History.jsx:120-124 | a renewal shows 0 for empty remarks and 50 when no fee is named |
| History.ItemName | web/src/pages/History.jsx:141-141 | never empty: the extracted name, else "Unknown Item" |
| History.ItemNameRead | web/src/pages/History.jsx:173-177 | "item: NAME (" is shown as NAME, trimmed |
| History.NoItemLabelBefore | web/src/pages/History.jsx:175-175 | no "item:" match starts before the first colon |
| History.ItemGroupAt | web/src/pages/History.jsx:175-175 | the group captures the text up to the "(" |
| History.ItemLabelAt | web/src/pages/History.jsx:175-175 | the label "item:" matches where it stands |
| History.TrimTrailingSpace | web/src/pages/History.jsx:176-176 | trimming the captured name gives the name back |
| History.KindOf | web/src/pages/History.jsx:114-129 | PAWN iff CREATED or PAWN appears; REDEEM iff neither does and PAID or REDEEM does; RENEW iff none of those four does and RENEW does; FORFEIT iff none of those five does and FORFEIT does; OTHER iff none of the six words appears |
| History.StatusOf | web/src/pages/History.jsx:111-136 | PENDING iff the action says PENDING; REJECTED iff it says REJECT but not PENDING; COMPLETED otherwise, whatever the type |
| History.TransactionId | web/src/pages/History.jsx:140 | starts with "TXN-" and has at least nine characters |
| History.TransactionIdInjective | web/src/pages/History.jsx:140 | two logs of the same year never share a transaction id |
| History.ItemOf | web/src/pages/History.jsx:138-148 | the item keeps the log id and remarks, has a non-empty name, a non-negative amount, the action's type and status, and a "TXN-" id |
| History.TransactionIdNumber | web/src/pages/History.jsx:140-140 | the id number has at least three digits, reads back as the log id, and is the plain id from 100 on |
| History.NatToStringLength | web/src/pages/History.jsx:140-140 | ids of 100 and above already have three digits |
| History.ToHistoryItem | web/src/pages/History.jsx:108-149 | the per-log map computes `ItemOf`: classification, amount, item name, transaction id |
| History.AmountShown | web/src/pages/History.jsx:112-128 | always a number and never negative; a forfeiture shows 0; a renewal shows its fee when that is non-zero and 0 when it is 0 or NaN; any other type shows the amount in the remarks when that is non-zero and 0 when it is 0 or NaN |
| History.PlainActionShowsAsOther | web/src/pages/History.jsx:114-136 | an action without the type and status words shows as OTHER and COMPLETED |
| History.BackendActionsShowAsOther | web/src/pages/History.jsx:114-136 | every wallet, revenue and ban action the backend writes shows as OTHER and COMPLETED |
| History.AbsentChar | web/src/pages/History.jsx:114-134 | a word with a letter the action lacks does not occur in it |
| History.AbsentPair | web/src/pages/History.jsx:114-134 | a word with a letter pair the action lacks does not occur in it |
| History.Transformed | web/src/pages/History.jsx:108-149 | one item per log, in the order of the logs |
| History.Filtered | web/src/pages/History.jsx:218-223 | everything for a blank term, otherwise exactly the items whose name contains the term ignoring case |
| History.FilteredAppend | web/src/pages/History.jsx:218-223 | the search keeps the order of the list |
| History.FilteredIdempotent | web/src/pages/History.jsx:218-223 | searching the result again changes nothing |
| History.FilteredIgnoresCase | web/src/pages/History.jsx:218-223 | the case of the term does not matter |
| History.AfterDelete | web/src/pages/History.jsx:31-32 | a successful delete keeps exactly the entries with another id; a failed one keeps the list |
| History.AfterClear | web/src/pages/History.jsx:59-60 | a successful clear empties the list; a failed one keeps it |
| History.DeleteMatchesLogs | web/src/pages/History.jsx:32-32 | deleting an entry from the page's list gives the list of the logs without that one |
| Roles.FormatRoleName | web/src/utils/roleUtils.js:8-21 | a falsy role is "Unknown"; ADMIN, EMPLOYEE and USER in any case are Administrator, Employee and Customer; anything else is returned with its own casing |
| Roles.RoleBadgeClass | web/src/utils/roleUtils.js:28-41 | always danger, warning or neutral; danger iff ADMIN, warning iff EMPLOYEE, in any case |
| Roles.RoleCaseInsensitive | web/src/utils/roleUtils.js:11-11 | a role and its upper-cased spelling get the same badge, and the same label when known |
| Roles.KnownRoleLabels | web/src/utils/roleUtils.js:11-19 | the ADMIN, EMPLOYEE and USER roles, in any letter case, get three different labels: two known roles share a label iff they are the same role |
| Patterns.Search | web/src/pages/History.jsx:175-175 | the group of the leftmost match; none iff no position matches |
| Patterns.LeftmostMatch | web/src/pages/History.jsx:184-197 | a match with none before it is the one reported |
| Patterns.FirstMatch | web/src/pages/History.jsx:184-197 | the leftmost matching position from a start |
| Patterns.RunFrom | web/src/pages/History.jsx:191-191 | the longest run of class characters |
| Patterns.GroupAt | web/src/pages/History.jsx:191-193 | the numeric groups capture only digits, commas and dots |
| Patterns.ParseAmount | web/src/pages/History.jsx:186-199 | `parseFloat` after removing commas is never negative |
| Patterns.ParseAmountWithoutCommas | web/src/pages/History.jsx:186-199 | without commas it is plain `parseFloat` |
| JsNumber.ParseFloat | web/src/pages/AdminDashboard.jsx:121-129 | NaN iff the text has no leading number; otherwise never negative |
| JsNumber.ParseFloatOfCentavos | web/src/pages/AdminDashboard.jsx:119-129 | `parseFloat` reads back Java's `%.2f` text of a centavo amount exactly |
| JsNumber.Or | web/src/pages/AdminDashboard.jsx:98-98 | `a \|\| b` keeps a truthy a, else gives b |
| JsNumber.Plus | web/src/pages/AdminDashboard.jsx:121-121 | NaN iff an operand is NaN |
| JsNumber.Minus | web/src/pages/AdminDashboard.jsx:129-129 | NaN iff an operand is NaN |
| Decimal.FormatCentavos | backend/src/main/java/com/thriftshirt/pawnshop/controller/AdminController.java:566-567 | `%.2f` of a centavo amount is its whole part, a dot and two digits of the remainder |
| Decimal.NatToStringRoundTrip | web/src/pages/History.jsx:140-140 | reading the decimal text of n gives n |
| Decimal.PadStart | web/src/pages/History.jsx:140-140 | `padStart`: the text ends the result, the rest is fill, the width is reached |
| Decimal.LeadingZerosValue | web/src/pages/History.jsx:140-140 | leading zeros do not change the value of a digit string |
| Text.ToUpper | web/src/utils/roleUtils.js:11-11 | each ASCII letter upper-cased, every other character kept |
| Text.ToUpperIdempotent | web/src/utils/roleUtils.js:11-11 | upper-casing twice is upper-casing once |
| Text.ToLower | web/src/pages/History.jsx:222-222 | each ASCII letter lower-cased, every other character kept |
| Text.TrimWith | web/src/pages/History.jsx:176-176 | the trimmed text has no space at either end and is empty iff the text is all spaces |
| Text.IndexOfChar | web/src/pages/History.jsx:175-175 | the first position of the character; none iff absent |
| Text.RemoveAll | web/src/pages/History.jsx:186-186 | no comma is left and no character added |
| Tables.SortDesc | backend/src/main/java/com/thriftshirt/pawnshop/repository/TransactionLogRepository.java:19-20 | the rows ordered by timestamp, newest first, as a permutation of the input |
| Tables.InsertDesc | backend/src/main/java/com/thriftshirt/pawnshop/repository/TransactionLogRepository.java:19-20 | inserting into an ordered list keeps it ordered and adds exactly that row |
| Tables.Filter | backend/src/main/java/com/thriftshirt/pawnshop/service/PawnRequestService.java:255-257 | the rows satisfying the test, in order |
| Tables.FilterAppend | backend/src/main/java/com/thriftshirt/pawnshop/service/PawnRequestService.java:179-181 | filtering distributes over concatenation |
| Tables.CountWhere | backend/src/main/java/com/thriftshirt/pawnshop/service/PawnRequestService.java:266-272 | `count()` is the length of the filtered rows |
| Tables.CountWhereMonotone | backend/src/main/java/com/thriftshirt/pawnshop/service/PawnRequestService.java:266-272 | a stricter filter never counts more |
| Tables.FindFirst | backend/src/main/java/com/thriftshirt/pawnshop/controller/UserController.java:205-208 | the index of the first row satisfying the test; none iff no row does |

## Left out

- HTTP plumbing is not modelled: the 403 role checks, `@PreAuthorize`, the exception-to-status mapping and the 500 responses. A controller refusal is an error value, and the services' BadRequest, NotFound and IllegalArgument outcomes are kept as distinct errors.
- Pawnshop.Shop.CashIn: the controller writes to the principal object it was handed, which may be stale. The model reads and writes the stored account.
- Pawnshop.Shop.CashOut: the same stale-principal behaviour is not modelled. The model reads and writes the stored account.
- Pawnshop.Shop.AddCash: `calculateCurrentRevenue` is not part of this model, so the revenue is an input parameter.
- Pawnshop.Shop.RemoveCash: it calls `calculateCurrentRevenue` without using the result, so that call is left out.
- Loan payment, redemption, renewal, forfeiture, interest and penalty totals, and the 3-argument `createLoan` are called by the controllers but their bodies are not part of this model. Only the selection step of `redeemLoan` is modelled.
- Decimal.FormatCentavos: `String.format("%.2f", ...)` uses the JVM's default locale. The model assumes a locale whose decimal separator is '.' and which does not group digits. Under a locale that writes ',' the remarks would read differently, and the dashboard's and history's patterns would read them differently too.
- Floating point is replaced by exact values: backend money is integer centavos and JavaScript numbers are exact reals or NaN. Double rounding, `BigDecimal.valueOf(double)` and the `%.2f` text of error messages are not modelled.
- Dashboard.Revenue: the backend revenue is taken as an already converted number (`Number(stats.revenue ?? 0)`). The conversion of an arbitrary JSON value is not modelled.
- Dashboard.AmountOf: the administrator listing has no loanAmount field, so rows carry it only as an optional value (see `Dashboard.ListingAmounts`).
- The dashboard's revenue patterns contain a mis-encoded peso prefix (`‚Ç±`). The backend's remarks contain the sign `₱` itself, so taken literally the patterns never match and the wallet adjustments would never change the revenue figure. The model uses the peso sign the backend writes, which is the evidently intended behaviour.
- Amounts below one centavo (such as 0.001, which the `> 0` checks accept) cannot be expressed, because money is whole centavos.
- The clock, `UUID.randomUUID()`, the JWT issuer, the password encoder and the authentication manager are parameters. A log's timestamp is the `now` the caller passes.
- The transaction year of a history entry comes from a function of the timestamp (`yearOf`). The date string of a history entry and its photos are not modelled.
- Concurrency, `@Transactional` atomicity and races are not modelled: each service call is one atomic step.
- File and image uploads, page rendering, notifications pop-ups and other UI state are not modelled.
- Text.ToUpper and Text.ToLower change ASCII letters only. JavaScript's full Unicode case mapping is not modelled.
- A null dereference (the status update to APPROVED with no administrator, a missing `amount` field) is the error value `NullReference`. The exception text is not modelled.
- `getAllUsers`, `getCurrentUser`, `getAllPawnRequests`, `getPawnRequestById`, `getPawnRequestsByStatus` and `mapToResponse` only read and reshape rows, and are not modelled.
- User.java and Role.java are not part of this model. A new account is taken to default to role USER, enabled, with no wallet balance.
- The history page's `extractAmount` fallback `|| 0` and the renewal fee's `|| 0` are modelled with JavaScript's falsy NaN, so NaN shows as 0.
