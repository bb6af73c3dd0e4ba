/** The backend services over one database: loan creation, pawn-request
    intake and lifecycle, the wallet operations of customers and
    administrators, the transaction log, notifications, the ban toggle and
    the authentication service's account changes. Each method changes the
    tables in place; its contract states the new database as a `Store`
    change of the old one, and that every failure leaves it unchanged. */
module Pawnshop {
  import opened Wrappers
  import opened Decimal
  import opened Entities
  import opened Tables
  import opened Wallet
  import opened Remarks
  import opened Photos
  import opened Requests
  import opened Accounts
  import opened Store

  const OutstandingRequestMessage: string :=
    "You cannot create a new pawn request while you have pending requests awaiting approval. "
    + "Please wait for your current request to be processed."

  class Shop {
    var users: map<nat, User>
    var requests: map<nat, PawnRequest>
    var loans: map<nat, Loan>
    var logs: map<nat, TransactionLog>
    var notifications: map<nat, Notification>
    var nextUserId: nat
    var nextPawnId: nat
    var nextLoanId: nat
    var nextLogId: nat
    var nextNotifId: nat

    /** The database as a value. */
    function Snapshot(): State
      reads this
    {
      State(users, requests, loans, logs, notifications, nextUserId, nextPawnId, nextLoanId, nextLogId, nextNotifId)
    }

    ghost predicate Valid()
      reads this
    {
      Inv(Snapshot())
    }

    /** An empty database. */
    constructor ()
      ensures Valid() && Snapshot() == Empty
    {
      users, requests, loans, logs, notifications := map[], map[], map[], map[], map[];
      nextUserId, nextPawnId, nextLoanId, nextLogId, nextNotifId := 0, 0, 0, 0, 0;
    }

    // ----- Repository writes (`save`, `delete`) -----

    /** `userRepository.save` of an account already stored under its id. */
    method SaveUser(u: User)
      modifies this
      ensures Snapshot() == WithUser(old(Snapshot()), u)
    {
      users := users[u.id := u];
    }

    /** `userRepository.save` of a new account: it gets the next id. */
    method InsertUser(u: User)
      modifies this
      ensures Snapshot() == WithNewUser(old(Snapshot()), u)
    {
      users := users[nextUserId := u.(id := nextUserId)];
      nextUserId := nextUserId + 1;
    }

    /** `pawnRequestRepository.save` of a new request built from a
        submission: it gets the next id. */
    method InsertRequest(owner: nat, form: PawnSubmission) returns (req: PawnRequest)
      modifies this
      ensures req == NewRequest(old(nextPawnId), owner, form)
      ensures Snapshot() == WithNewRequest(old(Snapshot()), owner, form)
    {
      req := NewRequest(nextPawnId, owner, form);
      requests := requests[nextPawnId := req];
      nextPawnId := nextPawnId + 1;
    }

    /** `pawnRequestRepository.save` of a request already stored under its id. */
    method SaveRequest(r: PawnRequest)
      modifies this
      ensures Snapshot() == WithRequest(old(Snapshot()), r)
    {
      requests := requests[r.pawnId := r];
    }

    /** `pawnRequestRepository.delete`, its loan removed by the cascade. */
    method DeleteRequest(pawnId: nat)
      requires pawnId in requests
      modifies this
      ensures Snapshot() == WithoutRequest(old(Snapshot()), pawnId)
    {
      if requests[pawnId].loan.Some? {
        loans := loans - {requests[pawnId].loan.value};
      }
      requests := requests - {pawnId};
    }

    /** `loanRepository.save` of a new loan and `pawnRequestRepository.save`
        of its request, now PAWNED and linked to it. */
    method SaveLoan(loan: Loan)
      requires loan.pawnItem in requests
      modifies this
      ensures Snapshot() == WithLoan(old(Snapshot()), loan)
    {
      requests := requests[loan.pawnItem := Pawned(requests[loan.pawnItem], loan.loanId)];
      loans := loans[loan.loanId := loan];
      nextLoanId := nextLoanId + 1;
    }

    // ----- Transaction log (TransactionLogService) -----

    /** `logTransaction`: the entry is stored under a fresh id. */
    method LogTransaction(entry: TransactionLog) returns (logId: nat)
      requires Valid()
      modifies this
      ensures Valid()
      ensures logId == old(nextLogId)
      ensures Snapshot() == Logged(old(Snapshot()), entry)
    {
      LoggedAppends(Snapshot(), entry);
      logId := nextLogId;
      logs := logs[logId := entry.(logId := logId)];
      nextLogId := nextLogId + 1;
    }

    /** `deleteUserTransactionLog`: deletes the log and answers true exactly
        when it exists and belongs to the user; otherwise answers false and
        changes nothing. */
    method DeleteUserTransactionLog(userId: nat, logId: nat) returns (deleted: bool)
      requires Valid()
      modifies this
      ensures Valid()
      ensures deleted <==> logId in old(logs) && old(logs)[logId].user == Some(userId)
      ensures deleted ==> Snapshot() == WithoutLog(old(Snapshot()), logId)
      ensures !deleted ==> Snapshot() == old(Snapshot())
    {
      if logId in logs && logs[logId].user == Some(userId) {
        WithoutLogKeepsInv(Snapshot(), logId);
        logs := logs - {logId};
        return true;
      }
      return false;
    }

    /** `clearUserTransactionHistory`. */
    method ClearUserTransactionHistory(userId: nat)
      requires Valid()
      modifies this
      ensures Valid()
      ensures Snapshot() == WithoutUserLogs(old(Snapshot()), userId)
    {
      ClearedHistory(Snapshot(), userId);
      logs := map k | k in logs && logs[k].user != Some(userId) :: logs[k];
    }

    // ----- Loans (LoanService) -----

    /** `createLoan`: the request must exist; the loan is the one `LoanFor`
        grants, stored with the request PAWNED and linked to it. */
    method CreateLoan(pawnId: nat, today: int) returns (r: Result<Loan>)
      requires Valid()
      modifies this
      ensures Valid()
      ensures pawnId !in old(requests) ==> r == Err(NotFound("Pawn request not found"))
      ensures pawnId in old(requests) ==> r == LoanFor(old(requests)[pawnId], old(nextLoanId), today)
      ensures r.Ok? ==> Snapshot() == WithLoan(old(Snapshot()), r.value)
      ensures r.Err? ==> Snapshot() == old(Snapshot())
    {
      if pawnId !in requests {
        return Err(NotFound("Pawn request not found"));
      }
      var req := requests[pawnId];
      if req.status != "APPROVED" {
        return Err(BadRequest("Cannot create loan. Pawn request status must be APPROVED, but is: " + req.status));
      }
      if req.loan.Some? {
        return Err(BadRequest("Loan already exists for this pawn request"));
      }
      var amount := if req.estimatedValue.Some? then req.estimatedValue else req.requestedAmount;
      if amount.None? {
        return Err(BadRequest("Cannot create loan: No amount value found"));
      }
      var loan := Loan(nextLoanId, pawnId, amount.value, 5, Some(today + 30), "ACTIVE", 0, None);
      assert LoanFor(req, nextLoanId, today) == Ok(loan);
      WithFreshLoanKeepsInv(Snapshot(), loan);
      SaveLoan(loan);
      return Ok(loan);
    }

    // ----- Pawn requests (PawnRequestService) -----

    /** `createPawnRequest`: the field checks of `CheckForm`, then the owner
        must exist and have no outstanding request; the new request is
        PENDING. */
    method CreatePawnRequest(userId: nat, form: PawnSubmission) returns (r: Result<PawnRequest>)
      requires Valid()
      modifies this
      ensures Valid()
      ensures CheckSubmission(form).Fail? ==> r == Err(CheckSubmission(form).error)
      ensures CheckSubmission(form).Pass? && userId !in old(users) ==> r == Err(NotFound("User not found"))
      ensures CheckSubmission(form).Pass? && userId in old(users) && PendingOrApproved(old(Snapshot()), userId) != [] ==>
                r == Err(BadRequest(OutstandingRequestMessage))
      ensures r.Ok? <==> CheckSubmission(form).Pass? && userId in old(users)
                         && PendingOrApproved(old(Snapshot()), userId) == []
      ensures r.Ok? ==> r.value == NewRequest(old(nextPawnId), userId, form)
                        && Snapshot() == WithNewRequest(old(Snapshot()), userId, form)
      ensures r.Err? ==> Snapshot() == old(Snapshot())
    {
      var check := CheckForm(form);
      if check.Fail? {
        return Err(check.error);
      }
      if userId !in users {
        return Err(NotFound("User not found"));
      }
      var pending := PendingOrApproved(Snapshot(), userId);
      if pending != [] {
        return Err(BadRequest(OutstandingRequestMessage));
      }
      WithNewRequestKeepsInv(Snapshot(), userId, form);
      var req := InsertRequest(userId, form);
      return Ok(req);
    }

    /** `deletePawnRequest`: only the owner, and only while PENDING; the
        request's loan goes with it. */
    method DeletePawnRequest(pawnId: nat, userId: nat) returns (r: Outcome)
      requires Valid()
      modifies this
      ensures Valid()
      ensures pawnId !in old(requests) ==> r == Fail(NotFound("Pawn request not found"))
      ensures pawnId in old(requests) && old(requests)[pawnId].owner != userId ==>
                r == Fail(BadRequest("You can only delete your own pawn requests"))
      ensures pawnId in old(requests) && old(requests)[pawnId].owner == userId
              && old(requests)[pawnId].status != "PENDING" ==>
                r == Fail(BadRequest("Only pending pawn requests can be deleted"))
      ensures r.Pass? <==> pawnId in old(requests) && old(requests)[pawnId].owner == userId
                           && old(requests)[pawnId].status == "PENDING"
      ensures r.Pass? ==> Snapshot() == WithoutRequest(old(Snapshot()), pawnId)
      ensures r.Fail? ==> Snapshot() == old(Snapshot())
    {
      if pawnId !in requests {
        return Fail(NotFound("Pawn request not found"));
      }
      var req := requests[pawnId];
      if req.owner != userId {
        return Fail(BadRequest("You can only delete your own pawn requests"));
      }
      if req.status != "PENDING" {
        return Fail(BadRequest("Only pending pawn requests can be deleted"));
      }
      WithoutRequestKeepsInv(Snapshot(), pawnId);
      DeleteRequest(pawnId);
      return Pass;
    }

    /** `updatePawnRequestStatus(pawnId, status, adminUser)`: the request
        must exist; the update is `StatusUpdated`, and a failed update
        (APPROVED without an administrator) is rolled back. */
    method UpdatePawnRequestStatus(pawnId: nat, status: string, adminName: Option<string>, today: int)
      returns (r: Result<PawnRequest>)
      requires Valid()
      modifies this
      ensures Valid()
      ensures pawnId !in old(requests) ==> r == Err(NotFound("Pawn request not found"))
      ensures pawnId in old(requests) ==> r == StatusUpdated(old(requests)[pawnId], status, adminName, today)
      ensures r.Ok? ==> Snapshot() == WithRequest(old(Snapshot()), r.value)
      ensures r.Err? ==> Snapshot() == old(Snapshot())
    {
      if pawnId !in requests {
        return Err(NotFound("Pawn request not found"));
      }
      var req := requests[pawnId].(status := status);
      if status == "APPROVED" {
        if adminName.None? {
          return Err(NullReference);
        }
        req := req.(appraisalDate := Some(today), appraisedBy := adminName);
      }
      WithRequestKeepsInv(Snapshot(), req);
      SaveRequest(req);
      return Ok(req);
    }

    /** The two-argument overload: no administrator, so APPROVED fails. */
    method UpdatePawnRequestStatusWithoutAdmin(pawnId: nat, status: string, today: int)
      returns (r: Result<PawnRequest>)
      requires Valid()
      modifies this
      ensures Valid()
      ensures pawnId !in old(requests) ==> r == Err(NotFound("Pawn request not found"))
      ensures pawnId in old(requests) ==> r == StatusUpdated(old(requests)[pawnId], status, None, today)
      ensures status == "APPROVED" ==> r.Err?
      ensures r.Ok? ==> Snapshot() == WithRequest(old(Snapshot()), r.value)
      ensures r.Err? ==> Snapshot() == old(Snapshot())
    {
      r := UpdatePawnRequestStatus(pawnId, status, None, today);
    }

    // ----- Customer wallet (UserController) -----

    /** `cashIn` by the signed-in customer: a positive amount is added to
        the balance, a missing balance counting as zero. */
    method CashIn(userId: nat, amount: Option<Centavos>) returns (r: Result<Centavos>)
      requires Valid() && userId in users
      modifies this
      ensures Valid()
      ensures r.Ok? <==> CheckAmount(amount).Pass?
      ensures r.Err? ==> r.error == CheckAmount(amount).error && Snapshot() == old(Snapshot())
      ensures r.Ok? ==> r.value == Current(old(users)[userId].walletBalance) + amount.value
      ensures r.Ok? ==> Snapshot() == WithUser(old(Snapshot()), old(users)[userId].(walletBalance := Some(r.value)))
    {
      var check := CheckAmount(amount);
      if check.Fail? {
        return Err(check.error);
      }
      var u := users[userId];
      var balance := Credit(u.walletBalance, amount.value);
      u := u.(walletBalance := Some(balance));
      WithUserKeepsInv(Snapshot(), u);
      SaveUser(u);
      return Ok(balance);
    }

    /** `cashOut` by the signed-in customer: a positive amount no larger
        than the balance is taken out of it. */
    method CashOut(userId: nat, amount: Option<Centavos>) returns (r: Result<Centavos>)
      requires Valid() && userId in users
      modifies this
      ensures Valid()
      ensures CheckAmount(amount).Fail? ==> r == Err(CheckAmount(amount).error)
      ensures CheckAmount(amount).Pass? ==> r == Debit(old(users)[userId].walletBalance, amount.value)
      ensures r.Ok? ==> r.value >= 0
      ensures r.Ok? ==> Snapshot() == WithUser(old(Snapshot()), old(users)[userId].(walletBalance := Some(r.value)))
      ensures r.Err? ==> Snapshot() == old(Snapshot())
    {
      var check := CheckAmount(amount);
      if check.Fail? {
        return Err(check.error);
      }
      var u := users[userId];
      var current := Current(u.walletBalance);
      if current < amount.value {
        return Err(InsufficientBalance(current, amount.value));
      }
      u := u.(walletBalance := Some(current - amount.value));
      WithUserKeepsInv(Snapshot(), u);
      SaveUser(u);
      return Ok(current - amount.value);
    }

    // ----- Administrator wallet operations (AdminController) -----

    /** `addFundsToUserWallet`: credits the wallet and logs ADMIN_ADD_FUNDS
        for the administrator. A missing user surfaces through the
        handler's catch-all. */
    method AddFunds(adminId: nat, userId: nat, amount: Option<Centavos>, now: int) returns (r: Result<Centavos>)
      requires Valid()
      modifies this
      ensures Valid()
      ensures CheckAmount(amount).Fail? ==> r == Err(CheckAmount(amount).error)
      ensures CheckAmount(amount).Pass? && userId !in old(users) ==>
                r == Err(RuntimeFailure("Failed to add funds: User not found"))
      ensures r.Ok? <==> CheckAmount(amount).Pass? && userId in old(users)
      ensures r.Ok? ==> r.value == Current(old(users)[userId].walletBalance) + amount.value
      ensures r.Ok? ==> (Snapshot() ==
        Logged(WithUser(old(Snapshot()), old(users)[userId].(walletBalance := Some(r.value))),
               Entry(Some(adminId), "ADMIN_ADD_FUNDS", now,
                     AddFundsRemark(amount.value, old(users)[userId].username, userId, r.value))))
      ensures r.Err? ==> Snapshot() == old(Snapshot())
    {
      var check := CheckAmount(amount);
      if check.Fail? {
        return Err(check.error);
      }
      if userId !in users {
        return Err(RuntimeFailure("Failed to add funds: User not found"));
      }
      var u := users[userId];
      var balance := Credit(u.walletBalance, amount.value);
      u := u.(walletBalance := Some(balance));
      ghost var saved := WithUser(Snapshot(), u);
      WithUserKeepsInv(Snapshot(), u);
      SaveUser(u);
      var entry := Entry(Some(adminId), "ADMIN_ADD_FUNDS", now, AddFundsRemark(amount.value, u.username, userId, balance));
      var _ := LogTransaction(entry);
      assert Snapshot() == Logged(saved, entry);
      return Ok(balance);
    }

    /** `deductFundsFromUserWallet`: refuses more than the balance; else
        debits the wallet and logs ADMIN_DEDUCT_FUNDS for the administrator. */
    method DeductFunds(adminId: nat, userId: nat, amount: Option<Centavos>, now: int) returns (r: Result<Centavos>)
      requires Valid()
      modifies this
      ensures Valid()
      ensures CheckAmount(amount).Fail? ==> r == Err(CheckAmount(amount).error)
      ensures CheckAmount(amount).Pass? && userId !in old(users) ==>
                r == Err(RuntimeFailure("Failed to deduct funds: User not found"))
      ensures CheckAmount(amount).Pass? && userId in old(users) ==>
                r == Debit(old(users)[userId].walletBalance, amount.value)
      ensures r.Ok? ==> r.value >= 0
      ensures r.Ok? ==> (Snapshot() ==
        Logged(WithUser(old(Snapshot()), old(users)[userId].(walletBalance := Some(r.value))),
               Entry(Some(adminId), "ADMIN_DEDUCT_FUNDS", now,
                     DeductFundsRemark(amount.value, old(users)[userId].username, userId, r.value))))
      ensures r.Err? ==> Snapshot() == old(Snapshot())
    {
      var check := CheckAmount(amount);
      if check.Fail? {
        return Err(check.error);
      }
      if userId !in users {
        return Err(RuntimeFailure("Failed to deduct funds: User not found"));
      }
      var u := users[userId];
      var current := Current(u.walletBalance);
      if current < amount.value {
        return Err(InsufficientBalance(current, amount.value));
      }
      var balance := current - amount.value;
      assert Debit(u.walletBalance, amount.value) == Ok(balance);
      u := u.(walletBalance := Some(balance));
      ghost var saved := WithUser(Snapshot(), u);
      WithUserKeepsInv(Snapshot(), u);
      SaveUser(u);
      var entry := Entry(Some(adminId), "ADMIN_DEDUCT_FUNDS", now, DeductFundsRemark(amount.value, u.username, userId, balance));
      var _ := LogTransaction(entry);
      assert Snapshot() == Logged(saved, entry);
      return Ok(balance);
    }

    /** `addCashToUser`: the amount must parse and be positive, and the
        current revenue must cover it (checked before the user lookup); the
        wallet is credited and two logs are written for the customer:
        ADMIN_ADD_CASH, then REVENUE_DEDUCTED_CASH_ADDED. */
    method AddCash(adminName: string, userId: nat, amount: AmountField, reason: Option<string>,
                   revenue: Centavos, now: int) returns (r: Result<Centavos>)
      requires Valid()
      modifies this
      ensures Valid()
      ensures amount.Missing? ==> r == Err(NullReference)
      ensures amount.Malformed? ==> r == Err(InvalidAmountFormat)
      ensures amount.Amount? && amount.centavos <= 0 ==> r == Err(BadRequest("Amount must be greater than zero"))
      ensures amount.Amount? && 0 < amount.centavos && revenue < amount.centavos ==>
                r == Err(InsufficientRevenue(revenue, amount.centavos, amount.centavos - revenue))
      ensures amount.Amount? && 0 < amount.centavos <= revenue && userId !in old(users) ==>
                r == Err(RuntimeFailure("Failed to add cash: User not found"))
      ensures r.Ok? <==> amount.Amount? && 0 < amount.centavos <= revenue && userId in old(users)
      ensures r.Ok? ==> r.value == Current(old(users)[userId].walletBalance) + amount.centavos
      ensures r.Ok? ==>
        var why := reason.GetOr("Cash added by admin");
        Snapshot() ==
          Logged(Logged(WithUser(old(Snapshot()), old(users)[userId].(walletBalance := Some(r.value))),
                        Entry(Some(userId), "ADMIN_ADD_CASH", now, AddCashRemark(adminName, amount.centavos, why, r.value))),
                 Entry(Some(userId), "REVENUE_DEDUCTED_CASH_ADDED", now,
                       RevenueDeductedRemark(amount.centavos, old(users)[userId].username, why)))
      ensures r.Err? ==> Snapshot() == old(Snapshot())
    {
      if amount.Missing? {
        return Err(NullReference);
      }
      if amount.Malformed? {
        return Err(InvalidAmountFormat);
      }
      var value := amount.centavos;
      var why := reason.GetOr("Cash added by admin");
      if value <= 0 {
        return Err(BadRequest("Amount must be greater than zero"));
      }
      if revenue < value {
        return Err(InsufficientRevenue(revenue, value, value - revenue));
      }
      if userId !in users {
        return Err(RuntimeFailure("Failed to add cash: User not found"));
      }
      var u := users[userId];
      var balance := Credit(u.walletBalance, value);
      u := u.(walletBalance := Some(balance));
      ghost var saved := WithUser(Snapshot(), u);
      WithUserKeepsInv(Snapshot(), u);
      SaveUser(u);
      var added := Entry(Some(userId), "ADMIN_ADD_CASH", now, AddCashRemark(adminName, value, why, balance));
      var deducted := Entry(Some(userId), "REVENUE_DEDUCTED_CASH_ADDED", now, RevenueDeductedRemark(value, u.username, why));
      var _ := LogTransaction(added);
      var _ := LogTransaction(deducted);
      assert Snapshot() == Logged(Logged(saved, added), deducted);
      return Ok(balance);
    }

    /** `removeCashFromUser`: the amount must parse, be positive and be
        covered by the balance (no revenue check); the wallet is debited and
        two logs are written for the customer: ADMIN_REMOVE_CASH, then
        REVENUE_EARNED_CASH_REMOVED. */
    method RemoveCash(adminName: string, userId: nat, amount: AmountField, reason: Option<string>, now: int)
      returns (r: Result<Centavos>)
      requires Valid()
      modifies this
      ensures Valid()
      ensures amount.Missing? ==> r == Err(NullReference)
      ensures amount.Malformed? ==> r == Err(InvalidAmountFormat)
      ensures amount.Amount? && amount.centavos <= 0 ==> r == Err(BadRequest("Amount must be greater than zero"))
      ensures amount.Amount? && 0 < amount.centavos && userId !in old(users) ==>
                r == Err(RuntimeFailure("Failed to remove cash: User not found"))
      ensures amount.Amount? && 0 < amount.centavos && userId in old(users) ==>
                r == Debit(old(users)[userId].walletBalance, amount.centavos)
      ensures r.Ok? ==> r.value >= 0
      ensures r.Ok? ==>
        var why := reason.GetOr("Cash removed by admin");
        Snapshot() ==
          Logged(Logged(WithUser(old(Snapshot()), old(users)[userId].(walletBalance := Some(r.value))),
                        Entry(Some(userId), "ADMIN_REMOVE_CASH", now, RemoveCashRemark(adminName, amount.centavos, why, r.value))),
                 Entry(Some(userId), "REVENUE_EARNED_CASH_REMOVED", now,
                       RevenueEarnedRemark(amount.centavos, old(users)[userId].username, why)))
      ensures r.Err? ==> Snapshot() == old(Snapshot())
    {
      if amount.Missing? {
        return Err(NullReference);
      }
      if amount.Malformed? {
        return Err(InvalidAmountFormat);
      }
      var value := amount.centavos;
      var why := reason.GetOr("Cash removed by admin");
      if value <= 0 {
        return Err(BadRequest("Amount must be greater than zero"));
      }
      if userId !in users {
        return Err(RuntimeFailure("Failed to remove cash: User not found"));
      }
      var u := users[userId];
      var current := Current(u.walletBalance);
      if current < value {
        return Err(InsufficientBalance(current, value));
      }
      var balance := current - value;
      assert Debit(u.walletBalance, value) == Ok(balance);
      u := u.(walletBalance := Some(balance));
      ghost var saved := WithUser(Snapshot(), u);
      WithUserKeepsInv(Snapshot(), u);
      SaveUser(u);
      var removed := Entry(Some(userId), "ADMIN_REMOVE_CASH", now, RemoveCashRemark(adminName, value, why, balance));
      var earned := Entry(Some(userId), "REVENUE_EARNED_CASH_REMOVED", now, RevenueEarnedRemark(value, u.username, why));
      var _ := LogTransaction(removed);
      var _ := LogTransaction(earned);
      assert Snapshot() == Logged(Logged(saved, removed), earned);
      return Ok(balance);
    }

    // ----- Ban toggle (UserService) -----

    /** `toggleUserStatus`: an administrator account cannot be toggled;
        otherwise the account becomes `Toggled` and the administrator's log
        records the new state. */
    method ToggleUserStatus(userId: nat, adminId: nat, now: int) returns (r: Result<User>)
      requires Valid()
      modifies this
      ensures Valid()
      ensures userId !in old(users) ==> r == Err(NotFound("User not found"))
      ensures userId in old(users) && old(users)[userId].role == ADMIN ==>
                r == Err(IllegalArgument("Cannot modify status of an ADMIN account"))
      ensures r.Ok? <==> userId in old(users) && old(users)[userId].role != ADMIN
      ensures r.Ok? ==> r.value == Toggled(old(users)[userId])
      ensures r.Ok? ==> (Snapshot() ==
        Logged(WithUser(old(Snapshot()), r.value),
               Entry(Some(adminId), if r.value.enabled then "USER_UNBANNED" else "USER_BANNED", now,
                     ToggleRemark(r.value.enabled, r.value.username, userId))))
      ensures r.Err? ==> Snapshot() == old(Snapshot())
    {
      if userId !in users {
        return Err(NotFound("User not found"));
      }
      var u := users[userId];
      if RoleName(u.role) == "ADMIN" {
        return Err(IllegalArgument("Cannot modify status of an ADMIN account"));
      }
      var enabled := !u.enabled;
      u := u.(enabled := enabled);
      if !enabled {
        u := u.(activeSessionId := None, sessionCreatedAt := None);
      }
      ghost var saved := WithUser(Snapshot(), u);
      WithUserKeepsInv(Snapshot(), u);
      SaveUser(u);
      var entry := Entry(Some(adminId), if enabled then "USER_UNBANNED" else "USER_BANNED", now,
                         ToggleRemark(enabled, u.username, userId));
      var _ := LogTransaction(entry);
      assert Snapshot() == Logged(saved, entry);
      return Ok(u);
    }

    // ----- Notifications (NotificationService) -----

    /** `createNotification`: unread and stamped now, for an existing user;
        the catch-all reports a missing user as a generic failure. */
    method CreateNotification(userId: nat, message: string, kind: string, now: int) returns (r: Result<Notification>)
      requires Valid()
      modifies this
      ensures Valid()
      ensures r.Ok? <==> userId in old(users)
      ensures r.Err? ==> r.error == RuntimeFailure("Failed to create notification") && Snapshot() == old(Snapshot())
      ensures r.Ok? ==> r.value == Notification(old(nextNotifId), userId, message, kind, false, now)
                        && Snapshot() == WithNotification(old(Snapshot()), userId, message, kind, now)
    {
      if userId !in users {
        return Err(RuntimeFailure("Failed to create notification"));
      }
      WithNotificationKeepsInv(Snapshot(), userId, message, kind, now);
      var n := Notification(nextNotifId, userId, message, kind, false, now);
      notifications := notifications[nextNotifId := n];
      nextNotifId := nextNotifId + 1;
      return Ok(n);
    }

    /** `markAsRead`: the notification must exist and belong to the user. */
    method MarkAsRead(notifId: nat, userId: nat) returns (r: Result<Notification>)
      requires Valid()
      modifies this
      ensures Valid()
      ensures notifId !in old(notifications) ==> r == Err(NotFound("Notification not found"))
      ensures notifId in old(notifications) && old(notifications)[notifId].user != userId ==>
                r == Err(RuntimeFailure("Unauthorized access to notification"))
      ensures r.Ok? <==> notifId in old(notifications) && old(notifications)[notifId].user == userId
      ensures r.Ok? ==> r.value == old(notifications)[notifId].(read := true)
                        && Snapshot() == WithRead(old(Snapshot()), notifId)
      ensures r.Err? ==> Snapshot() == old(Snapshot())
    {
      if notifId !in notifications {
        return Err(NotFound("Notification not found"));
      }
      var n := notifications[notifId];
      if n.user != userId {
        return Err(RuntimeFailure("Unauthorized access to notification"));
      }
      WithReadIdempotent(Snapshot(), notifId);
      n := n.(read := true);
      notifications := notifications[notifId := n];
      return Ok(n);
    }

    /** `markAllAsRead`: the user must exist; each of the user's unread
        notifications, newest first, is marked read. */
    method MarkAllAsRead(userId: nat) returns (r: Outcome)
      requires Valid()
      modifies this
      ensures Valid()
      ensures r.Pass? <==> userId in old(users)
      ensures r.Fail? ==> r.error == NotFound("User not found") && Snapshot() == old(Snapshot())
      ensures r.Pass? ==> Snapshot() == AllRead(old(Snapshot()), userId)
    {
      if userId !in users {
        return Fail(NotFound("User not found"));
      }
      ghost var before := Snapshot();
      var unread := UnreadNotifications(Snapshot(), userId);
      var marked := MarkEachRead(notifications, unread);
      MarkedIsAllRead(before, userId, unread);
      AllReadClearsUnread(before, userId);
      notifications := marked;
      assert Snapshot() == AllRead(before, userId);
      return Pass;
    }

    /** `deleteNotification`: the notification must exist and belong to the
        user. */
    method DeleteNotification(notifId: nat, userId: nat) returns (r: Outcome)
      requires Valid()
      modifies this
      ensures Valid()
      ensures notifId !in old(notifications) ==> r == Fail(NotFound("Notification not found"))
      ensures notifId in old(notifications) && old(notifications)[notifId].user != userId ==>
                r == Fail(RuntimeFailure("Unauthorized access to notification"))
      ensures r.Pass? <==> notifId in old(notifications) && old(notifications)[notifId].user == userId
      ensures r.Pass? ==> Snapshot() == WithoutNotification(old(Snapshot()), notifId)
      ensures r.Fail? ==> Snapshot() == old(Snapshot())
    {
      if notifId !in notifications {
        return Fail(NotFound("Notification not found"));
      }
      if notifications[notifId].user != userId {
        return Fail(RuntimeFailure("Unauthorized access to notification"));
      }
      WithoutNotificationKeepsInv(Snapshot(), notifId);
      notifications := notifications - {notifId};
      return Pass;
    }

    // ----- Accounts and sessions (AuthService) -----

    /** The common tail of both logins: the account is re-read by the
        principal's id, its session replaced by a new one, and the token
        issued for that session. */
    method StartSession(userId: nat, issueToken: string -> string, sessionId: string, now: int)
      returns (r: Result<AuthResponse>)
      requires Valid()
      modifies this
      ensures Valid()
      ensures r.Ok? <==> userId in old(users)
      ensures r.Err? ==> r.error == BadRequest("User not found") && Snapshot() == old(Snapshot())
      ensures r.Ok? ==>
        var u := SessionStarted(old(users)[userId], sessionId, now);
        r.value == AuthResponse(Some(issueToken(sessionId)), u.username, u.email, RoleName(u.role))
        && Snapshot() == WithUser(old(Snapshot()), u)
    {
      if userId !in users {
        return Err(BadRequest("User not found"));
      }
      var u := users[userId];
      if u.activeSessionId.Some? {
        u := u.(activeSessionId := None, sessionCreatedAt := None);
      }
      u := u.(activeSessionId := Some(sessionId), sessionCreatedAt := Some(now));
      WithUserKeepsInv(Snapshot(), u);
      SaveUser(u);
      return Ok(AuthResponse(Some(issueToken(sessionId)), u.username, u.email, RoleName(u.role)));
    }

    /** `loginUser`: `principal` is what authentication produced (None when
        the credentials were refused); administrators are sent to their own
        portal. */
    method LoginUser(principal: Option<User>, issueToken: string -> string, sessionId: string, now: int)
      returns (r: Result<AuthResponse>)
      requires Valid()
      modifies this
      ensures Valid()
      ensures principal.None? ==> r == Err(AuthenticationFailed)
      ensures principal.Some? && principal.value.role == ADMIN ==> r == Err(PortalCheck(principal.value, false).error)
      ensures r.Ok? <==> principal.Some? && principal.value.role != ADMIN && principal.value.id in old(users)
      ensures r.Ok? ==> (Snapshot() == WithUser(old(Snapshot()), SessionStarted(old(users)[principal.value.id], sessionId, now)))
      ensures r.Ok? ==> r.value.token == Some(issueToken(sessionId))
      ensures r.Err? ==> Snapshot() == old(Snapshot())
    {
      if principal.None? {
        return Err(AuthenticationFailed);
      }
      var check := PortalCheck(principal.value, false);
      if check.Fail? {
        return Err(check.error);
      }
      r := StartSession(principal.value.id, issueToken, sessionId, now);
    }

    /** `loginAdmin`: only administrators may sign in here. */
    method LoginAdmin(principal: Option<User>, issueToken: string -> string, sessionId: string, now: int)
      returns (r: Result<AuthResponse>)
      requires Valid()
      modifies this
      ensures Valid()
      ensures principal.None? ==> r == Err(AuthenticationFailed)
      ensures principal.Some? && principal.value.role != ADMIN ==> r == Err(PortalCheck(principal.value, true).error)
      ensures r.Ok? <==> principal.Some? && principal.value.role == ADMIN && principal.value.id in old(users)
      ensures r.Ok? ==> (Snapshot() == WithUser(old(Snapshot()), SessionStarted(old(users)[principal.value.id], sessionId, now)))
      ensures r.Ok? ==> r.value.token == Some(issueToken(sessionId))
      ensures r.Err? ==> Snapshot() == old(Snapshot())
    {
      if principal.None? {
        return Err(AuthenticationFailed);
      }
      var check := PortalCheck(principal.value, true);
      if check.Fail? {
        return Err(check.error);
      }
      r := StartSession(principal.value.id, issueToken, sessionId, now);
    }

    /** `register`: the username, then the email, must be free; the new
        customer is stored and no token is returned. */
    method Register(form: Registration, encode: string -> string) returns (r: Result<AuthResponse>)
      requires Valid()
      modifies this
      ensures Valid()
      ensures UserByName(old(Snapshot()), form.username).Some? ==> r == Err(BadRequest("Username is already taken!"))
      ensures UserByName(old(Snapshot()), form.username).None? && UserByEmail(old(Snapshot()), form.email).Some? ==>
                r == Err(BadRequest("Email is already in use!"))
      ensures r.Ok? <==> UserByName(old(Snapshot()), form.username).None? && UserByEmail(old(Snapshot()), form.email).None?
      ensures r.Ok? ==> r.value == AuthResponse(None, form.username, form.email, "USER")
      ensures r.Ok? ==> Snapshot() == WithNewUser(old(Snapshot()), Registered(old(nextUserId), form, encode(form.password)))
      ensures r.Err? ==> Snapshot() == old(Snapshot())
    {
      if UserByName(Snapshot(), form.username).Some? {
        return Err(BadRequest("Username is already taken!"));
      }
      if UserByEmail(Snapshot(), form.email).Some? {
        return Err(BadRequest("Email is already in use!"));
      }
      var u := Registered(nextUserId, form, encode(form.password));
      WithNewUserKeepsInv(Snapshot(), u);
      InsertUser(u);
      return Ok(AuthResponse(None, u.username, u.email, RoleName(u.role)));
    }

    /** `changePassword`: the account must exist, the current password must
        match the stored hash, and the new password must be confirmed. */
    method ChangePassword(username: string, currentPassword: string, newPassword: string, confirmPassword: string,
                          matches: (string, string) -> bool, encode: string -> string) returns (r: Outcome)
      requires Valid()
      modifies this
      ensures Valid()
      ensures UserByName(old(Snapshot()), username).None? ==>
                r == Fail(NotFound("User not found with username: " + username))
      ensures r.Pass? <==>
        var k := UserByName(old(Snapshot()), username);
        k.Some? && matches(currentPassword, old(users)[k.value].password) && newPassword == confirmPassword
      ensures r.Pass? ==>
        var k := UserByName(old(Snapshot()), username).value;
        Snapshot() == WithUser(old(Snapshot()), old(users)[k].(password := encode(newPassword)))
      ensures r.Fail? ==> Snapshot() == old(Snapshot())
    {
      var found := UserByName(Snapshot(), username);
      if found.None? {
        return Fail(NotFound("User not found with username: " + username));
      }
      var u := users[found.value];
      if !matches(currentPassword, u.password) {
        return Fail(BadRequest("Current password is incorrect"));
      }
      if newPassword != confirmPassword {
        return Fail(BadRequest("New passwords do not match"));
      }
      u := u.(password := encode(newPassword));
      WithUserKeepsInv(Snapshot(), u);
      SaveUser(u);
      return Pass;
    }

    /** `updateProfile`: the given fields replace the stored ones. */
    method UpdateProfile(username: string, firstName: Option<string>, lastName: Option<string>,
                         phoneNumber: Option<string>, address: Option<string>) returns (r: Result<User>)
      requires Valid()
      modifies this
      ensures Valid()
      ensures r.Err? <==> UserByName(old(Snapshot()), username).None?
      ensures r.Err? ==> r.error == NotFound("User not found with username: " + username) && Snapshot() == old(Snapshot())
      ensures r.Ok? ==>
        r.value == ProfileUpdated(old(users)[UserByName(old(Snapshot()), username).value], firstName, lastName, phoneNumber, address)
        && Snapshot() == WithUser(old(Snapshot()), r.value)
    {
      var found := UserByName(Snapshot(), username);
      if found.None? {
        return Err(NotFound("User not found with username: " + username));
      }
      var u := users[found.value];
      if firstName.Some? {
        u := u.(firstName := firstName);
      }
      if lastName.Some? {
        u := u.(lastName := lastName);
      }
      if phoneNumber.Some? {
        u := u.(phoneNumber := phoneNumber);
      }
      if address.Some? {
        u := u.(address := address);
      }
      WithUserKeepsInv(Snapshot(), u);
      SaveUser(u);
      return Ok(u);
    }

    /** `createDefaultAdmin`. */
    method CreateDefaultAdmin(encode: string -> string)
      requires Valid()
      modifies this
      ensures Valid()
      ensures Snapshot() == DefaultAdminCreated(old(Snapshot()), encode(DefaultAdminPassword))
    {
      DefaultAdminIdempotent(Snapshot(), encode(DefaultAdminPassword), encode(DefaultAdminPassword));
      if UserByName(Snapshot(), DefaultAdminUsername).None? && UserByEmail(Snapshot(), DefaultAdminEmail).None? {
        InsertUser(DefaultAdmin(nextUserId, encode(DefaultAdminPassword)));
      }
    }

    /** `logout`: the account's session is cleared and its update time set;
        an unknown username changes nothing and nothing is reported. */
    method Logout(username: string, now: int)
      requires Valid()
      modifies this
      ensures Valid()
      ensures UserByName(old(Snapshot()), username).None? ==> Snapshot() == old(Snapshot())
      ensures UserByName(old(Snapshot()), username).Some? ==>
        Snapshot() == WithUser(old(Snapshot()), LoggedOut(old(users)[UserByName(old(Snapshot()), username).value], now))
    {
      var found := UserByName(Snapshot(), username);
      if found.Some? {
        var u := users[found.value].(activeSessionId := None, sessionCreatedAt := None, updatedAt := Some(now));
        WithUserKeepsInv(Snapshot(), u);
        SaveUser(u);
      }
    }

    /** `clearExpiredSessions`: the expired accounts are selected first, then
        each one's session is cleared. */
    method ClearExpiredSessions(now: int)
      requires Valid()
      modifies this
      ensures Valid()
      ensures Snapshot() == ExpiredCleared(old(Snapshot()), now)
    {
      ghost var before := Snapshot();
      var expired := ExpiredAccounts(Snapshot(), now);
      var cleared := ClearEachSession(users, expired);
      ClearedIsExpiredCleared(before, now, expired);
      ExpiredClearedKeepsInv(before, now);
      users := cleared;
      assert Snapshot() == ExpiredCleared(before, now);
    }
  }

  /** The loop of `markAllAsRead`: each listed notification is saved read. */
  method MarkEachRead(notifications: map<nat, Notification>, unread: seq<Notification>)
    returns (marked: map<nat, Notification>)
    requires forall k :: k in notifications ==> notifications[k].notifId == k
    requires forall n :: n in unread ==> n.notifId in notifications && notifications[n.notifId] == n
    ensures marked == map k | k in notifications ::
              if notifications[k] in unread then notifications[k].(read := true) else notifications[k]
  {
    marked := notifications;
    for i := 0 to |unread|
      invariant marked.Keys == notifications.Keys
      invariant forall k :: k in notifications ==>
                  marked[k] == if notifications[k] in unread[..i] then notifications[k].(read := true)
                               else notifications[k]
    {
      var n := unread[i];
      marked := marked[n.notifId := n.(read := true)];
      assert unread[..i + 1] == unread[..i] + [n];
    }
    assert unread[..|unread|] == unread;
  }

  /** The loop of `clearExpiredSessions`: each listed account is saved
      without a session. */
  method ClearEachSession(users: map<nat, User>, expired: seq<User>) returns (cleared: map<nat, User>)
    requires forall k :: k in users ==> users[k].id == k
    requires forall u :: u in expired ==> u.id in users && users[u.id] == u
    ensures cleared == map k | k in users ::
              if users[k] in expired then users[k].(activeSessionId := None, sessionCreatedAt := None) else users[k]
  {
    cleared := users;
    for i := 0 to |expired|
      invariant cleared.Keys == users.Keys
      invariant forall k :: k in users ==>
                  cleared[k] == if users[k] in expired[..i] then users[k].(activeSessionId := None, sessionCreatedAt := None)
                                else users[k]
    {
      var u := expired[i];
      cleared := cleared[u.id := u.(activeSessionId := None, sessionCreatedAt := None)];
      assert expired[..i + 1] == expired[..i] + [u];
    }
    assert expired[..|expired|] == expired;
  }

  /** Marking the listed notifications read is `AllRead` when the list holds
      exactly the user's unread ones: a read one stays as it is. */
  lemma MarkedIsAllRead(s: State, userId: nat, unread: seq<Notification>)
    requires forall n :: n in unread <==> n in s.notifications.Values && n.user == userId && !n.read
    ensures (map k | k in s.notifications ::
               if s.notifications[k] in unread then s.notifications[k].(read := true) else s.notifications[k])
            == AllRead(s, userId).notifications
  {
  }

  /** Clearing the listed sessions is `ExpiredCleared` when the list holds
      exactly the expired accounts. */
  lemma ClearedIsExpiredCleared(s: State, now: int, expired: seq<User>)
    requires forall u :: u in expired <==> u in s.users.Values && SessionExpired(u, now)
    ensures (map k | k in s.users ::
               if s.users[k] in expired then s.users[k].(activeSessionId := None, sessionCreatedAt := None)
               else s.users[k])
            == ExpiredCleared(s, now).users
  {
  }
}
