/** The pawnshop database as a value: the five tables keyed by their
    generated ids, the next id of each table, the invariant every service
    operation keeps, the queries the services run, and the change each
    operation makes, stated as a function from the old database to the
    new one. The `Pawnshop.Shop` class performs these changes in place. */
module Store {
  import opened Wrappers
  import opened Entities
  import opened Tables
  import opened Wallet
  import opened Requests
  import opened Accounts

  datatype State = State(
    users: map<nat, User>,
    requests: map<nat, PawnRequest>,
    loans: map<nat, Loan>,
    logs: map<nat, TransactionLog>,
    notifications: map<nat, Notification>,
    nextUserId: nat,
    nextPawnId: nat,
    nextLoanId: nat,
    nextLogId: nat,
    nextNotifId: nat)

  const Empty: State := State(map[], map[], map[], map[], map[], 0, 0, 0, 0, 0)

  // ----- The invariant -----

  /** Every account is stored under its own id, below the next id. */
  predicate UsersKeyed(users: map<nat, User>, next: nat)
  {
    forall k | k in users :: k < next && users[k].id == k
  }

  /** No two accounts share a username or an email. */
  predicate UniqueLogins(users: map<nat, User>)
  {
    forall a, b | a in users && b in users && a != b ::
      users[a].username != users[b].username && users[a].email != users[b].email
  }

  /** No wallet is overdrawn. */
  predicate SolventWallets(users: map<nat, User>)
  {
    forall k | k in users :: Current(users[k].walletBalance) >= 0
  }

  predicate RequestsKeyed(requests: map<nat, PawnRequest>, next: nat)
  {
    forall k | k in requests :: k < next && requests[k].pawnId == k
  }

  /** Every pawn request belongs to a stored account. */
  predicate OwnersExist(requests: map<nat, PawnRequest>, users: map<nat, User>)
  {
    forall k | k in requests :: requests[k].owner in users
  }

  predicate LoansKeyed(loans: map<nat, Loan>, next: nat)
  {
    forall k | k in loans :: k < next && loans[k].loanId == k
  }

  /** The one-to-one link between a request and its loan, seen from both
      sides: a request's loan points back at the request, and every loan's
      request points at the loan. */
  predicate LoansLinked(requests: map<nat, PawnRequest>, loans: map<nat, Loan>)
  {
    (forall p | p in requests && requests[p].loan.Some? ::
       requests[p].loan.value in loans && loans[requests[p].loan.value].pawnItem == p)
    && (forall l | l in loans :: loans[l].pawnItem in requests && requests[loans[l].pawnItem].loan == Some(l))
  }

  predicate LogsKeyed(logs: map<nat, TransactionLog>, next: nat)
  {
    forall k | k in logs :: k < next && logs[k].logId == k
  }

  predicate NotificationsKeyed(notifications: map<nat, Notification>, next: nat)
  {
    forall k | k in notifications :: k < next && notifications[k].notifId == k
  }

  /** Every notification is addressed to a stored account. */
  predicate RecipientsExist(notifications: map<nat, Notification>, users: map<nat, User>)
  {
    forall k | k in notifications :: notifications[k].user in users
  }

  predicate Inv(s: State)
  {
    UsersKeyed(s.users, s.nextUserId) && UniqueLogins(s.users) && SolventWallets(s.users)
    && RequestsKeyed(s.requests, s.nextPawnId) && OwnersExist(s.requests, s.users)
    && LoansKeyed(s.loans, s.nextLoanId) && LoansLinked(s.requests, s.loans)
    && LogsKeyed(s.logs, s.nextLogId)
    && NotificationsKeyed(s.notifications, s.nextNotifId) && RecipientsExist(s.notifications, s.users)
  }

  // ----- Queries -----

  function UserTable(s: State): seq<User>
  {
    InKeyOrder(s.users, s.nextUserId)
  }

  function RequestTable(s: State): seq<PawnRequest>
  {
    InKeyOrder(s.requests, s.nextPawnId)
  }

  function LogTable(s: State): seq<TransactionLog>
  {
    InKeyOrder(s.logs, s.nextLogId)
  }

  function NotificationTable(s: State): seq<Notification>
  {
    InKeyOrder(s.notifications, s.nextNotifId)
  }

  /** The stored notifications satisfying `p` are as many as their keys. */
  lemma NotificationRows(s: State, p: Notification -> bool)
    ensures |Filter(NotificationTable(s), p)| == |KeysWhere(s.notifications, s.nextNotifId, p)|
  {
    CountInKeyOrder(s.notifications, s.nextNotifId, p);
  }

  /** `findByUsername`: the id of the account with that username. */
  function UserByName(s: State, username: string): (r: Option<nat>)
    requires UsersKeyed(s.users, s.nextUserId)
    ensures r.Some? ==> r.value in s.users && s.users[r.value].username == username
    ensures r.None? <==> forall k :: k in s.users ==> s.users[k].username != username
  {
    FindKey(s.users, s.nextUserId, (u: User) => u.username == username)
  }

  /** `existsByEmail`: the id of the account with that email. */
  function UserByEmail(s: State, email: string): (r: Option<nat>)
    requires UsersKeyed(s.users, s.nextUserId)
    ensures r.Some? ==> r.value in s.users && s.users[r.value].email == email
    ensures r.None? <==> forall k :: k in s.users ==> s.users[k].email != email
  {
    FindKey(s.users, s.nextUserId, (u: User) => u.email == email)
  }

  /** `findByUser`: the requests of one owner, in id order. */
  function UserRequests(s: State, owner: nat): (r: seq<PawnRequest>)
    requires RequestsKeyed(s.requests, s.nextPawnId)
    ensures forall x :: x in r <==> x in s.requests.Values && x.owner == owner
  {
    Filter(RequestTable(s), (x: PawnRequest) => x.owner == owner)
  }

  /** `findPendingOrApprovedByUser`: the owner's requests still awaiting
      processing. */
  function PendingOrApproved(s: State, owner: nat): (r: seq<PawnRequest>)
    requires RequestsKeyed(s.requests, s.nextPawnId)
    ensures forall x :: x in r <==> x in s.requests.Values && x.owner == owner && Outstanding(x)
  {
    Filter(RequestTable(s), (x: PawnRequest) => x.owner == owner && Outstanding(x))
  }

  /** `getUserDashboardStats`: the owner must exist; the figures are those
      of the owner's requests and wallet. */
  function DashboardOf(s: State, userId: nat, today: int): (r: Result<DashboardStats>)
    requires RequestsKeyed(s.requests, s.nextPawnId)
    ensures r.Ok? <==> userId in s.users
    ensures r.Err? ==> r.error == NotFound("User not found")
    ensures r.Ok? ==> r.value.activePawns == |PawnedOnly(UserRequests(s, userId))|
                      && r.value.loanAmount == Current(s.users[userId].walletBalance)
                      && r.value.dueSoon <= r.value.activePawns
  {
    if userId !in s.users then Err(NotFound("User not found"))
    else Ok(Dashboard(UserRequests(s, userId), s.users[userId].walletBalance, s.loans, today))
  }

  /** The customer's loan list of `getUserLoans`: the owner's PAWNED
      requests; the controller reports any failure as "Failed to retrieve
      loans". */
  function UserLoans(s: State, userId: nat): (r: Result<seq<PawnRequest>>)
    requires RequestsKeyed(s.requests, s.nextPawnId)
    ensures r.Ok? <==> userId in s.users
    ensures r.Err? ==> r.error == RuntimeFailure("Failed to retrieve loans")
    ensures r.Ok? ==> forall x :: x in r.value <==>
                        x in s.requests.Values && x.owner == userId && x.status == "PAWNED"
    ensures r.Ok? ==> r.value == PawnedOnly(UserRequests(s, userId))
  {
    if userId !in s.users then Err(RuntimeFailure("Failed to retrieve loans"))
    else Ok(PawnedOnly(UserRequests(s, userId)))
  }

  function LogTime(l: TransactionLog): int
  {
    l.timestamp
  }

  /** The filter of `findByUserIdOrderByTimestampDesc`. */
  function LogsOf(userId: nat): TransactionLog -> bool
  {
    (l: TransactionLog) => l.user == Some(userId)
  }

  /** `getAllLogs`: every log, newest first. */
  function AllLogs(s: State): (r: seq<TransactionLog>)
    requires LogsKeyed(s.logs, s.nextLogId)
    ensures SortedDesc(r, LogTime)
    ensures multiset(r) == multiset(LogTable(s))
    ensures forall l :: l in r <==> l in s.logs.Values
  {
    var r := SortDesc(LogTable(s), LogTime);
    assert forall l :: l in r <==> l in LogTable(s) by {
      forall l ensures l in r <==> l in LogTable(s) {
        assert l in r <==> l in multiset(r);
      }
    }
    r
  }

  /** `getUserLogs`: that user's logs, newest first. */
  function UserLogs(s: State, userId: nat): (r: seq<TransactionLog>)
    requires LogsKeyed(s.logs, s.nextLogId)
    ensures SortedDesc(r, LogTime)
    ensures multiset(r) == multiset(Filter(LogTable(s), LogsOf(userId)))
    ensures forall l :: l in r <==> l in s.logs.Values && l.user == Some(userId)
  {
    var own := Filter(LogTable(s), LogsOf(userId));
    var r := SortDesc(own, LogTime);
    assert forall l :: l in r <==> l in own by {
      forall l ensures l in r <==> l in own {
        assert l in r <==> l in multiset(r);
      }
    }
    r
  }

  function NotificationTime(n: Notification): int
  {
    n.timestamp
  }

  /** `getUserNotifications`: the user must exist; that user's
      notifications, newest first. */
  function UserNotifications(s: State, userId: nat): (r: Result<seq<Notification>>)
    requires NotificationsKeyed(s.notifications, s.nextNotifId)
    ensures r.Ok? <==> userId in s.users
    ensures r.Err? ==> r.error == NotFound("User not found")
    ensures r.Ok? ==> SortedDesc(r.value, NotificationTime)
    ensures r.Ok? ==> forall n :: n in r.value <==> n in s.notifications.Values && n.user == userId
    ensures r.Ok? ==> |r.value| == |set k | k in s.notifications && s.notifications[k].user == userId|
  {
    if userId !in s.users then Err(NotFound("User not found"))
    else
      NewestFirst(s, OwnedBy(userId));
      OwnKeys(s, userId);
      Ok(SortDesc(Filter(NotificationTable(s), OwnedBy(userId)), NotificationTime))
  }

  /** The keys of one user's notifications. */
  lemma OwnKeys(s: State, userId: nat)
    requires NotificationsKeyed(s.notifications, s.nextNotifId)
    ensures KeysWhere(s.notifications, s.nextNotifId, OwnedBy(userId))
            == set k | k in s.notifications && s.notifications[k].user == userId
  {
  }

  /** The keys of one user's unread notifications. */
  lemma UnreadKeys(s: State, userId: nat)
    requires NotificationsKeyed(s.notifications, s.nextNotifId)
    ensures KeysWhere(s.notifications, s.nextNotifId, UnreadOf(userId))
            == set k | k in s.notifications && s.notifications[k].user == userId
                                            && !s.notifications[k].read
  {
  }

  /** The stored notifications satisfying `p`, newest first: each of them
      once. */
  lemma NewestFirst(s: State, p: Notification -> bool)
    requires NotificationsKeyed(s.notifications, s.nextNotifId)
    ensures var r := SortDesc(Filter(NotificationTable(s), p), NotificationTime);
            (forall n :: n in r <==> n in s.notifications.Values && p(n))
            && |r| == |KeysWhere(s.notifications, s.nextNotifId, p)|
  {
    var own := Filter(NotificationTable(s), p);
    var r := SortDesc(own, NotificationTime);
    forall n ensures n in r <==> n in own {
      assert n in r <==> n in multiset(r);
    }
    assert |multiset(r)| == |multiset(own)|;
    NotificationRows(s, p);
  }

  /** The notifications of one user. */
  function OwnedBy(userId: nat): Notification -> bool
  {
    (n: Notification) => n.user == userId
  }

  /** The unread notifications of one user. */
  function UnreadOf(userId: nat): Notification -> bool
  {
    (n: Notification) => n.user == userId && !n.read
  }

  /** `getUnreadCount`: the user must exist; the number of that user's
      unread notifications. */
  function UnreadCount(s: State, userId: nat): (r: Result<nat>)
    requires NotificationsKeyed(s.notifications, s.nextNotifId)
    ensures r.Ok? <==> userId in s.users
    ensures r.Err? ==> r.error == NotFound("User not found")
    ensures r.Ok? ==> r.value == |set k | k in s.notifications && s.notifications[k].user == userId
                                               && !s.notifications[k].read|
    ensures r.Ok? ==> (r.value == 0 <==>
                       forall n :: n in s.notifications.Values && n.user == userId ==> n.read)
  {
    if userId !in s.users then Err(NotFound("User not found"))
    else
      var m := s.notifications;
      var unread := Filter(NotificationTable(s), UnreadOf(userId));
      assert forall n :: n in unread <==> n in m.Values && n.user == userId && !n.read;
      assert unread != [] ==> unread[0] in unread;
      CountInKeyOrder(m, s.nextNotifId, UnreadOf(userId));
      UnreadKeys(s, userId);
      assert NotificationTable(s) == InKeyOrder(m, s.nextNotifId);
      Ok(CountWhere(NotificationTable(s), UnreadOf(userId)))
  }

  /** `findByUserAndIsReadFalseOrderByTimestampDesc`: the user's unread
      notifications, newest first. */
  function UnreadNotifications(s: State, userId: nat): (r: seq<Notification>)
    requires NotificationsKeyed(s.notifications, s.nextNotifId)
    ensures SortedDesc(r, NotificationTime)
    ensures forall n :: n in r <==> n in s.notifications.Values && n.user == userId && !n.read
    ensures |r| == |set k | k in s.notifications && s.notifications[k].user == userId
                            && !s.notifications[k].read|
  {
    NewestFirst(s, UnreadOf(userId));
    UnreadKeys(s, userId);
    SortDesc(Filter(NotificationTable(s), UnreadOf(userId)), NotificationTime)
  }

  /** The accounts `clearExpiredSessions` selects: those whose session is
      set and older than one hour, in id order. */
  function ExpiredAccounts(s: State, now: int): (r: seq<User>)
    requires UsersKeyed(s.users, s.nextUserId)
    ensures forall u :: u in r <==> u in s.users.Values && SessionExpired(u, now)
  {
    Filter(UserTable(s), (u: User) => SessionExpired(u, now))
  }

  // ----- Changes -----

  /** A log entry as the services build it: remarks set, no condition; the
      id is assigned when the entry is stored. */
  function Entry(user: Option<nat>, action: string, at: int, remarks: string): TransactionLog
  {
    TransactionLog(0, user, action, at, Some(remarks), None)
  }

  /** `logTransaction`: the entry stored under the next log id. */
  function Logged(s: State, entry: TransactionLog): State
  {
    s.(logs := s.logs[s.nextLogId := entry.(logId := s.nextLogId)], nextLogId := s.nextLogId + 1)
  }

  /** Logging appends exactly one entry to the log table and changes
      nothing else. */
  lemma LoggedAppends(s: State, entry: TransactionLog)
    requires Inv(s)
    ensures Inv(Logged(s, entry))
    ensures LogTable(Logged(s, entry)) == LogTable(s) + [entry.(logId := s.nextLogId)]
    ensures Logged(s, entry).(logs := s.logs, nextLogId := s.nextLogId) == s
  {
    InKeyOrderAppend(s.logs, s.nextLogId, entry.(logId := s.nextLogId));
  }

  /** An account stored over the one with the same id. */
  function WithUser(s: State, u: User): State
  {
    s.(users := s.users[u.id := u])
  }

  /** Replacing an account by one with the same id, username and email and
      a wallet that is not overdrawn keeps the invariant. */
  lemma WithUserKeepsInv(s: State, u: User)
    requires Inv(s) && u.id in s.users
    requires u.username == s.users[u.id].username && u.email == s.users[u.id].email
    requires Current(u.walletBalance) >= 0
    ensures Inv(WithUser(s, u))
  {
    var t := WithUser(s, u);
    assert UniqueLogins(t.users) by {
      forall a, b | a in t.users && b in t.users && a != b
        ensures t.users[a].username != t.users[b].username && t.users[a].email != t.users[b].email
      {
        assert t.users[a].username == s.users[a].username && t.users[a].email == s.users[a].email;
        assert t.users[b].username == s.users[b].username && t.users[b].email == s.users[b].email;
      }
    }
  }

  /** A new account stored under the next user id. */
  function WithNewUser(s: State, u: User): State
  {
    s.(users := s.users[s.nextUserId := u.(id := s.nextUserId)], nextUserId := s.nextUserId + 1)
  }

  /** A new account whose username and email are free keeps the invariant,
      and is then the last row of the user table. */
  lemma WithNewUserKeepsInv(s: State, u: User)
    requires Inv(s)
    requires UserByName(s, u.username).None? && UserByEmail(s, u.email).None?
    requires Current(u.walletBalance) >= 0
    ensures Inv(WithNewUser(s, u))
    ensures UserTable(WithNewUser(s, u)) == UserTable(s) + [u.(id := s.nextUserId)]
  {
    InKeyOrderAppend(s.users, s.nextUserId, u.(id := s.nextUserId));
    NewLoginUnique(s.users, s.nextUserId, u);
  }

  /** An account whose username and email no stored account has keeps the
      logins unique. */
  lemma NewLoginUnique(users: map<nat, User>, next: nat, u: User)
    requires UniqueLogins(users) && next !in users
    requires forall k :: k in users ==> users[k].username != u.username
    requires forall k :: k in users ==> users[k].email != u.email
    ensures UniqueLogins(users[next := u.(id := next)])
  {
    var t := users[next := u.(id := next)];
    forall a, b | a in t && b in t && a != b
      ensures t[a].username != t[b].username && t[a].email != t[b].email
    {
      if a == next {
        assert b in users;
      } else if b == next {
        assert a in users;
      }
    }
  }

  /** `createPawnRequest`'s insert: the new request under the next pawn id. */
  function WithNewRequest(s: State, owner: nat, form: PawnSubmission): State
  {
    s.(requests := s.requests[s.nextPawnId := NewRequest(s.nextPawnId, owner, form)],
       nextPawnId := s.nextPawnId + 1)
  }

  /** A submission by a stored account keeps the invariant and adds exactly
      one request at the end of the table. */
  lemma WithNewRequestKeepsInv(s: State, owner: nat, form: PawnSubmission)
    requires Inv(s) && owner in s.users
    ensures Inv(WithNewRequest(s, owner, form))
    ensures RequestTable(WithNewRequest(s, owner, form)) == RequestTable(s) + [NewRequest(s.nextPawnId, owner, form)]
  {
    InKeyOrderAppend(s.requests, s.nextPawnId, NewRequest(s.nextPawnId, owner, form));
    NewRequestLinked(s.requests, s.loans, s.nextPawnId, NewRequest(s.nextPawnId, owner, form));
  }

  /** A request without a loan stored under an unused id keeps the link
      between requests and loans. */
  lemma NewRequestLinked(requests: map<nat, PawnRequest>, loans: map<nat, Loan>, id: nat, r: PawnRequest)
    requires LoansLinked(requests, loans) && id !in requests && r.loan.None?
    ensures LoansLinked(requests[id := r], loans)
  {
    forall l | l in loans
      ensures loans[l].pawnItem in requests[id := r] && requests[id := r][loans[l].pawnItem].loan == Some(l)
    {
      assert loans[l].pawnItem != id;
    }
  }

  /** The one-outstanding-request rule: right after a submission the owner
      has an outstanding request, so the next submission is refused. */
  lemma SecondSubmissionRefused(s: State, owner: nat, form: PawnSubmission)
    requires Inv(s) && owner in s.users
    ensures PendingOrApproved(WithNewRequest(s, owner, form), owner) != []
  {
    WithNewRequestKeepsInv(s, owner, form);
    var t := WithNewRequest(s, owner, form);
    assert NewRequest(s.nextPawnId, owner, form) in t.requests.Values by {
      assert t.requests[s.nextPawnId] == NewRequest(s.nextPawnId, owner, form);
    }
  }

  /** A request stored over the one with the same id. */
  function WithRequest(s: State, r: PawnRequest): State
  {
    s.(requests := s.requests[r.pawnId := r])
  }

  /** Replacing a request by one with the same id, owner and loan keeps the
      invariant. */
  lemma WithRequestKeepsInv(s: State, r: PawnRequest)
    requires Inv(s) && r.pawnId in s.requests
    requires r.owner == s.requests[r.pawnId].owner && r.loan == s.requests[r.pawnId].loan
    ensures Inv(WithRequest(s, r))
  {
  }

  /** `createLoan`'s save: the loan stored under its id and its request
      PAWNED and linked to it. */
  function WithLoan(s: State, loan: Loan): State
    requires loan.pawnItem in s.requests
  {
    s.(loans := s.loans[loan.loanId := loan],
       requests := s.requests[loan.pawnItem := Pawned(s.requests[loan.pawnItem], loan.loanId)],
       nextLoanId := s.nextLoanId + 1)
  }

  /** Linking a request without a loan to a fresh loan keeps the link
      one-to-one. */
  lemma LinkFreshLoan(requests: map<nat, PawnRequest>, loans: map<nat, Loan>, loan: Loan)
    requires LoansLinked(requests, loans)
    requires loan.pawnItem in requests && requests[loan.pawnItem].loan.None? && loan.loanId !in loans
    ensures LoansLinked(requests[loan.pawnItem := Pawned(requests[loan.pawnItem], loan.loanId)],
                        loans[loan.loanId := loan])
  {
    var rs := requests[loan.pawnItem := Pawned(requests[loan.pawnItem], loan.loanId)];
    var ls := loans[loan.loanId := loan];
    forall l | l in ls
      ensures ls[l].pawnItem in rs && rs[ls[l].pawnItem].loan == Some(l)
    {
      if l != loan.loanId {
        assert loans[l].pawnItem != loan.pawnItem;
      }
    }
  }

  /** Storing a fresh loan for a request without one keeps the invariant. */
  lemma WithFreshLoanKeepsInv(s: State, loan: Loan)
    requires Inv(s) && loan.pawnItem in s.requests && s.requests[loan.pawnItem].loan.None?
    requires loan.loanId == s.nextLoanId
    ensures Inv(WithLoan(s, loan))
  {
    assert s.nextLoanId !in s.loans;
    LinkFreshLoan(s.requests, s.loans, loan);
  }

  /** The loan `createLoan` grants keeps the invariant, is linked to its
      request both ways, and the request cannot be granted a second loan. */
  lemma WithLoanKeepsInv(s: State, pawnId: nat, today: int, later: int)
    requires Inv(s) && pawnId in s.requests
    requires LoanFor(s.requests[pawnId], s.nextLoanId, today).Ok?
    ensures var t := WithLoan(s, LoanFor(s.requests[pawnId], s.nextLoanId, today).value);
      Inv(t) && t.requests[pawnId].loan == Some(s.nextLoanId) && t.loans[s.nextLoanId].pawnItem == pawnId
      && t.requests[pawnId].status == "PAWNED"
      && LoanFor(t.requests[pawnId], t.nextLoanId, later).Err?
  {
    var loan := LoanFor(s.requests[pawnId], s.nextLoanId, today).value;
    WithFreshLoanKeepsInv(s, loan);
    NoSecondLoan(s.requests[pawnId], s.nextLoanId, s.nextLoanId + 1, today, later);
  }

  /** `deletePawnRequest`'s delete: the request and, by cascade, its loan. */
  function WithoutRequest(s: State, pawnId: nat): State
    requires pawnId in s.requests
  {
    s.(requests := s.requests - {pawnId},
       loans := if s.requests[pawnId].loan.Some? then s.loans - {s.requests[pawnId].loan.value} else s.loans)
  }

  /** Deleting a request keeps the invariant and removes exactly that row. */
  lemma WithoutRequestKeepsInv(s: State, pawnId: nat)
    requires Inv(s) && pawnId in s.requests
    ensures Inv(WithoutRequest(s, pawnId))
    ensures RequestTable(WithoutRequest(s, pawnId)) == Filter(RequestTable(s), (r: PawnRequest) => r.pawnId != pawnId)
  {
    var t := WithoutRequest(s, pawnId);
    InKeyOrderRestrict(s.requests, t.requests, s.nextPawnId, (r: PawnRequest) => r.pawnId != pawnId);
    RemovedRequestLinked(s.requests, s.loans, pawnId);
  }

  /** Removing a request together with its loan keeps the link between
      requests and loans. */
  lemma RemovedRequestLinked(requests: map<nat, PawnRequest>, loans: map<nat, Loan>, pawnId: nat)
    requires LoansLinked(requests, loans) && pawnId in requests
    ensures var ls := if requests[pawnId].loan.Some? then loans - {requests[pawnId].loan.value} else loans;
            LoansLinked(requests - {pawnId}, ls)
  {
    var rs := requests - {pawnId};
    var ls := if requests[pawnId].loan.Some? then loans - {requests[pawnId].loan.value} else loans;
    forall p | p in rs && rs[p].loan.Some?
      ensures rs[p].loan.value in ls && ls[rs[p].loan.value].pawnItem == p
    {
      assert loans[requests[p].loan.value].pawnItem == p;
    }
  }

  /** `deleteUserTransactionLog`'s delete. */
  function WithoutLog(s: State, logId: nat): State
  {
    s.(logs := s.logs - {logId})
  }

  /** Deleting a log keeps the invariant and removes exactly the row with
      that id. */
  lemma WithoutLogKeepsInv(s: State, logId: nat)
    requires Inv(s)
    ensures Inv(WithoutLog(s, logId))
    ensures LogTable(WithoutLog(s, logId)) == Filter(LogTable(s), (l: TransactionLog) => l.logId != logId)
  {
    InKeyOrderRestrict(s.logs, s.logs - {logId}, s.nextLogId, (l: TransactionLog) => l.logId != logId);
  }

  /** The logs not written for a given user. */
  function NotLogsOf(userId: nat): TransactionLog -> bool
  {
    (l: TransactionLog) => l.user != Some(userId)
  }

  /** `clearUserTransactionHistory` (`deleteByUserId`). */
  function WithoutUserLogs(s: State, userId: nat): State
  {
    s.(logs := map k | k in s.logs && s.logs[k].user != Some(userId) :: s.logs[k])
  }

  /** Clearing a user's history keeps the invariant, removes all and only
      that user's logs, and leaves every other user's history as it was. */
  lemma ClearedHistory(s: State, userId: nat)
    requires Inv(s)
    ensures Inv(WithoutUserLogs(s, userId))
    ensures LogTable(WithoutUserLogs(s, userId)) == Filter(LogTable(s), NotLogsOf(userId))
    ensures UserLogs(WithoutUserLogs(s, userId), userId) == []
    ensures forall other :: other != userId ==> UserLogs(WithoutUserLogs(s, userId), other) == UserLogs(s, other)
  {
    var t := WithoutUserLogs(s, userId);
    ClearedHistoryKeepsInv(s, userId);
    InKeyOrderRestrict(s.logs, t.logs, s.nextLogId, NotLogsOf(userId));
    ClearedOwnHistory(s, userId);
    forall other | other != userId
      ensures UserLogs(t, other) == UserLogs(s, other)
    {
      ClearedOtherHistory(s, userId, other);
    }
  }

  lemma ClearedHistoryKeepsInv(s: State, userId: nat)
    requires Inv(s)
    ensures Inv(WithoutUserLogs(s, userId))
  {
  }

  /** Nothing of the user's own history is left. */
  lemma ClearedOwnHistory(s: State, userId: nat)
    requires Inv(s)
    requires LogTable(WithoutUserLogs(s, userId)) == Filter(LogTable(s), NotLogsOf(userId))
    ensures UserLogs(WithoutUserLogs(s, userId), userId) == []
  {
  }

  /** Another user's history reads the same before and after. */
  lemma ClearedOtherHistory(s: State, userId: nat, other: nat)
    requires Inv(s) && other != userId
    requires LogTable(WithoutUserLogs(s, userId)) == Filter(LogTable(s), NotLogsOf(userId))
    ensures UserLogs(WithoutUserLogs(s, userId), other) == UserLogs(s, other)
  {
    FilterFilter(LogTable(s), NotLogsOf(userId), LogsOf(other), LogsOf(other));
  }

  /** `createNotification`'s insert: unread, stamped now, under the next id. */
  function WithNotification(s: State, userId: nat, message: string, kind: string, now: int): State
  {
    s.(notifications := s.notifications[s.nextNotifId := Notification(s.nextNotifId, userId, message, kind, false, now)],
       nextNotifId := s.nextNotifId + 1)
  }

  /** A notification for a stored account keeps the invariant and adds one
      unread notification for that account. */
  lemma WithNotificationKeepsInv(s: State, userId: nat, message: string, kind: string, now: int)
    requires Inv(s) && userId in s.users
    ensures Inv(WithNotification(s, userId, message, kind, now))
    ensures NotificationTable(WithNotification(s, userId, message, kind, now))
            == NotificationTable(s) + [Notification(s.nextNotifId, userId, message, kind, false, now)]
  {
    InKeyOrderAppend(s.notifications, s.nextNotifId, Notification(s.nextNotifId, userId, message, kind, false, now));
  }

  /** `markAsRead`'s update. */
  function WithRead(s: State, notifId: nat): State
    requires notifId in s.notifications
  {
    s.(notifications := s.notifications[notifId := s.notifications[notifId].(read := true)])
  }

  /** Marking a notification read keeps the invariant and is idempotent. */
  lemma WithReadIdempotent(s: State, notifId: nat)
    requires Inv(s) && notifId in s.notifications
    ensures Inv(WithRead(s, notifId))
    ensures WithRead(WithRead(s, notifId), notifId) == WithRead(s, notifId)
  {
    var t := WithRead(s, notifId);
    assert t.notifications[notifId := t.notifications[notifId].(read := true)] == t.notifications;
  }

  /** `deleteNotification`'s delete. */
  function WithoutNotification(s: State, notifId: nat): State
  {
    s.(notifications := s.notifications - {notifId})
  }

  lemma WithoutNotificationKeepsInv(s: State, notifId: nat)
    requires Inv(s)
    ensures Inv(WithoutNotification(s, notifId))
    ensures NotificationTable(WithoutNotification(s, notifId))
            == Filter(NotificationTable(s), (n: Notification) => n.notifId != notifId)
  {
    InKeyOrderRestrict(s.notifications, s.notifications - {notifId}, s.nextNotifId,
      (n: Notification) => n.notifId != notifId);
  }

  /** `markAllAsRead`'s update: every notification of the user read. */
  function AllRead(s: State, userId: nat): State
  {
    s.(notifications := map k | k in s.notifications ::
         if s.notifications[k].user == userId then s.notifications[k].(read := true) else s.notifications[k])
  }

  /** After `markAllAsRead` the user has no unread notification, and every
      other user's notifications are as they were. */
  lemma AllReadClearsUnread(s: State, userId: nat)
    requires Inv(s) && userId in s.users
    ensures Inv(AllRead(s, userId))
    ensures UnreadCount(AllRead(s, userId), userId) == Ok(0)
    ensures forall k :: k in s.notifications && s.notifications[k].user != userId ==>
              AllRead(s, userId).notifications[k] == s.notifications[k]
  {
    var t := AllRead(s, userId);
    assert forall n :: n in t.notifications.Values && n.user == userId ==> n.read;
  }

  /** `clearExpiredSessions`: every expired session cleared. */
  function ExpiredCleared(s: State, now: int): State
  {
    s.(users := map k | k in s.users :: ExpiryApplied(s.users[k], now))
  }

  /** After `clearExpiredSessions` no session is expired, the accounts whose
      session had not expired are unchanged, and the invariant holds. */
  lemma ExpiredClearedKeepsInv(s: State, now: int)
    requires Inv(s)
    ensures Inv(ExpiredCleared(s, now))
    ensures forall k :: k in s.users ==> !SessionExpired(ExpiredCleared(s, now).users[k], now)
    ensures forall k :: k in s.users && !SessionExpired(s.users[k], now) ==>
              ExpiredCleared(s, now).users[k] == s.users[k]
  {
    var m := ExpiredCleared(s, now).users;
    forall k | k in m
      ensures m[k] == ExpiryApplied(s.users[k], now) && SameLogin(m[k], s.users[k])
    {
    }
    SameLoginsKeepInv(s, m);
  }

  /** Two versions of an account that agree on what the invariant looks at. */
  predicate SameLogin(u: User, v: User)
  {
    u.id == v.id && u.username == v.username && u.email == v.email && u.walletBalance == v.walletBalance
  }

  /** Replacing accounts by versions with the same id, logins and wallet
      keeps the invariant. */
  lemma SameLoginsKeepInv(s: State, users: map<nat, User>)
    requires Inv(s)
    requires users.Keys == s.users.Keys
    requires forall k :: k in users ==> SameLogin(users[k], s.users[k])
    ensures Inv(s.(users := users))
  {
    assert UniqueLogins(users) by {
      forall a, b | a in users && b in users && a != b
        ensures users[a].username != users[b].username && users[a].email != users[b].email
      {
        assert SameLogin(users[a], s.users[a]) && SameLogin(users[b], s.users[b]);
      }
    }
  }

  /** `createDefaultAdmin`: the administrator is added only when neither
      its username nor its email is taken. */
  function DefaultAdminCreated(s: State, encodedPassword: string): State
    requires UsersKeyed(s.users, s.nextUserId)
  {
    if UserByName(s, DefaultAdminUsername).None? && UserByEmail(s, DefaultAdminEmail).None? then
      WithNewUser(s, DefaultAdmin(s.nextUserId, encodedPassword))
    else s
  }

  /** Creating the default administrator keeps the invariant and is
      idempotent: a second call changes nothing, whatever password the
      encoder produces. */
  lemma DefaultAdminIdempotent(s: State, encoded: string, encodedAgain: string)
    requires Inv(s)
    ensures Inv(DefaultAdminCreated(s, encoded))
    ensures DefaultAdminCreated(DefaultAdminCreated(s, encoded), encodedAgain) == DefaultAdminCreated(s, encoded)
    ensures UserByName(DefaultAdminCreated(s, encoded), DefaultAdminUsername).Some?
            || UserByEmail(DefaultAdminCreated(s, encoded), DefaultAdminEmail).Some?
  {
    var t := DefaultAdminCreated(s, encoded);
    if UserByName(s, DefaultAdminUsername).None? && UserByEmail(s, DefaultAdminEmail).None? {
      WithNewUserKeepsInv(s, DefaultAdmin(s.nextUserId, encoded));
      assert t.users[s.nextUserId].username == DefaultAdminUsername;
    }
  }
}
