/** The pawn-request and loan rules that do not depend on the store: the
    checks on a submission, the record a submission creates, the terms of a
    new loan, and the queries behind the inventory, the customer dashboard,
    the customer's loan list and the choice of the loan to redeem. */
module Requests {
  import opened Wrappers
  import opened Decimal
  import opened Entities
  import opened Tables
  import opened Photos

  /** Smallest and largest amount a customer may request, in centavos. */
  const MinRequest: Centavos := Pesos(150)
  const MaxRequest: Centavos := Pesos(10000)

  /** A request that still awaits processing (`findPendingOrApprovedByUser`). */
  predicate Outstanding(r: PawnRequest)
  {
    r.status == "PENDING" || r.status == "APPROVED"
  }

  /** The field checks of a submission, in the order the service makes them:
      amount present and at least 150, at most 10,000, not above the
      estimated value, and at most two images when photos are given. */
  function CheckSubmission(form: PawnSubmission): (r: Outcome)
    ensures r.Pass? <==>
      form.requestedAmount.Some? && MinRequest <= form.requestedAmount.value <= MaxRequest
      && (form.estimatedValue.Some? ==> form.requestedAmount.value <= form.estimatedValue.value)
      && (form.photos.Some? && form.photos.value != [] ==> ImageCount(form.photos) <= 2)
    ensures (form.requestedAmount.None? || form.requestedAmount.value < MinRequest) ==>
      r == Fail(BadRequest("Requested amount must be at least 150"))
    ensures form.requestedAmount.Some? && form.requestedAmount.value > MaxRequest ==>
      r == Fail(BadRequest("Requested amount cannot exceed 10,000"))
    ensures r.Fail? ==> r.error.BadRequest?
  {
    if form.requestedAmount.None? || form.requestedAmount.value < MinRequest then
      Fail(BadRequest("Requested amount must be at least 150"))
    else if form.requestedAmount.value > MaxRequest then
      Fail(BadRequest("Requested amount cannot exceed 10,000"))
    else if form.estimatedValue.Some? && form.requestedAmount.value > form.estimatedValue.value then
      Fail(BadRequest("Requested loan amount (" + FormatCentavos(form.requestedAmount.value)
        + ") cannot exceed the estimated value of the item ("
        + FormatCentavos(form.estimatedValue.value) + ")"))
    else if form.photos.Some? && form.photos.value != [] && ImageCount(form.photos) > 2 then
      Fail(BadRequest("Maximum 2 images allowed. You provided " + NatToString(ImageCount(form.photos))))
    else Pass
  }

  /** The checks as `createPawnRequest` makes them, the image count taken
      by the character scan. */
  method CheckForm(form: PawnSubmission) returns (o: Outcome)
    ensures o == CheckSubmission(form)
  {
    if form.requestedAmount.None? || form.requestedAmount.value < MinRequest {
      return Fail(BadRequest("Requested amount must be at least 150"));
    }
    if form.requestedAmount.value > MaxRequest {
      return Fail(BadRequest("Requested amount cannot exceed 10,000"));
    }
    if form.estimatedValue.Some? && form.requestedAmount.value > form.estimatedValue.value {
      return Fail(BadRequest("Requested loan amount (" + FormatCentavos(form.requestedAmount.value)
        + ") cannot exceed the estimated value of the item ("
        + FormatCentavos(form.estimatedValue.value) + ")"));
    }
    if form.photos.Some? && form.photos.value != [] {
      var imageCount := CountImagesInJson(form.photos);
      if imageCount > 2 {
        return Fail(BadRequest("Maximum 2 images allowed. You provided " + NatToString(imageCount)));
      }
    }
    return Pass;
  }

  /** The request a valid submission creates: PENDING, brand "Unknown" and
      category "General" when not given, no appraisal and no loan yet. */
  function NewRequest(pawnId: nat, owner: nat, form: PawnSubmission): (r: PawnRequest)
    ensures r.pawnId == pawnId && r.owner == owner && r.status == "PENDING"
    ensures r.brand == Some(form.brand.GetOr("Unknown")) && r.category == Some(form.category.GetOr("General"))
    ensures r.loan.None? && r.appraisalDate.None? && r.appraisedBy.None?
    ensures Outstanding(r)
  {
    PawnRequest(pawnId, owner, form.itemName, Some(form.category.GetOr("General")), form.condition,
      Some(form.brand.GetOr("Unknown")), form.size, form.description, form.requestedAmount,
      form.estimatedValue, form.photos, "PENDING", None, None, None)
  }

  /** The loan `createLoan` grants against `req`, or why it refuses: the
      request must be APPROVED, must not have a loan yet, and must carry an
      amount; the principal is the estimated value, else the requested
      amount; the terms are 5% interest, due in 30 days, ACTIVE, no penalty. */
  function LoanFor(req: PawnRequest, loanId: nat, today: int): (r: Result<Loan>)
    ensures r.Ok? <==> req.status == "APPROVED" && req.loan.None?
                       && (req.estimatedValue.Some? || req.requestedAmount.Some?)
    ensures req.status != "APPROVED" ==>
      r == Err(BadRequest("Cannot create loan. Pawn request status must be APPROVED, but is: " + req.status))
    ensures req.status == "APPROVED" && req.loan.Some? ==>
      r == Err(BadRequest("Loan already exists for this pawn request"))
    ensures req.status == "APPROVED" && req.loan.None? && req.estimatedValue.None? && req.requestedAmount.None? ==>
      r == Err(BadRequest("Cannot create loan: No amount value found"))
    ensures r.Ok? && req.estimatedValue.Some? ==> r.value.loanAmount == req.estimatedValue.value
    ensures r.Ok? && req.estimatedValue.None? ==> r.value.loanAmount == req.requestedAmount.value
    ensures r.Ok? ==> r.value.loanId == loanId && r.value.pawnItem == req.pawnId
                      && r.value.interestRate == 5 && r.value.dueDate == Some(today + 30)
                      && r.value.status == "ACTIVE" && r.value.penalty == 0 && r.value.dateRedeemed.None?
  {
    if req.status != "APPROVED" then
      Err(BadRequest("Cannot create loan. Pawn request status must be APPROVED, but is: " + req.status))
    else if req.loan.Some? then
      Err(BadRequest("Loan already exists for this pawn request"))
    else
      match (if req.estimatedValue.Some? then req.estimatedValue else req.requestedAmount)
      case None => Err(BadRequest("Cannot create loan: No amount value found"))
      case Some(amount) => Ok(Loan(loanId, req.pawnId, amount, 5, Some(today + 30), "ACTIVE", 0, None))
  }

  /** The request once its loan is granted: PAWNED and linked to the loan. */
  function Pawned(req: PawnRequest, loanId: nat): PawnRequest
  {
    req.(loan := Some(loanId), status := "PAWNED")
  }

  /** A request that received a loan cannot receive a second one. */
  lemma NoSecondLoan(req: PawnRequest, loanId: nat, otherId: nat, today: int, later: int)
    requires LoanFor(req, loanId, today).Ok?
    ensures LoanFor(Pawned(req, loanId), otherId, later).Err?
  {
    assert Pawned(req, loanId).status == "PAWNED";
  }

  /** The request after the administrator's status update: any status is
      stored, with no transition check; APPROVED also stamps the appraisal
      date and the appraising administrator, and fails on a missing
      administrator (the null dereference of the two-argument overload). */
  function StatusUpdated(req: PawnRequest, status: string, adminName: Option<string>, today: int): (r: Result<PawnRequest>)
    ensures r.Err? <==> status == "APPROVED" && adminName.None?
    ensures r.Err? ==> r.error == NullReference
    ensures r.Ok? ==> r.value.status == status
    ensures r.Ok? && status == "APPROVED" ==>
      r.value.appraisalDate == Some(today) && r.value.appraisedBy == adminName
    ensures r.Ok? && status != "APPROVED" ==> r.value == req.(status := status)
    ensures r.Ok? ==> r.value.(status := req.status, appraisalDate := req.appraisalDate,
                               appraisedBy := req.appraisedBy) == req
  {
    if status == "APPROVED" then
      if adminName.None? then Err(NullReference)
      else Ok(req.(status := status, appraisalDate := Some(today), appraisedBy := adminName))
    else Ok(req.(status := status))
  }

  predicate IsPawned(r: PawnRequest)
  {
    r.status == "PAWNED"
  }

  /** The customer's loan list: the requests whose status is PAWNED. */
  function PawnedOnly(reqs: seq<PawnRequest>): (r: seq<PawnRequest>)
    ensures forall x :: x in r <==> x in reqs && x.status == "PAWNED"
    ensures |r| <= |reqs|
  {
    Filter(reqs, IsPawned)
  }

  /** The loan list keeps the order of the requests it is taken from:
      filtering a concatenation filters each part in turn. */
  lemma PawnedOnlyAppend(a: seq<PawnRequest>, b: seq<PawnRequest>)
    ensures PawnedOnly(a + b) == PawnedOnly(a) + PawnedOnly(b)
  {
    FilterAppend(a, b, IsPawned);
  }

  /** A single request is listed once when PAWNED and dropped otherwise. */
  lemma PawnedOnlySingle(x: PawnRequest)
    ensures PawnedOnly([x]) == if x.status == "PAWNED" then [x] else []
  {
  }

  predicate IsApproved(r: PawnRequest)
  {
    r.status == "APPROVED"
  }

  predicate IsForfeited(r: PawnRequest)
  {
    r.status == "FORFEITED"
  }

  /** The inventory: the APPROVED requests followed by the FORFEITED ones;
      each group holds the stored rows of its status once, in stored order. */
  function InventoryItems(reqs: seq<PawnRequest>): (r: seq<PawnRequest>)
    ensures forall x :: x in r <==> x in reqs && (x.status == "APPROVED" || x.status == "FORFEITED")
    ensures forall i, j :: 0 <= i < j < |r| && r[j].status == "APPROVED" ==> r[i].status == "APPROVED"
    ensures Filter(r, IsApproved) == Filter(reqs, IsApproved)
    ensures Filter(r, IsForfeited) == Filter(reqs, IsForfeited)
  {
    var a := Filter(reqs, IsApproved);
    var f := Filter(reqs, IsForfeited);
    var r := a + f;
    InventoryGroups(a, f);
    ApprovedFirst(a, f);
    r
  }

  /** Filtering by `p` drops every row of `o` when none satisfies `p`. */
  lemma FilterNone(o: seq<PawnRequest>, p: PawnRequest -> bool)
    requires forall x :: x in o ==> !p(x)
    ensures Filter(o, p) == []
  {
  }

  /** Filtering `g + o` by `p` gives back `g` when every row of `g` and no
      row of `o` satisfies `p`. */
  lemma GroupFirst(g: seq<PawnRequest>, o: seq<PawnRequest>, p: PawnRequest -> bool)
    requires forall x :: x in g ==> p(x)
    requires forall x :: x in o ==> !p(x)
    ensures Filter(g + o, p) == g
  {
    FilterAppend(g, o, p);
    FilterKeepsAll(g, p);
    FilterNone(o, p);
  }

  /** The same with `g` after `o`. */
  lemma GroupLast(o: seq<PawnRequest>, g: seq<PawnRequest>, p: PawnRequest -> bool)
    requires forall x :: x in g ==> p(x)
    requires forall x :: x in o ==> !p(x)
    ensures Filter(o + g, p) == g
  {
    FilterAppend(o, g, p);
    FilterKeepsAll(g, p);
    FilterNone(o, p);
  }

  /** No APPROVED row follows a FORFEITED one in the inventory. */
  lemma ApprovedFirst(a: seq<PawnRequest>, f: seq<PawnRequest>)
    requires forall x :: x in a ==> x.status == "APPROVED"
    requires forall x :: x in f ==> x.status == "FORFEITED"
    ensures var r := a + f;
            forall i, j :: 0 <= i < j < |r| && r[j].status == "APPROVED" ==> r[i].status == "APPROVED"
  {
    var r := a + f;
    forall i | 0 <= i < |r| ensures i < |a| <==> r[i].status == "APPROVED" {
      if i < |a| { assert r[i] == a[i] && a[i] in a; }
      else { assert r[i] == f[i - |a|] && f[i - |a|] in f; }
    }
  }

  /** The two groups of the inventory are recovered by filtering it. */
  lemma InventoryGroups(a: seq<PawnRequest>, f: seq<PawnRequest>)
    requires forall x :: x in a ==> x.status == "APPROVED"
    requires forall x :: x in f ==> x.status == "FORFEITED"
    ensures Filter(a + f, IsApproved) == a && Filter(a + f, IsForfeited) == f
  {
    GroupFirst(a, f, IsApproved);
    GroupLast(a, f, IsForfeited);
  }

  /** The due date of a request's loan, when it has a loan with a due date. */
  function DueDateOf(r: PawnRequest, loans: map<nat, Loan>): Option<int>
  {
    if r.loan.Some? && r.loan.value in loans then loans[r.loan.value].dueDate else None
  }

  /** A PAWNED request whose loan falls due between today and three days
      from now, both days included. */
  predicate DueSoon(r: PawnRequest, loans: map<nat, Loan>, today: int)
  {
    r.status == "PAWNED" && DueDateOf(r, loans).Some?
    && today <= DueDateOf(r, loans).value <= today + 3
  }

  /** Only a PAWNED request with a loan is ever due soon, and then exactly
      when the loan's due date is between today and today + 3. */
  lemma DueSoonWindow(r: PawnRequest, loans: map<nat, Loan>, today: int)
    ensures DueSoon(r, loans, today) ==> IsPawned(r) && r.loan.Some? && r.loan.value in loans
    ensures r.status == "PAWNED" && r.loan.Some? && r.loan.value in loans
            && loans[r.loan.value].dueDate.Some? ==>
              (DueSoon(r, loans, today) <==>
                 today <= loans[r.loan.value].dueDate.value <= today + 3)
  {
  }

  /** The customer dashboard figures. */
  datatype DashboardStats = DashboardStats(activePawns: nat, loanAmount: Centavos, dueSoon: nat)

  /** The dashboard of a customer with the given balance and requests. */
  function Dashboard(reqs: seq<PawnRequest>, balance: Option<Centavos>, loans: map<nat, Loan>, today: int): (s: DashboardStats)
    ensures s.activePawns == |PawnedOnly(reqs)|
    ensures s.dueSoon == |Filter(reqs, r => DueSoon(r, loans, today))|
    ensures s.loanAmount == balance.GetOr(0)
    ensures s.dueSoon <= s.activePawns
  {
    CountWhereMonotone(reqs, r => DueSoon(r, loans, today), IsPawned);
    DashboardStats(CountWhere(reqs, IsPawned), balance.GetOr(0), CountWhere(reqs, r => DueSoon(r, loans, today)))
  }

  /** The loan `redeemLoan` acts on: the first of the customer's loans whose
      pawn item is `pawnId`. */
  function SelectLoanForPawn(userLoans: seq<Loan>, pawnId: nat): (r: Result<Loan>)
    ensures r.Ok? ==> r.value in userLoans && r.value.pawnItem == pawnId
    ensures r.Ok? ==> (exists i :: 0 <= i < |userLoans| && userLoans[i] == r.value
                         && forall j :: 0 <= j < i ==> userLoans[j].pawnItem != pawnId)
    ensures r.Err? <==> forall l :: l in userLoans ==> l.pawnItem != pawnId
    ensures r.Err? ==> r.error == NotFound("No active loan found for this pawn item")
  {
    match FindFirst(userLoans, (l: Loan) => l.pawnItem == pawnId)
    case None => Err(NotFound("No active loan found for this pawn item"))
    case Some(i) => Ok(userLoans[i])
  }
}
