/** The persistent records of the pawnshop backend. Money is kept in whole
    centavos, dates in days and date-times in seconds; `Option` stands for
    a column that may be null. */
module Entities {
  import opened Wrappers

  /** An amount of money in centavos (one peso is 100 centavos). */
  type Centavos = int

  /** Pesos to centavos. */
  function Pesos(p: int): Centavos
  {
    p * 100
  }

  datatype Role = USER | ADMIN | EMPLOYEE

  /** `role.name()`. */
  function RoleName(r: Role): string
  {
    match r
    case USER => "USER"
    case ADMIN => "ADMIN"
    case EMPLOYEE => "EMPLOYEE"
  }

  /** An account: customer or administrator. */
  datatype User = User(
    id: nat,
    username: string,
    email: string,
    password: string,
    firstName: Option<string>,
    lastName: Option<string>,
    phoneNumber: Option<string>,
    address: Option<string>,
    role: Role,
    enabled: bool,
    walletBalance: Option<Centavos>,
    activeSessionId: Option<string>,
    sessionCreatedAt: Option<int>,
    updatedAt: Option<int>)

  /** An item a customer offers as collateral, with its lifecycle status
      (a free string: PENDING, APPROVED, PAWNED, REDEEMED, FORFEITED, ...). */
  datatype PawnRequest = PawnRequest(
    pawnId: nat,
    owner: nat,
    itemName: string,
    category: Option<string>,
    condition: Option<string>,
    brand: Option<string>,
    size: Option<string>,
    description: Option<string>,
    requestedAmount: Option<Centavos>,
    estimatedValue: Option<Centavos>,
    photos: Option<string>,
    status: string,
    appraisalDate: Option<int>,
    appraisedBy: Option<string>,
    loan: Option<nat>)

  /** A loan granted against one pawn request. */
  datatype Loan = Loan(
    loanId: nat,
    pawnItem: nat,
    loanAmount: Centavos,
    interestRate: int,
    dueDate: Option<int>,
    status: string,
    penalty: Centavos,
    dateRedeemed: Option<int>)

  /** One entry of the audit trail. */
  datatype TransactionLog = TransactionLog(
    logId: nat,
    user: Option<nat>,
    action: string,
    timestamp: int,
    remarks: Option<string>,
    condition: Option<string>)

  /** A message shown to one user. `kind` is the source's `type` column. */
  datatype Notification = Notification(
    notifId: nat,
    user: nat,
    message: string,
    kind: string,
    read: bool,
    timestamp: int)

  /** The submission form of a pawn request. */
  datatype PawnSubmission = PawnSubmission(
    itemName: string,
    brand: Option<string>,
    size: Option<string>,
    condition: Option<string>,
    description: Option<string>,
    photos: Option<string>,
    category: Option<string>,
    requestedAmount: Option<Centavos>,
    estimatedValue: Option<Centavos>)

  /** The registration form. */
  datatype Registration = Registration(
    username: string,
    email: string,
    password: string,
    firstName: Option<string>,
    lastName: Option<string>,
    phoneNumber: Option<string>,
    address: Option<string>)

  /** What login and registration return; no token after registration. */
  datatype AuthResponse = AuthResponse(
    token: Option<string>,
    username: string,
    email: string,
    role: string)

  /** The amount field of an add-cash or remove-cash body: missing, not a
      decimal number, or a number of centavos. */
  datatype AmountField = Missing | Malformed | Amount(centavos: Centavos)
}
