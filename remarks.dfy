/** The remark texts the backend writes into transaction logs. Amounts are
    printed with `%.2f`; `₱` is the peso sign. */
module Remarks {
  import opened Decimal
  import opened Entities

  const Peso: char := '₱'

  const RevenueEarnedPrefix: string := "Revenue earned: " + [Peso]
  const RevenueDeductedPrefix: string := "Revenue deducted: " + [Peso]

  /** `t` is the end of `s`. */
  predicate EndsWith(s: string, t: string)
  {
    |t| <= |s| && s[|s| - |t|..] == t
  }

  /** "Admin added ₱%.2f to user %s (ID: %d) wallet. New balance: ₱%.2f" */
  function AddFundsRemark(amount: Centavos, username: string, userId: nat, newBalance: Centavos): (r: string)
    ensures "Admin added " + [Peso] + FormatCentavos(amount) + " to user " + username + " (ID: " <= r
    ensures EndsWith(r, ") wallet. New balance: " + [Peso] + FormatCentavos(newBalance))
  {
    "Admin added " + [Peso] + FormatCentavos(amount) + " to user " + username + " (ID: "
    + NatToString(userId) + ") wallet. New balance: " + [Peso] + FormatCentavos(newBalance)
  }

  /** "Admin deducted ₱%.2f from user %s (ID: %d) wallet. New balance: ₱%.2f" */
  function DeductFundsRemark(amount: Centavos, username: string, userId: nat, newBalance: Centavos): (r: string)
    ensures "Admin deducted " + [Peso] + FormatCentavos(amount) + " from user " + username + " (ID: " <= r
    ensures EndsWith(r, ") wallet. New balance: " + [Peso] + FormatCentavos(newBalance))
  {
    "Admin deducted " + [Peso] + FormatCentavos(amount) + " from user " + username + " (ID: "
    + NatToString(userId) + ") wallet. New balance: " + [Peso] + FormatCentavos(newBalance)
  }

  /** "Admin %s added ₱%.2f to wallet. Reason: %s. New balance: ₱%.2f" */
  function AddCashRemark(admin: string, amount: Centavos, reason: string, newBalance: Centavos): (r: string)
    ensures "Admin " + admin + " added " + [Peso] + FormatCentavos(amount) + " to wallet. Reason: " <= r
    ensures EndsWith(r, ". New balance: " + [Peso] + FormatCentavos(newBalance))
  {
    "Admin " + admin + " added " + [Peso] + FormatCentavos(amount) + " to wallet. Reason: "
    + reason + ". New balance: " + [Peso] + FormatCentavos(newBalance)
  }

  /** "Revenue deducted: ₱%.2f (Cash added to %s by admin). Reason: %s" */
  function RevenueDeductedRemark(amount: Centavos, username: string, reason: string): (r: string)
    ensures RevenueDeductedPrefix + FormatCentavos(amount) + " (Cash added to " <= r
    ensures EndsWith(r, " by admin). Reason: " + reason)
  {
    RevenueDeductedPrefix + FormatCentavos(amount) + " (Cash added to " + username
    + " by admin). Reason: " + reason
  }

  /** "Admin %s removed ₱%.2f from wallet. Reason: %s. New balance: ₱%.2f" */
  function RemoveCashRemark(admin: string, amount: Centavos, reason: string, newBalance: Centavos): (r: string)
    ensures "Admin " + admin + " removed " + [Peso] + FormatCentavos(amount) + " from wallet. Reason: " <= r
    ensures EndsWith(r, ". New balance: " + [Peso] + FormatCentavos(newBalance))
  {
    "Admin " + admin + " removed " + [Peso] + FormatCentavos(amount) + " from wallet. Reason: "
    + reason + ". New balance: " + [Peso] + FormatCentavos(newBalance)
  }

  /** "Revenue earned: ₱%.2f (Cash removed from %s by admin). Reason: %s" */
  function RevenueEarnedRemark(amount: Centavos, username: string, reason: string): (r: string)
    ensures RevenueEarnedPrefix + FormatCentavos(amount) + " (Cash removed from " <= r
    ensures EndsWith(r, " by admin). Reason: " + reason)
  {
    RevenueEarnedPrefix + FormatCentavos(amount) + " (Cash removed from " + username
    + " by admin). Reason: " + reason
  }

  /** "Banned user: %s (ID: %d)" or "Unbanned user: %s (ID: %d)". */
  function ToggleRemark(enabled: bool, username: string, userId: nat): (r: string)
    ensures (if enabled then "Unbanned" else "Banned") + " user: " + username + " (ID: " <= r
    ensures EndsWith(r, NatToString(userId) + ")")
  {
    (if enabled then "Unbanned" else "Banned") + " user: " + username + " (ID: " + NatToString(userId) + ")"
  }
}
