/** Wallet arithmetic shared by the customer's cash-in/cash-out and the
    administrator's fund and cash operations: a missing balance reads as
    zero, amounts must be positive, and a withdrawal never exceeds the
    balance. */
module Wallet {
  import opened Wrappers
  import opened Entities

  /** `walletBalance != null ? walletBalance : ZERO`. */
  function Current(balance: Option<Centavos>): (c: Centavos)
    ensures balance.None? ==> c == 0
    ensures balance.Some? ==> c == balance.value
  {
    balance.GetOr(0)
  }

  /** The amount check of cash-in, cash-out, add-funds and deduct-funds:
      the amount must be present and greater than zero. */
  function CheckAmount(amount: Option<Centavos>): (r: Outcome)
    ensures r.Pass? <==> amount.Some? && amount.value > 0
    ensures r.Fail? ==> r.error == BadRequest("Invalid amount. Amount must be greater than zero.")
  {
    if amount.None? || amount.value <= 0 then
      Fail(BadRequest("Invalid amount. Amount must be greater than zero."))
    else Pass
  }

  /** Adding a positive amount to a balance. */
  function Credit(balance: Option<Centavos>, amount: Centavos): (b: Centavos)
    requires amount > 0
    ensures b == Current(balance) + amount
    ensures b > Current(balance)
    ensures Current(balance) >= 0 ==> b > 0
  {
    Current(balance) + amount
  }

  /** Taking an amount out of a balance, refused when the balance is smaller;
      the refusal reports what was available and what was requested. */
  function Debit(balance: Option<Centavos>, amount: Centavos): (r: Result<Centavos>)
    ensures r.Ok? <==> Current(balance) >= amount
    ensures r.Ok? ==> r.value + amount == Current(balance) && r.value >= 0
    ensures r.Err? ==> r.error == InsufficientBalance(Current(balance), amount)
  {
    if Current(balance) < amount then Err(InsufficientBalance(Current(balance), amount))
    else Ok(Current(balance) - amount)
  }

  /** A credit followed by a debit of the same amount restores the balance. */
  lemma CreditThenDebit(balance: Option<Centavos>, amount: Centavos)
    requires amount > 0 && Current(balance) >= 0
    ensures Debit(Some(Credit(balance, amount)), amount) == Ok(Current(balance))
  {
    var b := Credit(balance, amount);
    assert Current(Some(b)) == Current(balance) + amount;
  }

  /** A successful debit followed by a credit of the same amount restores the balance. */
  lemma DebitThenCredit(balance: Option<Centavos>, amount: Centavos)
    requires amount > 0 && Current(balance) >= amount
    ensures Credit(Some(Debit(balance, amount).value), amount) == Current(balance)
  {
  }
}
