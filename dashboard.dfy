/** The revenue figure of the administrator's dashboard page. The page adds
    up the pawn requests by status, adjusts the sum by the revenue logs the
    wallet handlers write, then lets a positive backend figure replace it
    and puts 1000 in place of anything that is not positive. Amounts are
    exact reals in pesos; `NaN` survives only where `parseFloat` makes it. */
module Dashboard {
  import opened Wrappers
  import opened Decimal
  import opened JsNumber
  import opened Entities
  import opened Remarks
  import opened Patterns
  import opened Tables

  /** A pawn request as the page receives it. The admin listing sends no
      `loanAmount`, so there it is always absent (`undefined`). */
  datatype RequestRow = RequestRow(status: string, loanAmount: Option<real>, requestedAmount: Option<real>)

  /** `x` used as a condition: absent and zero are falsy. */
  predicate Truthy(x: Option<real>)
  {
    x.Some? && x.value != 0.0
  }

  /** `item.loanAmount || item.requestedAmount || 0`. */
  function AmountOf(r: RequestRow): (a: real)
    ensures Truthy(r.loanAmount) ==> a == r.loanAmount.value
    ensures !Truthy(r.loanAmount) && Truthy(r.requestedAmount) ==> a == r.requestedAmount.value
    ensures !Truthy(r.loanAmount) && !Truthy(r.requestedAmount) ==> a == 0.0
  {
    if Truthy(r.loanAmount) then r.loanAmount.value
    else if Truthy(r.requestedAmount) then r.requestedAmount.value
    else 0.0
  }

  /** The sum of `f` over the rows. */
  function SumOf(rows: seq<RequestRow>, f: RequestRow -> real): real
  {
    if rows == [] then 0.0 else SumOf(rows[..|rows| - 1], f) + f(rows[|rows| - 1])
  }

  /** A forfeited item is worth its amount plus a 5% markup. */
  function ForfeitTerm(r: RequestRow): real
  {
    if r.status == "FORFEITED" then AmountOf(r) * 1.05 else 0.0
  }

  /** A redeemed item earned 5% interest. */
  function InterestTerm(r: RequestRow): real
  {
    if r.status == "REDEEMED" then AmountOf(r) * 0.05 else 0.0
  }

  /** Money released to a customer: pawned and redeemed items. */
  function ReleasedTerm(r: RequestRow): real
  {
    if r.status == "PAWNED" || r.status == "REDEEMED" then AmountOf(r) else 0.0
  }

  /** The request part of the revenue, as the page's three passes add it up. */
  function RequestRevenue(rows: seq<RequestRow>): (r: real)
    ensures r == SumOf(rows, NetTerm)
  {
    PassesByRow(rows);
    SumOf(rows, ForfeitTerm) + SumOf(rows, InterestTerm) - SumOf(rows, ReleasedTerm)
  }

  /** What one request contributes on balance, by status. */
  function NetTerm(r: RequestRow): (t: real)
    ensures r.status == "FORFEITED" ==> t == 1.05 * AmountOf(r)
    ensures r.status == "REDEEMED" ==> t == -0.95 * AmountOf(r)
    ensures r.status == "PAWNED" ==> t == -AmountOf(r)
    ensures r.status !in {"FORFEITED", "REDEEMED", "PAWNED"} ==> t == 0.0
  {
    ForfeitTerm(r) + InterestTerm(r) - ReleasedTerm(r)
  }

  /** The three passes amount to one contribution per request: a forfeited
      item adds 1.05 times its amount, a redeemed one takes away 0.95 times
      it, a pawned one its whole amount, and any other status nothing. */
  lemma {:induction false} PassesByRow(rows: seq<RequestRow>)
    ensures SumOf(rows, ForfeitTerm) + SumOf(rows, InterestTerm) - SumOf(rows, ReleasedTerm)
            == SumOf(rows, NetTerm)
  {
    if rows != [] {
      PassesByRow(rows[..|rows| - 1]);
      var last := rows[|rows| - 1];
      assert NetTerm(last) == ForfeitTerm(last) + InterestTerm(last) - ReleasedTerm(last);
    }
  }

  /** Sums over a concatenation add up. */
  lemma {:induction false} SumOfAppend(a: seq<RequestRow>, b: seq<RequestRow>, f: RequestRow -> real)
    ensures SumOf(a + b, f) == SumOf(a, f) + SumOf(b, f)
    decreases |b|
  {
    if b == [] {
      assert a + b == a;
    } else {
      SumOfAppend(a, b[..|b| - 1], f);
      assert (a + b)[..|a + b| - 1] == a + b[..|b| - 1];
    }
  }

  /** The revenue part of requests the backend sends: with no `loanAmount`,
      each request counts its requested amount. */
  lemma ListingAmounts(r: RequestRow)
    requires r.loanAmount.None?
    ensures AmountOf(r) == if r.requestedAmount.Some? then r.requestedAmount.value else 0.0
  {
  }

  const EarnedAction: string := "REVENUE_EARNED_CASH_REMOVED"
  const DeductedAction: string := "REVENUE_DEDUCTED_CASH_ADDED"

  /** `/Revenue earned: ₱([\d.]+)/` and `/Revenue deducted: ₱([\d.]+)/`. */
  const EarnedPattern: Pattern := Pattern([Lit(RevenueEarnedPrefix)], Run(false), false)
  const DeductedPattern: Pattern := Pattern([Lit(RevenueDeductedPrefix)], Run(false), false)

  /** The total that one filter-then-forEach over the logs with `action`
      adds to the revenue: the number each matching remark holds, nothing
      for remarks without a match, and None when one of those logs has no
      remarks at all, since `log.remarks.match` then throws and the page
      keeps its previous figures. */
  function Adjustment(logs: seq<TransactionLog>, action: string, pat: Pattern): (r: Option<Num>)
    requires pat.group == Run(false)
    ensures r.None? <==> MissingRemarks(logs, action)
  {
    if logs == [] then Some(Finite(0.0))
    else
      var init := logs[..|logs| - 1];
      assert forall i | 0 <= i < |init| :: init[i] == logs[i];
      match Adjustment(init, action, pat)
      case None => None
      case Some(total) => AdjustStep(total, logs[|logs| - 1], action, pat)
  }

  /** One of the logs with `action` has no remarks. */
  predicate MissingRemarks(logs: seq<TransactionLog>, action: string)
  {
    exists i | 0 <= i < |logs| :: logs[i].action == action && logs[i].remarks.None?
  }

  /** A pass over one more log is the pass over the others, then that log's
      step. */
  lemma AdjustmentAppend(logs: seq<TransactionLog>, log: TransactionLog, action: string, pat: Pattern)
    requires pat.group == Run(false)
    ensures Adjustment(logs + [log], action, pat) ==
            match Adjustment(logs, action, pat)
            case None => None
            case Some(total) => AdjustStep(total, log, action, pat)
  {
    var more := logs + [log];
    assert more[..|logs|] == logs && more[|logs|] == log;
  }

  /** A log with the action whose remarks do not match the pattern leaves
      the running total as it was. */
  lemma UnmatchedLogIgnored(logs: seq<TransactionLog>, log: TransactionLog, action: string, pat: Pattern)
    requires pat.group == Run(false)
    requires log.action == action && log.remarks.Some? && Search(log.remarks.value, pat).None?
    ensures Adjustment(logs + [log], action, pat) == Adjustment(logs, action, pat)
  {
    AdjustmentAppend(logs, log, action, pat);
  }

  /** What one log does to the running total of a pass. */
  function AdjustStep(total: Num, log: TransactionLog, action: string, pat: Pattern): Option<Num>
    requires pat.group == Run(false)
  {
    if log.action != action then Some(total)
    else if log.remarks.None? then None
    else
      match Search(log.remarks.value, pat)
      case None => Some(total)
      case Some(g) => Some(Plus(total, ParseFloat(g)))
  }

  /** The revenue before the backend figure is consulted; None when the
      page throws. */
  function Computed(rows: seq<RequestRow>, logs: seq<TransactionLog>): (r: Option<Num>)
    ensures r.None? <==> MissingRemarks(logs, EarnedAction) || MissingRemarks(logs, DeductedAction)
  {
    match (Adjustment(logs, EarnedAction, EarnedPattern), Adjustment(logs, DeductedAction, DeductedPattern))
    case (Some(earned), Some(deducted)) => Some(Minus(Plus(Finite(RequestRevenue(rows)), earned), deducted))
    case _ => None
  }

  /** The figure shown: a positive backend revenue replaces the computed
      one, and anything zero, negative or NaN becomes 1000. */
  function Shown(computed: Num, backend: Num): (r: real)
    ensures r > 0.0
    ensures backend.Finite? && backend.value > 0.0 ==> r == backend.value
    ensures !(backend.Finite? && backend.value > 0.0) && computed.Finite? && computed.value > 0.0 ==>
              r == computed.value
    ensures !(backend.Finite? && backend.value > 0.0) && !(computed.Finite? && computed.value > 0.0) ==>
              r == 1000.0
  {
    var revenue := if backend.Finite? && backend.value > 0.0 then backend else computed;
    if Falsy(revenue) || revenue.value <= 0.0 then 1000.0 else revenue.value
  }

  /** The revenue the dashboard shows, None when the page throws before
      showing one. `backend` is `Number(stats.revenue ?? 0)`. */
  function Revenue(rows: seq<RequestRow>, logs: seq<TransactionLog>, backend: Num): (r: Option<real>)
    ensures r.Some? ==> r.value > 0.0
  {
    match Computed(rows, logs)
    case None => None
    case Some(c) => Some(Shown(c, backend))
  }

  /** The revenue computation inside `fetchStats`: `revenue` accumulated
      pass after pass, then the override and the fallback. */
  method ComputeRevenue(rows: seq<RequestRow>, logs: seq<TransactionLog>, backend: Num) returns (shown: Option<real>)
    ensures shown == Revenue(rows, logs, backend)
  {
    var revenue := RequestPasses(rows);
    var earned := LogPass(Finite(revenue), logs, EarnedAction, EarnedPattern, false);
    if earned.None? {
      return None;
    }
    var total := LogPass(earned.value, logs, DeductedAction, DeductedPattern, true);
    if total.None? {
      return None;
    }
    var figure := total.value;
    if backend.Finite? && backend.value > 0.0 {
      figure := backend;
    }
    if Falsy(figure) || figure.value <= 0.0 {
      return Some(1000.0);
    }
    return Some(figure.value);
  }

  /** The three passes over the requests. */
  method RequestPasses(rows: seq<RequestRow>) returns (revenue: real)
    ensures revenue == RequestRevenue(rows)
  {
    revenue := 0.0;
    for i := 0 to |rows|
      invariant revenue == SumOf(rows[..i], ForfeitTerm)
    {
      if rows[i].status == "FORFEITED" {
        revenue := revenue + AmountOf(rows[i]) * 1.05;
      }
      assert rows[..i + 1][..i] == rows[..i];
    }
    ghost var forfeited := revenue;
    for i := 0 to |rows|
      invariant revenue == forfeited + SumOf(rows[..i], InterestTerm)
    {
      if rows[i].status == "REDEEMED" {
        revenue := revenue + AmountOf(rows[i]) * 0.05;
      }
      assert rows[..i + 1][..i] == rows[..i];
    }
    ghost var withInterest := revenue;
    for i := 0 to |rows|
      invariant revenue == withInterest - SumOf(rows[..i], ReleasedTerm)
    {
      if rows[i].status == "PAWNED" || rows[i].status == "REDEEMED" {
        revenue := revenue - AmountOf(rows[i]);
      }
      assert rows[..i + 1][..i] == rows[..i];
    }
    assert rows[..|rows|] == rows;
  }

  /** One pass over the logs with `action`: each matching remark's number is
      added to (or, when `subtract`, taken from) `revenue`; a log of that
      action without remarks throws, here None. */
  method LogPass(revenue: Num, logs: seq<TransactionLog>, action: string, pat: Pattern, subtract: bool)
    returns (r: Option<Num>)
    requires pat.group == Run(false)
    ensures r.None? <==> Adjustment(logs, action, pat).None?
    ensures r.Some? ==>
      r.value == if subtract then Minus(revenue, Adjustment(logs, action, pat).value)
                 else Plus(revenue, Adjustment(logs, action, pat).value)
  {
    var total := revenue;
    for i := 0 to |logs|
      invariant Adjustment(logs[..i], action, pat).Some?
      invariant total == if subtract then Minus(revenue, Adjustment(logs[..i], action, pat).value)
                         else Plus(revenue, Adjustment(logs[..i], action, pat).value)
    {
      var log := logs[i];
      assert logs[..i + 1][..i] == logs[..i];
      if log.action == action {
        if log.remarks.None? {
          AdjustmentFails(logs, i + 1, action, pat);
          return None;
        }
        var m := Search(log.remarks.value, pat);
        if m.Some? {
          total := if subtract then Minus(total, ParseFloat(m.value)) else Plus(total, ParseFloat(m.value));
        }
      }
    }
    assert logs[..|logs|] == logs;
    return Some(total);
  }

  /** Once a prefix of the logs throws, the whole pass throws. */
  lemma {:induction false} AdjustmentFails(logs: seq<TransactionLog>, n: nat, action: string, pat: Pattern)
    requires pat.group == Run(false) && n <= |logs|
    requires Adjustment(logs[..n], action, pat).None?
    ensures Adjustment(logs, action, pat).None?
    decreases |logs| - n
  {
    if n < |logs| {
      assert logs[..n + 1][..n] == logs[..n];
      AdjustmentFails(logs, n + 1, action, pat);
    } else {
      assert logs[..n] == logs;
    }
  }

  /** A revenue log without remarks keeps the dashboard from showing a
      revenue at all. */
  lemma MissingRemarksThrow(rows: seq<RequestRow>, logs: seq<TransactionLog>, backend: Num, i: nat)
    requires i < |logs| && logs[i].remarks.None?
    requires logs[i].action == EarnedAction || logs[i].action == DeductedAction
    ensures Revenue(rows, logs, backend).None?
  {
    var pat := if logs[i].action == EarnedAction then EarnedPattern else DeductedPattern;
    var prefix := logs[..i + 1];
    assert prefix[..i] == logs[..i] && prefix[i] == logs[i];
    assert Adjustment(prefix, logs[i].action, pat).None?;
    AdjustmentFails(logs, i + 1, logs[i].action, pat);
  }

  /** Logs with another action play no part: each pass sees only the logs
      its filter keeps. */
  lemma {:induction false} AdjustmentOfOwnAction(logs: seq<TransactionLog>, action: string, pat: Pattern)
    requires pat.group == Run(false)
    ensures Adjustment(logs, action, pat) == Adjustment(Filter(logs, HasAction(action)), action, pat)
  {
    if logs != [] {
      var init, last := logs[..|logs| - 1], logs[|logs| - 1];
      AdjustmentOfOwnAction(init, action, pat);
      assert logs == init + [last];
      FilterAppend(init, [last], HasAction(action));
      var kept := Filter(init, HasAction(action));
      assert Filter([last], HasAction(action)) == if last.action == action then [last] else [] by {
        assert [last][1..] == [];
      }
      if last.action == action {
        assert (kept + [last])[..|kept|] == kept;
      } else {
        assert kept + [] == kept;
      }
    }
  }

  /** The filter of each pass. */
  function HasAction(action: string): TransactionLog -> bool
  {
    (log: TransactionLog) => log.action == action
  }

  /** The leftmost match of `prefix([\d.]+)` in a remark that begins with
      the prefix and a `%.2f` amount is that amount's text. */
  lemma PrefixedAmount(prefix: string, c: nat, tail: string)
    requires tail != [] && !IsDigitOrDot(tail[0])
    ensures Search(prefix + FormatCentavos(c) + tail, Pattern([Lit(prefix)], Run(false), false))
            == Some(FormatCentavos(c))
  {
    var f := FormatCentavos(c);
    var s := prefix + f + tail;
    var pat := Pattern([Lit(prefix)], Run(false), false);
    FormatCentavosShape(c);
    assert LitAt(s, 0, prefix, false) by {
      forall k | 0 <= k < |prefix| ensures s[k] == prefix[k] { }
    }
    assert pat.pieces[..0] == [];
    assert MatchPieces(s, 0, pat.pieces, false) == Some(|prefix|);
    forall k | |prefix| <= k < |prefix| + |f| ensures IsDigitOrDot(s[k]) {
      assert s[k] == f[k - |prefix|];
    }
    assert s[|prefix| + |f|] == tail[0];
    RunFromExact(s, |prefix|, |f|, IsDigitOrDot);
    assert s[|prefix|..|prefix| + |f|] == f;
    LeftmostMatch(s, pat, 0);
  }

  /** The revenue-earned remark that removing cash writes is read back by
      the dashboard as exactly the amount removed. */
  lemma EarnedRemarkRead(amount: nat, username: string, reason: string)
    ensures var g := Search(RevenueEarnedRemark(amount, username, reason), EarnedPattern);
            g.Some? && ParseFloat(g.value) == Finite(amount as real / 100.0)
  {
    var tail := " (Cash removed from " + username + " by admin). Reason: " + reason;
    assert RevenueEarnedRemark(amount, username, reason) == RevenueEarnedPrefix + FormatCentavos(amount) + tail;
    PrefixedAmount(RevenueEarnedPrefix, amount, tail);
    ParseFloatOfCentavos(amount, []);
    assert FormatCentavos(amount) + [] == FormatCentavos(amount);
  }

  /** The revenue-deducted remark that adding cash writes is read back by
      the dashboard as exactly the amount added. */
  lemma DeductedRemarkRead(amount: nat, username: string, reason: string)
    ensures var g := Search(RevenueDeductedRemark(amount, username, reason), DeductedPattern);
            g.Some? && ParseFloat(g.value) == Finite(amount as real / 100.0)
  {
    var tail := " (Cash added to " + username + " by admin). Reason: " + reason;
    assert RevenueDeductedRemark(amount, username, reason) == RevenueDeductedPrefix + FormatCentavos(amount) + tail;
    PrefixedAmount(RevenueDeductedPrefix, amount, tail);
    ParseFloatOfCentavos(amount, []);
    assert FormatCentavos(amount) + [] == FormatCentavos(amount);
  }

  /** The computed revenue is the request part plus the earned pass minus
      the deducted pass, when neither pass throws. */
  lemma ComputedSplit(rows: seq<RequestRow>, logs: seq<TransactionLog>)
    ensures Computed(rows, logs).Some? <==>
              Adjustment(logs, EarnedAction, EarnedPattern).Some?
              && Adjustment(logs, DeductedAction, DeductedPattern).Some?
    ensures Computed(rows, logs).Some? ==>
              Computed(rows, logs).value == Minus(Plus(Finite(RequestRevenue(rows)),
                                                       Adjustment(logs, EarnedAction, EarnedPattern).value),
                                                  Adjustment(logs, DeductedAction, DeductedPattern).value)
  {
  }

  /** A revenue-earned log whose remark reads as `x` raises the computed
      revenue by `x`. */
  lemma EarnedLogAdds(rows: seq<RequestRow>, logs: seq<TransactionLog>, log: TransactionLog, x: real)
    requires Computed(rows, logs).Some? && Computed(rows, logs).value.Finite?
    requires log.action == EarnedAction && log.remarks.Some?
    requires Search(log.remarks.value, EarnedPattern).Some?
    requires ParseFloat(Search(log.remarks.value, EarnedPattern).value) == Finite(x)
    ensures Computed(rows, logs + [log]) == Some(Finite(Computed(rows, logs).value.value + x))
  {
    ComputedSplit(rows, logs);
    var own := Adjustment(logs, EarnedAction, EarnedPattern).value;
    var other := Adjustment(logs, DeductedAction, DeductedPattern).value;
    assert Adjustment(logs + [log], EarnedAction, EarnedPattern) == Some(Plus(own, Finite(x))) by {
      AdjustmentAppend(logs, log, EarnedAction, EarnedPattern);
    }
    assert Adjustment(logs + [log], DeductedAction, DeductedPattern) == Some(other) by {
      AdjustmentAppend(logs, log, DeductedAction, DeductedPattern);
      RevenueActionsDiffer(other, log);
    }
    ComputedSplit(rows, logs + [log]);
    assert own.Finite? && other.Finite?;
  }

  /** A revenue-deducted log whose remark reads as `x` lowers the computed
      revenue by `x`. */
  lemma DeductedLogSubtracts(rows: seq<RequestRow>, logs: seq<TransactionLog>, log: TransactionLog, x: real)
    requires Computed(rows, logs).Some? && Computed(rows, logs).value.Finite?
    requires log.action == DeductedAction && log.remarks.Some?
    requires Search(log.remarks.value, DeductedPattern).Some?
    requires ParseFloat(Search(log.remarks.value, DeductedPattern).value) == Finite(x)
    ensures Computed(rows, logs + [log]) == Some(Finite(Computed(rows, logs).value.value - x))
  {
    ComputedSplit(rows, logs);
    var own := Adjustment(logs, DeductedAction, DeductedPattern).value;
    var other := Adjustment(logs, EarnedAction, EarnedPattern).value;
    assert Adjustment(logs + [log], DeductedAction, DeductedPattern) == Some(Plus(own, Finite(x))) by {
      AdjustmentAppend(logs, log, DeductedAction, DeductedPattern);
    }
    assert Adjustment(logs + [log], EarnedAction, EarnedPattern) == Some(other) by {
      AdjustmentAppend(logs, log, EarnedAction, EarnedPattern);
      RevenueActionsDiffer(other, log);
    }
    ComputedSplit(rows, logs + [log]);
    assert own.Finite? && other.Finite?;
  }

  /** Removing cash and then loading the dashboard: the revenue-earned log
      the handler appends raises the computed revenue by the amount
      removed, in pesos. */
  lemma CashRemovedRaisesRevenue(rows: seq<RequestRow>, logs: seq<TransactionLog>, log: TransactionLog,
                                 amount: nat, username: string, reason: string)
    requires Computed(rows, logs).Some? && Computed(rows, logs).value.Finite?
    requires log.action == EarnedAction && log.remarks == Some(RevenueEarnedRemark(amount, username, reason))
    ensures Computed(rows, logs + [log]).Some?
    ensures Computed(rows, logs + [log]).value == Finite(Computed(rows, logs).value.value + amount as real / 100.0)
  {
    EarnedRemarkRead(amount, username, reason);
    EarnedLogAdds(rows, logs, log, amount as real / 100.0);
  }

  /** Adding cash and then loading the dashboard: the revenue-deducted log
      lowers the computed revenue by the amount added. */
  lemma CashAddedLowersRevenue(rows: seq<RequestRow>, logs: seq<TransactionLog>, log: TransactionLog,
                               amount: nat, username: string, reason: string)
    requires Computed(rows, logs).Some? && Computed(rows, logs).value.Finite?
    requires log.action == DeductedAction && log.remarks == Some(RevenueDeductedRemark(amount, username, reason))
    ensures Computed(rows, logs + [log]).Some?
    ensures Computed(rows, logs + [log]).value == Finite(Computed(rows, logs).value.value - amount as real / 100.0)
  {
    DeductedRemarkRead(amount, username, reason);
    DeductedLogSubtracts(rows, logs, log, amount as real / 100.0);
  }


  /** The two log passes select different actions, so a log the one pass
      reads is passed over by the other, whatever its remarks. */
  lemma RevenueActionsDiffer(total: Num, log: TransactionLog)
    ensures log.action == EarnedAction ==> AdjustStep(total, log, DeductedAction, DeductedPattern) == Some(total)
    ensures log.action == DeductedAction ==> AdjustStep(total, log, EarnedAction, EarnedPattern) == Some(total)
  {
    assert EarnedAction[8] != DeductedAction[8];
  }
}
