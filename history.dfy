/** The customer's transaction history page: each log becomes a history
    item whose type, status, amount and item name are read from the log's
    action and remarks; the list can be searched by item name, and it
    follows a successful delete or clear. */
module History {
  import opened Wrappers
  import opened Text
  import opened Decimal
  import opened JsNumber
  import opened Entities
  import opened Tables
  import opened Patterns

  // ----- Remark parsers -----

  /** `/Requested\s*amount:\s*₱([0-9,.]+)/i` */
  const RequestedPattern: Pattern :=
    Pattern([Lit("Requested"), Spaces, Lit("amount:"), Spaces, Lit("₱")], Run(true), true)
  /** `/₱([0-9,]+(?:\.[0-9]{2})?)/` */
  const PesoPattern: Pattern := Pattern([Lit("₱")], Money, false)
  /** `/amount:\s*([0-9,]+(?:\.[0-9]{2})?)/i` */
  const AmountLabelPattern: Pattern := Pattern([Lit("amount:"), Spaces], Money, true)
  /** `/loan\s*amount:\s*([0-9,]+(?:\.[0-9]{2})?)/i` */
  const LoanAmountPattern: Pattern := Pattern([Lit("loan"), Spaces, Lit("amount:"), Spaces], Money, true)
  /** The fallback patterns of `extractAmount`, tried in this order. */
  const AmountPatterns: seq<Pattern> := [PesoPattern, AmountLabelPattern, LoanAmountPattern]
  /** `/item:\s*([^(]+)/` */
  const ItemPattern: Pattern := Pattern([Lit("item:")], SpacedText, false)
  /** `/fee:\s*₱([0-9,]+(?:\.[0-9]{2})?)/i` */
  const FeePattern: Pattern := Pattern([Lit("fee:"), Spaces, Lit("₱")], Money, true)

  /** `patterns[i]` matches `s` and no pattern before it does. */
  predicate FirstMatch(s: string, patterns: seq<Pattern>, i: int)
  {
    0 <= i < |patterns| && Search(s, patterns[i]).Some?
    && forall j :: 0 <= j < i ==> Search(s, patterns[j]).None?
  }

  /** The group of the first of `patterns` that matches `s`. */
  function FirstOf(s: string, patterns: seq<Pattern>): (r: Option<string>)
    requires forall i :: 0 <= i < |patterns| ==> patterns[i].group == Money
    ensures r.Some? ==> Numerals(r.value)
    ensures r.None? <==> forall i :: 0 <= i < |patterns| ==> Search(s, patterns[i]).None?
    ensures forall i :: FirstMatch(s, patterns, i) ==> r == Search(s, patterns[i])
  {
    if patterns == [] then None
    else
      match Search(s, patterns[0])
      case Some(g) => Some(g)
      case None =>
        var r := FirstOf(s, patterns[1..]);
        assert forall i :: 1 <= i < |patterns| ==> patterns[i] == patterns[1..][i - 1];
        assert forall i :: FirstMatch(s, patterns, i) ==> FirstMatch(s, patterns[1..], i - 1);
        r
  }

  /** The amount `extractAmount` reads from a log's remarks: empty or
      missing remarks give 0; a requested amount wins; then the first
      fallback pattern that matches; no match gives 0. */
  function AmountIn(remarks: Option<string>): (r: Num)
    ensures r.Finite? ==> r.value >= 0.0
    ensures remarks.None? || remarks.value == [] ==> r == Finite(0.0)
    ensures remarks.Some? && remarks.value != [] && Search(remarks.value, RequestedPattern).Some? ==>
              r == ParseAmount(Search(remarks.value, RequestedPattern).value)
    ensures remarks.Some? && remarks.value != [] && Search(remarks.value, RequestedPattern).None?
              && FirstOf(remarks.value, AmountPatterns).Some? ==>
              r == ParseAmount(FirstOf(remarks.value, AmountPatterns).value)
    ensures remarks.Some? && remarks.value != [] && Search(remarks.value, RequestedPattern).None?
              && FirstOf(remarks.value, AmountPatterns).None? ==>
              r == Finite(0.0)
  {
    if remarks.None? || remarks.value == [] then Finite(0.0)
    else
      match Search(remarks.value, RequestedPattern)
      case Some(g) => ParseAmount(g)
      case None =>
        match FirstOf(remarks.value, AmountPatterns)
        case Some(g) => ParseAmount(g)
        case None => Finite(0.0)
  }

  /** `extractAmount(remarks)`, with its early-return loop over the
      fallback patterns. */
  method ExtractAmount(remarks: Option<string>) returns (amount: Num)
    ensures amount == AmountIn(remarks)
  {
    if remarks.None? || remarks.value == [] {
      return Finite(0.0);
    }
    var requested := Search(remarks.value, RequestedPattern);
    if requested.Some? {
      return ParseAmount(requested.value);
    }
    assert forall j :: 0 <= j < |AmountPatterns| ==> AmountPatterns[j].group == Money;
    for i := 0 to |AmountPatterns|
      invariant FirstOf(remarks.value, AmountPatterns) == FirstOf(remarks.value, AmountPatterns[i..])
    {
      var m := Search(remarks.value, AmountPatterns[i]);
      if m.Some? {
        return ParseAmount(m.value);
      }
      assert AmountPatterns[i..][1..] == AmountPatterns[i + 1..];
    }
    return Finite(0.0);
  }

  /** A match of the loan-amount pattern contains a match of the plain
      amount pattern, with the same group: where its `amount:` begins. */
  lemma LoanAmountContainsAmount(s: string, k: nat) returns (m: nat)
    requires k <= |s| && MatchAt(s, k, LoanAmountPattern).Some?
    ensures m <= |s| && MatchAt(s, m, AmountLabelPattern) == MatchAt(s, k, LoanAmountPattern)
  {
    var ps := LoanAmountPattern.pieces;
    var qs := AmountLabelPattern.pieces;
    assert ps[..4] == ps && ps[..3] == ps[..|ps| - 1] && ps[..3][..2] == ps[..2];
    assert qs[..1] == qs[..|qs| - 1] && qs[..1][..0] == [];
    assert MatchPieces(s, k, ps, true).Some?;
    assert MatchPieces(s, k, ps[..3], true).Some?;
    m := MatchPieces(s, k, ps[..2], true).value;
    assert MatchPieces(s, m, qs[..1], true) == Step(s, m, Lit("amount:"), true) == MatchPieces(s, k, ps[..3], true);
    assert MatchPieces(s, m, qs, true) == MatchPieces(s, k, ps, true);
  }

  /** The loan-amount pattern never decides: whenever it would match, the
      amount pattern tried before it has matched already. */
  lemma LoanAmountPatternNeverDecides(s: string)
    ensures FirstOf(s, AmountPatterns) == FirstOf(s, AmountPatterns[..2])
  {
    var two := AmountPatterns[..2];
    assert two[1..][1..] == [];
    assert AmountPatterns[1..][1..] == [LoanAmountPattern];
    assert [LoanAmountPattern][1..] == [];
    if Search(s, PesoPattern).None? && Search(s, AmountLabelPattern).None? && Search(s, LoanAmountPattern).Some? {
      var k :| 0 <= k <= |s| && MatchAt(s, k, LoanAmountPattern).Some?;
      var m := LoanAmountContainsAmount(s, k);
    }
  }

  /** The labels of the requested-amount pattern, written as the backend
      writes them, end where the amount begins. */
  lemma RequestedLabel(s: string)
    requires |s| >= 19 && s[..19] == "Requested amount: ₱"
    ensures MatchPieces(s, 0, RequestedPattern.pieces, true) == Some(19)
  {
    var ps := RequestedPattern.pieces;
    var t := s[..19];
    RequestedThroughAmount(s);
    assert s[17] == t[17] == ' ' && s[18] == t[18] == '₱';
    RequestedThroughSpace(s);
    assert ps[..4] == ps[..|ps| - 1] && ps[4] == Lit("₱");
    assert s[18..19] == t[18..19] == "₱";
    LitAtSlice(s, 18, "₱", true);
  }

  /** After "Requested amount:" one space is skipped, up to the peso sign. */
  lemma RequestedThroughSpace(s: string)
    requires |s| >= 19 && s[17] == ' ' && s[18] == '₱'
    requires MatchPieces(s, 0, RequestedPattern.pieces[..3], true) == Some(17)
    ensures MatchPieces(s, 0, RequestedPattern.pieces[..4], true) == Some(18)
  {
    var ps := RequestedPattern.pieces;
    var four := ps[..4];
    assert four[..|four| - 1] == ps[..3] && four[|four| - 1] == Spaces;
    OneSpace(s, 17);
  }

  lemma RequestedThroughAmount(s: string)
    requires |s| >= 19 && s[..19] == "Requested amount: ₱"
    ensures MatchPieces(s, 0, RequestedPattern.pieces[..3], true) == Some(17)
  {
    var ps := RequestedPattern.pieces;
    RequestedWord(s);
    assert ps[..3][..2] == ps[..2] && ps[..3][2] == Lit("amount:");
    AmountWord(s);
  }

  lemma AmountWord(s: string)
    requires |s| >= 19 && s[..19] == "Requested amount: ₱"
    ensures LitAt(s, 10, "amount:", true)
  {
    var t := s[..19];
    assert s[10..17] == t[10..17] == "amount:";
    LitAtSlice(s, 10, "amount:", true);
  }

  lemma RequestedLit(s: string)
    requires |s| >= 19 && s[..19] == "Requested amount: ₱"
    ensures LitAt(s, 0, "Requested", true)
  {
    var t := s[..19];
    assert s[0..9] == t[0..9] == "Requested";
    LitAtSlice(s, 0, "Requested", true);
  }

  lemma RequestedWord(s: string)
    requires |s| >= 19 && s[..19] == "Requested amount: ₱"
    ensures MatchPieces(s, 0, RequestedPattern.pieces[..2], true) == Some(10)
  {
    var ps := RequestedPattern.pieces;
    assert MatchPieces(s, 0, ps[..1], true) == Some(9) by {
      assert ps[..1][..0] == [] && ps[..1][0] == Lit("Requested");
      RequestedLit(s);
    }
    assert ps[..2][..1] == ps[..1] && ps[..2][1] == Spaces;
    RequestedSpace(s);
    OneSpace(s, 9);
  }

  lemma RequestedSpace(s: string)
    requires |s| >= 19 && s[..19] == "Requested amount: ₱"
    ensures s[9] == ' ' && s[10] == 'a'
  {
    var t := s[..19];
    assert s[9] == t[9] && s[10] == t[10];
  }

  /** A remark that opens with a requested amount written by `%.2f` is read
      as that amount. */
  lemma RequestedAmountRead(c: nat, tail: string)
    requires tail == [] || !IsNumeral(tail[0])
    ensures AmountIn(Some("Requested amount: ₱" + FormatCentavos(c) + tail)) == Finite(c as real / 100.0)
  {
    var f := FormatCentavos(c);
    FormatCentavosShape(c);
    RequestedMatch(f, tail);
    ParseAmountWithoutCommas(f);
    ParseFloatOfCentavos(c, []);
    assert f + [] == f;
  }

  /** The requested-amount pattern captures the numeral after the label. */
  lemma RequestedMatch(f: string, tail: string)
    requires f != [] && DigitsAndDots(f)
    requires tail == [] || !IsNumeral(tail[0])
    ensures Search("Requested amount: ₱" + f + tail, RequestedPattern) == Some(f)
  {
    var s := "Requested amount: ₱" + f + tail;
    assert s[..19] == "Requested amount: ₱";
    RequestedLabel(s);
    forall k | 19 <= k < 19 + |f| ensures IsNumeral(s[k]) {
      assert s[k] == f[k - 19];
    }
    assert 19 + |f| == |s| || s[19 + |f|] == tail[0];
    RunFromExact(s, 19, |f|, IsNumeral);
    assert s[19..19 + |f|] == f;
    LeftmostMatch(s, RequestedPattern, 0);
  }

  /** `extractRenewalFee(remarks)`: the "fee: ₱X" amount, 50 when there is
      none, and 0 for empty or missing remarks. */
  function RenewalFeeIn(remarks: Option<string>): (r: Num)
    ensures r.Finite? ==> r.value >= 0.0
    ensures remarks.None? || remarks.value == [] ==> r == Finite(0.0)
    ensures remarks.Some? && remarks.value != [] && Search(remarks.value, FeePattern).None? ==> r == Finite(50.0)
  {
    if remarks.None? || remarks.value == [] then Finite(0.0)
    else
      match Search(remarks.value, FeePattern)
      case Some(g) => ParseAmount(g)
      case None => Finite(50.0)
  }

  /** `extractItemName(remarks)`: the text after "item:" up to the first
      "(", trimmed. */
  function ItemNameIn(remarks: Option<string>): Option<string>
  {
    if remarks.None? || remarks.value == [] then None
    else
      match Search(remarks.value, ItemPattern)
      case None => None
      case Some(g) => Some(JsTrim(g))
  }

  /** `extractItemName(log.remarks) || 'Unknown Item'`. */
  function ItemName(remarks: Option<string>): (name: string)
    ensures name != []
    ensures ItemNameIn(remarks).None? || ItemNameIn(remarks).value == [] ==> name == "Unknown Item"
    ensures ItemNameIn(remarks).Some? && ItemNameIn(remarks).value != [] ==> name == ItemNameIn(remarks).value
  {
    var n := ItemNameIn(remarks);
    if n.None? || n.value == [] then "Unknown Item" else n.value
  }

  /** A remark that names its item as "item: NAME (" is shown under NAME,
      provided nothing before it looks like a label. */
  lemma ItemNameRead(head: string, name: string, rest: string)
    requires ':' !in head
    requires name != [] && '(' !in name && !IsJsSpace(name[0]) && !IsJsSpace(name[|name| - 1])
    ensures ItemName(Some(head + "item: " + name + " (" + rest)) == name
  {
    var s := head + "item: " + name + " (" + rest;
    var h := |head|;
    assert s[..h] == head;
    assert s[h..h + 6] == "item: ";
    assert s[h..h + 5] == "item:";
    assert s[h + 6..h + 6 + |name|] == name;
    assert s[h + 6 + |name|..h + 8 + |name|] == " (";
    NoItemLabelBefore(s, h);
    ItemGroupAt(s, h, name);
    LeftmostMatch(s, ItemPattern, h);
    TrimTrailingSpace(name);
  }

  /** Without a colon before `h`, no "item:" match starts before `h`. */
  lemma NoItemLabelBefore(s: string, h: nat)
    requires h + 5 <= |s| && ':' !in s[..h] && s[h..h + 5] == "item:"
    ensures forall k :: 0 <= k < h ==> MatchAt(s, k, ItemPattern).None?
  {
    assert ItemPattern.pieces[..0] == [];
    forall k | 0 <= k < h ensures MatchAt(s, k, ItemPattern).None? {
      if k + 4 < h {
        assert s[k + 4] == s[..h][k + 4];
      } else {
        assert s[k + 4] == s[h..h + 5][k + 4 - h];
      }
      assert !LitAt(s, k, "item:", false) by {
        assert s[k + 4] != "item:"[4];
      }
    }
  }

  /** "item: NAME (" at `h` captures NAME and the space before the "(". */
  lemma ItemGroupAt(s: string, h: nat, name: string)
    requires h + 8 + |name| <= |s|
    requires s[h..h + 6] == "item: " && s[h + 6..h + 6 + |name|] == name
    requires s[h + 6 + |name|..h + 8 + |name|] == " ("
    requires name != [] && '(' !in name && !IsJsSpace(name[0])
    ensures MatchAt(s, h, ItemPattern) == Some(name + " ")
  {
    var j := h + 5;
    ItemLabelAt(s, h);
    assert s[j] == s[h..h + 6][5];
    assert s[j + 1] == s[h + 6..h + 6 + |name|][0];
    RunFromExact(s, j, 1, IsJsSpace);
    forall k | j + 1 <= k < j + 2 + |name| ensures IsNotOpenParen(s[k]) {
      if k < j + 1 + |name| {
        assert s[k] == s[h + 6..h + 6 + |name|][k - j - 1];
      } else {
        assert s[k] == s[h + 6 + |name|..h + 8 + |name|][0];
      }
    }
    assert s[j + 2 + |name|] == s[h + 6 + |name|..h + 8 + |name|][1];
    RunFromExact(s, j + 1, |name| + 1, IsNotOpenParen);
    assert s[j + 1..j + 2 + |name|] == name + " " by {
      assert s[j + 1..j + 1 + |name|] == name;
      assert s[j + 1 + |name|] == ' ';
    }
  }

  lemma ItemLabelAt(s: string, h: nat)
    requires h + 6 <= |s| && s[h..h + 6] == "item: "
    ensures MatchPieces(s, h, ItemPattern.pieces, false) == Some(h + 5)
  {
    assert ItemPattern.pieces[..0] == [];
    assert s[h..h + 5] == s[h..h + 6][..5] == "item:";
    LitAtSlice(s, h, "item:", false);
  }

  /** Trimming a name followed by one space gives the name back. */
  lemma TrimTrailingSpace(name: string)
    requires name != [] && !IsJsSpace(name[0]) && !IsJsSpace(name[|name| - 1])
    ensures JsTrim(name + " ") == name
  {
    var g := name + " ";
    assert LeadingCount(g, IsJsSpace) == 0;
    assert g[..|g| - 1] == name;
    assert TrailingCount(g, IsJsSpace) == 1;
    assert g[0..|g| - 1] == name;
  }

  // ----- One history item per log -----

  datatype TxType = Pawn | Redeem | Renew | Forfeit | Other
  datatype TxStatus = Completed | Pending | Rejected

  datatype HistoryItem = HistoryItem(
    id: nat,
    transactionId: string,
    itemName: string,
    kind: TxType,
    amount: Num,
    status: TxStatus,
    description: Option<string>)

  /** The type read from an action; earlier tests take precedence. */
  function KindOf(action: string): (r: TxType)
    ensures r == Pawn <==> Contains(action, "CREATED") || Contains(action, "PAWN")
    ensures r == Redeem <==> !Contains(action, "CREATED") && !Contains(action, "PAWN")
                             && (Contains(action, "PAID") || Contains(action, "REDEEM"))
    ensures r == Renew <==> !Contains(action, "CREATED") && !Contains(action, "PAWN")
                            && !Contains(action, "PAID") && !Contains(action, "REDEEM")
                            && Contains(action, "RENEW")
    ensures r == Forfeit <==> !Contains(action, "CREATED") && !Contains(action, "PAWN")
                              && !Contains(action, "PAID") && !Contains(action, "REDEEM")
                              && !Contains(action, "RENEW") && Contains(action, "FORFEIT")
    ensures r == Other <==> !Contains(action, "CREATED") && !Contains(action, "PAWN")
                            && !Contains(action, "PAID") && !Contains(action, "REDEEM")
                            && !Contains(action, "RENEW") && !Contains(action, "FORFEIT")
  {
    if Contains(action, "CREATED") || Contains(action, "PAWN") then Pawn
    else if Contains(action, "PAID") || Contains(action, "REDEEM") then Redeem
    else if Contains(action, "RENEW") then Renew
    else if Contains(action, "FORFEIT") then Forfeit
    else Other
  }

  /** The status read from an action, whatever its type. */
  function StatusOf(action: string): (r: TxStatus)
    ensures r == Pending <==> Contains(action, "PENDING")
    ensures r == Rejected <==> !Contains(action, "PENDING") && Contains(action, "REJECT")
    ensures r == Completed <==> !Contains(action, "PENDING") && !Contains(action, "REJECT")
  {
    if Contains(action, "PENDING") then Pending
    else if Contains(action, "REJECT") then Rejected
    else Completed
  }

  /** The amount shown: nothing for a forfeiture, the renewal fee for a
      renewal, the amount in the remarks otherwise; NaN shows as 0. */
  function AmountShown(log: TransactionLog): (r: Num)
    ensures r.Finite? && r.value >= 0.0
    ensures KindOf(log.action) == Forfeit ==> r == Finite(0.0)
    ensures KindOf(log.action) == Renew && !Falsy(RenewalFeeIn(log.remarks)) ==> r == RenewalFeeIn(log.remarks)
    ensures KindOf(log.action) == Renew && Falsy(RenewalFeeIn(log.remarks)) ==> r == Finite(0.0)
    ensures KindOf(log.action) !in {Forfeit, Renew} && !Falsy(AmountIn(log.remarks)) ==> r == AmountIn(log.remarks)
    ensures KindOf(log.action) !in {Forfeit, Renew} && Falsy(AmountIn(log.remarks)) ==> r == Finite(0.0)
  {
    match KindOf(log.action)
    case Forfeit => Finite(0.0)
    case Renew => Or(RenewalFeeIn(log.remarks), Finite(0.0))
    case _ => Or(AmountIn(log.remarks), Finite(0.0))
  }

  /** `TXN-<year>-<logId padded to three digits>`. */
  function TransactionId(year: int, logId: nat): (r: string)
    ensures |r| >= 9 && r[..4] == "TXN-"
  {
    "TXN-" + IntToString(year) + "-" + PadStart(NatToString(logId), 3, '0')
  }

  /** The number part of a transaction id has at least three digits, reads
      back as the log id, and is the plain id from 100 on. */
  lemma TransactionIdNumber(logId: nat)
    ensures var n := PadStart(NatToString(logId), 3, '0');
            |n| >= 3 && AllDigits(n) && DigitsValue(n) == logId
            && (logId >= 100 ==> n == NatToString(logId))
  {
    var d := NatToString(logId);
    NatToStringRoundTrip(logId);
    if |d| < 3 {
      LeadingZerosValue(3 - |d|, d);
      assert PadStart(d, 3, '0') == Repeat('0', 3 - |d|) + d;
    }
    if logId >= 100 {
      NatToStringLength(logId);
    }
  }

  /** Two logs of the same year never share a transaction id. */
  lemma TransactionIdInjective(year: int, a: nat, b: nat)
    requires TransactionId(year, a) == TransactionId(year, b)
    ensures a == b
  {
    var head := "TXN-" + IntToString(year) + "-";
    var na := PadStart(NatToString(a), 3, '0');
    var nb := PadStart(NatToString(b), 3, '0');
    assert TransactionId(year, a) == head + na;
    assert TransactionId(year, b) == head + nb;
    assert na == (head + na)[|head|..];
    assert nb == (head + nb)[|head|..];
    TransactionIdNumber(a);
    TransactionIdNumber(b);
  }

  lemma {:induction false} NatToStringLength(n: nat)
    requires n >= 100
    ensures |NatToString(n)| >= 3
  {
    if n / 10 >= 100 {
      NatToStringLength(n / 10);
    }
  }

  /** The history item of one log, stamped with the year of its time. */
  function ItemOf(log: TransactionLog, year: int): (r: HistoryItem)
    ensures r.id == log.logId && r.description == log.remarks
    ensures r.itemName != [] && r.amount.Finite? && r.amount.value >= 0.0
    ensures r.kind == KindOf(log.action) && r.status == StatusOf(log.action)
    ensures |r.transactionId| >= 9 && r.transactionId[..4] == "TXN-"
  {
    HistoryItem(log.logId, TransactionId(year, log.logId), ItemName(log.remarks),
      KindOf(log.action), AmountShown(log), StatusOf(log.action), log.remarks)
  }

  /** The item built inside `fetchTransactionHistory`'s map, with its
      defaults and overrides. */
  method ToHistoryItem(log: TransactionLog, year: int) returns (item: HistoryItem)
    ensures item == ItemOf(log, year)
  {
    var kind := Other;
    var status := Completed;
    var amount := ExtractAmount(log.remarks);
    amount := Or(amount, Finite(0.0));
    if Contains(log.action, "CREATED") || Contains(log.action, "PAWN") {
      kind, status := Pawn, Completed;
    } else if Contains(log.action, "PAID") || Contains(log.action, "REDEEM") {
      kind, status := Redeem, Completed;
    } else if Contains(log.action, "RENEW") {
      kind, status := Renew, Completed;
      amount := Or(RenewalFeeIn(log.remarks), Finite(0.0));
    } else if Contains(log.action, "FORFEIT") {
      kind, status := Forfeit, Completed;
      amount := Finite(0.0);
    }
    if Contains(log.action, "PENDING") {
      status := Pending;
    } else if Contains(log.action, "REJECT") {
      status := Rejected;
    }
    item := HistoryItem(log.logId, TransactionId(year, log.logId), ItemName(log.remarks),
      kind, amount, status, log.remarks);
  }

  /** A renewal shows its fee: 50 when the remarks name none, 0 when there
      are no remarks. */
  lemma RenewalAmounts(log: TransactionLog)
    requires KindOf(log.action) == Renew
    ensures log.remarks.None? || log.remarks.value == [] ==> AmountShown(log) == Finite(0.0)
    ensures log.remarks.Some? && log.remarks.value != [] && Search(log.remarks.value, FeePattern).None? ==>
              AmountShown(log) == Finite(50.0)
  {
  }

  /** The actions the backend writes into the logs: wallet, revenue and ban
      entries. */
  const BackendActions: seq<string> := ["ADMIN_ADD_FUNDS", "ADMIN_DEDUCT_FUNDS", "ADMIN_ADD_CASH",
    "ADMIN_REMOVE_CASH", "REVENUE_DEDUCTED_CASH_ADDED", "REVENUE_EARNED_CASH_REMOVED",
    "USER_BANNED", "USER_UNBANNED"]

  /** `sub` cannot occur in `s` if one of its characters does not. */
  lemma AbsentChar(s: string, sub: string, i: nat)
    requires i < |sub| && sub[i] !in s
    ensures !Contains(s, sub)
  {
    forall p | 0 <= p <= |s| - |sub| ensures !OccursAt(s, sub, p) {
      assert s[p..p + |sub|][i] == s[p + i];
    }
  }

  /** `sub` cannot occur in `s` if two neighbouring characters of it never
      stand side by side in `s`. */
  lemma AbsentPair(s: string, sub: string, i: nat)
    requires i + 1 < |sub|
    requires forall j :: 0 <= j < |s| - 1 ==> s[j] != sub[i] || s[j + 1] != sub[i + 1]
    ensures !Contains(s, sub)
  {
    forall p | 0 <= p <= |s| - |sub| ensures !OccursAt(s, sub, p) {
      assert s[p..p + |sub|][i] == s[p + i] && s[p..p + |sub|][i + 1] == s[p + i + 1];
    }
  }

  /** No letter P, J or W, and no pair CR, EE or FO: the letters that keep
      every type and status word out of an action. */
  predicate Plain(a: string)
  {
    forall j :: 0 <= j < |a| ==>
      a[j] != 'P' && a[j] != 'J' && a[j] != 'W'
      && (j + 1 < |a| ==> !(a[j] == 'C' && a[j + 1] == 'R') && !(a[j] == 'E' && a[j + 1] == 'E')
                          && !(a[j] == 'F' && a[j + 1] == 'O'))
  }

  /** None of the type or status words occurs in a plain action. */
  lemma PlainActionShowsAsOther(a: string)
    requires Plain(a)
    ensures KindOf(a) == Other && StatusOf(a) == Completed
  {
    AbsentPair(a, "CREATED", 0);
    AbsentChar(a, "PAWN", 0);
    AbsentChar(a, "PAID", 0);
    AbsentPair(a, "REDEEM", 3);
    AbsentChar(a, "RENEW", 4);
    AbsentPair(a, "FORFEIT", 0);
    AbsentChar(a, "PENDING", 0);
    AbsentChar(a, "REJECT", 2);
  }

  /** Every action the backend writes shows on the history page as a
      completed transaction of type OTHER. */
  lemma BackendActionsShowAsOther()
    ensures forall i :: 0 <= i < |BackendActions| ==>
              KindOf(BackendActions[i]) == Other && StatusOf(BackendActions[i]) == Completed
  {
    AddFundsShowsAsOther(); DeductFundsShowsAsOther(); AddCashShowsAsOther(); RemoveCashShowsAsOther();
    RevenueDeductedShowsAsOther(); RevenueEarnedShowsAsOther(); UserBannedShowsAsOther(); UserUnbannedShowsAsOther();
  }

  lemma AddFundsShowsAsOther()
    ensures KindOf(BackendActions[0]) == Other && StatusOf(BackendActions[0]) == Completed
  {
    PlainActionShowsAsOther("ADMIN_ADD_FUNDS");
  }

  lemma DeductFundsShowsAsOther()
    ensures KindOf(BackendActions[1]) == Other && StatusOf(BackendActions[1]) == Completed
  {
    PlainActionShowsAsOther("ADMIN_DEDUCT_FUNDS");
  }

  lemma AddCashShowsAsOther()
    ensures KindOf(BackendActions[2]) == Other && StatusOf(BackendActions[2]) == Completed
  {
    PlainActionShowsAsOther("ADMIN_ADD_CASH");
  }

  lemma RemoveCashShowsAsOther()
    ensures KindOf(BackendActions[3]) == Other && StatusOf(BackendActions[3]) == Completed
  {
    PlainActionShowsAsOther("ADMIN_REMOVE_CASH");
  }

  lemma RevenueDeductedShowsAsOther()
    ensures KindOf(BackendActions[4]) == Other && StatusOf(BackendActions[4]) == Completed
  {
    PlainActionShowsAsOther("REVENUE_DEDUCTED_CASH_ADDED");
  }

  lemma RevenueEarnedShowsAsOther()
    ensures KindOf(BackendActions[5]) == Other && StatusOf(BackendActions[5]) == Completed
  {
    PlainActionShowsAsOther("REVENUE_EARNED_CASH_REMOVED");
  }

  lemma UserBannedShowsAsOther()
    ensures KindOf(BackendActions[6]) == Other && StatusOf(BackendActions[6]) == Completed
  {
    PlainActionShowsAsOther("USER_BANNED");
  }

  lemma UserUnbannedShowsAsOther()
    ensures KindOf(BackendActions[7]) == Other && StatusOf(BackendActions[7]) == Completed
  {
    PlainActionShowsAsOther("USER_UNBANNED");
  }

  /** The items of the logs, in order (`response.data.map`). */
  function Transformed(logs: seq<TransactionLog>, yearOf: int -> int): (r: seq<HistoryItem>)
    ensures |r| == |logs|
    ensures forall i :: 0 <= i < |logs| ==> r[i] == ItemOf(logs[i], yearOf(logs[i].timestamp))
  {
    if logs == [] then [] else [ItemOf(logs[0], yearOf(logs[0].timestamp))] + Transformed(logs[1..], yearOf)
  }

  // ----- Search, delete and clear -----

  /** The search test: the item name contains the term, ignoring case. */
  function NameMatches(term: string): HistoryItem -> bool
  {
    (item: HistoryItem) => Contains(ToLower(item.itemName), ToLower(term))
  }

  /** `filteredHistory`: everything for a blank term, otherwise the items
      whose name contains the term, in their order. */
  function Filtered(history: seq<HistoryItem>, term: string): (r: seq<HistoryItem>)
    ensures JsTrim(term) == [] ==> r == history
    ensures forall x :: x in r <==>
              x in history && (JsTrim(term) == [] || Contains(ToLower(x.itemName), ToLower(term)))
  {
    if JsTrim(term) == [] then history else Filter(history, NameMatches(term))
  }

  /** Searching keeps the order of the list: the result for a list split in
      two is the two results one after the other. */
  lemma FilteredAppend(a: seq<HistoryItem>, b: seq<HistoryItem>, term: string)
    ensures Filtered(a + b, term) == Filtered(a, term) + Filtered(b, term)
  {
    if JsTrim(term) != [] {
      FilterAppend(a, b, NameMatches(term));
    }
  }

  /** Searching the result again for the same term changes nothing. */
  lemma FilteredIdempotent(history: seq<HistoryItem>, term: string)
    ensures Filtered(Filtered(history, term), term) == Filtered(history, term)
  {
    if JsTrim(term) != [] {
      var p := NameMatches(term);
      FilterFilter(history, p, p, p);
    }
  }

  /** The search ignores the case of the term. */
  lemma FilteredIgnoresCase(history: seq<HistoryItem>, term: string)
    ensures Filtered(history, ToUpper(term)) == Filtered(history, term)
  {
    var up := ToUpper(term);
    assert ToLower(up) == ToLower(term);
    assert forall i :: 0 <= i < |term| ==> (IsJsSpace(up[i]) <==> IsJsSpace(term[i]));
    if JsTrim(term) != [] {
      assert JsTrim(up) != [];
      FilterCongruent(history, NameMatches(up), NameMatches(term));
    }
  }

  /** The list after `deleteTransaction(logId)`: without that entry when the
      backend reports success, unchanged otherwise. */
  function AfterDelete(history: seq<HistoryItem>, logId: nat, success: bool): (r: seq<HistoryItem>)
    ensures success ==> forall x :: x in r <==> x in history && x.id != logId
    ensures !success ==> r == history
  {
    if success then Filter(history, (item: HistoryItem) => item.id != logId) else history
  }

  /** The list after `clearAllHistory`: empty when the backend reports
      success, unchanged otherwise. */
  function AfterClear(history: seq<HistoryItem>, success: bool): (r: seq<HistoryItem>)
    ensures success ==> r == []
    ensures !success ==> r == history
  {
    if success then [] else history
  }

  /** Deleting an entry from the page's list leaves the list the page would
      build from the logs without that one. */
  lemma {:induction false} DeleteMatchesLogs(logs: seq<TransactionLog>, yearOf: int -> int, logId: nat)
    ensures AfterDelete(Transformed(logs, yearOf), logId, true)
            == Transformed(Filter(logs, (log: TransactionLog) => log.logId != logId), yearOf)
  {
    var p := (item: HistoryItem) => item.id != logId;
    var q := (log: TransactionLog) => log.logId != logId;
    if logs != [] {
      DeleteMatchesLogs(logs[1..], yearOf, logId);
      var h := Transformed(logs, yearOf);
      assert h[1..] == Transformed(logs[1..], yearOf);
      assert p(h[0]) == q(logs[0]);
    }
  }
}
