/** Fixed-point money helpers and the integrity replay of a wallet's history
    (src/utils/balance-integrity.util.ts). Balances are integer cents; a value that
    still needs rounding is an exact rational (`real`) number of currency units. */
module BalanceIntegrity {
  import opened Wrappers
  import opened Entities

  /** 999999999.99 in cents: the largest balance a wallet may hold. */
  const MaxBalance: int := 99_999_999_999

  /** The value, in currency units, of a whole number of cents. */
  function Dollars(cents: int): real {
    cents as real / 100.0
  }

  function Abs(x: int): nat {
    if x < 0 then -x else x
  }

  /** Math.round(value * 100) / 100, in exact arithmetic: the nearest cent, ties upward. */
  function RoundToTwoDecimals(value: real): (cents: int)
    ensures Dollars(cents) - 0.005 <= value < Dollars(cents) + 0.005
  {
    (100.0 * value + 0.5).Floor
  }

  /** The closed range [0, 999999999.99] of a stored balance, on cents. */
  predicate ValidateBalanceRange(balance: int) {
    0 <= balance <= MaxBalance
  }

  /** The range check on cents is the check on currency units. */
  lemma BalanceRangeInUnits(balance: int)
    ensures ValidateBalanceRange(balance) <==> 0.0 <= Dollars(balance) <= 999999999.99
  {
  }

  /** The half-cent window of RoundToTwoDecimals pins its result down: any cent count
      whose window holds `value` is the rounded value. */
  lemma RoundIsNearestCent(value: real, cents: int)
    requires Dollars(cents) - 0.005 <= value < Dollars(cents) + 0.005
    ensures RoundToTwoDecimals(value) == cents
  {
    var r := RoundToTwoDecimals(value);
    assert 100.0 * Dollars(r) - 0.5 <= 100.0 * value < 100.0 * Dollars(r) + 0.5;
    assert 100.0 * Dollars(cents) - 0.5 <= 100.0 * value < 100.0 * Dollars(cents) + 0.5;
    assert (r - cents) as real < 1.0 && (cents - r) as real < 1.0;
  }

  /** A value that already has at most two decimals is left unchanged, so rounding
      twice is rounding once. */
  lemma RoundCentsExact(cents: int)
    ensures RoundToTwoDecimals(Dollars(cents)) == cents
  {
    RoundIsNearestCent(Dollars(cents), cents);
  }

  lemma RoundIdempotent(value: real)
    ensures RoundToTwoDecimals(Dollars(RoundToTwoDecimals(value))) == RoundToTwoDecimals(value)
  {
    RoundCentsExact(RoundToTwoDecimals(value));
  }

  /** The repository's rounding examples: 100.999 -> 101, 100.123 -> 100.12,
      100.456 -> 100.46, and 100.555 -> 100.56 (a tie goes up). */
  lemma RoundExamples()
    ensures RoundToTwoDecimals(100.999) == 10100
    ensures RoundToTwoDecimals(100.123) == 10012
    ensures RoundToTwoDecimals(100.456) == 10046
    ensures RoundToTwoDecimals(100.555) == 10056
  {
    RoundIsNearestCent(100.999, 10100);
    RoundIsNearestCent(100.123, 10012);
    RoundIsNearestCent(100.456, 10046);
    RoundIsNearestCent(100.555, 10056);
  }

  /** A value at or below zero that rounds into range rounds to exactly zero. */
  lemma RoundNonPositive(value: real)
    requires value <= 0.0 && 0 <= RoundToTwoDecimals(value)
    ensures RoundToTwoDecimals(value) == 0
  {
    var r := RoundToTwoDecimals(value);
    assert Dollars(r) - 0.005 <= value;
  }

  /** The 0.01 tolerance of the integrity check is one cent: a whole number of cents is
      below it exactly when it is below one cent, that is, zero. */
  lemma BelowOneCent(d: nat)
    ensures Dollars(d) < 0.01 <==> d == 0
  {
  }

  lemma RangeExamples()
    ensures ValidateBalanceRange(0) && ValidateBalanceRange(10000)
    ensures ValidateBalanceRange(99_999_999_999)
    ensures !ValidateBalanceRange(-100) && !ValidateBalanceRange(100_000_000_000)
  {
  }

  /** The signed contribution of one record to the replayed balance. */
  function Signed(t: Transaction): int {
    match t.kind
    case Fund => t.amount
    case TransferIn => t.amount
    case TransferOut => -t.amount
  }

  /** Sum of FUND and TRANSFER_IN amounts minus the sum of TRANSFER_OUT amounts. */
  function Replay(txs: seq<Transaction>): int {
    if txs == [] then 0 else Signed(txs[0]) + Replay(txs[1..])
  }

  /** Replay is additive over concatenation: the lemma every mutation's integrity
      argument rests on. */
  lemma {:induction false} ReplayAppend(xs: seq<Transaction>, ys: seq<Transaction>)
    ensures Replay(xs + ys) == Replay(xs) + Replay(ys)
  {
    if xs == [] {
      assert xs + ys == ys;
    } else {
      assert (xs + ys)[1..] == xs[1..] + ys;
      ReplayAppend(xs[1..], ys);
    }
  }

  /** Replay of one more record, newest first or oldest last. */
  lemma ReplayCons(t: Transaction, txs: seq<Transaction>)
    ensures Replay([t] + txs) == Signed(t) + Replay(txs)
  {
    assert ([t] + txs)[1..] == txs;
  }

  lemma ReplaySnoc(txs: seq<Transaction>, t: Transaction)
    ensures Replay(txs + [t]) == Replay(txs) + Signed(t)
  {
    ReplayAppend(txs, [t]);
    ReplayCons(t, []);
    assert [t] + [] == [t];
  }

  /** The replay of the integrity test's example history FUND 100, TRANSFER_OUT 30,
      TRANSFER_IN 20 is 90. */
  lemma ReplayExample(w: string)
    ensures Replay([Transaction(w, Fund, 10000, None),
                    Transaction(w, TransferOut, 3000, None),
                    Transaction(w, TransferIn, 2000, None)]) == 9000
  {
    var a := Transaction(w, Fund, 10000, None);
    var b := Transaction(w, TransferOut, 3000, None);
    var c := Transaction(w, TransferIn, 2000, None);
    ReplayCons(c, []);
    ReplayCons(b, [c]);
    ReplayCons(a, [b, c]);
    assert [a] + [b, c] == [a, b, c];
    assert [b] + [c] == [b, c];
  }

  /** What an integrity check reports; every amount is in cents. */
  datatype IntegrityReport = IntegrityReport(
    isValid: bool,
    calculatedBalance: int,
    currentBalance: int,
    discrepancy: nat)

  /** verifyBalanceIntegrity: replays the history with a running total and compares it
      with the stored balance. Neither argument is changed (both are values). */
  method VerifyBalanceIntegrity(wallet: Wallet, transactions: seq<Transaction>)
    returns (report: IntegrityReport)
    ensures report.currentBalance == wallet.balance
    ensures report.calculatedBalance == Replay(transactions)
    ensures report.discrepancy == Abs(wallet.balance - Replay(transactions))
    ensures report.isValid <==> wallet.balance == Replay(transactions)
  {
    var currentBalance := wallet.balance;
    var calculatedBalance := 0;
    for i := 0 to |transactions|
      invariant calculatedBalance == Replay(transactions[..i])
    {
      var t := transactions[i];
      match t.kind {
        case Fund =>
          calculatedBalance := calculatedBalance + t.amount;
        case TransferIn =>
          calculatedBalance := calculatedBalance + t.amount;
        case TransferOut =>
          calculatedBalance := calculatedBalance - t.amount;
      }
      assert transactions[..i + 1] == transactions[..i] + [t];
      ReplaySnoc(transactions[..i], t);
    }
    assert transactions[..|transactions|] == transactions;
    var discrepancy := Abs(currentBalance - calculatedBalance);
    // discrepancy < 0.01 in currency units is discrepancy < 1 in cents (BelowOneCent)
    var isValid := discrepancy < 1;
    report := IntegrityReport(isValid, calculatedBalance, currentBalance, discrepancy);
  }
}
