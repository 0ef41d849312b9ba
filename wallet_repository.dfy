/** The ledger store (src/repository/wallet.repository.ts): a map from wallet identifier
    to its stored row, and the append-only sequence of transaction rows. Each mutation
    runs as one unit of work: it either writes every new balance and record, or it
    fails and nothing changes. Row locks and query runners are not modelled. */
module Repository {
  import opened Wrappers
  import opened Entities
  import opened BalanceIntegrity

  /** The failures the repository throws, one constructor each; Message gives the text. */
  datatype RepoError =
    | InitialBalanceOutOfRange
    | InitialBalanceNegative
    | WalletNotFound
    | BalanceOutOfRange
    | InsufficientBalance
    | SenderWalletNotFound
    | ReceiverWalletNotFound
    | SameWallet
    | SenderBalanceOutOfRange
    | ReceiverBalanceOutOfRange
    | WalletNotFoundOrNoHistory

  /** The text of the Error each failure throws. */
  function Message(e: RepoError): string {
    match e
    case InitialBalanceOutOfRange => "Initial balance out of valid range"
    case InitialBalanceNegative => "Initial balance cannot be negative"
    case WalletNotFound => "Wallet not found"
    case BalanceOutOfRange => "Balance out of valid range"
    case InsufficientBalance => "Insufficient balance"
    case SenderWalletNotFound => "Sender wallet not found"
    case ReceiverWalletNotFound => "Receiver wallet not found"
    case SameWallet => "Cannot transfer to the same wallet"
    case SenderBalanceOutOfRange => "Sender balance out of valid range"
    case ReceiverBalanceOutOfRange => "Receiver balance out of valid range"
    case WalletNotFoundOrNoHistory => "Wallet not found or has no transactions"
  }

  datatype TransferResult = TransferResult(sender: Wallet, receiver: Wallet)

  /** A wallet's transactions, newest first (findById orders them by creation time,
      descending; records are appended in creation order). */
  function History(txs: seq<Transaction>, id: string): seq<Transaction> {
    if txs == [] then []
    else
      var last := txs[|txs| - 1];
      (if last.walletId == id then [last] else []) + History(txs[..|txs| - 1], id)
  }

  lemma HistorySnoc(txs: seq<Transaction>, t: Transaction, id: string)
    ensures History(txs + [t], id) == (if t.walletId == id then [t] else []) + History(txs, id)
  {
    assert (txs + [t])[..|txs|] == txs;
  }

  /** A wallet that no record references has an empty history. */
  lemma {:induction false} HistoryOfUnreferenced(txs: seq<Transaction>, id: string)
    requires forall i :: 0 <= i < |txs| ==> txs[i].walletId != id
    ensures History(txs, id) == []
  {
    if txs != [] {
      HistoryOfUnreferenced(txs[..|txs| - 1], id);
    }
  }

  /** Every stored balance lies in [0, 999999999.99]. */
  ghost predicate InRange(wallets: map<string, WalletRow>) {
    forall id :: id in wallets ==> ValidateBalanceRange(wallets[id].balance)
  }

  /** Every record belongs to a stored wallet (the foreign key of the transactions table). */
  ghost predicate Linked(wallets: map<string, WalletRow>, txs: seq<Transaction>) {
    forall i :: 0 <= i < |txs| ==> txs[i].walletId in wallets
  }

  /** Each wallet's balance is the replay of its own history. */
  ghost predicate BalancesMatchHistory(wallets: map<string, WalletRow>, txs: seq<Transaction>) {
    forall id :: id in wallets ==> wallets[id].balance == Replay(History(txs, id))
  }

  lemma InRangeAfterSet(wallets: map<string, WalletRow>, id: string, row: WalletRow)
    requires InRange(wallets) && ValidateBalanceRange(row.balance)
    ensures InRange(wallets[id := row])
  {
  }

  lemma LinkedAfterAppend(wallets: map<string, WalletRow>, txs: seq<Transaction>, more: seq<Transaction>)
    requires Linked(wallets, txs)
    requires forall i :: 0 <= i < |more| ==> more[i].walletId in wallets
    ensures Linked(wallets, txs + more)
  {
  }

  lemma LinkedAfterSet(wallets: map<string, WalletRow>, txs: seq<Transaction>, id: string, row: WalletRow)
    requires Linked(wallets, txs)
    ensures Linked(wallets[id := row], txs)
  {
  }

  /** The store after posting one record against its wallet's balance. */
  function Post(wallets: map<string, WalletRow>, t: Transaction): map<string, WalletRow>
    requires t.walletId in wallets
  {
    var row := wallets[t.walletId];
    wallets[t.walletId := row.(balance := row.balance + Signed(t))]
  }

  /** Posting a record and appending it keeps every balance equal to its replay. */
  lemma MatchAfterPosting(wallets: map<string, WalletRow>, txs: seq<Transaction>, t: Transaction)
    requires t.walletId in wallets
    requires BalancesMatchHistory(wallets, txs)
    ensures BalancesMatchHistory(Post(wallets, t), txs + [t])
  {
    var after := Post(wallets, t);
    forall id | id in after
      ensures after[id].balance == Replay(History(txs + [t], id))
    {
      HistorySnoc(txs, t, id);
      if id == t.walletId {
        ReplayCons(t, History(txs, id));
      } else {
        assert [] + History(txs, id) == History(txs, id);
      }
    }
  }

  /** The store after a transfer is the store after posting its two records in turn. */
  lemma TransferIsTwoPosts(wallets: map<string, WalletRow>, s: string, r: string, amount: int,
                           sRow: WalletRow, rRow: WalletRow)
    requires s in wallets && r in wallets && s != r
    requires sRow == wallets[s].(balance := wallets[s].balance - amount)
    requires rRow == wallets[r].(balance := wallets[r].balance + amount)
    ensures var middle := Post(wallets, Transaction(s, TransferOut, amount, Some(r)));
            r in middle && Post(middle, Transaction(r, TransferIn, amount, Some(s))) == wallets[s := sRow][r := rRow]
  {
    var middle := wallets[s := sRow];
    assert Post(wallets, Transaction(s, TransferOut, amount, Some(r))) == middle;
    assert middle[r] == wallets[r];
  }

  /** A transfer's two balance changes and its two records keep every balance equal to
      its replay. */
  lemma MatchAfterTransfer(wallets: map<string, WalletRow>, txs: seq<Transaction>,
                           s: string, r: string, amount: int, sRow: WalletRow, rRow: WalletRow)
    requires s in wallets && r in wallets && s != r
    requires sRow == wallets[s].(balance := wallets[s].balance - amount)
    requires rRow == wallets[r].(balance := wallets[r].balance + amount)
    requires BalancesMatchHistory(wallets, txs)
    ensures BalancesMatchHistory(wallets[s := sRow][r := rRow],
              txs + [Transaction(s, TransferOut, amount, Some(r)), Transaction(r, TransferIn, amount, Some(s))])
  {
    var outRecord := Transaction(s, TransferOut, amount, Some(r));
    var inRecord := Transaction(r, TransferIn, amount, Some(s));
    TransferIsTwoPosts(wallets, s, r, amount, sRow, rRow);
    MatchAfterPosting(wallets, txs, outRecord);
    MatchAfterPosting(Post(wallets, outRecord), txs + [outRecord], inRecord);
    assert txs + [outRecord] + [inRecord] == txs + [outRecord, inRecord];
  }

  /** A new wallet with a zero balance and no records keeps every balance equal to its replay. */
  lemma MatchAfterOpening(wallets: map<string, WalletRow>, txs: seq<Transaction>, id: string, currency: string)
    requires id !in wallets
    requires Linked(wallets, txs)
    requires BalancesMatchHistory(wallets, txs)
    ensures BalancesMatchHistory(wallets[id := WalletRow(currency, 0)], txs)
  {
    HistoryOfUnreferenced(txs, id);
  }

  /** updateBalance records |amount| under the given type; the record replays to the
      amount itself exactly when the amount's sign agrees with the type. */
  predicate SignAgrees(kind: TransactionType, amount: int) {
    if kind == TransferOut then amount <= 0 else 0 <= amount
  }

  lemma SignedRecordOfAmount(w: string, kind: TransactionType, amount: int, related: Option<string>)
    ensures Signed(Transaction(w, kind, Abs(amount), related)) == amount <==> SignAgrees(kind, amount)
  {
  }

  /** The sum of the balances of the listed wallets. */
  function TotalBalance(ids: seq<string>, wallets: map<string, WalletRow>): int
    requires forall i :: 0 <= i < |ids| ==> ids[i] in wallets
  {
    if ids == [] then 0 else wallets[ids[0]].balance + TotalBalance(ids[1..], wallets)
  }

  ghost predicate Distinct(ids: seq<string>) {
    forall i, j :: 0 <= i < j < |ids| ==> ids[i] != ids[j]
  }

  /** Changing only two balances changes the total of a list of distinct wallets by
      exactly the changes of those two that are listed. */
  lemma {:induction false} TotalBalanceDelta(ids: seq<string>, before: map<string, WalletRow>,
                                             after: map<string, WalletRow>, s: string, r: string)
    requires forall i :: 0 <= i < |ids| ==> ids[i] in before && ids[i] in after
    requires Distinct(ids) && s != r
    requires forall i :: 0 <= i < |ids| && ids[i] != s && ids[i] != r ==>
               after[ids[i]].balance == before[ids[i]].balance
    ensures TotalBalance(ids, after) - TotalBalance(ids, before) ==
            (if s in ids then after[s].balance - before[s].balance else 0) +
            (if r in ids then after[r].balance - before[r].balance else 0)
  {
    if ids != [] {
      var rest := ids[1..];
      assert Distinct(rest) by {
        forall i, j | 0 <= i < j < |rest| ensures rest[i] != rest[j] {
          assert rest[i] == ids[i + 1] && rest[j] == ids[j + 1];
        }
      }
      assert ids[0] !in rest by {
        forall i | 0 <= i < |rest| ensures rest[i] != ids[0] {
          assert rest[i] == ids[i + 1];
        }
      }
      assert forall k :: k in ids <==> k == ids[0] || k in rest by {
        assert ids == [ids[0]] + rest;
      }
      TotalBalanceDelta(rest, before, after, s, r);
    }
  }

  /** Conservation: a transfer between two listed wallets leaves the total of any list of
      distinct wallets that holds both unchanged. */
  lemma TransferConservesTotal(ids: seq<string>, before: map<string, WalletRow>,
                               after: map<string, WalletRow>, s: string, r: string)
    requires forall i :: 0 <= i < |ids| ==> ids[i] in before && ids[i] in after
    requires Distinct(ids) && s != r && s in ids && r in ids
    requires forall i :: 0 <= i < |ids| && ids[i] != s && ids[i] != r ==>
               after[ids[i]].balance == before[ids[i]].balance
    requires after[s].balance + after[r].balance == before[s].balance + before[r].balance
    ensures TotalBalance(ids, after) == TotalBalance(ids, before)
  {
    TotalBalanceDelta(ids, before, after, s, r);
  }

  /** What updateBalance returns on the store `w`: not found, out of range, or the wallet
      with its new balance. The range check comes before the sign check, so a negative
      result is reported as out of range and 'Insufficient balance' is never returned. */
  function UpdateOutcome(w: map<string, WalletRow>, walletId: string, amount: int): Result<Wallet, RepoError> {
    if walletId !in w then Err(WalletNotFound)
    else if !ValidateBalanceRange(w[walletId].balance + amount) then Err(BalanceOutOfRange)
    else Ok(Wallet(walletId, w[walletId].currency, w[walletId].balance + amount))
  }

  /** The store change of updateBalance: when `applied`, the amount is added to the wallet
      and one record of its magnitude is appended under `kind`; otherwise nothing changes. */
  ghost predicate UpdateStep(w: map<string, WalletRow>, txs: seq<Transaction>,
                             w': map<string, WalletRow>, txs': seq<Transaction>,
                             walletId: string, amount: int, kind: TransactionType,
                             relatedWalletId: Option<string>, applied: bool)
  {
    if applied then
      && walletId in w
      && w' == w[walletId := w[walletId].(balance := w[walletId].balance + amount)]
      && txs' == txs + [Transaction(walletId, kind, Abs(amount), relatedWalletId)]
    else
      w' == w && txs' == txs
  }

  /** An update that goes through keeps balances in range and records linked, and keeps
      every balance equal to its replay when the amount's sign agrees with the record type
      (a FUND of a negative amount would record its magnitude and break it). */
  lemma UpdateKeepsLedger(w: map<string, WalletRow>, txs: seq<Transaction>,
                          w': map<string, WalletRow>, txs': seq<Transaction>,
                          walletId: string, amount: int, kind: TransactionType, relatedWalletId: Option<string>)
    requires UpdateOutcome(w, walletId, amount).Ok?
    requires UpdateStep(w, txs, w', txs', walletId, amount, kind, relatedWalletId, true)
    ensures InRange(w) ==> InRange(w')
    ensures Linked(w, txs) ==> Linked(w', txs')
    ensures BalancesMatchHistory(w, txs) && SignAgrees(kind, amount) ==> BalancesMatchHistory(w', txs')
  {
    var row := w[walletId].(balance := w[walletId].balance + amount);
    var t := Transaction(walletId, kind, Abs(amount), relatedWalletId);
    if InRange(w) {
      InRangeAfterSet(w, walletId, row);
    }
    if Linked(w, txs) {
      LinkedAfterSet(w, txs, walletId, row);
      LinkedAfterAppend(w', txs, [t]);
    }
    if BalancesMatchHistory(w, txs) && SignAgrees(kind, amount) {
      SignedRecordOfAmount(walletId, kind, amount, relatedWalletId);
      MatchAfterPosting(w, txs, t);
      assert w' == Post(w, t);
    }
  }

  /** What transfer returns on the store `w`. Its checks run in the source's order:
      sender missing, receiver missing, same wallet, sender range, receiver range (the sign
      check after them is never reached). */
  function TransferOutcome(w: map<string, WalletRow>, senderId: string, receiverId: string, amount: int)
    : Result<TransferResult, RepoError>
  {
    if senderId !in w then Err(SenderWalletNotFound)
    else if receiverId !in w then Err(ReceiverWalletNotFound)
    else if senderId == receiverId then Err(SameWallet)
    else if !ValidateBalanceRange(w[senderId].balance - amount) then Err(SenderBalanceOutOfRange)
    else if !ValidateBalanceRange(w[receiverId].balance + amount) then Err(ReceiverBalanceOutOfRange)
    else Ok(TransferResult(Wallet(senderId, w[senderId].currency, w[senderId].balance - amount),
                           Wallet(receiverId, w[receiverId].currency, w[receiverId].balance + amount)))
  }

  /** The store change of a transfer: when `moved`, the amount leaves the sender and
      reaches the receiver, with one TRANSFER_OUT and one TRANSFER_IN record; otherwise
      nothing changes. */
  ghost predicate TransferStep(w: map<string, WalletRow>, txs: seq<Transaction>,
                               w': map<string, WalletRow>, txs': seq<Transaction>,
                               senderId: string, receiverId: string, amount: int, moved: bool)
  {
    if moved then
      && senderId in w && receiverId in w
      && w' == w[senderId := w[senderId].(balance := w[senderId].balance - amount)]
                [receiverId := w[receiverId].(balance := w[receiverId].balance + amount)]
      && txs' == txs + [Transaction(senderId, TransferOut, amount, Some(receiverId)),
                        Transaction(receiverId, TransferIn, amount, Some(senderId))]
    else
      w' == w && txs' == txs
  }

  /** On a store whose balances are in range, the 'Insufficient balance' error is never
      returned, and a transfer goes through exactly when both wallets exist and differ and
      neither new balance leaves the range. In particular a sender never ends below zero. */
  lemma TransferOutcomeOkIff(w: map<string, WalletRow>, senderId: string, receiverId: string, amount: int)
    requires InRange(w)
    ensures TransferOutcome(w, senderId, receiverId, amount) != Err(InsufficientBalance)
    ensures TransferOutcome(w, senderId, receiverId, amount).Ok? <==>
              && senderId in w && receiverId in w && senderId != receiverId
              && w[senderId].balance - MaxBalance <= amount <= w[senderId].balance
              && -w[receiverId].balance <= amount <= MaxBalance - w[receiverId].balance
  {
  }

  /** A transfer that goes through keeps every invariant of the store: balances in range,
      records linked to wallets, balances equal to their replays; and it conserves the sum
      of the two balances. */
  lemma TransferKeepsLedger(w: map<string, WalletRow>, txs: seq<Transaction>,
                            w': map<string, WalletRow>, txs': seq<Transaction>,
                            senderId: string, receiverId: string, amount: int)
    requires TransferOutcome(w, senderId, receiverId, amount).Ok?
    requires TransferStep(w, txs, w', txs', senderId, receiverId, amount, true)
    ensures InRange(w) ==> InRange(w')
    ensures Linked(w, txs) ==> Linked(w', txs')
    ensures BalancesMatchHistory(w, txs) ==> BalancesMatchHistory(w', txs')
    ensures w'[senderId].balance + w'[receiverId].balance == w[senderId].balance + w[receiverId].balance
  {
    var sRow := w[senderId].(balance := w[senderId].balance - amount);
    var vRow := w[receiverId].(balance := w[receiverId].balance + amount);
    if InRange(w) {
      InRangeAfterSet(w, senderId, sRow);
      InRangeAfterSet(w[senderId := sRow], receiverId, vRow);
    }
    if Linked(w, txs) {
      LinkedAfterSet(w, txs, senderId, sRow);
      LinkedAfterSet(w[senderId := sRow], txs, receiverId, vRow);
      LinkedAfterAppend(w', txs, [Transaction(senderId, TransferOut, amount, Some(receiverId)),
                                  Transaction(receiverId, TransferIn, amount, Some(senderId))]);
    }
    if BalancesMatchHistory(w, txs) {
      MatchAfterTransfer(w, txs, senderId, receiverId, amount, sRow, vRow);
    }
  }

  class WalletRepository {
    var wallets: map<string, WalletRow>
    var transactions: seq<Transaction>

    ghost predicate Valid()
      reads this
    {
      InRange(wallets) && Linked(wallets, transactions)
    }

    /** Invariant 1 of the ledger: every balance is the replay of its history. */
    ghost predicate Consistent()
      reads this
    {
      BalancesMatchHistory(wallets, transactions)
    }

    constructor ()
      ensures Valid() && Consistent()
      ensures wallets == map[] && transactions == []
    {
      wallets := map[];
      transactions := [];
    }

    /** findById: the stored wallet, if there is one. */
    function FindById(id: string): (r: Option<Wallet>)
      reads this
      ensures r.Some? <==> id in wallets
      ensures r.Some? ==> r.value.id == id && r.value.currency == wallets[id].currency
                          && r.value.balance == wallets[id].balance
    {
      if id in wallets then Some(Wallet(id, wallets[id].currency, wallets[id].balance)) else None
    }

    /** create: rounds the initial balance to cents and rejects it outside the range.
        `id` is the identifier the database generates for the new row. */
    method Create(id: string, currency: string, balance: real) returns (r: Result<Wallet, RepoError>)
      requires Valid()
      requires id !in wallets
      modifies this
      ensures Valid()
      ensures transactions == old(transactions)
      ensures var cents := RoundToTwoDecimals(balance);
              if ValidateBalanceRange(cents) then
                r == Ok(Wallet(id, currency, cents)) && wallets == old(wallets)[id := WalletRow(currency, cents)]
              else
                r == Err(InitialBalanceOutOfRange) && wallets == old(wallets)
      ensures r != Err(InitialBalanceNegative)
    {
      var cents := RoundToTwoDecimals(balance);
      if !ValidateBalanceRange(cents) {
        return Err(InitialBalanceOutOfRange);
      }
      if cents < 0 {
        return Err(InitialBalanceNegative);
      }
      wallets := wallets[id := WalletRow(currency, cents)];
      r := Ok(Wallet(id, currency, cents));
    }

    /** createInitialTransaction: one FUND record for the wallet's opening balance. The
        amount column has scale 2, so the stored amount is the amount rounded to cents. */
    method CreateInitialTransaction(walletId: string, amount: real) returns (t: Transaction)
      requires Valid()
      requires walletId in wallets
      modifies this
      ensures Valid()
      ensures wallets == old(wallets)
      ensures t == Transaction(walletId, Fund, RoundToTwoDecimals(amount), None)
      ensures transactions == old(transactions) + [t]
    {
      t := Transaction(walletId, Fund, RoundToTwoDecimals(amount), None);
      transactions := transactions + [t];
    }

    /** updateBalance: adds `amount` to one wallet and records |amount| under `kind`.
        The range check comes before the sign check, so a negative result is reported as
        out of range and the 'Insufficient balance' branch is never taken. */
    method UpdateBalance(walletId: string, amount: int, kind: TransactionType, relatedWalletId: Option<string>)
      returns (r: Result<Wallet, RepoError>)
      requires Valid()
      modifies this
      ensures Valid()
      ensures r == UpdateOutcome(old(wallets), walletId, amount)
      ensures UpdateStep(old(wallets), old(transactions), wallets, transactions,
                         walletId, amount, kind, relatedWalletId, r.Ok?)
      ensures r != Err(InsufficientBalance)
      ensures old(Consistent()) && SignAgrees(kind, amount) ==> Consistent()
    {
      if walletId !in wallets {
        return Err(WalletNotFound);
      }
      var wallet := wallets[walletId];
      // roundToTwoDecimals of a sum of whole cents is that sum (RoundCentsExact)
      var newBalance := wallet.balance + amount;
      if !ValidateBalanceRange(newBalance) {
        return Err(BalanceOutOfRange);
      }
      if newBalance < 0 {
        return Err(InsufficientBalance);
      }
      ghost var before := wallets;
      ghost var beforeTxs := transactions;
      wallets := wallets[walletId := wallet.(balance := newBalance)];
      transactions := transactions + [Transaction(walletId, kind, Abs(amount), relatedWalletId)];
      r := Ok(Wallet(walletId, wallet.currency, newBalance));
      UpdateKeepsLedger(before, beforeTxs, wallets, transactions, walletId, amount, kind, relatedWalletId);
    }

    /** transfer: moves `amount` from sender to receiver with one TRANSFER_OUT and one
        TRANSFER_IN record. Checks run in the source's order: sender missing, receiver
        missing, same wallet, sender range, receiver range (the sign check after them is
        never reached). */
    method Transfer(senderId: string, receiverId: string, amount: int)
      returns (r: Result<TransferResult, RepoError>)
      requires Valid()
      modifies this
      ensures Valid()
      ensures r == TransferOutcome(old(wallets), senderId, receiverId, amount)
      ensures TransferStep(old(wallets), old(transactions), wallets, transactions, senderId, receiverId, amount, r.Ok?)
      ensures r != Err(InsufficientBalance)
      ensures r.Ok? ==> wallets[senderId].balance + wallets[receiverId].balance ==
                        old(wallets)[senderId].balance + old(wallets)[receiverId].balance
      ensures old(Consistent()) ==> Consistent()
    {
      var senderWallet := if senderId in wallets then Some(wallets[senderId]) else None;
      var receiverWallet := if receiverId in wallets then Some(wallets[receiverId]) else None;
      if senderWallet.None? {
        return Err(SenderWalletNotFound);
      }
      if receiverWallet.None? {
        return Err(ReceiverWalletNotFound);
      }
      if senderId == receiverId {
        return Err(SameWallet);
      }
      var s := senderWallet.value;
      var v := receiverWallet.value;
      // roundToTwoDecimals of a sum of whole cents is that sum (RoundCentsExact)
      var senderNewBalance := s.balance - amount;
      var receiverNewBalance := v.balance + amount;
      if !ValidateBalanceRange(senderNewBalance) {
        return Err(SenderBalanceOutOfRange);
      }
      if !ValidateBalanceRange(receiverNewBalance) {
        return Err(ReceiverBalanceOutOfRange);
      }
      if senderNewBalance < 0 {
        return Err(InsufficientBalance);
      }
      ghost var before := wallets;
      ghost var beforeTxs := transactions;
      wallets := wallets[senderId := s.(balance := senderNewBalance)]
                        [receiverId := v.(balance := receiverNewBalance)];
      transactions := transactions + [Transaction(senderId, TransferOut, amount, Some(receiverId)),
                                      Transaction(receiverId, TransferIn, amount, Some(senderId))];
      r := Ok(TransferResult(Wallet(senderId, s.currency, senderNewBalance),
                             Wallet(receiverId, v.currency, receiverNewBalance)));
      TransferKeepsLedger(before, beforeTxs, wallets, transactions, senderId, receiverId, amount);
    }

    /** verifyBalanceIntegrity: replays the wallet's history, rounds the sum to cents and
        compares it with the stored balance. */
    method VerifyBalanceIntegrity(walletId: string) returns (r: Result<IntegrityReport, RepoError>)
      ensures walletId !in wallets ==> r == Err(WalletNotFoundOrNoHistory)
      ensures walletId in wallets ==>
                var balance := wallets[walletId].balance;
                var replayed := Replay(History(transactions, walletId));
                r == Ok(IntegrityReport(balance == replayed, replayed, balance, Abs(balance - replayed)))
      ensures Consistent() && r.Ok? ==> r.value.isValid && r.value.discrepancy == 0
    {
      if walletId !in wallets {
        return Err(WalletNotFoundOrNoHistory);
      }
      var history := History(transactions, walletId);
      var currentBalance := wallets[walletId].balance;
      var calculatedBalance := 0;
      for i := 0 to |history|
        invariant calculatedBalance == Replay(history[..i])
      {
        var t := history[i];
        match t.kind {
          case Fund =>
            calculatedBalance := calculatedBalance + t.amount;
          case TransferIn =>
            calculatedBalance := calculatedBalance + t.amount;
          case TransferOut =>
            calculatedBalance := calculatedBalance - t.amount;
        }
        assert history[..i + 1] == history[..i] + [t];
        ReplaySnoc(history[..i], t);
      }
      assert history[..|history|] == history;
      // the sum of whole cents needs no rounding (RoundCentsExact), and
      // discrepancy < 0.01 in currency units is discrepancy < 1 in cents (BelowOneCent)
      var discrepancy := Abs(currentBalance - calculatedBalance);
      var isValid := discrepancy < 1;
      r := Ok(IntegrityReport(isValid, calculatedBalance, currentBalance, discrepancy));
      if Consistent() {
        assert currentBalance == calculatedBalance;
      }
    }
  }
}
