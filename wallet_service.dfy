/** The wallet operations (src/services/wallet.service.ts): they order the checks, consult
    the idempotency cache before doing any work, cache only successful results, and turn
    repository failures into not-found and bad-request answers. */
module Service {
  import opened Wrappers
  import opened Entities
  import opened BalanceIntegrity
  import opened Repository
  import Idempotency

  /** One transaction as the API returns it. */
  datatype TransactionResponse = TransactionResponse(
    walletId: string,
    kind: TransactionType,
    amount: int,
    relatedWalletId: Option<string>)

  /** A wallet as the API returns it; the transactions only when asked for. */
  datatype WalletResponse = WalletResponse(
    id: string,
    currency: string,
    balance: int,
    transactions: Option<seq<TransactionResponse>>)

  /** What the idempotency cache holds: a funding answer or a transfer answer. */
  datatype Response =
    | WalletResult(wallet: WalletResponse)
    | TransferResponse(sender: WalletResponse, receiver: WalletResponse)

  /** NotFoundException, BadRequestException, or a repository error passed on unchanged. */
  datatype ServiceError =
    | NotFound(message: string)
    | BadRequest(message: string)
    | Rethrown(error: RepoError)

  /** One record as the API returns it: an empty related wallet id is left out. */
  function MapTransaction(t: Transaction): (r: TransactionResponse)
    ensures r.walletId == t.walletId && r.kind == t.kind && r.amount == t.amount
    ensures r.relatedWalletId.Some? <==> t.relatedWalletId.Some? && t.relatedWalletId.value != ""
    ensures r.relatedWalletId.Some? ==> r.relatedWalletId == t.relatedWalletId
  {
    var related := if t.relatedWalletId == Some("") then None else t.relatedWalletId;
    TransactionResponse(t.walletId, t.kind, t.amount, related)
  }

  /** mapToWalletResponse: the wallet's fields, and its records in order when they are
      asked for and loaded. */
  function MapToWalletResponse(w: Wallet, includeTransactions: bool, transactions: Option<seq<Transaction>>)
    : (r: WalletResponse)
    ensures r.id == w.id && r.currency == w.currency && r.balance == w.balance
    ensures r.transactions.Some? <==> includeTransactions && transactions.Some?
    ensures r.transactions.Some? ==> |r.transactions.value| == |transactions.value|
    ensures r.transactions.Some? ==>
              forall i :: 0 <= i < |transactions.value| ==>
                r.transactions.value[i] == MapTransaction(transactions.value[i])
  {
    if includeTransactions && transactions.Some? then
      var txs := transactions.value;
      WalletResponse(w.id, w.currency, w.balance, Some(seq(|txs|, i requires 0 <= i < |txs| => MapTransaction(txs[i]))))
    else
      WalletResponse(w.id, w.currency, w.balance, None)
  }

  /** The signed contribution of a returned record, as a client recomputing the balance
      would count it. */
  function SignedResponse(t: TransactionResponse): int {
    match t.kind
    case Fund => t.amount
    case TransferIn => t.amount
    case TransferOut => -t.amount
  }

  function ReplayResponses(rs: seq<TransactionResponse>): int {
    if rs == [] then 0 else SignedResponse(rs[0]) + ReplayResponses(rs[1..])
  }

  /** The returned records replay to the same balance as the stored ones: a client that
      sums a wallet's details finds the balance the integrity check computes. */
  lemma {:induction false} ResponseReplay(txs: seq<Transaction>)
    ensures ReplayResponses(seq(|txs|, i requires 0 <= i < |txs| => MapTransaction(txs[i]))) == Replay(txs)
  {
    var rs := seq(|txs|, i requires 0 <= i < |txs| => MapTransaction(txs[i]));
    if txs != [] {
      assert rs[1..] == seq(|txs[1..]|, i requires 0 <= i < |txs[1..]| => MapTransaction(txs[1..][i]));
      ResponseReplay(txs[1..]);
    }
  }

  /** On a consistent ledger, the records the wallet details return replay to the balance
      they return. */
  lemma DetailsReplayToBalance(wallets: map<string, WalletRow>, txs: seq<Transaction>, id: string)
    requires BalancesMatchHistory(wallets, txs) && id in wallets
    ensures var resp := MapToWalletResponse(Wallet(id, wallets[id].currency, wallets[id].balance), true,
                                            Some(History(txs, id)));
            resp.transactions.Some? && ReplayResponses(resp.transactions.value) == resp.balance
  {
    ResponseReplay(History(txs, id));
  }

  /** `createWalletDto.currency || 'USD'`. */
  function DefaultCurrency(currency: Option<string>): (c: string)
    ensures currency.None? || currency.value == "" ==> c == "USD"
    ensures currency.Some? && currency.value != "" ==> c == currency.value
  {
    if currency.None? || currency.value == "" then "USD" else currency.value
  }

  /** `createWalletDto.balance || 0`. */
  function InitialBalance(balance: Option<real>): (b: real)
    ensures balance.None? ==> b == 0.0
    ensures balance.Some? ==> b == balance.value
  {
    if balance.None? then 0.0 else balance.value
  }

  /** The transfer's error handling: four repository messages become HTTP answers with
      the same text, and every other error is passed on. */
  function MapTransferError(e: RepoError): (r: ServiceError)
    ensures e == InsufficientBalance || e == SameWallet ==> r == BadRequest(Message(e))
    ensures e == SenderWalletNotFound || e == ReceiverWalletNotFound ==> r == NotFound(Message(e))
    ensures (e != InsufficientBalance && e != SameWallet && e != SenderWalletNotFound &&
             e != ReceiverWalletNotFound) ==> r == Rethrown(e)
  {
    var message := Message(e);
    if message == "Insufficient balance" then BadRequest("Insufficient balance")
    else if message == "Sender wallet not found" then NotFound("Sender wallet not found")
    else if message == "Receiver wallet not found" then NotFound("Receiver wallet not found")
    else if message == "Cannot transfer to the same wallet" then BadRequest("Cannot transfer to the same wallet")
    else Rethrown(e)
  }

  /** The answer a transfer that misses the cache gives on the ledger `w`: the service's
      own checks (sender, receiver, sufficient balance), then the repository's (same
      wallet, sender range, receiver range) with its errors mapped. */
  function TransferAnswer(w: map<string, WalletRow>, senderId: string, receiverId: string, amount: int)
    : Result<Response, ServiceError>
  {
    if senderId !in w then Err(NotFound("Sender wallet not found"))
    else if receiverId !in w then Err(NotFound("Receiver wallet not found"))
    else if w[senderId].balance < amount then Err(BadRequest("Insufficient balance"))
    else
      match TransferOutcome(w, senderId, receiverId, amount)
      case Err(e) => Err(MapTransferError(e))
      case Ok(t) => Ok(TransferResponse(MapToWalletResponse(t.sender, false, None),
                                        MapToWalletResponse(t.receiver, false, None)))
  }

  /** The answer a funding that misses the cache gives on the ledger `w`. */
  function FundAnswer(w: map<string, WalletRow>, walletId: string, amount: int): Result<Response, ServiceError> {
    if walletId !in w then Err(NotFound("Wallet not found"))
    else
      match UpdateOutcome(w, walletId, amount)
      case Err(e) => Err(Rethrown(e))
      case Ok(wallet) => Ok(WalletResult(MapToWalletResponse(wallet, false, None)))
  }

  /** On a ledger whose balances are in range, a funding goes through exactly when the
      wallet exists and the new balance stays in range; a negative amount is not refused
      here (the request validator refuses it). */
  lemma FundAnswerOkIff(w: map<string, WalletRow>, walletId: string, amount: int)
    requires InRange(w)
    ensures FundAnswer(w, walletId, amount).Ok? <==>
              walletId in w && -w[walletId].balance <= amount <= MaxBalance - w[walletId].balance
    ensures FundAnswer(w, walletId, amount).Ok? ==>
              FundAnswer(w, walletId, amount).value.wallet.balance == w[walletId].balance + amount
  {
  }

  /** A transfer from a wallet to itself never succeeds: after the existence and balance
      checks it is refused as a same-wallet transfer. */
  lemma SelfTransferRefused(w: map<string, WalletRow>, id: string, amount: int)
    ensures var r := TransferAnswer(w, id, id, amount);
            && (id !in w ==> r == Err(NotFound("Sender wallet not found")))
            && (id in w && w[id].balance < amount ==> r == Err(BadRequest("Insufficient balance")))
            && (id in w && w[id].balance >= amount ==> r == Err(BadRequest("Cannot transfer to the same wallet")))
  {
  }

  /** On a ledger whose balances are in range, a transfer goes through exactly when both
      wallets exist and differ, the sender holds the amount, and neither new balance leaves
      the range. Nothing here requires the amount to be positive: that is the request
      validator's job. */
  lemma TransferAnswerOkIff(w: map<string, WalletRow>, senderId: string, receiverId: string, amount: int)
    requires InRange(w)
    ensures TransferAnswer(w, senderId, receiverId, amount).Ok? <==>
              && senderId in w && receiverId in w && senderId != receiverId
              && amount <= w[senderId].balance
              && w[senderId].balance - MaxBalance <= amount
              && -w[receiverId].balance <= amount <= MaxBalance - w[receiverId].balance
  {
  }

  /** A successful transfer answers with the two wallets' new balances, which add up to
      what the two held before and both lie in range. */
  lemma TransferAnswerConserves(w: map<string, WalletRow>, senderId: string, receiverId: string, amount: int)
    requires TransferAnswer(w, senderId, receiverId, amount).Ok?
    ensures var resp := TransferAnswer(w, senderId, receiverId, amount).value;
            && senderId in w && receiverId in w
            && resp.TransferResponse?
            && resp.sender.id == senderId && resp.receiver.id == receiverId
            && resp.sender.balance + resp.receiver.balance == w[senderId].balance + w[receiverId].balance
            && ValidateBalanceRange(resp.sender.balance) && ValidateBalanceRange(resp.receiver.balance)
  {
  }

  /** Opening a wallet with an initial balance of `cents`, and a FUND record of that
      amount when `funded` (otherwise the balance is zero), keeps every balance equal to
      its replay. */
  lemma OpeningKeepsConsistency(wallets: map<string, WalletRow>, txs: seq<Transaction>,
                                id: string, currency: string, cents: int, funded: bool)
    requires id !in wallets && Linked(wallets, txs) && BalancesMatchHistory(wallets, txs)
    requires !funded ==> cents == 0
    ensures BalancesMatchHistory(wallets[id := WalletRow(currency, cents)],
                                 txs + (if funded then [Transaction(id, Fund, cents, None)] else []))
  {
    MatchAfterOpening(wallets, txs, id, currency);
    if funded {
      var t := Transaction(id, Fund, cents, None);
      MatchAfterPosting(wallets[id := WalletRow(currency, 0)], txs, t);
      assert Post(wallets[id := WalletRow(currency, 0)], t) == wallets[id := WalletRow(currency, cents)];
    } else {
      assert txs + [] == txs;
    }
  }

  class WalletService {
    const repository: WalletRepository
    const cache: Idempotency.IdempotencyService<Response>

    constructor (repository: WalletRepository, cache: Idempotency.IdempotencyService<Response>)
      ensures this.repository == repository && this.cache == cache
    {
      this.repository := repository;
      this.cache := cache;
    }

    /** createWallet: the currency defaults to USD and the balance to 0; a positive initial
        balance is also recorded as a FUND transaction. `newId` is the identifier the
        database generates. */
    method CreateWallet(newId: string, currency: Option<string>, balance: Option<real>)
      returns (r: Result<WalletResponse, ServiceError>)
      requires repository.Valid()
      requires newId !in repository.wallets
      modifies repository
      ensures repository.Valid()
      ensures var initial := InitialBalance(balance);
              var cents := RoundToTwoDecimals(initial);
              var code := DefaultCurrency(currency);
              if ValidateBalanceRange(cents) then
                && r == Ok(WalletResponse(newId, code, cents, None))
                && repository.wallets == old(repository.wallets)[newId := WalletRow(code, cents)]
                && repository.transactions == old(repository.transactions) +
                     (if initial > 0.0 then [Transaction(newId, Fund, cents, None)] else [])
              else
                && r == Err(Rethrown(InitialBalanceOutOfRange))
                && repository.wallets == old(repository.wallets)
                && repository.transactions == old(repository.transactions)
      ensures old(repository.Consistent()) ==> repository.Consistent()
    {
      var initialBalance := if balance.None? then 0.0 else balance.value;
      var code := if currency.None? || currency.value == "" then "USD" else currency.value;
      var created := repository.Create(newId, code, initialBalance);
      if created.Err? {
        return Err(Rethrown(created.error));
      }
      var wallet := created.value;
      if initialBalance > 0.0 {
        var _ := repository.CreateInitialTransaction(wallet.id, initialBalance);
      }
      var stored := repository.FindById(wallet.id);
      var shown := if stored.Some? then stored.value else wallet;
      r := Ok(MapToWalletResponse(shown, false, None));
      if old(repository.Consistent()) {
        if !(initialBalance > 0.0) {
          RoundNonPositive(initialBalance);
        }
        OpeningKeepsConsistency(old(repository.wallets), old(repository.transactions),
                                newId, code, wallet.balance, initialBalance > 0.0);
      }
    }

    /** The part of fundWallet after the cache lookup: the existence check and the
        repository update. Only the ledger changes. */
    method FundOnLedger(walletId: string, amount: int) returns (r: Result<Response, ServiceError>)
      requires repository.Valid()
      modifies repository
      ensures repository.Valid()
      ensures r == FundAnswer(old(repository.wallets), walletId, amount)
      ensures UpdateStep(old(repository.wallets), old(repository.transactions),
                         repository.wallets, repository.transactions, walletId, amount, Fund, None, r.Ok?)
      ensures old(repository.Consistent()) && amount >= 0 ==> repository.Consistent()
    {
      var wallet := repository.FindById(walletId);
      if wallet.None? {
        return Err(NotFound("Wallet not found"));
      }
      var updated := repository.UpdateBalance(walletId, amount, Fund, None);
      if updated.Err? {
        return Err(Rethrown(updated.error));
      }
      r := Ok(WalletResult(MapToWalletResponse(updated.value, false, None)));
    }

    /** fundWallet: a repeated request is answered from the cache without touching the
        ledger; otherwise the ledger decides, and only a successful funding is cached. */
    method FundWallet(walletId: string, amount: int, now: int) returns (r: Result<Response, ServiceError>)
      requires repository.Valid()
      modifies repository, cache
      ensures repository.Valid()
      ensures var hit := Idempotency.Lookup(old(cache.store), Idempotency.FundKey(walletId, amount), now);
              r == if hit.Some? then Ok(hit.value) else FundAnswer(old(repository.wallets), walletId, amount)
      ensures var hit := Idempotency.Lookup(old(cache.store), Idempotency.FundKey(walletId, amount), now);
              UpdateStep(old(repository.wallets), old(repository.transactions),
                         repository.wallets, repository.transactions, walletId, amount, Fund, None, hit.None? && r.Ok?)
      ensures var key := Idempotency.FundKey(walletId, amount);
              var swept := Idempotency.AfterLookup(old(cache.store), key, now);
              cache.store == if r.Ok? && Idempotency.Lookup(old(cache.store), key, now).None?
                             then swept[key := Idempotency.Entry(r.value, now, now + Idempotency.DefaultTtl)]
                             else swept
      ensures old(repository.Consistent()) && amount >= 0 ==> repository.Consistent()
    {
      var key := cache.GenerateFundKey(walletId, amount);
      r := FundUnderKey(key, walletId, amount, now);
    }

    /** The part of fundWallet after the key is built: the cache lookup, the ledger, and
        the caching of a success under `key`. */
    method FundUnderKey(key: string, walletId: string, amount: int, now: int)
      returns (r: Result<Response, ServiceError>)
      requires repository.Valid()
      modifies repository, cache
      ensures repository.Valid()
      ensures var hit := Idempotency.Lookup(old(cache.store), key, now);
              r == if hit.Some? then Ok(hit.value) else FundAnswer(old(repository.wallets), walletId, amount)
      ensures var hit := Idempotency.Lookup(old(cache.store), key, now);
              UpdateStep(old(repository.wallets), old(repository.transactions),
                         repository.wallets, repository.transactions, walletId, amount, Fund, None, hit.None? && r.Ok?)
      ensures var swept := Idempotency.AfterLookup(old(cache.store), key, now);
              cache.store == if r.Ok? && Idempotency.Lookup(old(cache.store), key, now).None?
                             then swept[key := Idempotency.Entry(r.value, now, now + Idempotency.DefaultTtl)]
                             else swept
      ensures old(repository.Consistent()) && amount >= 0 ==> repository.Consistent()
    {
      var cached := cache.Get(key, now);
      if cached.Some? {
        return Ok(cached.value);
      }
      r := FundOnLedger(walletId, amount);
      if r.Ok? {
        cache.Set(key, r.value, None, now);
      }
    }

    /** The part of transferBetweenWallets after the cache lookup: the service's checks,
        the repository transfer, and the mapping of its errors. Only the ledger changes. */
    method TransferOnLedger(senderId: string, receiverId: string, amount: int)
      returns (r: Result<Response, ServiceError>)
      requires repository.Valid()
      modifies repository
      ensures repository.Valid()
      ensures r == TransferAnswer(old(repository.wallets), senderId, receiverId, amount)
      ensures TransferStep(old(repository.wallets), old(repository.transactions),
                           repository.wallets, repository.transactions, senderId, receiverId, amount, r.Ok?)
      ensures old(repository.Consistent()) ==> repository.Consistent()
    {
      var senderWallet := repository.FindById(senderId);
      if senderWallet.None? {
        return Err(NotFound("Sender wallet not found"));
      }
      var receiverWallet := repository.FindById(receiverId);
      if receiverWallet.None? {
        return Err(NotFound("Receiver wallet not found"));
      }
      if senderWallet.value.balance < amount {
        return Err(BadRequest("Insufficient balance"));
      }
      var result := repository.Transfer(senderId, receiverId, amount);
      if result.Err? {
        return Err(MapTransferError(result.error));
      }
      r := Ok(TransferResponse(MapToWalletResponse(result.value.sender, false, None),
                               MapToWalletResponse(result.value.receiver, false, None)));
    }

    /** transferBetweenWallets: a repeated request is answered from the cache without
        touching the ledger; otherwise the ledger decides, and only a successful transfer is
        cached. */
    method TransferBetweenWallets(senderId: string, receiverId: string, amount: int, now: int)
      returns (r: Result<Response, ServiceError>)
      requires repository.Valid()
      modifies repository, cache
      ensures repository.Valid()
      ensures var hit := Idempotency.Lookup(old(cache.store), Idempotency.TransferKey(senderId, receiverId, amount), now);
              r == if hit.Some? then Ok(hit.value) else TransferAnswer(old(repository.wallets), senderId, receiverId, amount)
      ensures var hit := Idempotency.Lookup(old(cache.store), Idempotency.TransferKey(senderId, receiverId, amount), now);
              TransferStep(old(repository.wallets), old(repository.transactions),
                           repository.wallets, repository.transactions, senderId, receiverId, amount,
                           hit.None? && r.Ok?)
      ensures var key := Idempotency.TransferKey(senderId, receiverId, amount);
              var swept := Idempotency.AfterLookup(old(cache.store), key, now);
              cache.store == if r.Ok? && Idempotency.Lookup(old(cache.store), key, now).None?
                             then swept[key := Idempotency.Entry(r.value, now, now + Idempotency.DefaultTtl)]
                             else swept
      ensures old(repository.Consistent()) ==> repository.Consistent()
    {
      var key := cache.GenerateTransferKey(senderId, receiverId, amount);
      r := TransferUnderKey(key, senderId, receiverId, amount, now);
    }

    /** The part of transferBetweenWallets after the key is built: the cache lookup, the
        ledger, and the caching of a success under `key`. */
    method TransferUnderKey(key: string, senderId: string, receiverId: string, amount: int, now: int)
      returns (r: Result<Response, ServiceError>)
      requires repository.Valid()
      modifies repository, cache
      ensures repository.Valid()
      ensures var hit := Idempotency.Lookup(old(cache.store), key, now);
              r == if hit.Some? then Ok(hit.value) else TransferAnswer(old(repository.wallets), senderId, receiverId, amount)
      ensures var hit := Idempotency.Lookup(old(cache.store), key, now);
              TransferStep(old(repository.wallets), old(repository.transactions),
                           repository.wallets, repository.transactions, senderId, receiverId, amount,
                           hit.None? && r.Ok?)
      ensures var swept := Idempotency.AfterLookup(old(cache.store), key, now);
              cache.store == if r.Ok? && Idempotency.Lookup(old(cache.store), key, now).None?
                             then swept[key := Idempotency.Entry(r.value, now, now + Idempotency.DefaultTtl)]
                             else swept
      ensures old(repository.Consistent()) ==> repository.Consistent()
    {
      var cached := cache.Get(key, now);
      if cached.Some? {
        return Ok(cached.value);
      }
      r := TransferOnLedger(senderId, receiverId, amount);
      if r.Ok? {
        cache.Set(key, r.value, None, now);
      }
    }

    /** getWalletDetails: the wallet with its records, newest first. The integrity check it
        runs only logs, so a mismatch never makes it fail. */
    method GetWalletDetails(walletId: string) returns (r: Result<WalletResponse, ServiceError>)
      ensures walletId !in repository.wallets ==> r == Err(NotFound("Wallet not found"))
      ensures walletId in repository.wallets ==>
                var row := repository.wallets[walletId];
                r == Ok(MapToWalletResponse(Wallet(walletId, row.currency, row.balance), true,
                                            Some(History(repository.transactions, walletId))))
    {
      var wallet := repository.FindById(walletId);
      if wallet.None? {
        return Err(NotFound("Wallet not found"));
      }
      var _ := repository.VerifyBalanceIntegrity(walletId);
      r := Ok(MapToWalletResponse(wallet.value, true, Some(History(repository.transactions, walletId))));
    }

    /** verifyBalanceIntegrity: not found for a missing wallet, otherwise the repository's
        report, which is valid whenever the ledger is consistent. */
    method VerifyBalanceIntegrity(walletId: string) returns (r: Result<IntegrityReport, ServiceError>)
      ensures walletId !in repository.wallets ==> r == Err(NotFound("Wallet not found"))
      ensures walletId in repository.wallets ==>
                var balance := repository.wallets[walletId].balance;
                var replayed := Replay(History(repository.transactions, walletId));
                r == Ok(IntegrityReport(balance == replayed, replayed, balance, Abs(balance - replayed)))
      ensures repository.Consistent() && r.Ok? ==> r.value.isValid
    {
      var wallet := repository.FindById(walletId);
      if wallet.None? {
        return Err(NotFound("Wallet not found"));
      }
      var report := repository.VerifyBalanceIntegrity(walletId);
      r := Ok(report.value);
    }

    /** A fund request retried before its cache entry expires is answered from the cache:
        the second answer is the first, and only the first credited the wallet. */
    method RetryFund(walletId: string, amount: int, now: int, later: int)
      returns (first: Result<Response, ServiceError>, second: Result<Response, ServiceError>)
      requires repository.Valid()
      requires now <= later <= now + Idempotency.DefaultTtl
      requires Idempotency.Lookup(cache.store, Idempotency.FundKey(walletId, amount), now).None?
      modifies repository, cache
      ensures first.Ok? ==> second == first
      ensures first.Ok? ==> |repository.transactions| == |old(repository.transactions)| + 1
      ensures first.Ok? ==> UpdateStep(old(repository.wallets), old(repository.transactions),
                                       repository.wallets, repository.transactions, walletId, amount, Fund, None, true)
    {
      first := FundWallet(walletId, amount, now);
      second := FundWallet(walletId, amount, later);
    }

    /** The same for a transfer: a retry inside the entry's lifetime repeats the answer and
        moves no more money. */
    method RetryTransfer(senderId: string, receiverId: string, amount: int, now: int, later: int)
      returns (first: Result<Response, ServiceError>, second: Result<Response, ServiceError>)
      requires repository.Valid()
      requires now <= later <= now + Idempotency.DefaultTtl
      requires Idempotency.Lookup(cache.store, Idempotency.TransferKey(senderId, receiverId, amount), now).None?
      modifies repository, cache
      ensures first.Ok? ==> second == first
      ensures first.Ok? ==> |repository.transactions| == |old(repository.transactions)| + 2
      ensures first.Ok? ==> TransferStep(old(repository.wallets), old(repository.transactions),
                                         repository.wallets, repository.transactions, senderId, receiverId, amount, true)
    {
      first := TransferBetweenWallets(senderId, receiverId, amount, now);
      second := TransferBetweenWallets(senderId, receiverId, amount, later);
    }
  }
}
