# Wallet ledger — a Dafny model

This project models the core of a small wallet API. Each wallet holds one currency balance, and a
ledger of transactions records every change to it. The parts modelled are:

- **Money helpers and the integrity replay** (`BalanceIntegrity`, `balance_integrity.dfy`).
  - Rounding to cents.
  - The closed balance range [0, 999999999.99].
  - The replay of a history: FUND and TRANSFER_IN add, TRANSFER_OUT subtracts. The result is
    compared with the stored balance.
- **The ledger store** (`Repository`, `wallet_repository.dfy`).
  - A class holding a map from wallet id to its row (currency, balance) and an append-only
    sequence of transaction records.
  - `Create`, `CreateInitialTransaction`, `UpdateBalance`, `Transfer` and `VerifyBalanceIntegrity`.
  - Each mutation is one atomic step: it either writes every new balance and record, or it
    returns an error and changes nothing.
  - The store keeps three invariants:
    - every balance is in range;
    - every record belongs to a stored wallet;
    - every balance equals the replay of its wallet's history.
- **The wallet operations** (`Service`, `wallet_service.dfy`).
  - Creation with default currency and balance.
  - Funding and transfer behind the idempotency cache: the cache is consulted first, a hit does
    no ledger work, and only successes are cached.
  - The order of the existence and balance checks.
  - The mapping of repository errors to not-found and bad-request answers.
  - Wallet details and the integrity query.
  - The projection of a wallet and its records into the response.
- **The idempotency cache** (`Idempotency`, `idempotency.dfy`).
  - The 32-bit rolling hash and the key built from it.
  - A map of results with a time-to-live, which expire lazily on lookup and are removed in a
    sweep.
  - Statistics.
- **The fixed-window rate limiter** (`RateLimiting`, `rate_limiter.dfy`).
  - A count and a window end per key.
  - The four limiters the application configures.
- **The request validators** (`Validators`, `validators.dfy`).
  - UUID shape, at most two decimals, an inclusive range, currency membership, and a positive
    bounded amount.

Money is held as whole cents (`int`); the database columns have scale 2. An amount that still
needs rounding is an exact rational (`real`); the only such amount is the initial balance given at
creation. The clock is an explicit `now` parameter in milliseconds.

### Code versus tests

The repository's `updateBalance` and `transfer` check the range of the new balance before they
check its sign. A negative result is therefore reported as 'Balance out of valid range' (or
'Sender balance out of valid range'), and the 'Insufficient balance' branch can never be taken.
A repository test expects that message for an overdraft
(src/repository/wallet.repository.spec.ts:141-151). The model follows the code:
- `UpdateBalance` and `Transfer` prove `r != Err(InsufficientBalance)`.
- `Repository.TransferOutcomeOkIff` gives the exact success condition.

The service performs its own balance check before calling `transfer`, so an overdrawing transfer
still fails with 'Insufficient balance' at the service level (`Service.TransferAnswerOkIff`).

The idempotency key hashes the receiver of a transfer through a 32-bit polynomial hash. Two
receivers whose ids differ only in a final "Aa" versus "BB" get the same key. A transfer to the
second wallet within 24 hours of an identical transfer to the first is therefore answered from the
cache and moves no money (`Idempotency.TransferKeyCollision`).

## Model

| member | source | states |
|---|---|---|
| `BalanceIntegrity.RoundToTwoDecimals` | src/utils/balance-integrity.util.ts:38-40 | The result, read as currency units, lies within half a cent of the input: the value is the nearest cent, with ties going up. |
| `BalanceIntegrity.RoundIsNearestCent` | src/utils/balance-integrity.util.ts:38-40 | Any cent count whose half-cent window holds the value is the rounded value, so the rounding is uniquely determined. |
| `BalanceIntegrity.RoundCentsExact` | src/utils/balance-integrity.util.ts:38-40 | A value that already has at most two decimals is returned unchanged. |
| `BalanceIntegrity.RoundIdempotent` | src/utils/balance-integrity.util.ts:38-40 | Rounding twice is rounding once. |
| `BalanceIntegrity.RoundExamples` | src/utils/balance-integrity.util.ts:38-40 | 100.999 rounds to 101.00, 100.123 to 100.12 and 100.456 to 100.46; the tie 100.555 rounds up to 100.56. |
| `BalanceIntegrity.RoundNonPositive` | src/utils/balance-integrity.util.ts:38-40 | A value at or below zero whose rounding is not negative rounds to exactly zero. |
| `BalanceIntegrity.BalanceRangeInUnits` | src/utils/balance-integrity.util.ts:43-47 | The range predicate on cents holds exactly when 0 <= balance <= 999999999.99 in currency units. |
| `BalanceIntegrity.RangeExamples` | src/utils/balance-integrity.util.ts:43-47 | 0, 100 and 999999999.99 are accepted; -1 and 1000000000 are rejected. Both ends are inclusive. |
| `BalanceIntegrity.BelowOneCent` | src/utils/balance-integrity.util.ts:27-28 | A discrepancy of whole cents is below the 0.01 tolerance exactly when it is zero. |
| `BalanceIntegrity.ReplayAppend` | src/utils/balance-integrity.util.ts:13-25 | The replay is additive over concatenation: replay(xs + ys) = replay(xs) + replay(ys). |
| `BalanceIntegrity.ReplayCons` | src/utils/balance-integrity.util.ts:13-25 | Prepending a record adds its signed amount to the replay. |
| `BalanceIntegrity.ReplaySnoc` | src/utils/balance-integrity.util.ts:13-25 | Appending a record adds its signed amount to the replay. |
| `BalanceIntegrity.ReplayExample` | src/utils/balance-integrity.util.ts:11-25 | The history FUND 100, TRANSFER_OUT 30, TRANSFER_IN 20 replays to 90. |
| `BalanceIntegrity.VerifyBalanceIntegrity` | src/utils/balance-integrity.util.ts:5-35 | The loop's running total is the replay of the whole list. The current balance is the wallet's balance, the discrepancy is the absolute difference, and the result is valid exactly when the balance equals the replay. Neither input is changed. |
| `Repository.HistorySnoc` | src/repository/wallet.repository.ts:48-58 | A new record joins the front of its own wallet's newest-first history and of no other wallet's history. |
| `Repository.HistoryOfUnreferenced` | src/repository/wallet.repository.ts:48-58 | A wallet that no record references has an empty history. |
| `Repository.InRangeAfterSet` | src/repository/wallet.repository.ts:84-86 | Storing an in-range balance keeps every balance in range. |
| `Repository.LinkedAfterAppend` | src/repository/wallet.repository.ts:95-102 | Appending records of stored wallets keeps every record linked to a stored wallet. |
| `Repository.LinkedAfterSet` | src/repository/wallet.repository.ts:92-93 | Rewriting a wallet's row keeps every record linked. |
| `Repository.MatchAfterPosting` | src/repository/wallet.repository.ts:92-102 | Adding a record's signed amount to its wallet and appending the record keeps every balance equal to its replay. |
| `Repository.TransferIsTwoPosts` | src/repository/wallet.repository.ts:164-187 | A transfer's store is the store after posting its TRANSFER_OUT record and then its TRANSFER_IN record. |
| `Repository.MatchAfterTransfer` | src/repository/wallet.repository.ts:164-187 | A transfer's two balance changes and two records keep every balance equal to its replay. |
| `Repository.MatchAfterOpening` | src/repository/wallet.repository.ts:19-32 | Opening a wallet with a zero balance and no records keeps every balance equal to its replay. |
| `Repository.SignedRecordOfAmount` | src/repository/wallet.repository.ts:95-101 | The record of the absolute amount under a type replays to the amount itself exactly when the amount's sign agrees with the type. |
| `Repository.TotalBalanceDelta` | src/repository/wallet.repository.ts:164-168 | If only two balances change, the total of any list of distinct wallets changes by exactly the changes of those two that are listed. |
| `Repository.TransferConservesTotal` | src/repository/wallet.repository.ts:149-168 | A transfer leaves unchanged the total of every list of distinct wallets that holds both parties. |
| `Repository.UpdateKeepsLedger` | src/repository/wallet.repository.ts:81-104 | A successful update keeps balances in range and records linked. It keeps every balance equal to its replay when the amount's sign agrees with the record type. |
| `Repository.TransferOutcomeOkIff` | src/repository/wallet.repository.ts:134-162 | On an in-range store, 'Insufficient balance' is never returned. A transfer succeeds exactly when both wallets exist and differ and both new balances stay in [0, 999999999.99]. |
| `Repository.TransferKeepsLedger` | src/repository/wallet.repository.ts:146-189 | A successful transfer keeps all three store invariants and conserves the sum of the two balances. |
| `Repository.WalletRepository.constructor` | src/repository/wallet.repository.ts:19-58 | An empty store satisfies the invariants. |
| `Repository.WalletRepository.FindById` | src/repository/wallet.repository.ts:48-58 | A wallet is found exactly when its id is stored, and it then carries the stored currency and balance. |
| `Repository.WalletRepository.Create` | src/repository/wallet.repository.ts:19-32 | The balance is rounded to cents. It is stored if in range; otherwise the result is 'Initial balance out of valid range' and nothing changes. 'Initial balance cannot be negative' is never returned. No record is added. |
| `Repository.WalletRepository.CreateInitialTransaction` | src/repository/wallet.repository.ts:34-46 | Exactly one FUND record of the amount, held at two decimals, is appended. The wallets are unchanged. |
| `Repository.WalletRepository.UpdateBalance` | src/repository/wallet.repository.ts:60-112 | Checks run in order: wallet missing gives 'Wallet not found', then an out-of-range result gives 'Balance out of valid range'; either failure changes nothing. On success only that wallet's balance becomes old + amount, and exactly one record of the absolute amount with the given type and related id is appended. 'Insufficient balance' is never returned. The invariants are preserved. |
| `Repository.WalletRepository.Transfer` | src/repository/wallet.repository.ts:114-198 | Checks run in order: sender missing, receiver missing, same wallet, sender range, receiver range; each failure changes nothing. On success the sender loses and the receiver gains the amount, exactly one TRANSFER_OUT and one TRANSFER_IN record are appended, each referencing the other party, and the sum of the two balances is conserved. |
| `Repository.WalletRepository.VerifyBalanceIntegrity` | src/repository/wallet.repository.ts:200-239 | A missing wallet fails with 'Wallet not found or has no transactions'. Otherwise the report holds the replay of the wallet's history, the stored balance and their absolute difference, and it is valid exactly when they are equal. On a consistent store it is always valid. |
| `Service.MapTransaction` | src/services/wallet.service.ts:201-210 | A record keeps its wallet, type and amount. An empty related wallet id is dropped, and any other one is kept. |
| `Service.MapToWalletResponse` | src/services/wallet.service.ts:188-215 | The response keeps the wallet's id, currency and balance. It lists the records exactly when they are asked for and loaded, and then each record at its own position is the projection of the stored record there (same length, same order). |
| `Service.ResponseReplay` | src/services/wallet.service.ts:200-211 | The returned records replay to the same balance as the stored ones. |
| `Service.DetailsReplayToBalance` | src/services/wallet.service.ts:147-171 | On a consistent ledger, the records in a wallet's details replay to the balance those details report. |
| `Service.DefaultCurrency` | src/services/wallet.service.ts:22 | A given non-empty currency is kept; an absent or empty one becomes 'USD'. |
| `Service.InitialBalance` | src/services/wallet.service.ts:21 | An absent balance becomes 0; a given one is kept (a given 0 stays 0). |
| `Service.MapTransferError` | src/services/wallet.service.ts:130-144 | 'Insufficient balance' and same-wallet become bad requests, and sender or receiver not found become not-found, each with the same text. Every other error is passed on unchanged. |
| `Service.FundAnswerOkIff` | src/services/wallet.service.ts:58-72 | On an in-range ledger, a funding succeeds exactly when the wallet exists and the new balance stays in range. The answered balance is old + amount. |
| `Service.SelfTransferRefused` | src/services/wallet.service.ts:97-142 | A transfer to oneself never succeeds: a missing wallet gives not-found, an amount over the balance gives 'Insufficient balance', and otherwise the answer is 'Cannot transfer to the same wallet'. |
| `Service.TransferAnswerOkIff` | src/services/wallet.service.ts:97-144 | On an in-range ledger, a transfer succeeds exactly when both wallets exist and differ, the sender holds the amount, and neither new balance leaves the range. |
| `Service.TransferAnswerConserves` | src/services/wallet.service.ts:115-129 | A successful transfer answers with the two parties' new balances. Both are in range and they add up to what the two held before. |
| `Service.OpeningKeepsConsistency` | src/services/wallet.service.ts:24-35 | Opening a wallet, with a FUND record of its opening balance when funded, keeps every balance equal to its replay. |
| `Service.WalletService.CreateWallet` | src/services/wallet.service.ts:20-40 | The currency defaults to USD and the balance to 0, and the balance is rounded to cents. One FUND record is appended exactly when the initial balance is positive. An out-of-range balance fails and changes nothing. Consistency is preserved. |
| `Service.WalletService.FundOnLedger` | src/services/wallet.service.ts:58-72 | A missing wallet gives not-found. Otherwise the answer is updateBalance(FUND, no related id): either the updated wallet, or the repository's error passed on, with the store change it implies. |
| `Service.WalletService.FundWallet` | src/services/wallet.service.ts:42-77 | A live cache entry for the fund key is returned and the ledger is untouched. Otherwise the ledger answers. The cache only drops the expired entry it looked up, and it stores the answer for 24 hours when it is a success. Consistency is preserved for non-negative amounts. |
| `Service.WalletService.FundUnderKey` | src/services/wallet.service.ts:51-76 | For a given key: a live entry is returned and the ledger is untouched. Otherwise the ledger answers, and a success alone is stored under the key for 24 hours; the cache otherwise only loses the expired entry it looked up. |
| `Service.WalletService.TransferOnLedger` | src/services/wallet.service.ts:97-144 | Sender not found, then receiver not found, then 'Insufficient balance' are all checked before any mutation; then comes the repository transfer with its errors mapped. The store change matches the answer. |
| `Service.WalletService.TransferBetweenWallets` | src/services/wallet.service.ts:79-145 | A live cache entry for the transfer key is returned and the ledger is untouched. Otherwise the ledger answers, and only a success is cached, for 24 hours. Consistency is preserved. |
| `Service.WalletService.TransferUnderKey` | src/services/wallet.service.ts:89-129 | For a given key: a live entry is returned and the ledger is untouched. Otherwise the ledger answers, and a success alone is stored under the key for 24 hours. |
| `Service.WalletService.GetWalletDetails` | src/services/wallet.service.ts:147-171 | It fails only for a missing wallet, whatever the integrity check finds. Otherwise it returns the wallet with its records, newest first. |
| `Service.WalletService.VerifyBalanceIntegrity` | src/services/wallet.service.ts:173-186 | A missing wallet gives not-found. Otherwise the answer is the repository's report, which is valid on a consistent ledger. |
| `Service.WalletService.RetryFund` | src/services/wallet.service.ts:42-77 | A funding repeated before its cache entry expires returns the identical answer. The ledger after both calls is the ledger after the first funding alone: the wallet is credited once and one record is added. |
| `Service.WalletService.RetryTransfer` | src/services/wallet.service.ts:79-145 | A transfer repeated before its cache entry expires returns the identical answer. The ledger after both calls is the ledger after the first transfer alone: the money moves once and one pair of records is added. |
| `Idempotency.ToInt32Range` | src/utils/idempotency.util.ts:24-25 | The 32-bit conversion gives a value in [-2^31, 2^31) that is congruent to the input modulo 2^32. |
| `Idempotency.ToInt32Shift` | src/utils/idempotency.util.ts:24-25 | Adding a multiple of 2^32 does not change the 32-bit value. |
| `Idempotency.HashStepIsPoly` | src/utils/idempotency.util.ts:24-25 | One rolling step, (h << 5) - h + c kept to 32 bits, is 31·p + c modulo 2^32. |
| `Idempotency.HashIsPoly` | src/utils/idempotency.util.ts:21-26 | The rolling hash equals the base-31 polynomial of the character codes, reduced to signed 32 bits. |
| `Idempotency.HashPairCollision` | src/utils/idempotency.util.ts:21-26 | Two character pairs with equal 31·x + y hash alike after any common prefix. |
| `Idempotency.Digits` | src/utils/idempotency.util.ts:27 | The base-36 text is non-empty, and every character is a digit of the base and never ':'. |
| `Idempotency.DigitsRoundTrip` | src/utils/idempotency.util.ts:27 | Reading the digits back gives the number, so the rendering loses nothing. |
| `Idempotency.AmountText` | src/utils/idempotency.util.ts:20 | The amount's text in the key never contains ':', so it cannot run into the neighbouring fields of the key text. |
| `Idempotency.AmountTextExamples` | src/utils/idempotency.util.ts:20 | 50.00 renders as "50", 50.50 as "50.5", 50.05 as "50.05" and 0.01 as "0.01". |
| `Idempotency.KeyShape` | src/utils/idempotency.util.ts:27 | Every key starts with "idempotency:" and ends with ':' and the wallet id. |
| `Idempotency.KeysSeparateWallets` | src/utils/idempotency.util.ts:27 | Equal keys have equal wallet ids: keys for different wallets never collide. |
| `Idempotency.TransferKeyCollision` | src/utils/idempotency.util.ts:30-41 | Receivers whose ids differ only in a final "Aa" versus "BB" get the same transfer key. |
| `Idempotency.Lookup` | src/utils/idempotency.util.ts:48-61 | get answers exactly when the key is present and not expired, and then with the stored result; an entry at its expiry instant is still live. |
| `Idempotency.LookupAfterLookup` | src/utils/idempotency.util.ts:48-61 | A lookup's lazy deletion changes no later lookup of any key. |
| `Idempotency.LookupAfterSweep` | src/utils/idempotency.util.ts:94-101 | The sweep changes no lookup made at or after its time. |
| `Idempotency.LookupAfterSet` | src/utils/idempotency.util.ts:64-71 | After set, get of the same key within the time-to-live returns the result, and lookups of other keys are unchanged. |
| `Idempotency.ExpiredAtMostTotal` | src/utils/idempotency.util.ts:108-120 | The expired count never exceeds the total. |
| `Idempotency.IdempotencyService.constructor` | src/utils/idempotency.util.ts:3-12 | The store starts empty. |
| `Idempotency.IdempotencyService.GenerateKey` | src/utils/idempotency.util.ts:14-28 | The loop computes the rolling hash of `walletId:op:amount:extra`, and the key is "idempotency:" + base36(abs(hash)) + ":" + walletId. |
| `Idempotency.IdempotencyService.GenerateTransferKey` | src/utils/idempotency.util.ts:30-41 | The key of a 'transfer' with the sender as wallet and the receiver as extra datum. |
| `Idempotency.IdempotencyService.GenerateFundKey` | src/utils/idempotency.util.ts:43-45 | The key of a 'fund' with no extra datum. |
| `Idempotency.IdempotencyService.Get` | src/utils/idempotency.util.ts:48-61 | An absent key gives nothing. An expired entry is deleted and gives nothing. A live entry gives its result and the store is unchanged. |
| `Idempotency.IdempotencyService.Set` | src/utils/idempotency.util.ts:64-71 | Overwrites the key's entry with expiry now + ttl, where ttl defaults to 86,400,000 ms. |
| `Idempotency.IdempotencyService.Has` | src/utils/idempotency.util.ts:74-86 | True exactly when get would answer, with the same lazy deletion. |
| `Idempotency.IdempotencyService.Delete` | src/utils/idempotency.util.ts:89-91 | Removes exactly that key. |
| `Idempotency.IdempotencyService.Cleanup` | src/utils/idempotency.util.ts:94-101 | Removes exactly the expired entries and leaves the others as they were. |
| `Idempotency.IdempotencyService.Clear` | src/utils/idempotency.util.ts:103-105 | Empties the store. |
| `Idempotency.IdempotencyService.GetStats` | src/utils/idempotency.util.ts:108-120 | total is the number of entries and expired is the number of expired ones, counted in a loop; expired <= total. |
| `RateLimiting.DecidePreservesBounds` | src/utils/rate-limiter.util.ts:19-43 | Every decision keeps the count in [1, max(1, maxRequests)]. |
| `RateLimiting.DecideInsideWindow` | src/utils/rate-limiter.util.ts:37-42 | Inside the window a request is admitted exactly when count < maxRequests. A rejection leaves the entry unchanged, and an admission adds one and keeps the reset time. |
| `RateLimiting.AdmittedInsideWindow` | src/utils/rate-limiter.util.ts:19-43 | Requests inside a window that has admitted `count` already admit at most maxRequests - count more. |
| `RateLimiting.WindowAdmitsAtMostMax` | src/utils/rate-limiter.util.ts:19-43 | The request that opens a window is admitted, and with all later requests up to the window's end at most maxRequests are admitted. |
| `RateLimiting.Remaining` | src/utils/rate-limiter.util.ts:46-58 | The remaining count lies in [0, maxRequests]. |
| `RateLimiting.AllowedIffRemaining` | src/utils/rate-limiter.util.ts:19-58 | A request is admitted exactly when getRemaining at the same instant reports one left. |
| `RateLimiting.DecideAfterSweep` | src/utils/rate-limiter.util.ts:74-81 | The sweep changes no later admission decision. |
| `RateLimiting.RateLimiter.constructor` | src/utils/rate-limiter.util.ts:7-16 | The defaults are 100 requests per 60000 ms, and the store starts empty. |
| `RateLimiting.RateLimiter.IsAllowed` | src/utils/rate-limiter.util.ts:19-43 | A new or expired key restarts at count 1 with reset now + windowMs and is admitted. A full window rejects and is unchanged; otherwise the count goes up by one. Only that key changes, and counts stay within the bound. |
| `RateLimiting.RateLimiter.GetRemaining` | src/utils/rate-limiter.util.ts:46-58 | maxRequests for an absent or expired key, else max(0, maxRequests - count); always within [0, maxRequests]. |
| `RateLimiting.RateLimiter.GetResetTime` | src/utils/rate-limiter.util.ts:60-66 | The stored reset time, even one that has passed; now + windowMs for an unknown key. |
| `RateLimiting.RateLimiter.Reset` | src/utils/rate-limiter.util.ts:69-71 | Removes exactly that key. |
| `RateLimiting.RateLimiter.Cleanup` | src/utils/rate-limiter.util.ts:74-81 | Removes exactly the entries whose window has ended. |
| `RateLimiting.RateLimiter.Clear` | src/utils/rate-limiter.util.ts:84-86 | Empties the store. |
| `RateLimiting.ConfiguredLimiters` | src/utils/rate-limiter.util.ts:97-100 | The limits are 100 (default), 10 (strict), 20 (fund) and 10 (transfer) requests per 60000 ms. |
| `Validators.IsUuid` | src/utils/validators.util.ts:14-21 | True exactly for a string of hex groups 8-4-4-4-12 joined by dashes, with version digit 1-5 and variant digit 8, 9, a or b, compared case-insensitively. |
| `Validators.PatternIsGroups` | src/utils/validators.util.ts:18-20 | Matching the anchored pattern character by character is the group reading. |
| `Validators.UuidFromGroups` | src/utils/validators.util.ts:14-21 | Any five groups of the right lengths, digits, version and variant make an accepted UUID. |
| `Validators.UuidAcceptsExample` | src/utils/validators.util.ts:14-21 | 123e4567-e89b-12d3-a456-426614174000 is accepted. |
| `Validators.UuidAcceptsUpperCase` | src/utils/validators.util.ts:14-21 | The same identifier in upper case is accepted. |
| `Validators.UuidRejects` | src/utils/validators.util.ts:14-21 | A wrong version or variant digit is rejected whatever the other groups hold; non-strings are rejected. |
| `Validators.IsDecimal` | src/utils/validators.util.ts:45-51 | True exactly for a number that rounding to cents leaves unchanged. |
| `Validators.TwoDecimalsIsRoundingFixedPoint` | src/utils/validators.util.ts:45-51 | A number has at most two decimals exactly when rounding it to cents changes nothing. |
| `Validators.DecimalOfCents` | src/utils/validators.util.ts:45-51 | Every whole number of cents is accepted; 0.125 and non-numbers are rejected. |
| `Validators.IsInRange` | src/utils/validators.util.ts:75-81 | True exactly for a number in the closed interval [min, max]. |
| `Validators.IsCurrency` | src/utils/validators.util.ts:110-116 | Only three-character strings can pass. |
| `Validators.CurrencyIgnoresCase` | src/utils/validators.util.ts:110-116 | A string passes exactly when its upper-case form does. |
| `Validators.CurrencyAccepts` | src/utils/validators.util.ts:110-116 | USD, EUR, GBP, NGN, CAD and AUD pass, in upper and in lower case. |
| `Validators.CurrencyRejects` | src/utils/validators.util.ts:110-119 | JPY fails although the error message lists it; so do other lengths and non-strings. |
| `Validators.IsValidAmount` | src/utils/validators.util.ts:138-144 | True exactly for a number in (0, 999999999.99]. |
| `Validators.ValidAmountInCents` | src/utils/validators.util.ts:138-144 | On whole cents an amount is valid exactly when it is 1 to 99,999,999,999 cents: zero is rejected and the maximum accepted. |
| `Validators.ValidAmountIsRangeOfCents` | src/utils/validators.util.ts:138-144 | For a number with at most two decimals, a valid amount is one in [0.01, 999999999.99]. |

## Left out

- IEEE-754 doubles are not modelled. Amounts are exact cents, and values before rounding are
  exact rationals.
  - `Number(...)` coercions and `Math.round` on doubles are exact here.
  - The 0.01 tolerance of the integrity checks becomes "the discrepancy in cents is zero"
    (`BalanceIntegrity.BelowOneCent`).
- Validators.IsDecimal: it counts decimals on the exact value, not on JavaScript's
  `Number.prototype.toString`. That rendering writes 1e-7 without a '.', so the source accepts
  such a value, and the model rejects it.
- Idempotency.AmountText: it renders the amount's text for cents only, as the default number
  rendering would. Exponent forms (1e21 and above, or below 1e-6) cannot occur for amounts in
  range.
- Repository.WalletRepository.UpdateBalance and `Repository.WalletRepository.Transfer` take amounts
  in whole cents, as the request validators guarantee. The rounding of the new balance is
  therefore written as the identity; `BalanceIntegrity.RoundCentsExact` proves that rounding a
  whole number of cents changes nothing. The same applies to the rounded sum in
  `Repository.WalletRepository.VerifyBalanceIntegrity`.
- Repository.WalletRepository.Create: the path where no balance is given at all (`undefined`) is
  not modelled; the service always passes a balance. The database-generated wallet id is the
  parameter `id`, which must be fresh.
- Repository.WalletRepository.VerifyBalanceIntegrity: the failure for a wallet whose
  `transactions` relation is not loaded cannot happen here, because records are always loaded.
  Only the missing-wallet failure is modelled.
- Service.WalletService.CreateWallet: the new id (a UUID generated by the database) is the
  parameter `newId`. `balance || 0` treats an absent balance and 0 alike, which the model does
  through `Option`; other falsy inputs such as NaN do not exist on exact rationals.
- Query runners, connections, `pessimistic_write` row locks, commit and rollback are not
  modelled. Each repository mutation is one atomic step. The lock order and any concurrency
  between requests are left out.
- Background timers (`setInterval` sweeps) and `destroy` are left out for both the cache and the
  limiter. `Cleanup` is an ordinary method.
- `Date.now()` becomes the `now` parameter in milliseconds.
- Transaction descriptions, timestamps (`createdAt`, `updatedAt`), record ids and console logging
  are not modelled.
- Service.WalletService.GetWalletDetails: the integrity check it runs only logs. The model calls
  it and ignores the report.
- RateLimiting.RateLimiter.IsAllowed: the source changes the `count` and `resetTime` fields of
  the stored entry object in place. The model keeps entries as immutable values in a map that
  the method reassigns. No entry object is shared, so nothing observable is lost. The cache
  never changes a stored entry; it only replaces or deletes entries.
- Validators.IsCurrency and `Validators.IsUuid` use ASCII case mapping only. Unicode case
  mapping of non-ASCII characters and UTF-16 surrogate pairs are not modelled.
- Idempotency.Hash: it reads one code per character. For a character outside the basic
  multilingual plane, `charCodeAt` would see two UTF-16 surrogate code units. Wallet ids are
  UUIDs, so such characters do not reach the key.
- The HTTP layer is not part of this model: controllers, the rate-limit guard, DTO decorator
  metadata and module wiring. The DTOs contribute only the facts stated above, namely that
  amounts are whole positive cents.
- Validators.IsCurrency: its own ensures says only that a passing value is a three-character
  string. Membership itself is stated by `CurrencyIgnoresCase`, `CurrencyAccepts` and
  `CurrencyRejects`.
