/** The ledger's stored entities: wallets and their append-only transaction records.
    Every money value is a whole number of cents (the columns are decimal with scale 2). */
module Entities {
  import opened Wrappers

  /** The three kinds of balance-affecting event. */
  datatype TransactionType = Fund | TransferOut | TransferIn

  /** One transaction row. `amount` is stored non-negative by the repository; its sign
      is implied by `kind`. Identifier, description and timestamp are not modelled. */
  datatype Transaction = Transaction(
    walletId: string,
    kind: TransactionType,
    amount: int,
    relatedWalletId: Option<string>)

  /** The stored columns of a wallet row, keyed by its identifier in the store. */
  datatype WalletRow = WalletRow(currency: string, balance: int)

  /** A wallet entity as the repository hands it back to callers. */
  datatype Wallet = Wallet(id: string, currency: string, balance: int)
}
