# Linkdrop claim ledger

A Dafny model of the linkdrop part of a NEAR NFT contract. A funder calls
`send` with a public key and a deposit. The contract records the deposit
under that key in its `accounts` map. For a key it has not seen before, it
also grants the key a function-call access key on the contract account. That
access key may only call `claim` and `create_account_and_claim`.

Whoever holds the matching private key can redeem the deposit in one of two
ways:

- `claim` pays it into an existing account and mints an NFT to that account.
- `create_account_and_claim` asks the configured linkdrop (account-factory)
  contract to create a new account funded with the deposit. The callback
  `on_account_created` then either mints to the new account or, if creation
  failed, puts the deposit and the access key back.

Both redemption paths go through `process_claim`. It removes the ledger entry
and deletes the access key before any other effect.

## Structure

- `types.dfy`, module `LinkdropTypes`: the shared types and constants.
  - `Balance` is the source's `Balance`, a Rust `u128`.
  - The constants `MIN_STORAGE_COST`, `MIN_ACCESS_KEY_ALLOWANCE` and
    `NEW_ACCOUNT_ABSOLUTE_MINIMUM` have the source's values.
  - `Env` holds the host values one call reads: predecessor, current
    account, signer key and attached deposit.
  - `Effect` lists the promises and mints a call schedules.
  - `Pending` is the record a redemption hands to its callback.
  - `Error` lists the panics, including the one the generated entry point
    raises when a method other than `send` is called with a deposit.
- `ledger.dfy`, module `Ledger`: the contract state as a value (`State`) and
  one function per contract method. Each function maps the state before the
  call to the call's result and the state after it.
  - A panic returns `Err` and the unchanged state, because NEAR reverts a
    call that panics.
  - `Valid` is the lockstep invariant: the set of live access keys equals
    the set of keys in the ledger.
  - `Run` applies a sequence of calls one after another.
- `contract.dfy`, module `Linkdrop`: the class `Contract`. Its fields are
  `accounts`, `linkdropContract`, `accessKeys` and the append-only effect
  `log`. Its methods update those fields in place, in the order the Rust code
  does. Each method's postcondition equates its result and new state with
  the `Ledger` function of the same name, applied to the old state.
- `properties.dfy`:
  - module `LedgerProperties` holds lemmas that relate several calls;
  - module `LedgerScenarios` holds two concrete runs from an empty ledger.

The asynchronous step is modelled as two ordinary calls.
`CreateAccountAndClaim` returns a `Pending` record. `OnAccountCreated` takes
that record and the list of promise results as parameters.

Arithmetic follows Rust's checked `u128` operations: an overflow or underflow
panics (`ArithmeticOverflow`). This gives one quirk of `send`.
`nft-contract/src/linkdrop.rs:98` subtracts both fees from the deposit for
every key. Only afterwards do lines 102-104 replace the result for an existing
key. For an existing key, the guard at lines 83-91 accepts any deposit of at
least 1 yoctoNEAR. Yet any deposit below the two fees (0.021 NEAR) still
aborts, on the subtraction at line 98. `Ledger.Send` states exactly when an
existing key's deposit is accepted. `ExistingKeySmallDepositUnderflows` shows
the abort.

Some consequences of the code as written:

- A new key is credited its deposit net of the two fees, not in full.
- Redemption checks only that the predecessor is the contract account.
  Scoping the access key to the two methods is left to the platform.
- Only `send` is payable. The other state-changing methods panic when a
  deposit is attached (`DepositNotAccepted`). Access keys cannot attach a
  deposit, and the callback is scheduled with `NO_DEPOSIT`, so the normal
  flow never trips this check.
- While a redemption into a new account is in flight, the key has no entry.
  A `send` to it then counts as a deposit to a new key: the fees are charged,
  the net amount is credited and the access key is scheduled again. If the
  account creation then fails, `on_account_created` (lines 227-230)
  overwrites that entry with the redeemed amount alone, and the later
  deposit is lost. `DepositDuringFlightOverwritten` shows this.

## Model

| member | source | states |
|---|---|---|
| `Ledger.SetContract` | nft-contract/src/linkdrop.rs:50-60 | Succeeds exactly when no deposit is attached and predecessor == current account; then only `linkdropContract` changes, and a failure changes nothing; the ledger, keys and log never change |
| `Linkdrop.Contract.SetContract` | nft-contract/src/linkdrop.rs:53-60 | The in-place update yields exactly the result and new state of `Ledger.SetContract` |
| `Ledger.Send` | nft-contract/src/linkdrop.rs:67-124 | New key: accepted iff deposit >= storage + allowance + new-account minimum, otherwise "deposit below minimum"; stores deposit − allowance − storage, which is >= the new-account minimum; grants one restricted access key (allowance, `claim,create_account_and_claim`). Existing key: accepted iff the line-98 subtraction does not underflow and the sum fits in u128; balance grows by exactly the deposit and no key is added. Every other entry is unchanged; a failure changes nothing; keys and entries stay in lockstep |
| `Linkdrop.Contract.Send` | nft-contract/src/linkdrop.rs:67-124 | The in-place update yields exactly the result and new state of `Ledger.Send`, and keeps the lockstep invariant |
| `Ledger.ProcessClaim` | nft-contract/src/linkdrop.rs:132-150 | Succeeds iff predecessor == current and the signer key has an entry (errors "predecessor != current" / "Missing public key" otherwise, state unchanged); returns that entry's amount, removes exactly that entry and its access key, schedules `DeleteKey` for it |
| `Linkdrop.Contract.ProcessClaim` | nft-contract/src/linkdrop.rs:132-150 | The in-place update yields exactly the result and new state of `Ledger.ProcessClaim` |
| `Ledger.Claim` | nft-contract/src/linkdrop.rs:156-185 | Fails, changing nothing, when a deposit is attached or as `process_claim` does; otherwise removes the signer's entry and schedules delete-key, mint to `accountId`, then a transfer to `accountId` of exactly the removed amount, which it returns |
| `Linkdrop.Contract.Claim` | nft-contract/src/linkdrop.rs:156-185 | The in-place update yields exactly the result and new state of `Ledger.Claim` |
| `Ledger.CreateAccountAndClaim` | nft-contract/src/linkdrop.rs:190-214 | Fails, changing nothing, when a deposit is attached or as `process_claim` does; otherwise removes the signer's entry, schedules delete-key and `create_account` on the configured factory with exactly the removed amount attached, and returns the callback record (signer key, new account, same amount) |
| `Linkdrop.Contract.CreateAccountAndClaim` | nft-contract/src/linkdrop.rs:190-214 | The in-place update yields exactly the result and new state of `Ledger.CreateAccountAndClaim` |
| `Ledger.OnAccountCreated` | nft-contract/src/linkdrop.rs:217-264 | Succeeds iff no deposit is attached, predecessor == current and there is exactly one promise result; returns true iff that result is `Successful`; on failure overwrites the entry with the pending amount and re-grants the same restricted access key; on success only schedules a mint to the new account |
| `Linkdrop.Contract.OnAccountCreated` | nft-contract/src/linkdrop.rs:217-264 | The in-place update yields exactly the result and new state of `Ledger.OnAccountCreated` |
| `Ledger.KeyBalance` | nft-contract/src/linkdrop.rs:267-272 | Returns the stored amount iff the key has an entry, otherwise "Key missing" |
| `Linkdrop.Contract.GetKeyBalance` | nft-contract/src/linkdrop.rs:267-272 | Read-only: returns the stored amount iff the key is present, otherwise "Key missing" |
| `LedgerProperties.KeyStaysAbsent` | nft-contract/src/linkdrop.rs:107-144 | A key with no entry still has none after any sequence of calls that contains no `send` for it and no callback restoring it |
| `LedgerProperties.NoDoubleRedemption` | nft-contract/src/linkdrop.rs:140-144 | After one successful redemption, and any later calls that neither fund nor restore the key, `process_claim`, `claim` and `create_account_and_claim` with the same signer all fail on the missing entry |
| `LedgerProperties.ClaimConserves` | nft-contract/src/linkdrop.rs:156-182 | The final effect of `claim` transfers exactly the redeemed amount, and that amount put back under the key gives the original ledger |
| `LedgerProperties.CreateAccountConserves` | nft-contract/src/linkdrop.rs:196-213 | The `create_account` call and the callback record carry exactly the removed amount for the signer key and new account; put back, it gives the original ledger |
| `LedgerProperties.FailedCreationRestores` | nft-contract/src/linkdrop.rs:225-238 | Redemption followed by a failed creation restores the ledger and the access keys exactly, reports false, leaves the key's balance equal to the pending amount, and lets the key be redeemed again for the same amount |
| `LedgerProperties.SuccessfulCreationMints` | nft-contract/src/linkdrop.rs:239-263 | Redemption followed by a successful creation reports true, mints to the new account, and leaves the key with no entry, no access key and "Key missing" |
| `LedgerProperties.DepositDuringFlightOverwritten` | nft-contract/src/linkdrop.rs:98-230 | A `send` during an in-flight redemption credits the key as new (net of fees, access key scheduled again); a failing callback then leaves the key holding only the redeemed amount |
| `LedgerProperties.SendAccumulates` | nft-contract/src/linkdrop.rs:98-110 | A first deposit A and a second deposit B on one key give balance A − fees + B, with one access key granted |
| `LedgerProperties.ExistingKeySmallDepositUnderflows` | nft-contract/src/linkdrop.rs:83-104 | For an existing key, a deposit that passes the 1-yocto guard but is below the two fees aborts with an arithmetic underflow and changes nothing |
| `LedgerProperties.ApplyPreserves` | nft-contract/src/linkdrop.rs:107-238 | Any single call keeps access keys and ledger entries in lockstep and only appends to the effect log |
| `LedgerProperties.RunPreserves` | nft-contract/src/linkdrop.rs:107-238 | Any sequence of calls keeps access keys and ledger entries in lockstep and only appends to the effect log |
| `LedgerScenarios.ExistingAccountHappyPath` | nft-contract/src/linkdrop.rs:67-185 | Fund a key with 1 NEAR, claim into an existing account: the ledger and keys are empty, and the effects are add-key, delete-key, mint, transfer of the net deposit |
| `LedgerScenarios.FailureThenRetry` | nft-contract/src/linkdrop.rs:67-264 | Fund, redeem into a new account, creation fails: the key again holds the net deposit and its access key; redeem again, creation succeeds: ledger and keys empty, the new account is minted to |

## Left out

- `quickstart.js` is a deployment script. It does network RPC, key-store file
  I/O and logging, and has no ledger logic.
- The internals of `nft_mint` are not part of this model. This covers
  `TokenMetadata`, the `token_{nonce}` token id and `token_nonce`, which live
  in files not shown. A mint is the effect `Mint(owner)`, and the model
  assumes the mint itself never panics.
- The NEAR host is left out: promise scheduling and execution, gas
  (`ON_CREATE_ACCOUNT_GAS`, `ON_CALLBACK_GAS`), and the factory's own
  accounting. Scheduled actions are appended to `log`.
  `accessKeys` tracks keys as if every scheduled `AddKey`/`DeleteKey` takes
  effect. Some promise failures are not modelled: an `add_access_key` for a
  key that already exists, and a transfer to an account that does not exist.
- Real asynchrony is left out. Each call runs atomically, and the callback is
  a later, separate call. `OnAccountCreated` accepts any `Pending` record, as
  the source's public method accepts any arguments. Nothing enforces that the
  record is the one the redemption produced.
- The `ext_contract` trait declarations (lines 41-48) only describe call
  interfaces. They appear as the `CreateAccount` effect and the `Pending`
  record.
- The `U128` JSON wrapper returned by `get_key_balance` is serialisation glue.
- Contract initialisation (`Contract::new` in lib.rs) is not part of this
  model. The constructor of `Linkdrop.Contract` starts from an empty ledger,
  no access keys and an empty log.
- Integer overflow assumes that the Rust build panics on overflow, as NEAR
  contract templates configure it. The crate's build profile is not part of
  this model. Without overflow checks, line 98 would wrap and its value would
  be discarded for an existing key, and the addition at line 109 would wrap.
