/** Values shared by the linkdrop ledger: balances, identifiers, the host
    environment of one call, the effects a call schedules, and its errors. */
module LinkdropTypes {

  /** The source's `Balance`, a Rust `u128` counting yoctoNEAR. */
  const U128_MAX: int := 0xFFFF_FFFF_FFFF_FFFF_FFFF_FFFF_FFFF_FFFF
  type Balance = x: int | 0 <= x <= U128_MAX

  /** A NEAR account name, and a public key in its serialised form. */
  type AccountId = string
  type PublicKey = seq<bv8>

  /** 0.001 NEAR: storage for the access key and the ledger entry. */
  const MIN_STORAGE_COST: Balance := 1_000_000_000_000_000_000_000
  /** 0.02 NEAR: gas allowance given to the function-call access key. */
  const MIN_ACCESS_KEY_ALLOWANCE: Balance := 20_000_000_000_000_000_000_000
  /** 0.00182 NEAR: the least balance a freshly created account must hold. */
  const NEW_ACCOUNT_ABSOLUTE_MINIMUM: Balance := 1_820_000_000_000_000_000_000
  /** The methods a linkdrop access key may call on the contract. */
  const CLAIM_METHODS: string := "claim,create_account_and_claim"
  /** The deposit attached to the `on_account_created` callback. */
  const NO_DEPOSIT: Balance := 0

  /** What `send` demands of a deposit against a key not yet in the ledger. */
  const NEW_KEY_MIN_DEPOSIT: Balance := MIN_STORAGE_COST + MIN_ACCESS_KEY_ALLOWANCE + NEW_ACCOUNT_ABSOLUTE_MINIMUM

  /** The host values one contract call reads from `env`. */
  datatype Env = Env(
    predecessor: AccountId,   // env::predecessor_account_id()
    current: AccountId,       // env::current_account_id()
    signerPk: PublicKey,      // env::signer_account_pk()
    attachedDeposit: Balance) // env::attached_deposit()

  /** The outcome of one promise the callback depends on. */
  datatype PromiseResult = NotReady | Successful(data: seq<bv8>) | Failed

  /** A side effect a call schedules (a Promise action, or a mint). */
  datatype Effect =
    | AddKey(account: AccountId, key: PublicKey, allowance: Balance, receiverId: AccountId, methodNames: string)
    | DeleteKey(account: AccountId, key: PublicKey)
    | Transfer(receiver: AccountId, amount: Balance)
    | CreateAccount(factory: AccountId, newAccountId: AccountId, newPublicKey: PublicKey, deposit: Balance)
    | Mint(owner: AccountId)

  /** The restricted access key `send` and the failure callback grant. */
  function ClaimKey(current: AccountId, key: PublicKey): Effect {
    AddKey(current, key, MIN_ACCESS_KEY_ALLOWANCE, current, CLAIM_METHODS)
  }

  /** The arguments `create_account_and_claim` hands on to its callback. */
  datatype Pending = Pending(pk: PublicKey, newAccountId: AccountId, amount: Balance)

  /** Why a call panics; a panic reverts every change the call made. */
  datatype Error =
    | DepositNotAccepted      // a non-payable method was called with a deposit
    | PredecessorNotCurrent   // "predecessor != current"
    | DepositBelowMinimum     // "Deposit < MIN_REQUIRED_INITIAL_DEPOSIT"
    | ArithmeticOverflow      // a checked u128 operation over- or underflowed
    | MissingPublicKey        // "Missing public key"
    | NoPromiseResult         // "no promise result"
    | KeyMissing              // "Key missing"

  datatype Result<T> = Ok(value: T) | Err(error: Error)
}
