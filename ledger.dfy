/** The linkdrop contract's state as a value, and each of its calls as a
    function from the state before the call to the result and the state after
    it. A call that panics leaves the state exactly as it was. */
module Ledger {
  import opened LinkdropTypes

  /** The contract's fields, the access keys it has granted, and the effects
      it has scheduled so far (oldest first). */
  datatype State = State(
    accounts: map<PublicKey, Balance>,
    linkdropContract: AccountId,
    accessKeys: set<PublicKey>,
    log: seq<Effect>)

  /** The result of one call and the state it leaves behind. */
  datatype Step<T> = Step(result: Result<T>, post: State)

  /** A key holds a restricted access key exactly when it holds a ledger
      entry: both are created, removed and restored together. While a
      redemption is in flight the key has neither. */
  ghost predicate Valid(s: State) {
    s.accessKeys == s.accounts.Keys
  }

  /** Every entry other than `key` is the same in `a` and `b`. */
  ghost predicate OthersUnchanged(a: map<PublicKey, Balance>, b: map<PublicKey, Balance>, key: PublicKey) {
    a.Keys - {key} == b.Keys - {key} &&
    forall k :: k in a && k in b && k != key ==> a[k] == b[k]
  }

  /** `set_contract`: only the contract itself may choose the account
      factory. Like every method of the contract except `send`, it is not
      payable: the generated entry point panics when a deposit is attached. */
  function SetContract(s: State, env: Env, linkdropContract: AccountId): (r: Step<()>)
    ensures r.result.Ok? <==> env.attachedDeposit == 0 && env.predecessor == env.current
    ensures r.result.Err? ==>
      r.post == s &&
      r.result.error == (if env.attachedDeposit != 0 then DepositNotAccepted else PredecessorNotCurrent)
    ensures r.post.linkdropContract == if r.result.Ok? then linkdropContract else s.linkdropContract
    ensures r.post.accounts == s.accounts && r.post.accessKeys == s.accessKeys && r.post.log == s.log
  {
    if env.attachedDeposit != 0 then Step(Err(DepositNotAccepted), s)
    else if env.predecessor != env.current then Step(Err(PredecessorNotCurrent), s)
    else Step(Ok(()), s.(linkdropContract := linkdropContract))
  }

  /** `send`: credit the attached deposit to `pk`. A new key pays for its
      storage and access-key allowance out of the deposit and is granted a
      restricted access key; an existing key is credited the whole deposit.
      The unconditional subtraction of the fees (which the code discards for
      an existing key) still aborts when it underflows. */
  function Send(s: State, env: Env, pk: PublicKey): (r: Step<()>)
    // a new key: accepted exactly when the deposit reaches the minimum
    ensures pk !in s.accounts ==>
      (r.result.Ok? <==> env.attachedDeposit >= NEW_KEY_MIN_DEPOSIT)
    ensures pk !in s.accounts && r.result.Err? ==> r.result.error == DepositBelowMinimum
    ensures pk !in s.accounts && r.result.Ok? ==>
      pk in r.post.accounts &&
      r.post.accounts[pk] == env.attachedDeposit - MIN_ACCESS_KEY_ALLOWANCE - MIN_STORAGE_COST &&
      r.post.accounts[pk] >= NEW_ACCOUNT_ABSOLUTE_MINIMUM &&
      r.post.accessKeys == s.accessKeys + {pk} &&
      r.post.log == s.log + [ClaimKey(env.current, pk)]
    // an existing key: accepted exactly when the fee subtraction does not
    // underflow and the new total fits in a u128
    ensures pk in s.accounts ==>
      (r.result.Ok? <==>
        env.attachedDeposit >= MIN_ACCESS_KEY_ALLOWANCE + MIN_STORAGE_COST &&
        s.accounts[pk] + env.attachedDeposit <= U128_MAX)
    ensures pk in s.accounts && r.result.Err? ==>
      r.result.error == (if env.attachedDeposit < 1 then DepositBelowMinimum else ArithmeticOverflow)
    ensures pk in s.accounts && r.result.Ok? ==>
      pk in r.post.accounts &&
      r.post.accounts[pk] == s.accounts[pk] + env.attachedDeposit &&
      r.post.accessKeys == s.accessKeys && r.post.log == s.log
    // in every case
    ensures r.result.Ok? ==>
      r.post.accounts.Keys == s.accounts.Keys + {pk} &&
      OthersUnchanged(r.post.accounts, s.accounts, pk) &&
      r.post.linkdropContract == s.linkdropContract
    ensures r.result.Err? ==> r.post == s
    ensures Valid(s) ==> Valid(r.post)
  {
    var pkExists := pk in s.accounts;
    var minRequired := if pkExists then 1 else NEW_KEY_MIN_DEPOSIT;
    if env.attachedDeposit < minRequired then Step(Err(DepositBelowMinimum), s)
    else if env.attachedDeposit < MIN_ACCESS_KEY_ALLOWANCE + MIN_STORAGE_COST then
      Step(Err(ArithmeticOverflow), s)
    else
      var amountToDeposit := if pkExists then env.attachedDeposit
                             else env.attachedDeposit - MIN_ACCESS_KEY_ALLOWANCE - MIN_STORAGE_COST;
      var total := (if pkExists then s.accounts[pk] else 0) + amountToDeposit;
      if total > U128_MAX then Step(Err(ArithmeticOverflow), s)
      else if pkExists then Step(Ok(()), s.(accounts := s.accounts[pk := total]))
      else Step(Ok(()), s.(accounts := s.accounts[pk := total],
                           accessKeys := s.accessKeys + {pk},
                           log := s.log + [ClaimKey(env.current, pk)]))
  }

  /** `process_claim`: on a call the contract makes to itself, remove the
      signer key's entry, return its amount and delete its access key. */
  function ProcessClaim(s: State, env: Env): (r: Step<Balance>)
    ensures r.result.Ok? <==> env.predecessor == env.current && env.signerPk in s.accounts
    ensures r.result.Err? ==>
      r.post == s &&
      r.result.error == (if env.predecessor != env.current then PredecessorNotCurrent else MissingPublicKey)
    ensures r.result.Ok? ==>
      r.result.value == s.accounts[env.signerPk] &&
      r.post.accounts.Keys == s.accounts.Keys - {env.signerPk} &&
      OthersUnchanged(r.post.accounts, s.accounts, env.signerPk) &&
      r.post.accessKeys == s.accessKeys - {env.signerPk} &&
      r.post.log == s.log + [DeleteKey(env.current, env.signerPk)] &&
      r.post.linkdropContract == s.linkdropContract
    ensures Valid(s) ==> Valid(r.post)
  {
    if env.predecessor != env.current then Step(Err(PredecessorNotCurrent), s)
    else if env.signerPk !in s.accounts then Step(Err(MissingPublicKey), s)
    else
      var amount := s.accounts[env.signerPk];
      Step(Ok(amount), s.(accounts := s.accounts - {env.signerPk},
                          accessKeys := s.accessKeys - {env.signerPk},
                          log := s.log + [DeleteKey(env.current, env.signerPk)]))
  }

  /** `claim`: redeem the signer key into the existing account `accountId`,
      minting to it and transferring it exactly the removed amount, which is
      also what the call returns. */
  function Claim(s: State, env: Env, accountId: AccountId): (r: Step<Balance>)
    ensures r.result.Ok? <==>
      env.attachedDeposit == 0 && env.predecessor == env.current && env.signerPk in s.accounts
    ensures r.result.Err? ==>
      r.post == s &&
      r.result.error == (if env.attachedDeposit != 0 then DepositNotAccepted else ProcessClaim(s, env).result.error)
    ensures r.result.Ok? ==>
      var amount := s.accounts[env.signerPk];
      r.result.value == amount &&
      r.post.accounts.Keys == s.accounts.Keys - {env.signerPk} &&
      OthersUnchanged(r.post.accounts, s.accounts, env.signerPk) &&
      r.post.accessKeys == s.accessKeys - {env.signerPk} &&
      r.post.log == s.log + [DeleteKey(env.current, env.signerPk), Mint(accountId), Transfer(accountId, amount)] &&
      r.post.linkdropContract == s.linkdropContract
    ensures Valid(s) ==> Valid(r.post)
  {
    if env.attachedDeposit != 0 then Step(Err(DepositNotAccepted), s)
    else
      var claimed := ProcessClaim(s, env);
      if claimed.result.Err? then claimed
      else
        var amount := claimed.result.value;
        Step(Ok(amount), claimed.post.(log := claimed.post.log + [Mint(accountId), Transfer(accountId, amount)]))
  }

  /** `create_account_and_claim`: redeem the signer key by asking the
      configured factory to create `newAccountId` funded with exactly the
      removed amount; the pending callback carries the same key, account and
      amount. */
  function CreateAccountAndClaim(s: State, env: Env, newAccountId: AccountId, newPublicKey: PublicKey)
    : (r: Step<Pending>)
    ensures r.result.Ok? <==>
      env.attachedDeposit == 0 && env.predecessor == env.current && env.signerPk in s.accounts
    ensures r.result.Err? ==>
      r.post == s &&
      r.result.error == (if env.attachedDeposit != 0 then DepositNotAccepted else ProcessClaim(s, env).result.error)
    ensures r.result.Ok? ==>
      var amount := s.accounts[env.signerPk];
      r.result.value == Pending(env.signerPk, newAccountId, amount) &&
      r.post.accounts.Keys == s.accounts.Keys - {env.signerPk} &&
      OthersUnchanged(r.post.accounts, s.accounts, env.signerPk) &&
      r.post.accessKeys == s.accessKeys - {env.signerPk} &&
      r.post.log == s.log + [DeleteKey(env.current, env.signerPk),
                             CreateAccount(s.linkdropContract, newAccountId, newPublicKey, amount)] &&
      r.post.linkdropContract == s.linkdropContract
    ensures Valid(s) ==> Valid(r.post)
  {
    if env.attachedDeposit != 0 then Step(Err(DepositNotAccepted), s)
    else
      var claimed := ProcessClaim(s, env);
      if claimed.result.Err? then Step(Err(claimed.result.error), s)
      else
        var amount := claimed.result.value;
        var t := claimed.post;
        Step(Ok(Pending(env.signerPk, newAccountId, amount)),
             t.(log := t.log + [CreateAccount(t.linkdropContract, newAccountId, newPublicKey, amount)]))
  }

  /** `on_account_created`: the callback after the factory call. On failure
      it puts the amount back under the key (overwriting any entry) and
      re-grants the access key; on success it mints to the new account. It
      returns whether the account was created. */
  function OnAccountCreated(s: State, env: Env, p: Pending, results: seq<PromiseResult>): (r: Step<bool>)
    ensures r.result.Ok? <==> env.attachedDeposit == 0 && env.predecessor == env.current && |results| == 1
    ensures r.result.Err? ==>
      r.post == s &&
      r.result.error == (if env.attachedDeposit != 0 then DepositNotAccepted
                         else if env.predecessor != env.current then PredecessorNotCurrent
                         else NoPromiseResult)
    ensures r.result.Ok? ==> (r.result.value <==> results[0].Successful?)
    ensures r.result.Ok? && !r.result.value ==>
      r.post.accounts == s.accounts[p.pk := p.amount] &&
      r.post.accessKeys == s.accessKeys + {p.pk} &&
      r.post.log == s.log + [ClaimKey(env.current, p.pk)] &&
      r.post.linkdropContract == s.linkdropContract
    ensures r.result.Ok? && r.result.value ==>
      r.post == s.(log := s.log + [Mint(p.newAccountId)])
    ensures Valid(s) ==> Valid(r.post)
  {
    if env.attachedDeposit != 0 then Step(Err(DepositNotAccepted), s)
    else if env.predecessor != env.current then Step(Err(PredecessorNotCurrent), s)
    else if |results| != 1 then Step(Err(NoPromiseResult), s)
    else if !results[0].Successful? then
      Step(Ok(false), s.(accounts := s.accounts[p.pk := p.amount],
                         accessKeys := s.accessKeys + {p.pk},
                         log := s.log + [ClaimKey(env.current, p.pk)]))
    else Step(Ok(true), s.(log := s.log + [Mint(p.newAccountId)]))
  }

  /** `get_key_balance`: the amount stored under `key`. */
  function KeyBalance(s: State, key: PublicKey): (r: Result<Balance>)
    ensures r.Ok? <==> key in s.accounts
    ensures r.Ok? ==> r.value == s.accounts[key]
    ensures r.Err? ==> r.error == KeyMissing
  {
    if key in s.accounts then Ok(s.accounts[key]) else Err(KeyMissing)
  }

  /** One state-changing call to the contract, with its host values. */
  datatype Call =
    | SetContractCall(env: Env, linkdropContract: AccountId)
    | SendCall(env: Env, pk: PublicKey)
    | ClaimCall(env: Env, accountId: AccountId)
    | CreateAccountAndClaimCall(env: Env, newAccountId: AccountId, newPublicKey: PublicKey)
    | OnAccountCreatedCall(env: Env, pending: Pending, results: seq<PromiseResult>)

  /** The state after one call; a call that panics changes nothing. */
  function Apply(s: State, c: Call): State {
    match c
    case SetContractCall(env, linkdropContract) => SetContract(s, env, linkdropContract).post
    case SendCall(env, pk) => Send(s, env, pk).post
    case ClaimCall(env, accountId) => Claim(s, env, accountId).post
    case CreateAccountAndClaimCall(env, newAccountId, newPublicKey) =>
      CreateAccountAndClaim(s, env, newAccountId, newPublicKey).post
    case OnAccountCreatedCall(env, pending, results) => OnAccountCreated(s, env, pending, results).post
  }

  /** The state after a sequence of calls, each run to completion in turn. */
  function Run(s: State, calls: seq<Call>): State
    decreases |calls|
  {
    if calls == [] then s else Run(Apply(s, calls[0]), calls[1..])
  }
}
