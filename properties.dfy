/** Properties of the linkdrop ledger that relate several calls: single
    redemption, conservation of the redeemed amount, exact compensation after
    a failed account creation, deposit accumulation, and the invariant that
    ties access keys to ledger entries across any sequence of calls. */
module LedgerProperties {
  import opened LinkdropTypes
  import opened Ledger

  /** A call to `send` for `k`, or a callback that restores `k`: the only
      calls that can put an entry for `k` into the ledger. */
  ghost predicate Refunds(c: Call, k: PublicKey) {
    (c.SendCall? && c.pk == k) || (c.OnAccountCreatedCall? && c.pending.pk == k)
  }

  /** A key without an entry stays without one through any calls that do
      not fund or restore it. */
  lemma {:induction false} KeyStaysAbsent(s: State, calls: seq<Call>, k: PublicKey)
    requires k !in s.accounts
    requires forall i :: 0 <= i < |calls| ==> !Refunds(calls[i], k)
    ensures k !in Run(s, calls).accounts
    decreases |calls|
  {
    if calls != [] {
      assert !Refunds(calls[0], k);
      assert k !in Apply(s, calls[0]).accounts;
      KeyStaysAbsent(Apply(s, calls[0]), calls[1..], k);
    }
  }

  /** Once a key has been redeemed, by either path, no later redemption with
      it succeeds until it is funded again by `send` or restored by a failed
      account creation: both redemption paths then fail on the missing
      ledger entry (or earlier, on a check that precedes it). */
  lemma NoDoubleRedemption(
    s: State, env: Env, calls: seq<Call>,
    accountId: AccountId, newAccountId: AccountId, newPublicKey: PublicKey)
    requires ProcessClaim(s, env).result.Ok?
    requires forall i :: 0 <= i < |calls| ==> !Refunds(calls[i], env.signerPk)
    ensures var t := Run(ProcessClaim(s, env).post, calls);
      var missing := if env.attachedDeposit != 0 then DepositNotAccepted else MissingPublicKey;
      env.signerPk !in t.accounts &&
      ProcessClaim(t, env).result == Err(MissingPublicKey) &&
      Claim(t, env, accountId).result == Err(missing) &&
      CreateAccountAndClaim(t, env, newAccountId, newPublicKey).result == Err(missing)
  {
    KeyStaysAbsent(ProcessClaim(s, env).post, calls, env.signerPk);
  }

  /** `claim` moves value and does not create it: the account receives
      exactly the amount removed, and putting that amount back under the key
      gives the ledger as it was. */
  lemma ClaimConserves(s: State, env: Env, accountId: AccountId)
    requires Claim(s, env, accountId).result.Ok?
    ensures var r := Claim(s, env, accountId);
      r.post.log[|r.post.log| - 1] == Transfer(accountId, r.result.value) &&
      r.post.accounts[env.signerPk := r.result.value] == s.accounts
  {
  }

  /** `create_account_and_claim` forwards exactly the amount it removes: the
      factory call carries it and so does the pending callback, and putting
      it back under the key gives the ledger as it was. */
  lemma CreateAccountConserves(s: State, env: Env, newAccountId: AccountId, newPublicKey: PublicKey)
    requires CreateAccountAndClaim(s, env, newAccountId, newPublicKey).result.Ok?
    ensures var r := CreateAccountAndClaim(s, env, newAccountId, newPublicKey);
      var p := r.result.value;
      p.pk == env.signerPk && p.newAccountId == newAccountId &&
      r.post.log[|r.post.log| - 1] == CreateAccount(s.linkdropContract, newAccountId, newPublicKey, p.amount) &&
      r.post.accounts[p.pk := p.amount] == s.accounts
  {
  }

  /** When the factory fails, the callback undoes the redemption exactly:
      the ledger and the access keys are as before the redemption, the key's
      balance is the amount it had, and the key can be redeemed again for the
      same amount. */
  lemma FailedCreationRestores(
    s: State, env: Env, newAccountId: AccountId, newPublicKey: PublicKey,
    callbackEnv: Env, results: seq<PromiseResult>)
    requires Valid(s)
    requires CreateAccountAndClaim(s, env, newAccountId, newPublicKey).result.Ok?
    requires callbackEnv.predecessor == callbackEnv.current == env.current
    requires callbackEnv.attachedDeposit == NO_DEPOSIT
    requires |results| == 1 && !results[0].Successful?
    ensures var r := CreateAccountAndClaim(s, env, newAccountId, newPublicKey);
      var p := r.result.value;
      var u := OnAccountCreated(r.post, callbackEnv, p, results);
      u.result == Ok(false) &&
      u.post.accounts == s.accounts &&
      u.post.accessKeys == s.accessKeys &&
      u.post.linkdropContract == s.linkdropContract &&
      u.post.log == s.log + [DeleteKey(env.current, p.pk),
                             CreateAccount(s.linkdropContract, newAccountId, newPublicKey, p.amount),
                             ClaimKey(env.current, p.pk)] &&
      KeyBalance(u.post, env.signerPk) == Ok(p.amount) &&
      CreateAccountAndClaim(u.post, env, newAccountId, newPublicKey).result == Ok(p)
  {
  }

  /** When the factory succeeds, the callback mints to the new account and
      the key stays redeemed: no entry, no access key, no balance. */
  lemma SuccessfulCreationMints(
    s: State, env: Env, newAccountId: AccountId, newPublicKey: PublicKey,
    callbackEnv: Env, results: seq<PromiseResult>)
    requires CreateAccountAndClaim(s, env, newAccountId, newPublicKey).result.Ok?
    requires callbackEnv.predecessor == callbackEnv.current
    requires callbackEnv.attachedDeposit == NO_DEPOSIT
    requires |results| == 1 && results[0].Successful?
    ensures var r := CreateAccountAndClaim(s, env, newAccountId, newPublicKey);
      var p := r.result.value;
      var u := OnAccountCreated(r.post, callbackEnv, p, results);
      u.result == Ok(true) &&
      u.post.accounts.Keys == s.accounts.Keys - {env.signerPk} &&
      env.signerPk !in u.post.accessKeys &&
      u.post.log == s.log + [DeleteKey(env.current, p.pk),
                             CreateAccount(s.linkdropContract, newAccountId, newPublicKey, p.amount),
                             Mint(newAccountId)] &&
      KeyBalance(u.post, env.signerPk) == Err(KeyMissing)
  {
  }

  /** A deposit made while the key's redemption is in flight is lost if
      the account creation then fails. With no entry, `send` treats the key
      as new: it charges the fees, credits the net amount and schedules the
      access key again. The failing callback then overwrites that entry with
      the redeemed amount alone. */
  lemma DepositDuringFlightOverwritten(
    s: State, env: Env, newAccountId: AccountId, newPublicKey: PublicKey,
    funder: Env, callbackEnv: Env, results: seq<PromiseResult>)
    requires CreateAccountAndClaim(s, env, newAccountId, newPublicKey).result.Ok?
    requires funder.attachedDeposit >= NEW_KEY_MIN_DEPOSIT
    requires callbackEnv.predecessor == callbackEnv.current
    requires callbackEnv.attachedDeposit == NO_DEPOSIT
    requires |results| == 1 && !results[0].Successful?
    ensures var r := CreateAccountAndClaim(s, env, newAccountId, newPublicKey);
      var p := r.result.value;
      var funded := Send(r.post, funder, p.pk);
      var u := OnAccountCreated(funded.post, callbackEnv, p, results);
      funded.result.Ok? &&
      KeyBalance(funded.post, p.pk) == Ok(funder.attachedDeposit - MIN_ACCESS_KEY_ALLOWANCE - MIN_STORAGE_COST) &&
      funded.post.log == r.post.log + [ClaimKey(funder.current, p.pk)] &&
      u.result == Ok(false) &&
      KeyBalance(u.post, p.pk) == Ok(p.amount)
  {
  }

  /** A first deposit against a key and a second one against the same key
      add up: the key holds both, less the one-time fees of the first. */
  lemma SendAccumulates(s: State, env1: Env, env2: Env, pk: PublicKey)
    requires pk !in s.accounts
    requires env1.attachedDeposit >= NEW_KEY_MIN_DEPOSIT
    requires env2.attachedDeposit >= MIN_ACCESS_KEY_ALLOWANCE + MIN_STORAGE_COST
    requires env1.attachedDeposit + env2.attachedDeposit <= U128_MAX
    ensures var t := Send(s, env1, pk);
      var u := Send(t.post, env2, pk);
      t.result.Ok? && u.result.Ok? &&
      KeyBalance(u.post, pk) ==
        Ok(env1.attachedDeposit - MIN_ACCESS_KEY_ALLOWANCE - MIN_STORAGE_COST + env2.attachedDeposit) &&
      u.post.log == s.log + [ClaimKey(env1.current, pk)]
  {
  }

  /** The quirk of `send`: for a key already in the ledger the guard asks
      for a single yoctoNEAR, but the fee subtraction computed before the
      existing-key branch underflows for any deposit below the two fees, so
      such a deposit aborts and the ledger is unchanged. */
  lemma ExistingKeySmallDepositUnderflows(s: State, env: Env, pk: PublicKey)
    requires pk in s.accounts
    requires 1 <= env.attachedDeposit < MIN_ACCESS_KEY_ALLOWANCE + MIN_STORAGE_COST
    ensures Send(s, env, pk) == Step(Err(ArithmeticOverflow), s)
  {
  }

  /** A single call keeps access keys and ledger entries in lockstep and
      only appends to the effect log. */
  lemma ApplyPreserves(s: State, c: Call)
    requires Valid(s)
    ensures Valid(Apply(s, c))
    ensures s.log <= Apply(s, c).log
  {
  }

  /** Any sequence of calls keeps access keys and ledger entries in
      lockstep and only appends to the effect log. */
  lemma {:induction false} RunPreserves(s: State, calls: seq<Call>)
    requires Valid(s)
    ensures Valid(Run(s, calls))
    ensures s.log <= Run(s, calls).log
    decreases |calls|
  {
    if calls != [] {
      ApplyPreserves(s, calls[0]);
      RunPreserves(Apply(s, calls[0]), calls[1..]);
    }
  }
}

/** Concrete runs of the contract, from an empty ledger. */
module LedgerScenarios {
  import opened LinkdropTypes
  import opened Ledger

  const CONTRACT: AccountId := "linkdrop-proxy.testnet"
  const FACTORY: AccountId := "testnet"
  const FUNDER: AccountId := "funder.testnet"
  const ONE_NEAR: Balance := 1_000_000_000_000_000_000_000_000
  const KEY: PublicKey := [0, 1, 2, 3]
  const NEW_KEY: PublicKey := [0, 9, 9, 9]

  /** A call the contract makes to itself, signed with `key`'s access key. */
  function SelfEnv(key: PublicKey): Env {
    Env(CONTRACT, CONTRACT, key, 0)
  }

  /** Funding a key with one NEAR and redeeming it into the existing
      account `alice.testnet`: the entry and the access key are gone, the
      account is minted to and receives the whole net deposit. */
  lemma ExistingAccountHappyPath()
    ensures var net := ONE_NEAR - MIN_ACCESS_KEY_ALLOWANCE - MIN_STORAGE_COST;
      var done := Run(State(map[], FACTORY, {}, []), [
        SendCall(Env(FUNDER, CONTRACT, [], ONE_NEAR), KEY),
        ClaimCall(SelfEnv(KEY), "alice.testnet")]);
      done.accounts == map[] &&
      done.accessKeys == {} &&
      done.log == [ClaimKey(CONTRACT, KEY), DeleteKey(CONTRACT, KEY),
                   Mint("alice.testnet"), Transfer("alice.testnet", net)]
  {
    var start := State(map[], FACTORY, {}, []);
    var send := SendCall(Env(FUNDER, CONTRACT, [], ONE_NEAR), KEY);
    var claim := ClaimCall(SelfEnv(KEY), "alice.testnet");
    var funded := Apply(start, send);
    assert funded.accounts == map[KEY := ONE_NEAR - MIN_ACCESS_KEY_ALLOWANCE - MIN_STORAGE_COST];
    var done := Apply(funded, claim);
    assert done.accounts == map[];
    assert [send, claim][1..] == [claim];
    assert Run(start, [send, claim]) == Run(funded, [claim]);
    assert Run(funded, [claim]) == Run(done, []);
  }

  /** Funding a key with one NEAR and redeeming into a new account whose
      creation fails first and succeeds on the retry: after the failure the
      key holds the whole net deposit again, and after the retry the ledger
      is empty and the new account has been minted to. */
  lemma FailureThenRetry()
    ensures var net := ONE_NEAR - MIN_ACCESS_KEY_ALLOWANCE - MIN_STORAGE_COST;
      var p := Pending(KEY, "bob.testnet", net);
      var start := State(map[], FACTORY, {}, []);
      var failed := Run(start, [
        SendCall(Env(FUNDER, CONTRACT, [], ONE_NEAR), KEY),
        CreateAccountAndClaimCall(SelfEnv(KEY), "bob.testnet", NEW_KEY),
        OnAccountCreatedCall(SelfEnv(KEY), p, [Failed])]);
      var retried := Run(failed, [
        CreateAccountAndClaimCall(SelfEnv(KEY), "bob.testnet", NEW_KEY),
        OnAccountCreatedCall(SelfEnv(KEY), p, [Successful([])])]);
      KeyBalance(failed, KEY) == Ok(net) &&
      failed.accessKeys == {KEY} &&
      retried.accounts == map[] &&
      retried.accessKeys == {} &&
      retried.log == [
        ClaimKey(CONTRACT, KEY),
        DeleteKey(CONTRACT, KEY), CreateAccount(FACTORY, "bob.testnet", NEW_KEY, net), ClaimKey(CONTRACT, KEY),
        DeleteKey(CONTRACT, KEY), CreateAccount(FACTORY, "bob.testnet", NEW_KEY, net), Mint("bob.testnet")]
  {
    var net := ONE_NEAR - MIN_ACCESS_KEY_ALLOWANCE - MIN_STORAGE_COST;
    var p := Pending(KEY, "bob.testnet", net);
    var start := State(map[], FACTORY, {}, []);
    var send := SendCall(Env(FUNDER, CONTRACT, [], ONE_NEAR), KEY);
    var redeem := CreateAccountAndClaimCall(SelfEnv(KEY), "bob.testnet", NEW_KEY);
    var fail := OnAccountCreatedCall(SelfEnv(KEY), p, [Failed]);
    var succeed := OnAccountCreatedCall(SelfEnv(KEY), p, [Successful([])]);

    var funded := Apply(start, send);
    assert funded.accounts == map[KEY := net];
    var inFlight := Apply(funded, redeem);
    assert inFlight.accounts == map[];
    var failed := Apply(inFlight, fail);
    assert failed.accounts == map[KEY := net] && failed.accessKeys == {KEY};
    assert [send, redeem, fail][1..] == [redeem, fail] && [redeem, fail][1..] == [fail];
    assert Run(start, [send, redeem, fail]) == Run(funded, [redeem, fail]);
    assert Run(funded, [redeem, fail]) == Run(inFlight, [fail]);
    assert Run(inFlight, [fail]) == Run(failed, []);

    var retrying := Apply(failed, redeem);
    assert retrying.accounts == map[] && retrying.accessKeys == {};
    var retried := Apply(retrying, succeed);
    assert [redeem, succeed][1..] == [succeed];
    assert Run(failed, [redeem, succeed]) == Run(retrying, [succeed]);
    assert Run(retrying, [succeed]) == Run(retried, []);
  }
}
