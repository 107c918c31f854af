/** The linkdrop part of the NFT contract: a `Contract` object whose methods
    update its ledger in place. Host values (`env`) and the callback's promise
    results are parameters; scheduled promises and mints are appended to `log`,
    and the access keys they grant or delete are tracked in `accessKeys`.
    Each method is specified by the `Ledger` function of the same name. */
module Linkdrop {
  import opened LinkdropTypes
  import opened Ledger

  class Contract {
    var accounts: map<PublicKey, Balance>
    var linkdropContract: AccountId
    var accessKeys: set<PublicKey>
    var log: seq<Effect>

    /** The object's fields as a `Ledger.State` value. */
    function Snapshot(): State
      reads this
    {
      State(accounts, linkdropContract, accessKeys, log)
    }

    /** A fresh contract: no deposits, no access keys, nothing scheduled. */
    constructor (linkdropContract: AccountId)
      ensures Snapshot() == State(map[], linkdropContract, {}, [])
      ensures Valid(Snapshot())
    {
      this.accounts := map[];
      this.linkdropContract := linkdropContract;
      this.accessKeys := {};
      this.log := [];
    }

    method SetContract(env: Env, linkdropContract: AccountId) returns (r: Result<()>)
      modifies this
      ensures Ledger.SetContract(old(Snapshot()), env, linkdropContract) == Step(r, Snapshot())
    {
      if env.attachedDeposit != 0 {
        return Err(DepositNotAccepted);
      }
      if env.predecessor != env.current {
        return Err(PredecessorNotCurrent);
      }
      this.linkdropContract := linkdropContract;
      r := Ok(());
    }

    method Send(env: Env, pk: PublicKey) returns (r: Result<()>)
      modifies this
      ensures Ledger.Send(old(Snapshot()), env, pk) == Step(r, Snapshot())
      ensures Valid(old(Snapshot())) ==> Valid(Snapshot())
    {
      var pkExists := pk in accounts;
      var minRequiredInitialDeposit: Balance := NEW_KEY_MIN_DEPOSIT;
      if pkExists {
        minRequiredInitialDeposit := 1;
      }
      if env.attachedDeposit < minRequiredInitialDeposit {
        return Err(DepositBelowMinimum);
      }
      // computed for every key, so it must not underflow even when discarded
      if env.attachedDeposit < MIN_ACCESS_KEY_ALLOWANCE + MIN_STORAGE_COST {
        return Err(ArithmeticOverflow);
      }
      var amountToDeposit: Balance := env.attachedDeposit - MIN_ACCESS_KEY_ALLOWANCE - MIN_STORAGE_COST;
      if pkExists {
        amountToDeposit := env.attachedDeposit;
      }
      var stored := if pk in accounts then accounts[pk] else 0;
      if stored + amountToDeposit > U128_MAX {
        return Err(ArithmeticOverflow);
      }
      accounts := accounts[pk := stored + amountToDeposit];
      if !pkExists {
        accessKeys := accessKeys + {pk};
        log := log + [ClaimKey(env.current, pk)];
      }
      r := Ok(());
    }

    method ProcessClaim(env: Env) returns (r: Result<Balance>)
      modifies this
      ensures Ledger.ProcessClaim(old(Snapshot()), env) == Step(r, Snapshot())
      ensures Valid(old(Snapshot())) ==> Valid(Snapshot())
    {
      if env.predecessor != env.current {
        return Err(PredecessorNotCurrent);
      }
      if env.signerPk !in accounts {
        return Err(MissingPublicKey);
      }
      var amount := accounts[env.signerPk];
      accounts := accounts - {env.signerPk};
      accessKeys := accessKeys - {env.signerPk};
      log := log + [DeleteKey(env.current, env.signerPk)];
      r := Ok(amount);
    }

    method Claim(env: Env, accountId: AccountId) returns (r: Result<Balance>)
      modifies this
      ensures Ledger.Claim(old(Snapshot()), env, accountId) == Step(r, Snapshot())
      ensures Valid(old(Snapshot())) ==> Valid(Snapshot())
    {
      if env.attachedDeposit != 0 {
        return Err(DepositNotAccepted);
      }
      r := ProcessClaim(env);
      if r.Err? {
        return;
      }
      var amount := r.value;
      log := log + [Mint(accountId)];
      log := log + [Transfer(accountId, amount)];
    }

    method CreateAccountAndClaim(env: Env, newAccountId: AccountId, newPublicKey: PublicKey)
      returns (r: Result<Pending>)
      modifies this
      ensures Ledger.CreateAccountAndClaim(old(Snapshot()), env, newAccountId, newPublicKey) == Step(r, Snapshot())
      ensures Valid(old(Snapshot())) ==> Valid(Snapshot())
    {
      if env.attachedDeposit != 0 {
        return Err(DepositNotAccepted);
      }
      var claimed := ProcessClaim(env);
      if claimed.Err? {
        return Err(claimed.error);
      }
      var amount := claimed.value;
      log := log + [CreateAccount(linkdropContract, newAccountId, newPublicKey, amount)];
      r := Ok(Pending(env.signerPk, newAccountId, amount));
    }

    method OnAccountCreated(env: Env, p: Pending, results: seq<PromiseResult>) returns (r: Result<bool>)
      modifies this
      ensures Ledger.OnAccountCreated(old(Snapshot()), env, p, results) == Step(r, Snapshot())
      ensures Valid(old(Snapshot())) ==> Valid(Snapshot())
    {
      if env.attachedDeposit != 0 {
        return Err(DepositNotAccepted);
      }
      if env.predecessor != env.current {
        return Err(PredecessorNotCurrent);
      }
      if |results| != 1 {
        return Err(NoPromiseResult);
      }
      var creationSucceeded := results[0].Successful?;
      if !creationSucceeded {
        accounts := accounts[p.pk := p.amount];
        accessKeys := accessKeys + {p.pk};
        log := log + [ClaimKey(env.current, p.pk)];
      } else {
        log := log + [Mint(p.newAccountId)];
      }
      r := Ok(creationSucceeded);
    }

    method GetKeyBalance(key: PublicKey) returns (r: Result<Balance>)
      ensures r.Ok? <==> key in accounts
      ensures r.Ok? ==> r.value == accounts[key]
      ensures r.Err? ==> r.error == KeyMissing
      ensures r == KeyBalance(Snapshot(), key)
    {
      if key !in accounts {
        return Err(KeyMissing);
      }
      r := Ok(accounts[key]);
    }
  }
}
