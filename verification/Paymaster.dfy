/** What every run of `hook_manager.aleo` keeps: dense event logs, exact ledgers, solvency. */
module Paymaster {
  import opened Prelude
  import opened Sums
  import Credits
  import opened Hooks

  /** Each hook is registered under one kind, and only that kind has data for it. */
  ghost predicate Kinds(s: State) {
    && (forall a :: a in s.igps ==> a in s.hooks && s.hooks[a] == IGP)
    && (forall a :: a in s.trees ==> a in s.hooks && s.hooks[a] == TREE)
  }

  /** The gas payments of an IGP are logged at indices 0 to count - 1, and nowhere else. */
  ghost predicate PaymentLog(s: State) {
    && (forall a, k: nat :: (a, k) in s.payments ==>
          a in s.igps && k < s.igps[a].count && s.payments[(a, k)].index == k)
    && (forall a, k: nat :: a in s.igps && k < s.igps[a].count ==> (a, k) in s.payments)
  }

  /** The insertions of a tree are logged at indices 0 to count - 1, and are its leaves. */
  ghost predicate InsertionLog(s: State) {
    && (forall h, k: nat :: (h, k) in s.insertions ==>
          h in s.trees && k < |s.trees[h].leaves| && s.insertions[(h, k)] == Insertion(s.trees[h].leaves[k], k))
    && (forall h, k: nat :: h in s.trees && k < |s.trees[h].leaves| ==> (h, k) in s.insertions)
    && (forall h :: h in s.trees ==> |s.trees[h].leaves| < U32)
  }

  ghost function BalanceOf(): (Address, Igp) -> nat {
    (a: Address, i: Igp) => i.balance
  }

  /** The account of `hook_manager` covers all IGP balances together. */
  ghost predicate Solvent(env: Env, b: Books) {
    Sum(b.hooks.igps, BalanceOf()) <= Credits.Balance(b.credits, env.self)
  }

  ghost predicate Logs(s: State) {
    Kinds(s) && PaymentLog(s) && InsertionLog(s)
  }

  ghost predicate Inv(env: Env, b: Books) {
    Logs(b.hooks) && Solvent(env, b)
  }

  /** `hook_manager` is a program: it signs nothing and moves its credits in `claim` only. */
  predicate Admissible(env: Env, tx: Tx) {
    match tx
    case PostDispatch(signer, _, _, _, _, _, _) => signer != env.self
    case PayForGas(signer, _, _, _, _, _) => signer != env.self
    case CreditsTx(_, ctx) => !Credits.Spends(ctx, env.self)
    case _ => true
  }

  // ---------------------------------------------------------------------------
  // Logs
  // ---------------------------------------------------------------------------

  lemma RecordLogs(s: State, igp: Address, id: Digest, destination: nat, gas: nat, amount: nat)
    requires Logs(s) && CanRecord(s, igp, amount)
    ensures Logs(Record(s, igp, id, destination, gas, amount))
  {
    var s' := Record(s, igp, id, destination, gas, amount);
    assert InsertionLog(s') && Kinds(s');
  }

  lemma InsertLogs(s: State, hook: Address, id: Digest)
    requires Logs(s) && hook in s.trees && |s.trees[hook].leaves| < U32 - 1
    ensures Logs(Insert(s, hook, id))
  {
    var s' := Insert(s, hook, id);
    assert PaymentLog(s') && Kinds(s');
  }

  lemma RunHookLogs(s: State, caller: Address, hook: Address, gasLimit: nat, amount: nat, id: Digest, destination: nat)
    requires Logs(s) && RunHook(s, caller, hook, gasLimit, amount, id, destination).Some?
    ensures Logs(RunHook(s, caller, hook, gasLimit, amount, id, destination).value)
  {
    if s.hooks[hook] == TREE {
      InsertLogs(s, hook, id);
    } else if s.hooks[hook] == IGP {
      var config := GetOr(s.gasConfigs, (hook, destination), GasConfig(0, 0, 0));
      RecordLogs(s, hook, id, destination, (if gasLimit == 0 then DEFAULT_GAS else gasLimit) + config.overhead, amount);
    }
  }

  lemma ConfigLogs(env: Env, s: State, tx: Tx)
    requires Logs(s)
    requires IsConfigTx(tx)
    ensures ApplyConfig(env, s, tx).Some? ==> Logs(ApplyConfig(env, s, tx).value)
  {
    hide Logs;
    if tx.InitNoop? || tx.InitIgp? {
      InitLogs(env, s, tx);
    } else if tx.InitTree? {
      InitTreeLogs(env, s, tx);
    } else {
      SettingLogs(env, s, tx);
    }
  }

  lemma InitLogs(env: Env, s: State, tx: Tx)
    requires Logs(s) && (tx.InitNoop? || tx.InitIgp?)
    ensures ApplyConfig(env, s, tx).Some? ==> Logs(ApplyConfig(env, s, tx).value)
  {
  }

  lemma InitTreeLogs(env: Env, s: State, tx: Tx)
    requires Logs(s) && tx.InitTree?
    ensures ApplyConfig(env, s, tx).Some? ==> Logs(ApplyConfig(env, s, tx).value)
  {
  }

  lemma SettingLogs(env: Env, s: State, tx: Tx)
    requires Logs(s) && (tx.SetGasConfig? || tx.RemoveGasConfig? || tx.TransferIgpOwnership?)
    ensures ApplyConfig(env, s, tx).Some? ==> Logs(ApplyConfig(env, s, tx).value)
  {
  }

  // ---------------------------------------------------------------------------
  // Solvency
  // ---------------------------------------------------------------------------

  lemma RecordSum(s: State, igp: Address, id: Digest, destination: nat, gas: nat, amount: nat)
    requires CanRecord(s, igp, amount)
    ensures Sum(Record(s, igp, id, destination, gas, amount).igps, BalanceOf()) == Sum(s.igps, BalanceOf()) + amount
  {
    var i := s.igps[igp];
    SumUpdate(s.igps, igp, i.(balance := i.balance + amount, count := i.count + 1), BalanceOf());
  }

  lemma RunHookSum(s: State, caller: Address, hook: Address, gasLimit: nat, amount: nat, id: Digest, destination: nat)
    requires RunHook(s, caller, hook, gasLimit, amount, id, destination).Some?
    ensures Sum(RunHook(s, caller, hook, gasLimit, amount, id, destination).value.igps, BalanceOf())
            == Sum(s.igps, BalanceOf()) + amount
  {
    if s.hooks[hook] == IGP {
      var config := GetOr(s.gasConfigs, (hook, destination), GasConfig(0, 0, 0));
      RecordSum(s, hook, id, destination, (if gasLimit == 0 then DEFAULT_GAS else gasLimit) + config.overhead, amount);
    }
  }

  lemma ConfigSum(env: Env, s: State, tx: Tx)
    requires Kinds(s)
    requires IsConfigTx(tx)
    requires ApplyConfig(env, s, tx).Some?
    ensures Sum(ApplyConfig(env, s, tx).value.igps, BalanceOf()) == Sum(s.igps, BalanceOf())
  {
    match tx
    case InitIgp(caller) =>
      SumUpdate(s.igps, env.addressOf(IgpImage(caller, s.nonce)), Igp(caller, s.nonce, 0, 0), BalanceOf());
    case TransferIgpOwnership(caller, igp, owner) =>
      SumUpdate(s.igps, igp, s.igps[igp].(owner := owner), BalanceOf());
    case _ =>
  }

  lemma ClaimKeeps(env: Env, b: Books, caller: Address, igp: Address, amount: nat)
    requires Inv(env, b) && ApplyClaim(env, b, caller, igp, amount).Some?
    ensures Inv(env, ApplyClaim(env, b, caller, igp, amount).value)
  {
    hide Logs, Credits.Transfer;
    var i := b.hooks.igps[igp];
    SumUpdate(b.hooks.igps, igp, i.(balance := i.balance - amount), BalanceOf());
    Credits.TransferMoves(b.credits, env.self, caller, amount);
    BalanceLogs(b.hooks, igp, i.(balance := i.balance - amount));
  }

  lemma BalanceLogs(s: State, igp: Address, i: Igp)
    requires Logs(s) && igp in s.igps && i.count == s.igps[igp].count
    ensures Logs(s.(igps := s.igps[igp := i]))
  {
  }

  lemma PayForGasKeeps(env: Env, b: Books, signer: Address, igp: Address, id: Digest, destination: nat,
                       gas: nat, amount: nat)
    requires Inv(env, b) && signer != env.self
             && ApplyPayForGas(env, b, signer, igp, id, destination, gas, amount).Some?
    ensures Inv(env, ApplyPayForGas(env, b, signer, igp, id, destination, gas, amount).value)
  {
    Credits.TransferMoves(b.credits, signer, env.self, amount);
    RecordLogs(b.hooks, igp, id, destination, gas, amount);
    RecordSum(b.hooks, igp, id, destination, gas, amount);
  }

  lemma PostDispatchKeeps(env: Env, b: Books, signer: Address, caller: Address, hook: Address, gasLimit: nat,
                          amount: nat, id: Digest, destination: nat)
    requires Inv(env, b) && signer != env.self
    requires ApplyPostDispatch(env, b, signer, caller, hook, gasLimit, amount, id, destination).Some?
    ensures Inv(env, ApplyPostDispatch(env, b, signer, caller, hook, gasLimit, amount, id, destination).value)
  {
    Credits.TransferMoves(b.credits, signer, env.self, amount);
    RunHookLogs(b.hooks, caller, hook, gasLimit, amount, id, destination);
    RunHookSum(b.hooks, caller, hook, gasLimit, amount, id, destination);
  }

  lemma ApplyKeeps(env: Env, b: Books, tx: Tx)
    requires Inv(env, b) && Admissible(env, tx) && Apply(env, b, tx).Some?
    ensures Inv(env, Apply(env, b, tx).value)
  {
    hide Logs, Credits.Apply;
    match tx
    case Claim(caller, igp, amount) => ClaimKeeps(env, b, caller, igp, amount);
    case PayForGas(signer, igp, id, destination, gas, amount) =>
      PayForGasKeeps(env, b, signer, igp, id, destination, gas, amount);
    case PostDispatch(signer, caller, hook, gasLimit, amount, id, destination) =>
      PostDispatchKeeps(env, b, signer, caller, hook, gasLimit, amount, id, destination);
    case CreditsTx(height, ctx) => Credits.OnlySpenderDebits(b.credits, height, ctx, env.self);
    case _ =>
      ConfigLogs(env, b.hooks, tx);
      LogsKinds(b.hooks);
      ConfigSum(env, b.hooks, tx);
  }

  lemma LogsKinds(s: State)
    requires Logs(s)
    ensures Kinds(s)
  {
  }

  /** Over every run: dense logs, and claims can always be paid out. */
  lemma {:induction false} PaymasterInvariant(env: Env, b: Books, txs: seq<Tx>)
    requires Inv(env, b) && forall i :: 0 <= i < |txs| ==> Admissible(env, txs[i])
    ensures Inv(env, Run(env, b, txs))
    decreases |txs|
  {
    if txs != [] {
      if Apply(env, b, txs[0]).Some? {
        ApplyKeeps(env, b, txs[0]);
      }
      PaymasterInvariant(env, Commit(env, b, txs[0]), txs[1..]);
    }
  }

  /** The caller's account has room for the claim; a claim by the program itself changes nothing there. */
  predicate HasRoom(env: Env, b: Books, caller: Address, amount: nat) {
    Credits.Balance(b.credits, caller) + (if caller == env.self then 0 else amount) < U64
  }

  /**
  A claim goes through exactly when the caller owns the IGP, its balance covers the amount, the
  caller's account has room and, for a claim of nothing, the program has an account at all. The
  funds of the program are never the obstacle.
   */
  lemma ClaimSucceedsIff(env: Env, b: Books, caller: Address, igp: Address, amount: nat)
    requires Inv(env, b)
    ensures ApplyClaim(env, b, caller, igp, amount).Some?
            <==> && igp in b.hooks.igps && b.hooks.igps[igp].owner == caller && amount <= b.hooks.igps[igp].balance
                 && HasRoom(env, b, caller, amount)
                 && (amount == 0 ==> env.self in b.credits.account)
  {
    SumAtLeast(b.hooks.igps, igp, BalanceOf());
  }

  // ---------------------------------------------------------------------------
  // The ledger of one IGP
  // ---------------------------------------------------------------------------

  /** The first `n` logged payments of an IGP. */
  function Paid(s: State, igp: Address, n: nat): nat {
    if n == 0 then 0
    else Paid(s, igp, n - 1) + if (igp, n - 1) in s.payments then s.payments[(igp, n - 1)].payment else 0
  }

  lemma {:induction false} PaidFrame(s: State, s': State, igp: Address, n: nat)
    requires forall k: nat :: k < n ==> ((igp, k) in s.payments <==> (igp, k) in s'.payments)
    requires forall k: nat :: k < n && (igp, k) in s.payments ==> s'.payments[(igp, k)] == s.payments[(igp, k)]
    ensures Paid(s', igp, n) == Paid(s, igp, n)
  {
    if n > 0 {
      PaidFrame(s, s', igp, n - 1);
    }
  }

  /** What has left the IGP: all its logged payments, less its balance. */
  ghost function Withdrawn(s: State, igp: Address): int {
    if igp in s.igps then Paid(s, igp, s.igps[igp].count) - s.igps[igp].balance else 0
  }

  /** What a transaction claims from `igp` when it goes through. */
  function ClaimedBy(tx: Tx, igp: Address): nat {
    if tx.Claim? && tx.igp == igp then tx.amount else 0
  }

  function ClaimedIn(env: Env, b: Books, txs: seq<Tx>, igp: Address): nat
    decreases |txs|
  {
    if txs == [] then 0
    else
      (if Apply(env, b, txs[0]).Some? then ClaimedBy(txs[0], igp) else 0)
        + ClaimedIn(env, Commit(env, b, txs[0]), txs[1..], igp)
  }

  lemma RecordWithdrawn(s: State, igp: Address, id: Digest, destination: nat, gas: nat, amount: nat, a: Address)
    requires CanRecord(s, igp, amount)
    ensures Withdrawn(Record(s, igp, id, destination, gas, amount), a) == Withdrawn(s, a)
  {
    var s' := Record(s, igp, id, destination, gas, amount);
    if a in s.igps {
      PaidFrame(s, s', a, s.igps[a].count);
    }
  }

  lemma SamePaymentsWithdrawn(s: State, s': State, a: Address)
    requires s'.payments == s.payments
    requires a in s'.igps <==> a in s.igps
    requires a in s.igps ==> s'.igps[a].count == s.igps[a].count
    ensures a in s.igps ==> Withdrawn(s', a) == Withdrawn(s, a) + s.igps[a].balance - s'.igps[a].balance
  {
    if a in s.igps {
      PaidFrame(s, s', a, s.igps[a].count);
    }
  }

  lemma ConfigWithdrawn(env: Env, s: State, tx: Tx, a: Address)
    requires Logs(s)
    requires IsConfigTx(tx)
    requires ApplyConfig(env, s, tx).Some?
    ensures Withdrawn(ApplyConfig(env, s, tx).value, a) == Withdrawn(s, a)
  {
    var s' := ApplyConfig(env, s, tx).value;
    assert s'.payments == s.payments;
    if a in s.igps {
      SamePaymentsWithdrawn(s, s', a);
    }
  }

  lemma ApplyWithdrawn(env: Env, b: Books, tx: Tx, a: Address)
    requires Logs(b.hooks) && Apply(env, b, tx).Some?
    ensures Withdrawn(Apply(env, b, tx).value.hooks, a) == Withdrawn(b.hooks, a) + ClaimedBy(tx, a)
  {
    hide Credits.Apply, Credits.Transfer, Withdrawn, Logs;
    var s, s' := b.hooks, Apply(env, b, tx).value.hooks;
    match tx
    case Claim(caller, igp, amount) =>
      ClaimWithdrawn(s, igp, amount, a);
    case PayForGas(signer, igp, id, destination, gas, amount) =>
      RecordWithdrawn(s, igp, id, destination, gas, amount, a);
    case PostDispatch(signer, caller, hook, gasLimit, amount, id, destination) =>
      RunHookWithdrawn(s, caller, hook, gasLimit, amount, id, destination, a);
    case CreditsTx(_, _) =>
    case _ =>
      ConfigWithdrawn(env, s, tx, a);
  }

  lemma ClaimWithdrawn(s: State, igp: Address, amount: nat, a: Address)
    requires igp in s.igps && amount <= s.igps[igp].balance
    ensures var s' := s.(igps := s.igps[igp := s.igps[igp].(balance := s.igps[igp].balance - amount)]);
            Withdrawn(s', a) == Withdrawn(s, a) + if a == igp then amount else 0
  {
    SamePaymentsWithdrawn(s, s.(igps := s.igps[igp := s.igps[igp].(balance := s.igps[igp].balance - amount)]), a);
  }

  lemma RunHookWithdrawn(s: State, caller: Address, hook: Address, gasLimit: nat, amount: nat, id: Digest,
                         destination: nat, a: Address)
    requires RunHook(s, caller, hook, gasLimit, amount, id, destination).Some?
    ensures Withdrawn(RunHook(s, caller, hook, gasLimit, amount, id, destination).value, a) == Withdrawn(s, a)
  {
    hide Withdrawn;
    if s.hooks[hook] == IGP {
      var config := GetOr(s.gasConfigs, (hook, destination), GasConfig(0, 0, 0));
      RecordWithdrawn(s, hook, id, destination, (if gasLimit == 0 then DEFAULT_GAS else gasLimit)
        + config.overhead, amount, a);
    } else if s.hooks[hook] == TREE {
      InsertWithdrawn(s, hook, id, a);
    }
  }

  lemma InsertWithdrawn(s: State, hook: Address, id: Digest, a: Address)
    requires hook in s.trees
    ensures Withdrawn(Insert(s, hook, id), a) == Withdrawn(s, a)
  {
    if a in s.igps {
      SamePaymentsWithdrawn(s, Insert(s, hook, id), a);
    }
  }

  /**
  Over every run the balance of an IGP is the sum of its logged payments less its claims, across
  changes of ownership and everything else.
   */
  lemma {:induction false} IgpLedger(env: Env, b: Books, txs: seq<Tx>, a: Address)
    requires Inv(env, b) && forall i :: 0 <= i < |txs| ==> Admissible(env, txs[i])
    ensures Withdrawn(Run(env, b, txs).hooks, a) == Withdrawn(b.hooks, a) + ClaimedIn(env, b, txs, a)
    decreases |txs|
  {
    if txs != [] {
      if Apply(env, b, txs[0]).Some? {
        ApplyWithdrawn(env, b, txs[0], a);
        ApplyKeeps(env, b, txs[0]);
      }
      IgpLedger(env, Commit(env, b, txs[0]), txs[1..], a);
    }
  }
}
