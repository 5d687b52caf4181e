/**
What interchain gas costs, who pays it and to whom: the price that `post_dispatch` and `pay_for_gas`
ask for, the entries they log, and the payments that one dispatch makes.
 */
module GasPayments {
  import opened Prelude
  import opened Hooks
  import Credits
  import Mailbox
  import DispatchProxy

  // ---------------------------------------------------------------------------
  // The price
  // ---------------------------------------------------------------------------

  /** `amount` is the price of `gas`, rounded down, and every product on the way is a `u128`. */
  predicate IsPrice(gas: nat, config: GasConfig, amount: nat) {
    && gas * config.gasPrice < U128 && gas * config.gasPrice * config.exchangeRate < U128 && amount < U64
    && amount * 10_000_000_000 <= gas * config.gasPrice * config.exchangeRate < (amount + 1) * 10_000_000_000
  }

  lemma QuoteIff(gas: nat, config: GasConfig, amount: nat)
    ensures Quote(gas, config) == Some(amount) <==> IsPrice(gas, config, amount)
  {
    var scaled := gas * config.gasPrice * config.exchangeRate;
    if gas * config.gasPrice < U128 && scaled < U128 {
      FloorIs(scaled, amount);
    }
  }

  lemma FloorIs(x: int, q: nat)
    ensures x / 10_000_000_000 == q <==> q * 10_000_000_000 <= x < (q + 1) * 10_000_000_000
  {
  }

  /** The configuration for a destination; without one everything is free. */
  function ConfigFor(s: State, igp: Address, destination: nat): GasConfig {
    if (igp, destination) in s.gasConfigs then s.gasConfigs[(igp, destination)] else GasConfig(0, 0, 0)
  }

  /** The gas that a dispatch is charged for. */
  function GasOf(s: State, igp: Address, destination: nat, gasLimit: nat): nat {
    (if gasLimit == 0 then 50_000 else gasLimit) + ConfigFor(s, igp, destination).overhead
  }

  /** The ledger of `igp` has room for a payment. */
  predicate HasRoom(s: State, igp: Address, amount: nat) {
    igp in s.igps && s.igps[igp].balance + amount < 0x1_0000_0000_0000_0000 && s.igps[igp].count + 1 < 0x1_0000_0000
  }

  /** One payment was logged under the next index and added to the balance; nothing else changed. */
  ghost predicate Logged(s: State, s': State, igp: Address, payment: Payment) {
    && igp in s.igps && igp in s'.igps && payment.index == s.igps[igp].count
    && s'.payments == s.payments[(igp, s.igps[igp].count) := payment]
    && s'.igps[igp].balance == s.igps[igp].balance + payment.payment
    && s'.igps[igp].count == s.igps[igp].count + 1 && s'.igps[igp].owner == s.igps[igp].owner
    && s'.igps == s.igps[igp := s'.igps[igp]]
    && s'.hooks == s.hooks && s'.gasConfigs == s.gasConfigs && s'.trees == s.trees && s'.insertions == s.insertions
  }

  /**
  `post_dispatch` on an IGP takes exactly the price of the gas limit (50,000 if none is given) plus
  the overhead, and logs it with the message's id and destination.
   */
  lemma PostDispatchPrice(s: State, caller: Address, igp: Address, gasLimit: nat, amount: nat, id: Digest,
                          destination: nat)
    requires igp in s.hooks && s.hooks[igp] == 4
    ensures var gas := GasOf(s, igp, destination, gasLimit);
            && (RunHook(s, caller, igp, gasLimit, amount, id, destination).Some?
                <==> gas < U128 && IsPrice(gas, ConfigFor(s, igp, destination), amount) && HasRoom(s, igp, amount))
            && (RunHook(s, caller, igp, gasLimit, amount, id, destination).Some? ==>
                  Logged(s, RunHook(s, caller, igp, gasLimit, amount, id, destination).value, igp,
                         Payment(id, destination, gas, amount, s.igps[igp].count)))
  {
    hide Quote, IsPrice;
    QuoteIff(GasOf(s, igp, destination, gasLimit), ConfigFor(s, igp, destination), amount);
  }

  /** `pay_for_gas` takes the price of the given gas, from the signer, and needs a configuration. */
  lemma PayForGasPrice(env: Env, b: Books, signer: Address, igp: Address, id: Digest, destination: nat,
                       gas: nat, amount: nat)
    ensures ApplyPayForGas(env, b, signer, igp, id, destination, gas, amount).Some?
            <==> (igp, destination) in b.hooks.gasConfigs
                 && IsPrice(gas, b.hooks.gasConfigs[(igp, destination)], amount)
                 && HasRoom(b.hooks, igp, amount) && Credits.Transfer(b.credits, signer, env.self, amount).Some?
    ensures ApplyPayForGas(env, b, signer, igp, id, destination, gas, amount).Some? ==>
              var b' := ApplyPayForGas(env, b, signer, igp, id, destination, gas, amount).value;
              && Logged(b.hooks, b'.hooks, igp, Payment(id, destination, gas, amount, b.hooks.igps[igp].count))
              && Some(b'.credits) == Credits.Transfer(b.credits, signer, env.self, amount)
  {
    hide Quote, IsPrice, Credits.Transfer;
    if (igp, destination) in b.hooks.gasConfigs {
      QuoteIff(gas, b.hooks.gasConfigs[(igp, destination)], amount);
    }
  }

  /** A claim moves the amount from the program to the caller, and off the balance of that IGP only. */
  lemma ClaimPays(env: Env, b: Books, caller: Address, igp: Address, amount: nat)
    requires ApplyClaim(env, b, caller, igp, amount).Some? && caller != env.self
    ensures var b' := ApplyClaim(env, b, caller, igp, amount).value;
            && Credits.Balance(b'.credits, caller) == Credits.Balance(b.credits, caller) + amount
            && Credits.Balance(b'.credits, env.self) == Credits.Balance(b.credits, env.self) - amount
            && igp in b.hooks.igps && igp in b'.hooks.igps
            && b'.hooks.igps[igp] == b.hooks.igps[igp].(balance := b.hooks.igps[igp].balance - amount)
            && b'.hooks == b.hooks.(igps := b.hooks.igps[igp := b'.hooks.igps[igp]])
            && caller == b.hooks.igps[igp].owner
  {
    hide Credits.Transfer;
    Credits.TransferMoves(b.credits, env.self, caller, amount);
  }

  // ---------------------------------------------------------------------------
  // The payments of a dispatch
  // ---------------------------------------------------------------------------

  /** The allowance of a hook is its last entry, and nothing without one. */
  lemma {:induction false} LastAllowance(hook: Address, allowances: seq<Allowance>)
    ensures (forall i :: 0 <= i < |allowances| ==> allowances[i].spender != hook) ==>
            AllowanceFor(hook, allowances) == 0
    ensures forall i :: 0 <= i < |allowances| && allowances[i].spender == hook
                        && (forall j :: i < j < |allowances| ==> allowances[j].spender != hook) ==>
              AllowanceFor(hook, allowances) == allowances[i].amount
  {
    if allowances != [] {
      LastAllowance(hook, allowances[..|allowances| - 1]);
    }
  }

  /** One `post_dispatch`: the signer pays the allowance of the hook, which sees the last dispatch. */
  lemma PostDispatchStep(env: DispatchProxy.Env, c: DispatchProxy.Chain, signer: Address, hook: Address, gasLimit: nat,
                         allowances: seq<Allowance>)
    requires DispatchProxy.ApplyPostDispatch(env, c, signer, env.proxy, hook, gasLimit, allowances).Some?
    ensures var c' := DispatchProxy.ApplyPostDispatch(env, c, signer, env.proxy, hook, gasLimit, allowances).value;
            var amount := AllowanceFor(hook, allowances);
            && c.box.mailbox.Some? && c.box.mailbox.value.nonce > 0
            && var last := c.box.mailbox.value.nonce - 1;
            && last in c.box.dispatchEvents && last in c.box.dispatchIds && c'.box == c.box
            && Credits.Transfer(c.books.credits, signer, env.hooks.self, amount) == Some(c'.books.credits)
            && RunHook(c.books.hooks, env.proxy, hook, gasLimit, amount, c.box.dispatchIds[last],
                       c.box.dispatchEvents[last].destination) == Some(c'.books.hooks)
  {
    hide Credits.Transfer, RunHook, AllowanceFor;
  }

  /** A hook leaves the logs and configurations of other hooks alone. */
  lemma OtherHookKeeps(s: State, caller: Address, hook: Address, gasLimit: nat, amount: nat, id: Digest,
                       destination: nat,
                       igp: Address)
    requires hook != igp && RunHook(s, caller, hook, gasLimit, amount, id, destination).Some?
    ensures var s' := RunHook(s, caller, hook, gasLimit, amount, id, destination).value;
            && s'.hooks == s.hooks && s'.gasConfigs == s.gasConfigs
            && (igp in s.igps <==> igp in s'.igps) && (igp in s.igps ==> s'.igps[igp] == s.igps[igp])
            && forall k: nat :: ((igp, k) in s.payments <==> (igp, k) in s'.payments)
                                && ((igp, k) in s.payments ==> s'.payments[(igp, k)] == s.payments[(igp, k)])
  {
    hide Quote;
  }

  /** The latest entry of `igp` is the payment of this dispatch. */
  ghost predicate PaidFor(s: State, s': State, igp: Address, id: Digest, destination: nat, gasLimit: nat, amount: nat) {
    && igp in s.igps && igp in s'.igps && s'.igps[igp].count == s.igps[igp].count + 1
    && s'.igps[igp].balance == s.igps[igp].balance + amount && (igp, s.igps[igp].count) in s'.payments
    && s'.payments[(igp, s.igps[igp].count)]
       == Payment(id, destination, GasOf(s, igp, destination, gasLimit), amount, s.igps[igp].count)
    && IsPrice(GasOf(s, igp, destination, gasLimit), ConfigFor(s, igp, destination), amount)
  }

  lemma PaidByRun(s: State, caller: Address, igp: Address, gasLimit: nat, amount: nat, id: Digest, destination: nat)
    requires igp in s.hooks && s.hooks[igp] == 4 && RunHook(s, caller, igp, gasLimit, amount, id, destination).Some?
    ensures PaidFor(s, RunHook(s, caller, igp, gasLimit, amount, id, destination).value, igp, id, destination,
                    gasLimit, amount)
  {
    hide RunHook, IsPrice;
    PostDispatchPrice(s, caller, igp, gasLimit, amount, id, destination);
  }

  /** The hook that the sender asked for, or the default one. */
  function Chosen(step: DispatchProxy.Step): Address
    requires step.Dispatch?
  {
    if step.customHook == 0 then step.defaultHook else step.customHook
  }

  /** What one dispatch costs: the signer pays the two hooks, and no other balance changes. */
  lemma DispatchCosts(env: DispatchProxy.Env, c: DispatchProxy.Chain, step: DispatchProxy.Step, a: Address)
    requires step.Dispatch? && DispatchProxy.ApplyDispatch(env, c, step).Some? && step.signer != env.hooks.self
    ensures var c' := DispatchProxy.ApplyDispatch(env, c, step).value;
            var cost := AllowanceFor(Chosen(step), step.allowances) + AllowanceFor(step.requiredHook, step.allowances);
            && (a == step.signer ==> Credits.Balance(c'.books.credits, a) + cost == Credits.Balance(c.books.credits, a))
            && (a == env.hooks.self ==>
                  Credits.Balance(c'.books.credits, a) == Credits.Balance(c.books.credits, a) + cost)
            && (a != step.signer && a != env.hooks.self ==>
                  Credits.Balance(c'.books.credits, a) == Credits.Balance(c.books.credits, a))
  {
    hide DispatchProxy.ApplyPostDispatch, Mailbox.Apply, Credits.Transfer, RunHook, AllowanceFor;
    var box := Mailbox.Apply(env.mailbox, c.box, step.height,
                             Mailbox.Dispatch(env.proxy, step.caller, step.destination, step.recipient,
                                              step.body)).value;
    var c0, hook := c.(box := box), Chosen(step);
    PostDispatchStep(env, c0, step.signer, hook, step.gasLimit, step.allowances);
    var c1 := DispatchProxy.ApplyPostDispatch(env, c0, step.signer, env.proxy, hook, step.gasLimit,
                                              step.allowances).value;
    PostDispatchStep(env, c1, step.signer, step.requiredHook, step.gasLimit, step.allowances);
    Credits.TransferMoves(c0.books.credits, step.signer, env.hooks.self, AllowanceFor(hook, step.allowances));
    Credits.TransferMoves(c1.books.credits, step.signer, env.hooks.self,
                          AllowanceFor(step.requiredHook, step.allowances));
  }

  /**
  One dispatch is paid for: the signer pays both hooks their allowances, and each of them that is an
  IGP logs the exact price under the id and the destination of the message that was dispatched.
   */
  lemma DispatchIsPaid(env: DispatchProxy.Env, c: DispatchProxy.Chain, step: DispatchProxy.Step)
    requires step.Dispatch? && DispatchProxy.ApplyDispatch(env, c, step).Some? && step.signer != env.hooks.self
    requires Chosen(step) != step.requiredHook
    ensures var c' := DispatchProxy.ApplyDispatch(env, c, step).value;
            var first, second := AllowanceFor(Chosen(step), step.allowances),
                AllowanceFor(step.requiredHook, step.allowances);
            && c.box.mailbox.Some? && c.box.mailbox.value.nonce in c'.box.dispatchIds
            && step.defaultHook == c.box.mailbox.value.defaultHook != 0
            && step.requiredHook == c.box.mailbox.value.requiredHook != 0
            && var id := c'.box.dispatchIds[c.box.mailbox.value.nonce];
            && Credits.Balance(c'.books.credits, env.hooks.self) == Credits.Balance(c.books.credits, env.hooks.self)
              + first + second
            && Credits.Balance(c'.books.credits, step.signer) + first
              + second == Credits.Balance(c.books.credits, step.signer)
            && Chosen(step) in c.books.hooks.hooks && step.requiredHook in c.books.hooks.hooks
            && (c.books.hooks.hooks[Chosen(step)] == 4 ==>
                  PaidFor(c.books.hooks, c'.books.hooks, Chosen(step), id, step.destination, step.gasLimit, first))
            && (c.books.hooks.hooks[step.requiredHook] == 4 ==>
                  PaidFor(c.books.hooks, c'.books.hooks, step.requiredHook, id, step.destination,
                          step.gasLimit, second))
  {
    hide DispatchProxy.ApplyPostDispatch, Credits.Transfer, RunHook, AllowanceFor, PaidFor;
    var box := Mailbox.Apply(env.mailbox, c.box, step.height,
                             Mailbox.Dispatch(env.proxy, step.caller, step.destination, step.recipient,
                                              step.body)).value;
    var c0 := c.(box := box);
    var hook := Chosen(step);
    PostDispatchStep(env, c0, step.signer, hook, step.gasLimit, step.allowances);
    var c1 := DispatchProxy.ApplyPostDispatch(env, c0, step.signer, env.proxy, hook, step.gasLimit,
                                              step.allowances).value;
    PostDispatchStep(env, c1, step.signer, step.requiredHook, step.gasLimit, step.allowances);
    Credits.TransferMoves(c0.books.credits, step.signer, env.hooks.self, AllowanceFor(hook, step.allowances));
    Credits.TransferMoves(c1.books.credits, step.signer, env.hooks.self,
                          AllowanceFor(step.requiredHook, step.allowances));
    BothRun(c.books.hooks, env.proxy, hook, step.requiredHook, step.gasLimit, AllowanceFor(hook, step.allowances),
            AllowanceFor(step.requiredHook, step.allowances), box.dispatchIds[c.box.mailbox.value.nonce],
                step.destination);
  }

  /** Two different hooks run one after the other, each as if alone. */
  lemma BothRun(s: State, caller: Address, first: Address, second: Address, gasLimit: nat, x: nat, y: nat, id: Digest,
                destination: nat)
    requires first != second && RunHook(s, caller, first, gasLimit, x, id, destination).Some?
    requires RunHook(RunHook(s, caller, first, gasLimit, x, id, destination).value, caller, second, gasLimit, y, id,
                     destination).Some?
    ensures var s1 := RunHook(s, caller, first, gasLimit, x, id, destination).value;
            var s2 := RunHook(s1, caller, second, gasLimit, y, id, destination).value;
            && first in s.hooks && second in s.hooks
            && (s.hooks[first] == 4 ==> PaidFor(s, s2, first, id, destination, gasLimit, x))
            && (s.hooks[second] == 4 ==> PaidFor(s, s2, second, id, destination, gasLimit, y))
  {
    hide RunHook, IsPrice;
    var s1 := RunHook(s, caller, first, gasLimit, x, id, destination).value;
    OtherHookKeeps(s, caller, first, gasLimit, x, id, destination, second);
    OtherHookKeeps(s1, caller, second, gasLimit, y, id, destination, first);
    HooksRegistered(s, caller, first, gasLimit, x, id, destination);
    HooksRegistered(s1, caller, second, gasLimit, y, id, destination);
    if s.hooks[first] == 4 {
      PaidByRun(s, caller, first, gasLimit, x, id, destination);
    }
    if s.hooks[second] == 4 {
      PaidByRun(s1, caller, second, gasLimit, y, id, destination);
    }
  }

  lemma HooksRegistered(s: State, caller: Address, hook: Address, gasLimit: nat, amount: nat, id: Digest,
                        destination: nat)
    requires RunHook(s, caller, hook, gasLimit, amount, id, destination).Some?
    ensures hook in s.hooks
  {
  }

  // ---------------------------------------------------------------------------
  // The other hooks, and who configures
  // ---------------------------------------------------------------------------

  /** Tree hooks (3) and noop hooks (0) take no payment; a tree hook serves its parent only and appends the id. */
  lemma FreeHooks(s: State, caller: Address, hook: Address, gasLimit: nat, amount: nat, id: Digest, destination: nat)
    requires hook in s.hooks && s.hooks[hook] != 4
    ensures RunHook(s, caller, hook, gasLimit, amount, id, destination).Some?
            <==> amount == 0
                 && (s.hooks[hook] == 0
                     || (s.hooks[hook] == 3 && hook in s.trees && s.trees[hook].parent == caller
                         && |s.trees[hook].leaves| < 0xffff_ffff))
    ensures RunHook(s, caller, hook, gasLimit, amount, id, destination).Some? ==>
              var s' := RunHook(s, caller, hook, gasLimit, amount, id, destination).value;
              if s.hooks[hook] == 0 then s' == s
              else
                var n := |s.trees[hook].leaves|;
                && s'.trees == s.trees[hook := s.trees[hook].(leaves := s.trees[hook].leaves + [id])]
                && s'.insertions == s.insertions[(hook, n) := Insertion(id, n)]
                && s' == s.(trees := s'.trees, insertions := s'.insertions)
  {
  }

  /** Only the owner of an IGP sets or removes its prices and hands it over. */
  lemma OwnerConfigures(env: Env, s: State, tx: Tx)
    requires tx.SetGasConfig? || tx.RemoveGasConfig? || tx.TransferIgpOwnership?
    ensures ApplyConfig(env, s, tx).Some? <==> tx.igp in s.igps && s.igps[tx.igp].owner == tx.caller
    ensures ApplyConfig(env, s, tx).Some? ==>
              var s' := ApplyConfig(env, s, tx).value;
              && (tx.SetGasConfig? ==>
                    s' == s.(gasConfigs := s'.gasConfigs)
                    && forall igp, d: nat :: ConfigFor(s', igp, d)
                                        == if (igp, d) == (tx.igp, tx.destination) then tx.config
                                          else ConfigFor(s, igp, d))
              && (tx.RemoveGasConfig? ==>
                    s' == s.(gasConfigs := s'.gasConfigs)
                    && forall igp, d: nat :: ConfigFor(s', igp, d)
                                        == if (igp, d) == (tx.igp, tx.destination) then GasConfig(0, 0, 0)
                                          else ConfigFor(s, igp, d))
              && (tx.TransferIgpOwnership? ==>
                    s' == s.(igps := s.igps[tx.igp := s.igps[tx.igp].(owner := tx.owner)]))
  {
  }

  /** A new hook is registered at a fresh address under its kind; an IGP belongs to its creator and starts empty. */
  lemma NewHook(env: Env, s: State, tx: Tx)
    requires (tx.InitNoop? || tx.InitIgp? || tx.InitTree?) && ApplyConfig(env, s, tx).Some?
    ensures var s' := ApplyConfig(env, s, tx).value;
            var hook := env.addressOf(match tx
                                      case InitIgp(caller) => IgpImage(caller, s.nonce)
                                      case InitTree(parent) => TreeImage(parent, s.nonce)
                                      case _ => NoopImage(s.nonce));
            && hook !in s.hooks && s'.nonce == s.nonce + 1
            && s'.hooks == s.hooks[hook := if tx.InitIgp? then 4 else if tx.InitTree? then 3 else 0]
            && (tx.InitIgp? ==> s'.igps == s.igps[hook := Igp(tx.caller, s.nonce, 0, 0)])
            && (tx.InitTree? ==> s'.trees == s.trees[hook := TreeHook(tx.parent, [], s.nonce)])
            && s' == s.(nonce := s'.nonce, hooks := s'.hooks, igps := s'.igps, trees := s'.trees)
  {
  }
}
