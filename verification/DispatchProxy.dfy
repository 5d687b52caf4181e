/**
`dispatch_proxy.aleo` on top of the mailbox and the hooks: one dispatch, then the selected hook,
then the required hook. If a Merkle hook is the required hook from the start, its leaves are the
ids of the dispatched messages in the order of their nonces.
 */
module DispatchProxy {
  import opened Prelude
  import Credits
  import Mailbox
  import Hooks

  datatype Env = Env(mailbox: Mailbox.Env, hooks: Hooks.Env, proxy: Address)

  datatype Chain = Chain(box: Mailbox.State, books: Hooks.Books)

  datatype Step =
    | MailboxTx(height: nat, tx: Mailbox.Tx)
    | HookTx(htx: Hooks.Tx)  // anything in hook_manager but post_dispatch
    | PostDispatch(signer: Address, caller: Address, hook: Address, gasLimit: nat, allowances: seq<Hooks.Allowance>)
    | Dispatch(height: nat, signer: Address, caller: Address, defaultHook: Address, requiredHook: Address,
               destination: nat, recipient: seq<nat>, body: seq<nat>, customHook: Address, gasLimit: nat,
               allowances: seq<Hooks.Allowance>)

  /** `post_dispatch` reads the id and the destination of the last dispatch from the mailbox. */
  function ApplyPostDispatch(env: Env, c: Chain, signer: Address, caller: Address, hook: Address, gasLimit: nat,
                             allowances: seq<Hooks.Allowance>): Option<Chain> {
    var config :- c.box.mailbox;
    var last :- Sub(config.nonce, 1);
    var message :- Get(c.box.dispatchEvents, last);
    var id :- Get(c.box.dispatchIds, last);
    var books :- Hooks.ApplyPostDispatch(env.hooks, c.books, signer, caller, hook, gasLimit,
                                         Hooks.AllowanceFor(hook, allowances), id, message.destination);
    Some(c.(books := books))
  }

  function SelectedHook(customHook: Address, defaultHook: Address): Address {
    if customHook == ZERO_ADDRESS then defaultHook else customHook
  }

  function ApplyDispatch(env: Env, c: Chain, step: Step): Option<Chain>
    requires step.Dispatch?
  {
    var _ :- Check(step.defaultHook != ZERO_ADDRESS && step.requiredHook != ZERO_ADDRESS);
    var config :- c.box.mailbox;
    var _ :- Check(config.defaultHook == step.defaultHook && config.requiredHook == step.requiredHook);
    var box :- Mailbox.Apply(env.mailbox, c.box, step.height,
                             Mailbox.Dispatch(env.proxy, step.caller, step.destination, step.recipient, step.body));
    var c1 :- ApplyPostDispatch(env, c.(box := box), step.signer, env.proxy,
                                SelectedHook(step.customHook, step.defaultHook), step.gasLimit, step.allowances);
    ApplyPostDispatch(env, c1, step.signer, env.proxy, step.requiredHook, step.gasLimit, step.allowances)
  }

  function Apply(env: Env, c: Chain, step: Step): Option<Chain> {
    match step
    case MailboxTx(height, tx) =>
      var box :- Mailbox.Apply(env.mailbox, c.box, height, tx);
      Some(c.(box := box))
    case HookTx(tx) =>
      var _ :- Check(!tx.PostDispatch?);
      var books :- Hooks.Apply(env.hooks, c.books, tx);
      Some(c.(books := books))
    case PostDispatch(signer, caller, hook, gasLimit, allowances) =>
      ApplyPostDispatch(env, c, signer, caller, hook, gasLimit, allowances)
    case Dispatch(_, _, _, _, _, _, _, _, _, _, _) =>
      ApplyDispatch(env, c, step)
  }

  function Commit(env: Env, c: Chain, step: Step): Chain {
    match Apply(env, c, step)
    case Some(c') => c'
    case None => c
  }

  function Run(env: Env, c: Chain, steps: seq<Step>): Chain
    decreases |steps|
  {
    if steps == [] then c else Run(env, Commit(env, c, steps[0]), steps[1..])
  }

  // ---------------------------------------------------------------------------
  // Agreement of the dispatch log and the tree
  // ---------------------------------------------------------------------------

  /** The leaves of `hook` are the dispatched ids, leaf `k` being that of nonce `k`. */
  ghost predicate Agrees(c: Chain, hook: Address) {
    && c.box.mailbox.Some? && hook in c.books.hooks.trees
    && |c.books.hooks.trees[hook].leaves| == c.box.mailbox.value.nonce
    && forall k: nat :: k < c.box.mailbox.value.nonce ==>
                          k in c.box.dispatchIds && c.books.hooks.trees[hook].leaves[k] == c.box.dispatchIds[k]
  }

  /** `hook` is the required hook, answers to the proxy only, and the proxy is the dispatcher. */
  ghost predicate Wired(env: Env, c: Chain, hook: Address) {
    && c.box.mailbox.Some?
    && c.box.mailbox.value.requiredHook == hook
    && c.box.mailbox.value.dispatchProxy == env.proxy
    && hook in c.books.hooks.hooks && c.books.hooks.hooks[hook] == Hooks.TREE
    && hook in c.books.hooks.trees && c.books.hooks.trees[hook].parent == env.proxy
  }

  /**
  The wiring is left alone, only the proxy program acts as the proxy, and `hook` is not also
  the selected hook.
   */
  predicate Regular(env: Env, step: Step, hook: Address) {
    match step
    case MailboxTx(_, tx) =>
      !tx.SetRequiredHook? && !tx.SetDispatchProxy? && (tx.Dispatch? ==> tx.caller != env.proxy)
    case HookTx(_) => true
    case PostDispatch(_, caller, _, _, _) => caller != env.proxy
    case Dispatch(_, _, _, defaultHook, _, _, _, _, customHook, _, _) => SelectedHook(customHook, defaultHook) != hook
  }

  lemma RunHookOther(s: Hooks.State, caller: Address, hook: Address, gasLimit: nat, amount: nat, id: Digest,
                     destination: nat, m: Address)
    requires m in s.trees && m in s.hooks && s.hooks[m] == Hooks.TREE
    requires hook != m || s.trees[m].parent != caller
    requires Hooks.RunHook(s, caller, hook, gasLimit, amount, id, destination).Some?
    ensures var s' := Hooks.RunHook(s, caller, hook, gasLimit, amount, id, destination).value;
            s'.hooks == s.hooks && m in s'.trees && s'.trees[m] == s.trees[m]
  {
  }

  lemma HookTxOther(env: Hooks.Env, b: Hooks.Books, tx: Hooks.Tx, m: Address)
    requires m in b.hooks.trees && m in b.hooks.hooks && b.hooks.hooks[m] == Hooks.TREE
    requires !tx.PostDispatch? && Hooks.Apply(env, b, tx).Some?
    ensures var s' := Hooks.Apply(env, b, tx).value.hooks;
            m in s'.hooks && s'.hooks[m] == Hooks.TREE && m in s'.trees && s'.trees[m] == b.hooks.trees[m]
  {
    hide Credits.Apply, Credits.Transfer, Hooks.Quote;
  }

  lemma MailboxTxOther(env: Env, c: Chain, height: nat, tx: Mailbox.Tx, m: Address)
    requires Wired(env, c, m) && Regular(env, MailboxTx(height, tx), m)
    requires Mailbox.Apply(env.mailbox, c.box, height, tx).Some?
    ensures var box := Mailbox.Apply(env.mailbox, c.box, height, tx).value;
            && box.dispatchIds == c.box.dispatchIds && box.mailbox.Some?
            && box.mailbox.value.nonce == c.box.mailbox.value.nonce
            && box.mailbox.value.requiredHook == m && box.mailbox.value.dispatchProxy == env.proxy
  {
    hide Mailbox.CanProcess;
  }

  lemma PostDispatchOther(env: Env, c: Chain, signer: Address, caller: Address, hook: Address, gasLimit: nat,
                          allowances: seq<Hooks.Allowance>, m: Address)
    requires Wired(env, c, m) && (hook != m || caller != env.proxy)
    requires ApplyPostDispatch(env, c, signer, caller, hook, gasLimit, allowances).Some?
    ensures var c' := ApplyPostDispatch(env, c, signer, caller, hook, gasLimit, allowances).value;
            Wired(env, c', m) && c'.box == c.box && c'.books.hooks.trees[m] == c.books.hooks.trees[m]
  {
    hide Credits.Transfer, Hooks.RunHook, Hooks.AllowanceFor;
    var last := c.box.mailbox.value.nonce - 1;
    RunHookOther(c.books.hooks, caller, hook, gasLimit, Hooks.AllowanceFor(hook, allowances),
                 c.box.dispatchIds[last], c.box.dispatchEvents[last].destination, m);
  }

  lemma PostDispatchRequired(env: Env, c: Chain, signer: Address, gasLimit: nat,
                             allowances: seq<Hooks.Allowance>, m: Address)
    requires Wired(env, c, m)
    requires ApplyPostDispatch(env, c, signer, env.proxy, m, gasLimit, allowances).Some?
    ensures var c', last := ApplyPostDispatch(env, c, signer, env.proxy, m, gasLimit, allowances).value,
        c.box.mailbox.value.nonce - 1;
            && Wired(env, c', m) && c'.box == c.box && 0 <= last && last in c.box.dispatchIds
            && c'.books.hooks.trees[m].leaves == c.books.hooks.trees[m].leaves + [c.box.dispatchIds[last]]
  {
    hide Credits.Transfer, Hooks.AllowanceFor, Hooks.Quote;
  }

  lemma DispatchAgrees(env: Env, c: Chain, step: Step, m: Address)
    requires step.Dispatch? && Wired(env, c, m) && Agrees(c, m) && Regular(env, step, m)
    requires ApplyDispatch(env, c, step).Some?
    ensures Wired(env, ApplyDispatch(env, c, step).value, m) && Agrees(ApplyDispatch(env, c, step).value, m)
  {
    hide ApplyPostDispatch;
    var box := Mailbox.Apply(env.mailbox, c.box, step.height,
                             Mailbox.Dispatch(env.proxy, step.caller, step.destination, step.recipient,
                                              step.body)).value;
    var c0 := c.(box := box);
    assert Wired(env, c0, m);
    var hook := SelectedHook(step.customHook, step.defaultHook);
    PostDispatchOther(env, c0, step.signer, env.proxy, hook, step.gasLimit, step.allowances, m);
    var c1 := ApplyPostDispatch(env, c0, step.signer, env.proxy, hook, step.gasLimit, step.allowances).value;
    PostDispatchRequired(env, c1, step.signer, step.gasLimit, step.allowances, m);
  }

  lemma StepAgrees(env: Env, c: Chain, step: Step, m: Address)
    requires Wired(env, c, m) && Agrees(c, m) && Regular(env, step, m) && Apply(env, c, step).Some?
    ensures Wired(env, Apply(env, c, step).value, m) && Agrees(Apply(env, c, step).value, m)
  {
    match step
    case MailboxTx(height, tx) =>
      hide Mailbox.Apply;
      MailboxTxOther(env, c, height, tx, m);
    case HookTx(tx) =>
      hide Hooks.Apply;
      HookTxOther(env.hooks, c.books, tx, m);
    case PostDispatch(signer, caller, hook, gasLimit, allowances) =>
      hide ApplyPostDispatch;
      PostDispatchOther(env, c, signer, caller, hook, gasLimit, allowances, m);
    case Dispatch(_, _, _, _, _, _, _, _, _, _, _) =>
      hide ApplyDispatch;
      DispatchAgrees(env, c, step, m);
  }

  /**
  Over every regular run that starts before the first dispatch, leaf `k` of the required Merkle
  hook is the id of the message with nonce `k`, and there are no other leaves.
   */
  lemma {:induction false} LeavesAreDispatches(env: Env, c: Chain, steps: seq<Step>, m: Address)
    requires Wired(env, c, m)
    requires Agrees(c, m) || (c.box.mailbox.value.nonce == 0 && c.books.hooks.trees[m].leaves == [])
    requires forall i :: 0 <= i < |steps| ==> Regular(env, steps[i], m)
    ensures Wired(env, Run(env, c, steps), m) && Agrees(Run(env, c, steps), m)
    decreases |steps|
  {
    hide Apply, Regular;
    if steps != [] {
      if Apply(env, c, steps[0]).Some? {
        StepAgrees(env, c, steps[0], m);
      }
      LeavesAreDispatches(env, Commit(env, c, steps[0]), steps[1..], m);
    }
  }
}
