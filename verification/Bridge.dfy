/**
A bridge of two chains: `hyp_native.aleo` on chain A locks credits, `hyp_synthetic.aleo` on chain
B mints and burns a token of the registry. The routers are enrolled with each other only and
their configuration is fixed. Each ISM accepts only ids that the other mailbox dispatched.
 */
module Bridge {
  import opened Prelude
  import opened Messages
  import opened RouterAmounts
  import Credits
  import Mailbox
  import Hooks
  import DispatchProxy
  import TokenRegistry

  datatype Net = Net(
    a: DispatchProxy.Env,
    b: DispatchProxy.Env,
    registry: TokenRegistry.Env,
    addressAt: (nat, nat) -> Option<Address>,  // the address in the first two body words
    domainA: nat,
    domainB: nat,
    routerA: Address,
    routerB: Address,
    scale: nat,  // of the native router
    local: nat,  // decimals of the synthetic token
    remote: nat,
    token: TokenRegistry.TokenId)

  datatype State = State(a: DispatchProxy.Chain, b: DispatchProxy.Chain, ledger: TokenRegistry.State)

  /** What a user chooses in `transfer_remote` and `transfer_remote_with_hook`. */
  datatype Order = Order(
    height: nat,
    signer: Address,
    recipient: (nat, nat),
    amount: nat,
    defaultHook: Address,
    requiredHook: Address,
    customHook: Address,
    gasLimit: nat,
    allowances: seq<Hooks.Allowance>)

  /** What a relayer supplies to `process`; `attested` is what the signatures add to the ISM's verdict. */
  datatype Relay = Relay(height: nat, message: Message, length: nat, id: Digest, attested: bool)

  datatype Step =
    | Lock(order: Order)
    | Mint(relay: Relay)
    | Burn(order: Order)
    | Release(relay: Relay)
    | OtherA(step: DispatchProxy.Step)
    | OtherB(step: DispatchProxy.Step)
    | OtherLedger(height: nat, tx: TokenRegistry.Tx)

  /** Recipient, amount, and twelve zero words. */
  function Body(recipient: (nat, nat), words: (nat, nat)): (body: seq<nat>)
    ensures |body| == 16 && body[2] == words.0 && body[3] == words.1
    ensures recipient.0 < U128 && recipient.1 < U128 && words.0 < U128 && words.1 < U128 ==>
              forall i :: 0 <= i < 16 ==> body[i] < U128
  {
    [recipient.0, recipient.1, words.0, words.1] + [0, 0, 0, 0, 0, 0, 0, 0, 0, 0, 0, 0]
  }

  /** The call of `dispatch_proxy.aleo/dispatch` that a router makes. */
  function Send(router: Address, order: Order, destination: nat, recipient: seq<nat>,
                body: seq<nat>): (step: DispatchProxy.Step)
    ensures step.Dispatch?
  {
    DispatchProxy.Dispatch(order.height, order.signer, router, order.defaultHook, order.requiredHook, destination,
                           recipient, body,
                           order.customHook, order.gasLimit, order.allowances)
  }

  /** `transfer_remote` of `hyp_native`. */
  function ApplyLock(net: Net, s: State, order: Order): Option<State> {
    var words :- NativeOutbound(net.scale, order.amount);
    var a :- DispatchProxy.ApplyDispatch(net.a, s.a,
                                         Send(net.routerA, order, net.domainB, net.b.mailbox.bytesOf(net.routerB),
                                                          Body(order.recipient, words)));
    var credits :- Credits.Transfer(a.books.credits, order.signer, net.routerA, order.amount);
    Some(s.(a := a.(books := a.books.(credits := credits))))
  }

  /** `transfer_remote` of `hyp_synthetic`. */
  function ApplyBurn(net: Net, s: State, order: Order): Option<State> {
    var words :- Outbound(net.local, net.remote, order.amount);
    var b :- DispatchProxy.ApplyDispatch(net.b, s.b,
                                         Send(net.routerB, order, net.domainA, net.a.mailbox.bytesOf(net.routerA),
                                                          Body(order.recipient, words)));
    var ledger :- TokenRegistry.Apply(net.registry, s.ledger, order.height,
                                      TokenRegistry.BurnPublic(net.routerB, net.token, order.signer, order.amount));
    Some(s.(b := b, ledger := ledger))
  }

  /** A delivery to `router`: the ISM, the enrolled sender, and the mailbox. */
  function Receive(env: Mailbox.Env, box: Mailbox.State, router: Address, origin: nat, sender: seq<nat>,
                   dispatched: set<Digest>, r: Relay): Option<Mailbox.State> {
    var _ :- Check(r.message.origin == origin && r.message.sender == sender && |r.message.body| == 16);
    Mailbox.Apply(env, box, r.height,
                  Mailbox.Process(router, r.message, r.length, r.id, r.attested && r.id in dispatched))
  }

  /** `process` of `hyp_synthetic`. */
  function ApplyMint(net: Net, s: State, r: Relay): Option<State> {
    var box :- Receive(net.b.mailbox, s.b.box, net.routerB, net.domainA, net.a.mailbox.bytesOf(net.routerA),
                       s.a.box.dispatchIds.Values, r);
    var to :- net.addressAt(r.message.body[0], r.message.body[1]);
    var amount :- Inbound(net.local, net.remote, r.message.body[2], r.message.body[3]);
    var ledger :- TokenRegistry.Apply(net.registry, s.ledger, r.height,
                                      TokenRegistry.MintPublic(net.routerB, net.token, to, amount,
                                                               TokenRegistry.FOREVER));
    Some(s.(b := s.b.(box := box), ledger := ledger))
  }

  /** `process` of `hyp_native`. */
  function ApplyRelease(net: Net, s: State, r: Relay): Option<State> {
    var box :- Receive(net.a.mailbox, s.a.box, net.routerA, net.domainB, net.b.mailbox.bytesOf(net.routerB),
                       s.b.box.dispatchIds.Values, r);
    var to :- net.addressAt(r.message.body[0], r.message.body[1]);
    var amount :- NativeInbound(net.scale, r.message.body[2], r.message.body[3]);
    var credits :- Credits.Transfer(s.a.books.credits, net.routerA, to, amount);
    Some(s.(a := DispatchProxy.Chain(box, s.a.books.(credits := credits))))
  }

  function Apply(net: Net, s: State, step: Step): Option<State> {
    match step
    case Lock(order) => ApplyLock(net, s, order)
    case Mint(relay) => ApplyMint(net, s, relay)
    case Burn(order) => ApplyBurn(net, s, order)
    case Release(relay) => ApplyRelease(net, s, relay)
    case OtherA(other) =>
      var a :- DispatchProxy.Apply(net.a, s.a, other);
      Some(s.(a := a))
    case OtherB(other) =>
      var b :- DispatchProxy.Apply(net.b, s.b, other);
      Some(s.(b := b))
    case OtherLedger(height, tx) =>
      var ledger :- TokenRegistry.Apply(net.registry, s.ledger, height, tx);
      Some(s.(ledger := ledger))
  }

  function Commit(net: Net, s: State, step: Step): State {
    match Apply(net, s, step)
    case Some(s') => s'
    case None => s
  }

  function Run(net: Net, s: State, steps: seq<Step>): State
    decreases |steps|
  {
    if steps == [] then s else Run(net, Commit(net, s, steps[0]), steps[1..])
  }

  // ---------------------------------------------------------------------------
  // What is assumed
  // ---------------------------------------------------------------------------

  /** One hash and one address format, the bounds of the two `init` functions, and no id collisions. */
  ghost predicate Sound(net: Net) {
    && net.a.mailbox == net.b.mailbox
    && Injective(net.a.mailbox.keccak)
    && (forall x, y :: net.a.mailbox.bytesOf(x) == net.a.mailbox.bytesOf(y) ==> x == y)
    && (forall x :: |net.a.mailbox.bytesOf(x)| == 32)
    && net.domainA < U32 && net.domainB < U32
    && net.scale <= MAX_NATIVE_SCALE && DecimalsOk(net.local, net.remote)
    && net.a.hooks.self != net.routerA && net.b.hooks.self != net.routerB
  }

  /** The ranges of the inputs; a program address never signs. */
  ghost predicate TypedOrder(order: Order, router: Address) {
    order.amount < U128 && order.recipient.0 < U128 && order.recipient.1 < U128 && order.signer != router
  }

  /** Steps of others: they neither act as the router nor replace the dispatch proxy. */
  ghost predicate Independent(env: DispatchProxy.Env, step: DispatchProxy.Step, router: Address) {
    match step
    case MailboxTx(_, tx) =>
      && Mailbox.TypedTx(env.mailbox, tx) && !tx.SetDispatchProxy?
      && (tx.Dispatch? ==> tx.caller != env.proxy) && (tx.Process? ==> tx.caller != router)
    case HookTx(tx) =>
      && (tx.CreditsTx? ==> !Credits.Spends(tx.tx, router))
      && (tx.PayForGas? ==> tx.signer != router)
    case PostDispatch(signer, _, _, _, _) => signer != router
    case Dispatch(height, signer, caller, _, _, destination, recipient, body, _, _, _) =>
      signer != router && caller != router
      && Mailbox.TypedTx(env.mailbox, Mailbox.Dispatch(env.proxy, caller, destination, recipient, body))
  }

  /** The registry functions that ask for the admin or a role. */
  predicate ActsAs(tx: TokenRegistry.Tx, who: Address) {
    match tx
    case UpdateManagement(caller, _, _, _) => caller == who
    case SetRole(caller, _, _, _) => caller == who
    case RemoveRole(caller, _, _) => caller == who
    case MintPublic(caller, _, _, _, _) => caller == who
    case MintPrivate(caller, _, _, _, _, _) => caller == who
    case BurnPublic(caller, _, _, _) => caller == who
    case BurnPrivate(caller, _, _) => caller == who
    case _ => false
  }

  ghost predicate Regular(net: Net, step: Step) {
    match step
    case Lock(order) => TypedOrder(order, net.routerA) && order.amount < U64
    case Burn(order) => TypedOrder(order, net.routerB)
    case Mint(r) => WellTyped(r.message)
    case Release(r) => WellTyped(r.message)
    case OtherA(other) => Independent(net.a, other, net.routerA)
    case OtherB(other) => Independent(net.b, other, net.routerB)
    case OtherLedger(_, tx) => !ActsAs(tx, net.routerB)
  }
}
