/**
The solvency of the bridge. In wire units, the credits that the native router holds cover the
synthetic supply and everything in flight in both directions, so every redemption can be paid.
 */
module BridgeSolvency {
  import opened Prelude
  import opened Sums
  import opened Bytes
  import opened Messages
  import opened RouterAmounts
  import opened Bridge
  import Credits
  import Mailbox
  import Hooks
  import DispatchProxy
  import TokenRegistry
  import TokenSupply
  import TokenAuthorization

  type Deliveries = map<Digest, Mailbox.Delivery>

  // ---------------------------------------------------------------------------
  // What is in flight
  // ---------------------------------------------------------------------------

  /** The wire amount of a message from `sender` that has not been delivered. */
  function Weight(env: Mailbox.Env, sender: seq<nat>, delivered: Deliveries, m: Message): nat {
    if |m.body| == 16 && m.sender == sender && env.keccak(Encode(m)) !in delivered
      then Wire(m.body[2], m.body[3]) else 0
  }

  ghost function Weights(env: Mailbox.Env, sender: seq<nat>, delivered: Deliveries): (nat, Message) -> nat {
    (k: nat, m: Message) => Weight(env, sender, delivered, m)
  }

  ghost function InFlight(env: Mailbox.Env, sender: seq<nat>, events: map<nat, Message>, delivered: Deliveries): nat {
    Sum(events, Weights(env, sender, delivered))
  }

  /** A new message adds its own weight. */
  lemma DispatchFlight(env: Mailbox.Env, sender: seq<nat>, events: map<nat, Message>, delivered: Deliveries,
                       k: nat, m: Message)
    requires k !in events
    ensures InFlight(env, sender, events[k := m], delivered) == InFlight(env, sender, events, delivered)
            + Weight(env, sender, delivered, m)
  {
    SumUpdate(events, k, m, Weights(env, sender, delivered));
  }

  /** A delivery that touches none of the messages of `sender` changes nothing. */
  lemma OtherDeliveryFlight(env: Mailbox.Env, sender: seq<nat>, events: map<nat, Message>, delivered: Deliveries,
                            delivered': Deliveries)
    requires forall k :: k in events && events[k].sender == sender ==>
               (env.keccak(Encode(events[k])) in delivered <==> env.keccak(Encode(events[k])) in delivered')
    ensures InFlight(env, sender, events, delivered') == InFlight(env, sender, events, delivered)
  {
    SumCongruence(events, Weights(env, sender, delivered), Weights(env, sender, delivered'));
  }

  /** The delivery of message `k` takes its weight out, once. */
  lemma DeliveryFlight(env: Mailbox.Env, sender: seq<nat>, events: map<nat, Message>, delivered: Deliveries, k: nat,
                       d: Mailbox.Delivery)
    requires k in events
    requires forall j :: j in events && j != k ==> env.keccak(Encode(events[j])) != env.keccak(Encode(events[k]))
    ensures var delivered' := delivered[env.keccak(Encode(events[k])) := d];
            InFlight(env, sender, events, delivered') + Weight(env, sender, delivered, events[k])
              == InFlight(env, sender, events, delivered)
  {
    var delivered' := delivered[env.keccak(Encode(events[k])) := d];
    SumRemove(events, k, Weights(env, sender, delivered));
    SumRemove(events, k, Weights(env, sender, delivered'));
    OtherDeliveryFlight(env, sender, events - {k}, delivered, delivered');
  }

  lemma FlightAtLeast(env: Mailbox.Env, sender: seq<nat>, events: map<nat, Message>, delivered: Deliveries, k: nat)
    requires k in events
    ensures Weight(env, sender, delivered, events[k]) <= InFlight(env, sender, events, delivered)
  {
    SumAtLeast(events, k, Weights(env, sender, delivered));
  }

  // ---------------------------------------------------------------------------
  // The invariant
  // ---------------------------------------------------------------------------

  /** The mailbox of one side: its logs are right, and the proxy is in place. */
  ghost predicate Wired(env: DispatchProxy.Env, box: Mailbox.State, domain: nat) {
    && Mailbox.Inv(env.mailbox, box) && box.mailbox.Some?
    && box.mailbox.value.localDomain == domain && box.mailbox.value.dispatchProxy == env.proxy
  }

  /** All messages of `sender` go to the other router. */
  ghost predicate Routed(events: map<nat, Message>, sender: seq<nat>, destination: nat, recipient: seq<nat>) {
    forall k :: k in events && events[k].sender == sender ==>
      events[k].destination == destination && events[k].recipient == recipient
  }

  /** Whatever arrived for `recipient` had been dispatched at the origin. */
  ghost predicate Genuine(env: Mailbox.Env, delivered: Deliveries, dispatched: set<Digest>, recipient: seq<nat>) {
    forall m: Message :: WellTyped(m) && m.recipient == recipient && env.keccak(Encode(m)) in delivered ==>
                           env.keccak(Encode(m)) in dispatched
  }

  /** Only the router can mint or burn the synthetic token. */
  ghost predicate Governed(s: TokenRegistry.State, token: TokenRegistry.TokenId, router: Address) {
    && token in s.tokens && s.tokens[token].admin == router
    && forall o :: o in s.roles ==> o.token != token
  }

  /** One wire unit is `PerWire / PerLocal` units of the synthetic token. */
  function PerWire(net: Net): nat {
    if net.remote < net.local then Pow(10, net.local - net.remote) else 1
  }

  function PerLocal(net: Net): nat {
    if net.local < net.remote then Pow(10, net.remote - net.local) else 1
  }

  function AddressBytes(net: Net, router: Address): seq<nat> {
    net.a.mailbox.bytesOf(router)
  }

  ghost function FlightAB(net: Net, s: State): nat {
    InFlight(net.a.mailbox, AddressBytes(net, net.routerA), s.a.box.dispatchEvents, s.b.box.deliveries)
  }

  ghost function FlightBA(net: Net, s: State): nat {
    InFlight(net.a.mailbox, AddressBytes(net, net.routerB), s.b.box.dispatchEvents, s.a.box.deliveries)
  }

  function Locked(net: Net, s: State): nat {
    Credits.Balance(s.a.books.credits, net.routerA)
  }

  /** Locked credits cover supply and flights, all in wire units and multiplied by `PerWire`. */
  ghost predicate Covered(net: Net, locked: nat, supply: nat, flight: nat) {
    supply * PerLocal(net) + flight * PerWire(net) <= (locked * Pow(10, net.scale)) * PerWire(net)
  }

  ghost predicate Solvent(net: Net, s: State) {
    Covered(net, Locked(net, s), TokenSupply.Supply(s.ledger, net.token), FlightAB(net, s) + FlightBA(net, s))
  }

  ghost predicate Frame(net: Net, s: State) {
    && Wired(net.a, s.a.box, net.domainA) && Wired(net.b, s.b.box, net.domainB)
    && Routed(s.a.box.dispatchEvents, AddressBytes(net, net.routerA), net.domainB, AddressBytes(net, net.routerB))
    && Routed(s.b.box.dispatchEvents, AddressBytes(net, net.routerB), net.domainA, AddressBytes(net, net.routerA))
    && Genuine(net.a.mailbox, s.b.box.deliveries, s.a.box.dispatchIds.Values, AddressBytes(net, net.routerB))
    && Genuine(net.a.mailbox, s.a.box.deliveries, s.b.box.dispatchIds.Values, AddressBytes(net, net.routerA))
    && Governed(s.ledger, net.token, net.routerB) && TokenSupply.Inv(s.ledger)
    && Locked(net, s) < U64
  }

  ghost predicate Inv(net: Net, s: State) {
    Frame(net, s) && Solvent(net, s)
  }

  // ---------------------------------------------------------------------------
  // The arithmetic of one step
  // ---------------------------------------------------------------------------

  lemma LockCovered(net: Net, locked: nat, supply: nat, flight: nat, x: nat)
    requires Covered(net, locked, supply, flight)
    ensures Covered(net, locked + x, supply, flight + x * Pow(10, net.scale))
  {
    var p, t := PerWire(net), Pow(10, net.scale);
    MulAdd(locked, x, t);
    MulAdd(locked * t, x * t, p);
    MulAdd(flight, x * t, p);
  }

  lemma MoreCovered(net: Net, locked: nat, locked': nat, supply: nat, flight: nat)
    requires Covered(net, locked, supply, flight) && locked <= locked'
    ensures Covered(net, locked', supply, flight)
  {
    var p, t := PerWire(net), Pow(10, net.scale);
    MulLe(locked, locked', t);
    MulLe(locked * t, locked' * t, p);
  }

  /** Minting rounds down. */
  lemma MintCovered(net: Net, locked: nat, supply: nat, flight: nat, w: nat)
    requires Covered(net, locked, supply, flight + w)
    ensures Covered(net, locked, supply + FromWire(net.local, net.remote, w), flight)
  {
    var p, q := PerWire(net), PerLocal(net);
    var x := FromWire(net.local, net.remote, w);
    MulAdd(flight, w, p);
    MulAdd(supply, x, q);
    assert x * q <= w * p by {
      if net.local < net.remote {
        PowPositive(10, net.remote - net.local);
        FloorDown(w, q);
      }
    }
  }

  /** So does sending back. */
  lemma BurnCovered(net: Net, locked: nat, supply: nat, flight: nat, x: nat)
    requires Covered(net, locked, supply + x, flight)
    ensures Covered(net, locked, supply, flight + ToWire(net.local, net.remote, x))
  {
    var p, q := PerWire(net), PerLocal(net);
    var w := ToWire(net.local, net.remote, x);
    MulAdd(flight, w, p);
    MulAdd(supply, x, q);
    assert w * p <= x * q by {
      if net.remote < net.local {
        PowPositive(10, net.local - net.remote);
        FloorDown(x, p);
      } else {
        assert net.local == net.remote ==> Pow(10, 0) == 1;
      }
    }
  }

  /** And paying out. */
  lemma ReleaseCovered(net: Net, locked: nat, supply: nat, flight: nat, w: nat)
    requires Covered(net, locked, supply, flight + w) && Pow(10, net.scale) > 0
    ensures w / Pow(10, net.scale) <= locked
    ensures Covered(net, locked - w / Pow(10, net.scale), supply, flight)
  {
    var p, t := PerWire(net), Pow(10, net.scale);
    var x: nat := w / t;
    FloorDown(w, t);
    MulAdd(flight, w, p);
    WireUnitPositive(net);
    if locked < x {
      MulLe(locked + 1, x, t);
      MulAdd(locked, 1, t);
      Strict(locked * t, w, p);
    }
    MulAdd(locked - x, x, t);
    MulAdd(locked * t - x * t, x * t, p);
    MulLe(x * t, w, p);
  }

  lemma WireUnitPositive(net: Net)
    ensures PerWire(net) > 0
  {
    if net.remote < net.local {
      PowPositive(10, net.local - net.remote);
    }
  }

  lemma Strict(x: nat, y: nat, p: nat)
    requires p > 0 && x < y
    ensures x * p < y * p
  {
  }

  lemma FloorDown(x: nat, d: nat)
    requires d > 0
    ensures d * (x / d) == (x / d) * d <= x
  {
  }

  // ---------------------------------------------------------------------------
  // Credits and the registry: what others cannot do
  // ---------------------------------------------------------------------------

  /** The balance of `r` does not fall, and stays a `u64`. */
  ghost predicate Grows(c: Credits.State, c': Credits.State, r: Address) {
    Credits.Balance(c, r) <= Credits.Balance(c', r) && (Credits.Balance(c, r) < U64 ==> Credits.Balance(c', r) < U64)
  }

  lemma TransferGrows(c: Credits.State, from: Address, to: Address, amount: nat, r: Address)
    requires from != r && Credits.Transfer(c, from, to, amount).Some?
    ensures Grows(c, Credits.Transfer(c, from, to, amount).value, r)
  {
  }

  lemma CreditsTxGrows(c: Credits.State, height: nat, tx: Credits.Tx, r: Address)
    requires !Credits.Spends(tx, r) && Credits.Apply(c, height, tx).Some?
    ensures Grows(c, Credits.Apply(c, height, tx).value, r)
  {
    hide Credits.Unbond;
    Credits.OnlySpenderDebits(c, height, tx, r);
  }

  lemma PostDispatchFrame(env: DispatchProxy.Env, c: DispatchProxy.Chain, signer: Address, caller: Address,
                          hook: Address, gasLimit: nat, allowances: seq<Hooks.Allowance>, r: Address)
    requires signer != r && DispatchProxy.ApplyPostDispatch(env, c, signer, caller, hook, gasLimit, allowances).Some?
    ensures var c' := DispatchProxy.ApplyPostDispatch(env, c, signer, caller, hook, gasLimit, allowances).value;
            c'.box == c.box && Grows(c.books.credits, c'.books.credits, r)
  {
    hide Grows, Credits.Transfer, Hooks.RunHook, Hooks.AllowanceFor;
    TransferGrows(c.books.credits, signer, env.hooks.self, Hooks.AllowanceFor(hook, allowances), r);
  }

  /** A dispatch appends one message to the mailbox; the hooks are paid by the signer. */
  lemma DispatchFrame(env: DispatchProxy.Env, c: DispatchProxy.Chain, step: DispatchProxy.Step, r: Address)
    requires step.Dispatch? && step.signer != r && DispatchProxy.ApplyDispatch(env, c, step).Some?
    ensures var c' := DispatchProxy.ApplyDispatch(env, c, step).value;
            && Mailbox.Apply(env.mailbox, c.box, step.height,
                             Mailbox.Dispatch(env.proxy, step.caller, step.destination, step.recipient, step.body))
                               == Some(c'.box)
            && Grows(c.books.credits, c'.books.credits, r)
  {
    hide DispatchProxy.ApplyPostDispatch, Mailbox.Apply;
    var box := Mailbox.Apply(env.mailbox, c.box, step.height,
                             Mailbox.Dispatch(env.proxy, step.caller, step.destination, step.recipient,
                                              step.body)).value;
    var c0 := c.(box := box);
    var hook := DispatchProxy.SelectedHook(step.customHook, step.defaultHook);
    PostDispatchFrame(env, c0, step.signer, env.proxy, hook, step.gasLimit, step.allowances, r);
    var c1 := DispatchProxy.ApplyPostDispatch(env, c0, step.signer, env.proxy, hook, step.gasLimit,
                                              step.allowances).value;
    PostDispatchFrame(env, c1, step.signer, env.proxy, step.requiredHook, step.gasLimit, step.allowances, r);
  }

  lemma HookTxGrows(env: Hooks.Env, b: Hooks.Books, tx: Hooks.Tx, r: Address)
    requires env.self != r && !tx.PostDispatch? && Hooks.Apply(env, b, tx).Some?
    requires (tx.CreditsTx? ==> !Credits.Spends(tx.tx, r)) && (tx.PayForGas? ==> tx.signer != r)
    ensures Grows(b.credits, Hooks.Apply(env, b, tx).value.credits, r)
  {
    hide Credits.Transfer, Credits.Apply, Hooks.ApplyConfig, Hooks.Quote, Credits.Balance;
    match tx
    case CreditsTx(height, ctx) => CreditsTxGrows(b.credits, height, ctx, r);
    case PayForGas(signer, _, _, _, _, amount) => TransferGrows(b.credits, signer, env.self, amount, r);
    case Claim(caller, _, amount) => TransferGrows(b.credits, env.self, caller, amount, r);
    case _ =>
  }

  ghost predicate SameToken(s: TokenRegistry.State, s': TokenRegistry.State, token: TokenRegistry.TokenId) {
    && (token in s.tokens ==> token in s'.tokens && s'.tokens[token] == s.tokens[token])
    && forall o :: o in s'.roles && o.token == token ==> o in s.roles
  }

  lemma AdminFrame(env: TokenRegistry.Env, s: TokenRegistry.State, tx: TokenRegistry.Tx, token: TokenRegistry.TokenId,
                   router: Address)
    requires Governed(s, token, router) && !ActsAs(tx, router) && TokenRegistry.IsAdminTx(tx)
    requires TokenRegistry.ApplyAdmin(env, s, tx).Some?
    ensures SameToken(s, TokenRegistry.ApplyAdmin(env, s, tx).value, token)
  {
  }

  lemma IssueFrame(env: TokenRegistry.Env, s: TokenRegistry.State, height: nat, tx: TokenRegistry.Tx,
                   token: TokenRegistry.TokenId, router: Address)
    requires Governed(s, token, router) && !ActsAs(tx, router)
    requires tx.MintPublic? || tx.MintPrivate? || tx.BurnPublic? || tx.BurnPrivate?
    requires TokenRegistry.Apply(env, s, height, tx).Some?
    ensures SameToken(s, TokenRegistry.Apply(env, s, height, tx).value, token)
  {
    hide TokenRegistry.ApplyAdmin, TokenRegistry.Credit, TokenRegistry.BurnHoldings, TokenRegistry.HasRole;
    NoRole(s, token, router, tx.caller, TokenRegistry.MINTER);
    NoRole(s, token, router, tx.caller, TokenRegistry.BURNER);
    if tx.BurnPrivate? {
      var r := s.records[tx.input];
      var s1 := TokenRegistry.Create(TokenRegistry.Consume(s, tx.input), TokenRegistry.Part(r, r.amount - tx.amount));
      NoRole(s1, token, router, tx.caller, TokenRegistry.BURNER);
    }
  }

  lemma NoRole(s: TokenRegistry.State, token: TokenRegistry.TokenId, router: Address, caller: Address, role: nat)
    requires Governed(s, token, router) && caller != router
    ensures !TokenRegistry.HasRole(s, caller, token, role)
  {
  }

  predicate IsPublicMove(tx: TokenRegistry.Tx) {
    || tx.TransferPublic? || tx.TransferPublicToPrivate? || tx.TransferFromPublic? || tx.TransferFromPublicToPrivate?
    || tx.PrehookPublic?
  }

  predicate IsRecordMove(tx: TokenRegistry.Tx) {
    tx.TransferPrivate? || tx.TransferPrivateToPublic? || tx.Join? || tx.Split? || tx.PrehookPrivate?
  }

  lemma PublicMoveFrame(env: TokenRegistry.Env, s: TokenRegistry.State, height: nat, tx: TokenRegistry.Tx)
    requires IsPublicMove(tx) && TokenRegistry.Apply(env, s, height, tx).Some?
    ensures TokenRegistry.SameTerms(s, TokenRegistry.Apply(env, s, height, tx).value)
  {
    hide TokenRegistry.ApplyAdmin, TokenRegistry.Debit, TokenRegistry.Credit, TokenRegistry.Break,
        TokenRegistry.SpendAllowance;
  }

  lemma RecordMoveFrame(env: TokenRegistry.Env, s: TokenRegistry.State, height: nat, tx: TokenRegistry.Tx)
    requires IsRecordMove(tx) && TokenRegistry.Apply(env, s, height, tx).Some?
    ensures TokenRegistry.SameTerms(s, TokenRegistry.Apply(env, s, height, tx).value)
  {
    hide TokenRegistry.ApplyAdmin, TokenRegistry.Debit, TokenRegistry.Credit, TokenRegistry.Break,
        TokenRegistry.SpendAllowance;
  }

  /** Nobody but the router changes the synthetic token. */
  lemma LedgerFrame(env: TokenRegistry.Env, s: TokenRegistry.State, height: nat, tx: TokenRegistry.Tx,
                    token: TokenRegistry.TokenId, router: Address)
    requires Governed(s, token, router) && TokenSupply.Inv(s) && !ActsAs(tx, router)
    requires TokenRegistry.Apply(env, s, height, tx).Some?
    ensures var s' := TokenRegistry.Apply(env, s, height, tx).value;
            Governed(s', token, router) && TokenSupply.Inv(s')
              && TokenSupply.Supply(s', token) == TokenSupply.Supply(s, token)
  {
    hide TokenRegistry.Apply, TokenRegistry.ApplyAdmin, TokenSupply.Inv;
    TokenSupply.ApplyKeeps(env, s, height, tx);
    if TokenRegistry.IsAdminTx(tx) {
      TokenAuthorization.ApplyIsAdmin(env, s, height, tx);
      AdminFrame(env, s, tx, token, router);
    } else if tx.MintPublic? || tx.MintPrivate? || tx.BurnPublic? || tx.BurnPrivate? {
      IssueFrame(env, s, height, tx, token, router);
    } else if IsPublicMove(tx) {
      PublicMoveFrame(env, s, height, tx);
    } else {
      RecordMoveFrame(env, s, height, tx);
    }
  }

  /** What minting and burning by the router do to the token. */
  lemma RouterIssue(env: TokenRegistry.Env, s: TokenRegistry.State, height: nat, tx: TokenRegistry.Tx,
                    token: TokenRegistry.TokenId, router: Address)
    requires Governed(s, token, router) && TokenSupply.Inv(s)
    requires (tx.MintPublic? && tx.token == token) || (tx.BurnPublic? && tx.token == token)
    requires TokenRegistry.Apply(env, s, height, tx).Some?
    ensures var s' := TokenRegistry.Apply(env, s, height, tx).value;
            && Governed(s', token, router) && TokenSupply.Inv(s')
            && (tx.MintPublic? ==> TokenSupply.Supply(s', token) == TokenSupply.Supply(s, token) + tx.amount)
            && (tx.BurnPublic? ==> TokenSupply.Supply(s', token) + tx.amount == TokenSupply.Supply(s, token))
  {
    hide TokenSupply.Inv, TokenRegistry.ApplyAdmin, TokenRegistry.HasRole, TokenRegistry.Credit,
        TokenRegistry.BurnHoldings;
    TokenSupply.ApplyKeeps(env, s, height, tx);
  }

  // ---------------------------------------------------------------------------
  // The mailboxes
  // ---------------------------------------------------------------------------

  /** Logged ids stay logged. */
  ghost predicate IdsKept(box: Mailbox.State, box': Mailbox.State) {
    box.dispatchIds.Values <= box'.dispatchIds.Values
  }

  lemma IdsGrow(ids: map<nat, Digest>, k: nat, id: Digest)
    requires k !in ids
    ensures ids.Values <= ids[k := id].Values
  {
    forall x | x in ids.Values ensures x in ids[k := id].Values {
      var j :| j in ids && ids[j] == x;
      assert ids[k := id][j] == x;
    }
  }

  lemma DispatchBox(env: DispatchProxy.Env, box: Mailbox.State, domain: nat, height: nat, sender: Address,
                    destination: nat, recipient: seq<nat>, body: seq<nat>)
    requires Wired(env, box, domain)
    requires Mailbox.TypedTx(env.mailbox, Mailbox.Dispatch(env.proxy, sender, destination, recipient, body))
    requires Mailbox.Apply(env.mailbox, box, height,
                           Mailbox.Dispatch(env.proxy, sender, destination, recipient, body)).Some?
    ensures var box' := Mailbox.Apply(env.mailbox, box, height,
                                      Mailbox.Dispatch(env.proxy, sender, destination, recipient, body)).value;
            var config := box.mailbox.value;
            && Wired(env, box', domain) && box'.deliveries == box.deliveries
            && config.nonce !in box.dispatchEvents && IdsKept(box, box')
            && box'.dispatchEvents
               == box.dispatchEvents[config.nonce :=
                                     Mailbox.NextMessage(env.mailbox, config, sender, destination, recipient, body)]
            && WellTyped(Mailbox.NextMessage(env.mailbox, config, sender, destination, recipient, body))
  {
    hide Mailbox.DispatchEntry, Mailbox.ProcessLog;
    Mailbox.ApplyKeeps(env.mailbox, box, height, Mailbox.Dispatch(env.proxy, sender, destination, recipient, body));
    IdsGrow(box.dispatchIds, box.mailbox.value.nonce,
            env.mailbox.keccak(Encode(Mailbox.NextMessage(env.mailbox, box.mailbox.value, sender, destination,
                                                          recipient, body))));
  }

  lemma ProcessBox(env: DispatchProxy.Env, box: Mailbox.State, domain: nat, height: nat, caller: Address, m: Message,
                   length: nat, id: Digest, verified: bool)
    requires Wired(env, box, domain) && WellTyped(m)
    requires Mailbox.Apply(env.mailbox, box, height, Mailbox.Process(caller, m, length, id, verified)).Some?
    ensures var box' := Mailbox.Apply(env.mailbox, box, height, Mailbox.Process(caller, m, length, id, verified)).value;
            && Wired(env, box', domain) && box'.dispatchEvents == box.dispatchEvents
              && box'.dispatchIds == box.dispatchIds
            && id !in box.deliveries && box'.deliveries == box.deliveries[id := Mailbox.Delivery(caller, height)]
            && Mailbox.CanProcess(env.mailbox, box, caller, m, length, id, verified)
  {
    hide Mailbox.Inv, Encode, WellTyped;
    Mailbox.ApplyKeeps(env.mailbox, box, height, Mailbox.Process(caller, m, length, id, verified));
  }

  lemma OtherBox(env: DispatchProxy.Env, box: Mailbox.State, domain: nat, height: nat, tx: Mailbox.Tx)
    requires Wired(env, box, domain) && Mailbox.TypedTx(env.mailbox, tx)
    requires !tx.Process? && !tx.Dispatch? && !tx.SetDispatchProxy?
    requires Mailbox.Apply(env.mailbox, box, height, tx).Some?
    ensures var box' := Mailbox.Apply(env.mailbox, box, height, tx).value;
            Wired(env, box', domain) && Mailbox.SameLogs(box, box')
  {
    hide Mailbox.Inv;
    Mailbox.ApplyKeeps(env.mailbox, box, height, tx);
    Mailbox.OthersKeepLogs(env.mailbox, box, height, tx);
  }

  /** At most one message was added, and it is not from `sender`. */
  ghost predicate AddsOther(events: map<nat, Message>, events': map<nat, Message>, sender: seq<nat>) {
    || events' == events
    || exists k: nat, m: Message :: k !in events && m.sender != sender && events' == events[k := m]
  }

  /** Nothing that is addressed to `recipient` arrived. */
  ghost predicate SameArrivals(env: Mailbox.Env, delivered: Deliveries, delivered': Deliveries, recipient: seq<nat>) {
    forall m: Message :: WellTyped(m) && m.recipient == recipient ==>
                           (env.keccak(Encode(m)) in delivered <==> env.keccak(Encode(m)) in delivered')
  }

  ghost predicate Quiet(env: DispatchProxy.Env, c: DispatchProxy.Chain, c': DispatchProxy.Chain, domain: nat,
                        router: Address) {
    && Wired(env, c'.box, domain) && Grows(c.books.credits, c'.books.credits, router) && IdsKept(c.box, c'.box)
    && AddsOther(c.box.dispatchEvents, c'.box.dispatchEvents, env.mailbox.bytesOf(router))
    && SameArrivals(env.mailbox, c.box.deliveries, c'.box.deliveries, env.mailbox.bytesOf(router))
  }

  /** A message for another recipient cannot take the id of one for the router. */
  lemma OtherProcess(env: DispatchProxy.Env, box: Mailbox.State, domain: nat, height: nat, caller: Address, m: Message,
                     length: nat, id: Digest, verified: bool, recipient: seq<nat>)
    requires Wired(env, box, domain) && WellTyped(m) && Injective(env.mailbox.keccak)
             && env.mailbox.bytesOf(caller) != recipient
    requires Mailbox.Apply(env.mailbox, box, height, Mailbox.Process(caller, m, length, id, verified)).Some?
    ensures SameArrivals(env.mailbox, box.deliveries,
                         Mailbox.Apply(env.mailbox, box, height,
                                       Mailbox.Process(caller, m, length, id, verified)).value.deliveries, recipient)
  {
    hide Mailbox.Apply, Encode, WellTyped;
    ProcessBox(env, box, domain, height, caller, m, length, id, verified);
    forall sent: Message | WellTyped(sent) && sent.recipient == recipient
      ensures env.mailbox.keccak(Encode(sent)) != id
    {
      if env.mailbox.keccak(Encode(sent)) == id {
        EncodeLength(m);
        IdIdentifies(env.mailbox.keccak, sent, m, length);
      }
    }
  }

  lemma OtherMailboxTx(env: DispatchProxy.Env, c: DispatchProxy.Chain, domain: nat, height: nat, tx: Mailbox.Tx,
                       router: Address)
    requires Wired(env, c.box, domain) && Injective(env.mailbox.keccak)
    requires forall x, y :: env.mailbox.bytesOf(x) == env.mailbox.bytesOf(y) ==> x == y
    requires Independent(env, DispatchProxy.MailboxTx(height, tx), router)
    requires Mailbox.Apply(env.mailbox, c.box, height, tx).Some?
    ensures Quiet(env, c, c.(box := Mailbox.Apply(env.mailbox, c.box, height, tx).value), domain, router)
  {
    hide Mailbox.Inv, Mailbox.Apply, Encode, SameArrivals;
    if tx.Process? {
      ProcessBox(env, c.box, domain, height, tx.caller, tx.message, tx.length, tx.id, tx.verified);
      OtherProcess(env, c.box, domain, height, tx.caller, tx.message, tx.length, tx.id, tx.verified,
                   env.mailbox.bytesOf(router));
    } else if tx.Dispatch? {
      ForeignDispatch(env, c.box, height, tx);
    } else {
      OtherBox(env, c.box, domain, height, tx);
      NothingArrives(env.mailbox, c.box.deliveries, env.mailbox.bytesOf(router));
    }
  }

  lemma NothingArrives(env: Mailbox.Env, delivered: Deliveries, recipient: seq<nat>)
    ensures SameArrivals(env, delivered, delivered, recipient)
  {
  }

  lemma ForeignDispatch(env: DispatchProxy.Env, box: Mailbox.State, height: nat, tx: Mailbox.Tx)
    requires box.mailbox.Some? && box.mailbox.value.dispatchProxy == env.proxy && tx.Dispatch? && tx.caller != env.proxy
    ensures Mailbox.Apply(env.mailbox, box, height, tx).None?
  {
  }

  lemma OtherDispatch(env: DispatchProxy.Env, c: DispatchProxy.Chain, domain: nat, step: DispatchProxy.Step,
                      router: Address)
    requires Wired(env, c.box, domain) && step.Dispatch? && Independent(env, step, router)
    requires forall x, y :: env.mailbox.bytesOf(x) == env.mailbox.bytesOf(y) ==> x == y
    requires DispatchProxy.ApplyDispatch(env, c, step).Some?
    ensures Quiet(env, c, DispatchProxy.ApplyDispatch(env, c, step).value, domain, router)
  {
    hide Mailbox.Inv, Mailbox.Apply, DispatchProxy.ApplyDispatch, Encode, SameArrivals, Grows, WellTyped;
    DispatchFrame(env, c, step, router);
    DispatchBox(env, c.box, domain, step.height, step.caller, step.destination, step.recipient, step.body);
    NothingArrives(env.mailbox, c.box.deliveries, env.mailbox.bytesOf(router));
  }

  /** Steps of others leave the router's messages, arrivals and funds alone. */
  lemma OtherQuiet(env: DispatchProxy.Env, c: DispatchProxy.Chain, domain: nat, step: DispatchProxy.Step,
                   router: Address)
    requires Wired(env, c.box, domain) && Injective(env.mailbox.keccak) && Independent(env, step, router)
             && env.hooks.self != router
    requires forall x, y :: env.mailbox.bytesOf(x) == env.mailbox.bytesOf(y) ==> x == y
    requires DispatchProxy.Apply(env, c, step).Some?
    ensures Quiet(env, c, DispatchProxy.Apply(env, c, step).value, domain, router)
  {
    hide Wired, Mailbox.Apply, Hooks.Apply, DispatchProxy.ApplyDispatch, DispatchProxy.ApplyPostDispatch,
        Mailbox.TypedTx, SameArrivals, Injective;
    NothingArrives(env.mailbox, c.box.deliveries, env.mailbox.bytesOf(router));
    match step
    case MailboxTx(height, tx) => OtherMailboxTx(env, c, domain, height, tx, router);
    case HookTx(tx) => HookTxGrows(env.hooks, c.books, tx, router);
    case PostDispatch(signer, caller, hook, gasLimit, allowances) =>
      PostDispatchFrame(env, c, signer, caller, hook, gasLimit, allowances, router);
    case Dispatch(_, _, _, _, _, _, _, _, _, _, _) => OtherDispatch(env, c, domain, step, router);
  }

  // ---------------------------------------------------------------------------
  // The steps
  // ---------------------------------------------------------------------------

  lemma OtherFlight(env: Mailbox.Env, sender: seq<nat>, events: map<nat, Message>, events': map<nat, Message>,
                    delivered: Deliveries)
    requires AddsOther(events, events', sender)
    ensures InFlight(env, sender, events', delivered) == InFlight(env, sender, events, delivered)
  {
    if events' != events {
      var k: nat, m: Message :| k !in events && m.sender != sender && events' == events[k := m];
      DispatchFlight(env, sender, events, delivered, k, m);
    }
  }

  lemma LoggedAreTyped(env: Mailbox.Env, box: Mailbox.State, k: nat)
    requires Mailbox.Inv(env, box) && k in box.dispatchEvents
    ensures box.mailbox.Some? && WellTyped(box.dispatchEvents[k]) && k in box.dispatchIds
    ensures box.dispatchIds[k] == env.keccak(Encode(box.dispatchEvents[k]))
    ensures box.dispatchEvents[k].origin == box.mailbox.value.localDomain && box.dispatchEvents[k].version == VERSION
  {
    assert Mailbox.DispatchEntry(env, box, k);
  }

  lemma OtherArrivals(env: Mailbox.Env, box: Mailbox.State, sender: seq<nat>, destination: nat, recipient: seq<nat>,
                      delivered: Deliveries, delivered': Deliveries)
    requires Mailbox.Inv(env, box) && Routed(box.dispatchEvents, sender, destination, recipient)
    requires SameArrivals(env, delivered, delivered', recipient)
    ensures InFlight(env, sender, box.dispatchEvents, delivered')
            == InFlight(env, sender, box.dispatchEvents, delivered)
  {
    hide Encode, WellTyped;
    forall k | k in box.dispatchEvents && box.dispatchEvents[k].sender == sender
      ensures env.keccak(Encode(box.dispatchEvents[k])) in delivered
              <==> env.keccak(Encode(box.dispatchEvents[k])) in delivered'
    {
      LoggedAreTyped(env, box, k);
    }
    OtherDeliveryFlight(env, sender, box.dispatchEvents, delivered, delivered');
  }

  lemma StillGenuine(env: Mailbox.Env, delivered: Deliveries, delivered': Deliveries, dispatched: set<Digest>,
                     dispatched': set<Digest>, recipient: seq<nat>)
    requires Genuine(env, delivered, dispatched, recipient) && SameArrivals(env, delivered, delivered', recipient)
    requires dispatched <= dispatched'
    ensures Genuine(env, delivered', dispatched', recipient)
  {
    hide Encode, WellTyped;
  }

  lemma OtherAKeeps(net: Net, s: State, step: DispatchProxy.Step)
    requires Sound(net) && Inv(net, s) && Independent(net.a, step, net.routerA)
             && DispatchProxy.Apply(net.a, s.a, step).Some?
    ensures Inv(net, s.(a := DispatchProxy.Apply(net.a, s.a, step).value))
  {
    hide DispatchProxy.Apply, Independent, Covered, InFlight, Mailbox.Inv, SameArrivals, Genuine, IdsKept,
        TokenSupply.Inv, Injective;
    OtherQuiet(net.a, s.a, net.domainA, step, net.routerA);
    var a := DispatchProxy.Apply(net.a, s.a, step).value;
    OtherFlight(net.a.mailbox, AddressBytes(net, net.routerA), s.a.box.dispatchEvents, a.box.dispatchEvents,
                s.b.box.deliveries);
    OtherArrivals(net.a.mailbox, s.b.box, AddressBytes(net, net.routerB), net.domainA, AddressBytes(net, net.routerA),
                  s.a.box.deliveries, a.box.deliveries);
    AGenuine(net, s, a);
    MoreCovered(net, Locked(net, s), Credits.Balance(a.books.credits, net.routerA),
                TokenSupply.Supply(s.ledger, net.token),
                FlightAB(net, s) + FlightBA(net, s));
  }

  lemma OtherBKeeps(net: Net, s: State, step: DispatchProxy.Step)
    requires Sound(net) && Inv(net, s) && Independent(net.b, step, net.routerB)
             && DispatchProxy.Apply(net.b, s.b, step).Some?
    ensures Inv(net, s.(b := DispatchProxy.Apply(net.b, s.b, step).value))
  {
    hide DispatchProxy.Apply, Independent, Covered, InFlight, Mailbox.Inv, SameArrivals, Genuine, IdsKept,
        TokenSupply.Inv, Injective;
    OtherQuiet(net.b, s.b, net.domainB, step, net.routerB);
    var b := DispatchProxy.Apply(net.b, s.b, step).value;
    OtherFlight(net.a.mailbox, AddressBytes(net, net.routerB), s.b.box.dispatchEvents, b.box.dispatchEvents,
                s.a.box.deliveries);
    OtherArrivals(net.a.mailbox, s.a.box, AddressBytes(net, net.routerA), net.domainB, AddressBytes(net, net.routerB),
                  s.b.box.deliveries, b.box.deliveries);
    BGenuine(net, s, b);
  }

  lemma AGenuine(net: Net, s: State, a: DispatchProxy.Chain)
    requires Frame(net, s) && IdsKept(s.a.box, a.box)
    requires SameArrivals(net.a.mailbox, s.a.box.deliveries, a.box.deliveries, AddressBytes(net, net.routerA))
    ensures Genuine(net.a.mailbox, s.b.box.deliveries, a.box.dispatchIds.Values, AddressBytes(net, net.routerB))
    ensures Genuine(net.a.mailbox, a.box.deliveries, s.b.box.dispatchIds.Values, AddressBytes(net, net.routerA))
  {
    hide Genuine, SameArrivals, Wired, Governed, TokenSupply.Inv, Routed;
    NothingArrives(net.a.mailbox, s.b.box.deliveries, AddressBytes(net, net.routerB));
    StillGenuine(net.a.mailbox, s.b.box.deliveries, s.b.box.deliveries, s.a.box.dispatchIds.Values,
                 a.box.dispatchIds.Values, AddressBytes(net, net.routerB));
    StillGenuine(net.a.mailbox, s.a.box.deliveries, a.box.deliveries, s.b.box.dispatchIds.Values,
                 s.b.box.dispatchIds.Values, AddressBytes(net, net.routerA));
  }

  lemma BGenuine(net: Net, s: State, b: DispatchProxy.Chain)
    requires Frame(net, s) && IdsKept(s.b.box, b.box)
    requires SameArrivals(net.a.mailbox, s.b.box.deliveries, b.box.deliveries, AddressBytes(net, net.routerB))
    ensures Genuine(net.a.mailbox, s.a.box.deliveries, b.box.dispatchIds.Values, AddressBytes(net, net.routerA))
    ensures Genuine(net.a.mailbox, b.box.deliveries, s.a.box.dispatchIds.Values, AddressBytes(net, net.routerB))
  {
    hide Genuine, SameArrivals, Wired, Governed, TokenSupply.Inv, Routed;
    NothingArrives(net.a.mailbox, s.a.box.deliveries, AddressBytes(net, net.routerA));
    StillGenuine(net.a.mailbox, s.a.box.deliveries, s.a.box.deliveries, s.b.box.dispatchIds.Values,
                 b.box.dispatchIds.Values, AddressBytes(net, net.routerA));
    StillGenuine(net.a.mailbox, s.b.box.deliveries, b.box.deliveries, s.a.box.dispatchIds.Values,
                 s.a.box.dispatchIds.Values, AddressBytes(net, net.routerB));
  }

  lemma OtherLedgerKeeps(net: Net, s: State, height: nat, tx: TokenRegistry.Tx)
    requires Inv(net, s) && !ActsAs(tx, net.routerB) && TokenRegistry.Apply(net.registry, s.ledger, height, tx).Some?
    ensures Inv(net, s.(ledger := TokenRegistry.Apply(net.registry, s.ledger, height, tx).value))
  {
    hide TokenRegistry.Apply, Wired, Covered, InFlight, TokenSupply.Inv, Routed, Genuine;
    LedgerFrame(net.registry, s.ledger, height, tx, net.token, net.routerB);
  }

  /** What a router's own dispatch does: one more message for the other router, weighing `w`. */
  lemma SendFlight(env: DispatchProxy.Env, c: DispatchProxy.Chain, domain: nat, router: Address, order: Order,
                   destination: nat, recipient: seq<nat>, body: seq<nat>, delivered: Deliveries)
    requires Wired(env, c.box, domain)
             && Routed(c.box.dispatchEvents, env.mailbox.bytesOf(router), destination, recipient)
    requires order.signer != router
    requires Mailbox.TypedTx(env.mailbox, Mailbox.Dispatch(env.proxy, router, destination, recipient, body))
    requires DispatchProxy.ApplyDispatch(env, c, Send(router, order, destination, recipient, body)).Some?
    ensures var c' := DispatchProxy.ApplyDispatch(env, c, Send(router, order, destination, recipient, body)).value;
            var sender := env.mailbox.bytesOf(router);
            && Wired(env, c'.box, domain) && Routed(c'.box.dispatchEvents, sender, destination, recipient)
            && c'.box.deliveries == c.box.deliveries && Grows(c.books.credits, c'.books.credits, router)
              && IdsKept(c.box, c'.box)
            && InFlight(env.mailbox, sender, c'.box.dispatchEvents, delivered)
               <= InFlight(env.mailbox, sender, c.box.dispatchEvents, delivered) + Wire(body[2], body[3])
  {
    hide DispatchProxy.ApplyDispatch, Mailbox.Apply, Mailbox.Inv, InFlight, WellTyped, Grows, Encode, Wire;
    DispatchFrame(env, c, Send(router, order, destination, recipient, body), router);
    DispatchBox(env, c.box, domain, order.height, router, destination, recipient, body);
    var config := c.box.mailbox.value;
    DispatchFlight(env.mailbox, env.mailbox.bytesOf(router), c.box.dispatchEvents, delivered, config.nonce,
                   Mailbox.NextMessage(env.mailbox, config, router, destination, recipient, body));
  }

  lemma LessFlight(net: Net, locked: nat, supply: nat, flight: nat, flight': nat)
    requires Covered(net, locked, supply, flight) && flight' <= flight
    ensures Covered(net, locked, supply, flight')
  {
    MulLe(flight', flight, PerWire(net));
  }

  lemma LockKeeps(net: Net, s: State, order: Order)
    requires Sound(net) && Inv(net, s) && TypedOrder(order, net.routerA) && order.amount < U64
             && ApplyLock(net, s, order).Some?
    ensures Inv(net, ApplyLock(net, s, order).value)
  {
    hide DispatchProxy.ApplyDispatch, Credits.Transfer, NativeOutbound, Covered, InFlight, Mailbox.Inv, TokenSupply.Inv,
        Injective, Wire, Pow, Governed, Genuine, IdsKept;
    NativeOutboundExact(net.scale, order.amount);
    var words := NativeOutbound(net.scale, order.amount).value;
    var body, recipient := Body(order.recipient, words), AddressBytes(net, net.routerB);
    SendFlight(net.a, s.a, net.domainA, net.routerA, order, net.domainB, recipient, body, s.b.box.deliveries);
    var a := DispatchProxy.ApplyDispatch(net.a, s.a, Send(net.routerA, order, net.domainB, recipient, body)).value;
    var s' := ApplyLock(net, s, order).value;
    NothingArrives(net.a.mailbox, s.a.box.deliveries, AddressBytes(net, net.routerA));
    AGenuine(net, s, a);
    TransferLocks(a.books.credits, order.signer, net.routerA, order.amount);
    var supply := TokenSupply.Supply(s.ledger, net.token);
    LockCovered(net, Locked(net, s), supply, FlightAB(net, s) + FlightBA(net, s), order.amount);
    MoreCovered(net, Locked(net, s) + order.amount, Locked(net, s'), supply, FlightAB(net, s) + FlightBA(net, s)
      + order.amount * Pow(10, net.scale));
    LessFlight(net, Locked(net, s'), supply, FlightAB(net, s) + FlightBA(net, s) + order.amount * Pow(10, net.scale),
               FlightAB(net, s') + FlightBA(net, s'));
  }

  lemma TransferLocks(c: Credits.State, signer: Address, router: Address, amount: nat)
    requires signer != router && Credits.Transfer(c, signer, router, amount).Some?
    ensures var c' := Credits.Transfer(c, signer, router, amount).value;
            Credits.Balance(c', router) == Credits.Balance(c, router) + amount < U64
  {
  }

  lemma BurnKeeps(net: Net, s: State, order: Order)
    requires Sound(net) && Inv(net, s) && TypedOrder(order, net.routerB) && ApplyBurn(net, s, order).Some?
    ensures Inv(net, ApplyBurn(net, s, order).value)
  {
    hide DispatchProxy.ApplyDispatch, TokenRegistry.Apply, Outbound, Covered, InFlight, Mailbox.Inv, TokenSupply.Inv,
        Injective, Wire, ToWire, Governed, Genuine, IdsKept;
    OutboundExact(net.local, net.remote, order.amount);
    var words := Outbound(net.local, net.remote, order.amount).value;
    var body, recipient := Body(order.recipient, words), AddressBytes(net, net.routerA);
    SendFlight(net.b, s.b, net.domainB, net.routerB, order, net.domainA, recipient, body, s.a.box.deliveries);
    var tx := TokenRegistry.BurnPublic(net.routerB, net.token, order.signer, order.amount);
    RouterIssue(net.registry, s.ledger, order.height, tx, net.token, net.routerB);
    var s' := ApplyBurn(net, s, order).value;
    NothingArrives(net.a.mailbox, s.b.box.deliveries, AddressBytes(net, net.routerB));
    BGenuine(net, s, s'.b);
    var supply := TokenSupply.Supply(s'.ledger, net.token);
    BurnCovered(net, Locked(net, s), supply, FlightAB(net, s) + FlightBA(net, s), order.amount);
    LessFlight(net, Locked(net, s), supply, FlightAB(net, s) + FlightBA(net, s)
      + ToWire(net.local, net.remote, order.amount),
               FlightAB(net, s') + FlightBA(net, s'));
  }

  /** A delivery to a router is one of the messages in flight to it, which then is not any more. */
  lemma ReceiveFlight(env: DispatchProxy.Env, box: Mailbox.State, domain: nat, router: Address,
                      other: DispatchProxy.Env, origin: Mailbox.State, originDomain: nat, sender: seq<nat>, r: Relay)
    requires env.mailbox == other.mailbox && Injective(env.mailbox.keccak) && WellTyped(r.message)
    requires Wired(env, box, domain) && Wired(other, origin, originDomain)
    requires Receive(env.mailbox, box, router, originDomain, sender, origin.dispatchIds.Values, r).Some?
    ensures var box' := Receive(env.mailbox, box, router, originDomain, sender, origin.dispatchIds.Values, r).value;
            && Wired(env, box', domain) && box'.dispatchEvents == box.dispatchEvents
              && box'.dispatchIds == box.dispatchIds
            && r.id in origin.dispatchIds.Values
            && box'.deliveries == box.deliveries[r.id := Mailbox.Delivery(router, r.height)]
            && InFlight(env.mailbox, sender, origin.dispatchEvents, box'.deliveries)
              + Wire(r.message.body[2], r.message.body[3])
               == InFlight(env.mailbox, sender, origin.dispatchEvents, box.deliveries)
  {
    hide Mailbox.Apply, Mailbox.Inv, InFlight, Wire, Encode, Mailbox.CanProcess;
    var verified := r.attested && r.id in origin.dispatchIds.Values;
    ProcessBox(env, box, domain, r.height, router, r.message, r.length, r.id, verified);
    CanProcessVerified(env.mailbox, box, router, r.message, r.length, r.id, verified);
    var k :| k in origin.dispatchIds && origin.dispatchIds[k] == r.id;
    Mailbox.DeliveredIsDispatched(env.mailbox, box, router, r.message, r.length, r.id, verified, origin, k);
    IdsDistinct(env.mailbox, origin, k);
    DeliveryFlight(env.mailbox, sender, origin.dispatchEvents, box.deliveries, k, Mailbox.Delivery(router, r.height));
  }

  /** A delivery that was dispatched keeps arrivals genuine. */
  lemma ArrivalGenuine(env: Mailbox.Env, delivered: Deliveries, id: Digest, d: Mailbox.Delivery,
                       dispatched: set<Digest>, recipient: seq<nat>)
    requires Genuine(env, delivered, dispatched, recipient) && id in dispatched
    ensures Genuine(env, delivered[id := d], dispatched, recipient)
  {
    hide Encode, WellTyped;
  }

  lemma CanProcessVerified(env: Mailbox.Env, box: Mailbox.State, router: Address, m: Message, length: nat, id: Digest,
                           verified: bool)
    requires Mailbox.CanProcess(env, box, router, m, length, id, verified)
    ensures verified
  {
  }

  lemma IdsDistinct(env: Mailbox.Env, box: Mailbox.State, k: nat)
    requires Injective(env.keccak) && Mailbox.Inv(env, box) && box.mailbox.Some? && k in box.dispatchIds
    ensures k in box.dispatchEvents && box.dispatchIds[k] == env.keccak(Encode(box.dispatchEvents[k]))
    ensures forall j :: j in box.dispatchEvents && j != k ==>
            env.keccak(Encode(box.dispatchEvents[j])) != env.keccak(Encode(box.dispatchEvents[k]))
  {
    assert Mailbox.DispatchEntry(env, box, k);
    forall j | j in box.dispatchEvents && j != k
      ensures env.keccak(Encode(box.dispatchEvents[j])) != env.keccak(Encode(box.dispatchEvents[k]))
    {
      LoggedAreTyped(env, box, j);
      Mailbox.DispatchIdsDistinct(env, box, j, k);
    }
  }

  lemma MintKeeps(net: Net, s: State, r: Relay)
    requires Sound(net) && Inv(net, s) && WellTyped(r.message) && ApplyMint(net, s, r).Some?
    ensures Inv(net, ApplyMint(net, s, r).value)
  {
    hide Receive, TokenRegistry.Apply, Inbound, Covered, InFlight, Mailbox.Inv, TokenSupply.Inv, Injective, Wire,
        FromWire, Governed, Genuine;
    ReceiveFlight(net.b, s.b.box, net.domainB, net.routerB, net.a, s.a.box, net.domainA,
                  AddressBytes(net, net.routerA), r);
    ArrivalGenuine(net.a.mailbox, s.b.box.deliveries, r.id, Mailbox.Delivery(net.routerB, r.height),
                   s.a.box.dispatchIds.Values, AddressBytes(net, net.routerB));
    var (w0, w1) := (r.message.body[2], r.message.body[3]);
    InboundExact(net.local, net.remote, w0, w1);
    var s' := ApplyMint(net, s, r).value;
    var to, amount := net.addressAt(r.message.body[0], r.message.body[1]).value,
        Inbound(net.local, net.remote, w0, w1).value;
    var tx := TokenRegistry.MintPublic(net.routerB, net.token, to, amount, TokenRegistry.FOREVER);
    RouterIssue(net.registry, s.ledger, r.height, tx, net.token, net.routerB);
    MintCovered(net, Locked(net, s), TokenSupply.Supply(s.ledger, net.token), FlightAB(net, s') + FlightBA(net, s'),
                Wire(w0, w1));
  }

  lemma ReleaseKeeps(net: Net, s: State, r: Relay)
    requires Sound(net) && Inv(net, s) && WellTyped(r.message) && ApplyRelease(net, s, r).Some?
    ensures Inv(net, ApplyRelease(net, s, r).value)
  {
    hide Receive, Credits.Transfer, NativeInbound, Covered, InFlight, Mailbox.Inv, TokenSupply.Inv, Injective, Wire,
        Governed, Pow, Genuine;
    ReceiveFlight(net.a, s.a.box, net.domainA, net.routerA, net.b, s.b.box, net.domainB,
                  AddressBytes(net, net.routerB), r);
    ArrivalGenuine(net.a.mailbox, s.a.box.deliveries, r.id, Mailbox.Delivery(net.routerA, r.height),
                   s.b.box.dispatchIds.Values, AddressBytes(net, net.routerA));
    var (w0, w1) := (r.message.body[2], r.message.body[3]);
    NativeInboundExact(net.scale, w0, w1);
    var s' := ApplyRelease(net, s, r).value;
    var to, amount := net.addressAt(r.message.body[0], r.message.body[1]).value, NativeInbound(net.scale, w0, w1).value;
    Credits.TransferMoves(s.a.books.credits, net.routerA, to, amount);
    var supply := TokenSupply.Supply(s.ledger, net.token);
    ReleaseCovered(net, Locked(net, s), supply, FlightAB(net, s') + FlightBA(net, s'), Wire(w0, w1));
    MoreCovered(net, Locked(net, s) - amount, Locked(net, s'), supply, FlightAB(net, s') + FlightBA(net, s'));
  }

  lemma StepKeeps(net: Net, s: State, step: Step)
    requires Sound(net) && Inv(net, s) && Regular(net, step) && Apply(net, s, step).Some?
    ensures Inv(net, Apply(net, s, step).value)
  {
    hide Sound, Inv, ApplyLock, ApplyMint, ApplyBurn, ApplyRelease, DispatchProxy.Apply, TokenRegistry.Apply,
        Independent, ActsAs, WellTyped, TypedOrder;
    match step
    case Lock(order) => LockKeeps(net, s, order);
    case Mint(r) => MintKeeps(net, s, r);
    case Burn(order) => BurnKeeps(net, s, order);
    case Release(r) => ReleaseKeeps(net, s, r);
    case OtherA(other) => OtherAKeeps(net, s, other);
    case OtherB(other) => OtherBKeeps(net, s, other);
    case OtherLedger(height, tx) => OtherLedgerKeeps(net, s, height, tx);
  }

  /**
  Over every regular run: the locked credits cover the synthetic supply and all transfers in
  flight, both ways.
   */
  lemma {:induction false} BridgeSolvent(net: Net, s: State, steps: seq<Step>)
    requires Sound(net) && Inv(net, s) && forall i :: 0 <= i < |steps| ==> Regular(net, steps[i])
    ensures Inv(net, Run(net, s, steps))
    decreases |steps|
  {
    hide Sound, Inv, Apply, Regular;
    if steps != [] {
      if Apply(net, s, steps[0]).Some? {
        StepKeeps(net, s, steps[0]);
      }
      BridgeSolvent(net, Commit(net, s, steps[0]), steps[1..]);
    }
  }

  // ---------------------------------------------------------------------------
  // Where runs start, and what the invariant is good for
  // ---------------------------------------------------------------------------

  /** A bridge that was set up and not used: no message of a router, and no supply. */
  ghost predicate Unused(net: Net, s: State) {
    && Frame(net, s) && TokenSupply.Supply(s.ledger, net.token) == 0
    && (forall k :: k in s.a.box.dispatchEvents ==> s.a.box.dispatchEvents[k].sender != AddressBytes(net, net.routerA))
    && (forall k :: k in s.b.box.dispatchEvents ==> s.b.box.dispatchEvents[k].sender != AddressBytes(net, net.routerB))
  }

  lemma UnusedIsSolvent(net: Net, s: State)
    requires Unused(net, s)
    ensures Inv(net, s)
  {
    hide Frame;
    SumZero(s.a.box.dispatchEvents, Weights(net.a.mailbox, AddressBytes(net, net.routerA), s.b.box.deliveries));
    SumZero(s.b.box.dispatchEvents, Weights(net.a.mailbox, AddressBytes(net, net.routerB), s.a.box.deliveries));
  }
}
