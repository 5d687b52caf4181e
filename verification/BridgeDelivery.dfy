/**
What the solvency of the bridge is good for: every transfer that was sent can be delivered, exactly
when stated, and delivers what was sent.
 */
module BridgeDelivery {
  import opened Prelude
  import opened Sums
  import opened Bytes
  import opened Messages
  import opened RouterAmounts
  import opened Bridge
  import opened BridgeSolvency
  import Credits
  import Conservation
  import Mailbox
  import DispatchProxy
  import TokenRegistry
  import TokenSupply
  import TokenAuthorization
  import TokenMoves
  import Hooks
  import GasPayments

  // ---------------------------------------------------------------------------
  // Deliveries to a router
  // ---------------------------------------------------------------------------

  /** Entry `k` of a dispatch log, relayed with the signatures it needs. */
  function RelayOf(origin: Mailbox.State, k: nat, height: nat): Relay
    requires k in origin.dispatchEvents && k in origin.dispatchIds
  {
    Relay(height, origin.dispatchEvents[k], ENCODED, origin.dispatchIds[k], true)
  }

  /** Entry `k` was sent by `sender` and not delivered. */
  ghost predicate Open(origin: Mailbox.State, k: nat, sender: seq<nat>, delivered: Deliveries) {
    && k in origin.dispatchEvents && k in origin.dispatchIds
    && origin.dispatchEvents[k].sender == sender && origin.dispatchIds[k] !in delivered
  }

  /** The mailbox takes an open message unless its counter is used up. */
  lemma OpenIsReceived(env: DispatchProxy.Env, box: Mailbox.State, domain: nat, router: Address,
                       other: DispatchProxy.Env,
                       origin: Mailbox.State, originDomain: nat, sender: seq<nat>, k: nat, height: nat)
    requires env.mailbox == other.mailbox && Wired(env, box, domain) && Wired(other, origin, originDomain)
    requires Routed(origin.dispatchEvents, sender, domain, env.mailbox.bytesOf(router))
             && Open(origin, k, sender, box.deliveries)
    ensures |origin.dispatchEvents[k].body| == 16 && WellTyped(origin.dispatchEvents[k])
    ensures Receive(env.mailbox, box, router, originDomain, sender, origin.dispatchIds.Values,
                    RelayOf(origin, k, height)).Some?
            <==> box.mailbox.value.processCount + 1 < U32
  {
    hide Encode;
    LoggedAreTyped(env.mailbox, origin, k);
    var m := origin.dispatchEvents[k];
    EncodeLength(m);
    assert Encode(m)[..ENCODED] == Encode(m);
    assert origin.dispatchIds[k] in origin.dispatchIds.Values;
  }

  // ---------------------------------------------------------------------------
  // Redemptions
  // ---------------------------------------------------------------------------

  /** The relay of message `k` of chain B. */
  function Redemption(s: State, k: nat, height: nat): Relay
    requires k in s.b.box.dispatchEvents && k in s.b.box.dispatchIds
  {
    RelayOf(s.b.box, k, height)
  }

  /** Message `k` of chain B is a redemption that was not delivered. */
  ghost predicate Undelivered(net: Net, s: State, k: nat) {
    Open(s.b.box, k, AddressBytes(net, net.routerB), s.a.box.deliveries)
  }

  /** The funds are there, and the recipient has room for them as long as all credits together are a `u64`. */
  lemma FundsSuffice(c: Credits.State, router: Address, to: Address, amount: nat)
    requires amount <= Credits.Balance(c, router) && Conservation.Total(c) < U64
             && (amount == 0 ==> router in c.account)
    ensures Credits.Transfer(c, router, to, amount).Some?
  {
    if to == router {
      SumAtLeast(c.account, router, Conservation.Coins());
    } else {
      SumAtLeastTwo(c.account, router, to, Conservation.Coins());
    }
  }

  function RecipientOf(net: Net, m: Message): Option<Address> {
    if |m.body| == 16 then net.addressAt(m.body[0], m.body[1]) else None
  }

  /** What a redemption is worth on chain A. */
  function WorthOf(net: Net, m: Message): nat {
    PowPositive(10, net.scale);
    if |m.body| == 16 then Wire(m.body[2], m.body[3]) / Pow(10, net.scale) else 0
  }

  lemma RedemptionCovered(net: Net, s: State, k: nat)
    requires Sound(net) && Inv(net, s) && Undelivered(net, s, k)
    ensures WorthOf(net, s.b.box.dispatchEvents[k]) <= Locked(net, s) < U64
  {
    hide Covered, InFlight, Mailbox.Inv, TokenSupply.Inv, Injective, Wire, Governed, Pow, Encode, Routed, WellTyped;
    var m := s.b.box.dispatchEvents[k];
    LoggedAreTyped(net.a.mailbox, s.b.box, k);
    if |m.body| == 16 {
      var w := Wire(m.body[2], m.body[3]);
      FlightAtLeast(net.a.mailbox, AddressBytes(net, net.routerB), s.b.box.dispatchEvents, s.a.box.deliveries, k);
      var flight := FlightAB(net, s) + FlightBA(net, s);
      PowPositive(10, net.scale);
      ReleaseCovered(net, Locked(net, s), TokenSupply.Supply(s.ledger, net.token), flight - w, w);
    }
  }

  /** The recipient can be decoded, the counter is free, and there is an account to take nothing from. */
  ghost predicate Releasable(net: Net, s: State, k: nat)
    requires k in s.b.box.dispatchEvents && s.a.box.mailbox.Some?
  {
    var m := s.b.box.dispatchEvents[k];
    && RecipientOf(net, m).Some?
    && s.a.box.mailbox.value.processCount + 1 < U32
    && (WorthOf(net, m) == 0 ==> net.routerA in s.a.books.credits.account)
  }

  /**
  In every reachable state an undelivered redemption is payable exactly when its recipient can be
  decoded, the process counter is free and, if it is worth nothing, the router has an account at
  all. Its worth is never the obstacle, and `process` moves exactly the floor of the wire amount
  over the scale.
   */
  lemma RedemptionPayable(net: Net, s: State, k: nat, height: nat)
    requires Sound(net) && Inv(net, s) && Undelivered(net, s, k) && Conservation.Total(s.a.books.credits) < U64
    ensures ApplyRelease(net, s, Redemption(s, k, height)).Some? <==> Releasable(net, s, k)
    ensures Releasable(net, s, k) ==>
              Some(ApplyRelease(net, s, Redemption(s, k, height)).value.a.books.credits)
              == Credits.Transfer(s.a.books.credits, net.routerA, RecipientOf(net, s.b.box.dispatchEvents[k]).value,
                                  WorthOf(net, s.b.box.dispatchEvents[k]))
  {
    hide Receive, Credits.Transfer, NativeInbound, Covered, InFlight, Mailbox.Inv, TokenSupply.Inv, Injective, Wire,
        Governed, Genuine, Pow, Encode;
    OpenIsReceived(net.a, s.a.box, net.domainA, net.routerA, net.b, s.b.box, net.domainB,
                   AddressBytes(net, net.routerB), k, height);
    var m := s.b.box.dispatchEvents[k];
    RedemptionCovered(net, s, k);
    NativeInboundExact(net.scale, m.body[2], m.body[3]);
    if RecipientOf(net, m).Some? {
      var to := RecipientOf(net, m).value;
      if WorthOf(net, m) == 0 && net.routerA !in s.a.books.credits.account {
        NothingToTake(s.a.books.credits, net.routerA, to, WorthOf(net, m));
      } else {
        FundsSuffice(s.a.books.credits, net.routerA, to, WorthOf(net, m));
      }
    }
  }

  lemma NothingToTake(c: Credits.State, router: Address, to: Address, amount: nat)
    requires router !in c.account
    ensures Credits.Transfer(c, router, to, amount).None?
  {
  }

  // ---------------------------------------------------------------------------
  // Locks
  // ---------------------------------------------------------------------------

  /** Message `k` of chain A is a lock that was not delivered. */
  ghost predicate Pending(net: Net, s: State, k: nat) {
    Open(s.a.box, k, AddressBytes(net, net.routerA), s.b.box.deliveries)
  }

  /** What a lock is worth in units of the synthetic token. */
  function MintedBy(net: Net, m: Message): nat {
    if |m.body| == 16 then FromWire(net.local, net.remote, Wire(m.body[2], m.body[3])) else 0
  }

  ghost predicate Mintable(net: Net, s: State, k: nat)
    requires k in s.a.box.dispatchEvents && s.b.box.mailbox.Some? && net.token in s.ledger.tokens
  {
    var m, token := s.a.box.dispatchEvents[k], s.ledger.tokens[net.token];
    && RecipientOf(net, m).Some?
    && s.b.box.mailbox.value.processCount + 1 < U32
    && token.supply + MintedBy(net, m) <= token.maxSupply
  }

  /** Minting by the admin fails for one reason only: the maximum supply. */
  lemma MintSucceedsIff(env: TokenRegistry.Env, s: TokenRegistry.State, height: nat, token: TokenRegistry.TokenId,
                        router: Address, to: Address, amount: nat, until: nat)
    requires Governed(s, token, router) && TokenSupply.Inv(s)
    ensures TokenRegistry.Apply(env, s, height, TokenRegistry.MintPublic(router, token, to, amount, until)).Some?
            <==> s.tokens[token].supply + amount <= s.tokens[token].maxSupply
  {
    hide TokenRegistry.Credit, TokenRegistry.ApplyAdmin;
    if s.tokens[token].supply + amount <= s.tokens[token].maxSupply {
      var supply: nat := s.tokens[token].supply + amount;
      var s1 := TokenRegistry.SetSupply(s, token, supply);
      TokenSupply.SupplyShift(s, token, supply);
      TokenSupply.SupplyDisciplined(s, token, supply);
      TokenAuthorization.InTransit(s, s1, token, amount);
      TokenAuthorization.CreditFits(s1, TokenRegistry.Owner(to, token), amount, until);
    }
  }

  /**
  In every reachable state an undelivered lock can be minted exactly when its recipient can be
  decoded, the process counter is free and the token's maximum supply leaves room.
   */
  lemma LockMintableIff(net: Net, s: State, k: nat, height: nat)
    requires Sound(net) && Inv(net, s) && Pending(net, s, k)
    ensures ApplyMint(net, s, RelayOf(s.a.box, k, height)).Some? <==> Mintable(net, s, k)
    ensures Mintable(net, s, k) ==>
              Some(ApplyMint(net, s, RelayOf(s.a.box, k, height)).value.ledger)
              == TokenRegistry.Apply(net.registry, s.ledger, height,
                                     TokenRegistry.MintPublic(net.routerB, net.token,
                                                              RecipientOf(net, s.a.box.dispatchEvents[k]).value,
                                                              MintedBy(net, s.a.box.dispatchEvents[k]),
                                                              TokenRegistry.FOREVER))
  {
    hide Receive, TokenRegistry.Apply, Inbound, Solvent, Mailbox.Inv, TokenSupply.Inv, Injective, Wire, FromWire,
        Governed, Genuine, Encode;
    OpenIsReceived(net.b, s.b.box, net.domainB, net.routerB, net.a, s.a.box, net.domainA,
                   AddressBytes(net, net.routerA), k, height);
    var m := s.a.box.dispatchEvents[k];
    InboundExact(net.local, net.remote, m.body[2], m.body[3]);
    MaximumFits(s.ledger, net.token, net.routerB);
    if RecipientOf(net, m).Some? {
      MintSucceedsIff(net.registry, s.ledger, height, net.token, net.routerB, RecipientOf(net, m).value,
                      MintedBy(net, m), TokenRegistry.FOREVER);
    }
  }

  lemma MaximumFits(s: TokenRegistry.State, token: TokenRegistry.TokenId, router: Address)
    requires Governed(s, token, router) && TokenSupply.Inv(s)
    ensures token in s.tokens && s.tokens[token].supply <= s.tokens[token].maxSupply < U128
  {
  }

  /** A lock that is worth 2^128 or more units of the token is lost: no relay of it is ever accepted. */
  lemma TooLargeNeverMints(net: Net, s: State, r: Relay)
    requires Sound(net) && WellTyped(r.message) && MintedBy(net, r.message) >= U128
    ensures ApplyMint(net, s, r).None?
  {
    hide Receive, TokenRegistry.Apply, Inbound, Wire, FromWire, Injective;
    InboundExact(net.local, net.remote, r.message.body[2], r.message.body[3]);
  }

  /**
  If the synthetic token has no more decimals than the wire and the maximum supply that `init`
  registers, the supply leaves room for every undelivered lock of every reachable state.
   */
  lemma RoomForLocks(net: Net, s: State, k: nat)
    requires Sound(net) && Inv(net, s) && Pending(net, s, k) && net.local <= net.remote
    requires s.ledger.tokens[net.token].maxSupply == U128 - 1
    ensures var token := s.ledger.tokens[net.token];
            token.supply + MintedBy(net, s.a.box.dispatchEvents[k]) <= token.maxSupply
  {
    hide InFlight, Mailbox.Inv, TokenSupply.Inv, Injective, Wire, Governed, Genuine, Pow, Encode, WellTyped, Routed;
    var m := s.a.box.dispatchEvents[k];
    LoggedAreTyped(net.a.mailbox, s.a.box, k);
    MaximumFits(s.ledger, net.token, net.routerB);
    if |m.body| == 16 {
      FlightAtLeast(net.a.mailbox, AddressBytes(net, net.routerA), s.a.box.dispatchEvents, s.b.box.deliveries, k);
      Pow10Fits(net.scale);
      PowPositive(10, net.remote - net.local);
      PowZero(10);
      RoomInWire(TokenSupply.Supply(s.ledger, net.token), Wire(m.body[2], m.body[3]),
                 FlightAB(net, s) + FlightBA(net, s),
                 Pow(10, net.remote - net.local), Locked(net, s), Pow(10, net.scale));
    }
  }

  lemma RoomInWire(supply: nat, w: nat, flight: nat, q: nat, locked: nat, scale: nat)
    requires 0 < q && w <= flight && locked < U64 && scale < U64 && supply * q + flight <= locked * scale
    ensures supply + w / q < U128
  {
    var x: nat := w / q;
    FloorDown(w, q);
    MulAdd(supply, x, q);
    MulLe(locked, U64 - 1, scale);
    MulLe(scale, U64 - 1, U64 - 1);
    MulLe(1, q, supply + x);
  }

  // ---------------------------------------------------------------------------
  // From one end to the other
  // ---------------------------------------------------------------------------

  lemma NewId(env: Mailbox.Env, box: Mailbox.State, ids: map<nat, Digest>, k: nat, delivered: Deliveries,
              recipient: seq<nat>)
    requires Injective(env.keccak) && Mailbox.Inv(env, box) && box.mailbox.Some? && k in box.dispatchIds
    requires k !in ids && box.dispatchIds == ids[k := box.dispatchIds[k]]
    requires k in box.dispatchEvents && box.dispatchEvents[k].recipient == recipient
    requires Genuine(env, delivered, ids.Values, recipient)
    ensures box.dispatchIds[k] !in delivered
  {
    hide Encode, WellTyped;
    LoggedAreTyped(env, box, k);
    if box.dispatchIds[k] in delivered {
      var j :| j in ids && ids[j] == box.dispatchIds[k];
      assert box.dispatchIds[j] == ids[j];
      IdsDistinct(env, box, k);
      IdsDistinct(env, box, j);
      assert false;
    }
  }

  lemma DispatchLogged(env: DispatchProxy.Env, box: Mailbox.State, domain: nat, height: nat, sender: Address,
                       destination: nat, recipient: seq<nat>, body: seq<nat>)
    requires Wired(env, box, domain)
    requires Mailbox.Apply(env.mailbox, box, height,
                           Mailbox.Dispatch(env.proxy, sender, destination, recipient, body)).Some?
    ensures var box' := Mailbox.Apply(env.mailbox, box, height,
                                      Mailbox.Dispatch(env.proxy, sender, destination, recipient, body)).value;
            var k := box.mailbox.value.nonce;
            && k !in box.dispatchIds && k in box'.dispatchIds
              && box'.dispatchIds == box.dispatchIds[k := box'.dispatchIds[k]]
            && k in box'.dispatchEvents && box'.dispatchEvents[k].sender == env.mailbox.bytesOf(sender)
            && box'.dispatchEvents[k].recipient == recipient && box'.dispatchEvents[k].body == body
  {
    hide Mailbox.DispatchEntry, Mailbox.ProcessLog, Encode;
  }

  /** What a router sends is logged under the next nonce and has not been delivered yet. */
  lemma SendLogged(env: DispatchProxy.Env, c: DispatchProxy.Chain, domain: nat, router: Address, order: Order,
                   destination: nat, recipient: seq<nat>, body: seq<nat>, delivered: Deliveries)
    requires Injective(env.mailbox.keccak) && Wired(env, c.box, domain) && order.signer != router
    requires Mailbox.TypedTx(env.mailbox, Mailbox.Dispatch(env.proxy, router, destination, recipient, body))
    requires Genuine(env.mailbox, delivered, c.box.dispatchIds.Values, recipient)
    requires DispatchProxy.ApplyDispatch(env, c, Send(router, order, destination, recipient, body)).Some?
    ensures var box := DispatchProxy.ApplyDispatch(env, c, Send(router, order, destination, recipient, body)).value.box;
            var k := c.box.mailbox.value.nonce;
            && k in box.dispatchEvents && k in box.dispatchIds && box.dispatchIds[k] !in delivered
            && box.dispatchEvents[k].sender == env.mailbox.bytesOf(router) && box.dispatchEvents[k].body == body
  {
    hide DispatchProxy.ApplyDispatch, Mailbox.Apply, Mailbox.Inv, WellTyped, Grows, Encode, Genuine, Injective;
    DispatchFrame(env, c, Send(router, order, destination, recipient, body), router);
    DispatchBox(env, c.box, domain, order.height, router, destination, recipient, body);
    DispatchLogged(env, c.box, domain, order.height, router, destination, recipient, body);
    var box := DispatchProxy.ApplyDispatch(env, c, Send(router, order, destination, recipient, body)).value.box;
    NewId(env.mailbox, box, c.box.dispatchIds, c.box.mailbox.value.nonce, delivered, recipient);
  }

  /**
  Every burn opens a redemption that is undelivered, names the recipient that the user chose and
  is worth what the burned amount is worth, rounded down.
   */
  lemma BurnIsRedeemable(net: Net, s: State, order: Order)
    requires Sound(net) && Inv(net, s) && TypedOrder(order, net.routerB) && ApplyBurn(net, s, order).Some?
    ensures var s', k := ApplyBurn(net, s, order).value, s.b.box.mailbox.value.nonce;
            && Undelivered(net, s', k) && Pow(10, net.scale) > 0
            && RecipientOf(net, s'.b.box.dispatchEvents[k]) == net.addressAt(order.recipient.0, order.recipient.1)
            && WorthOf(net, s'.b.box.dispatchEvents[k])
               == ToWire(net.local, net.remote, order.amount) / Pow(10, net.scale)
  {
    hide DispatchProxy.ApplyDispatch, TokenRegistry.Apply, Outbound, Solvent, Mailbox.Inv, TokenSupply.Inv, Injective,
        Wire, ToWire, Governed, Genuine, Pow;
    OutboundExact(net.local, net.remote, order.amount);
    PowPositive(10, net.scale);
    var words := Outbound(net.local, net.remote, order.amount).value;
    var body, recipient := Body(order.recipient, words), AddressBytes(net, net.routerA);
    SendLogged(net.b, s.b, net.domainB, net.routerB, order, net.domainA, recipient, body, s.a.box.deliveries);
  }

  /** Every lock sends an undelivered message that names the chosen recipient and exactly the locked value. */
  lemma LockIsMintable(net: Net, s: State, order: Order)
    requires Sound(net) && Inv(net, s) && TypedOrder(order, net.routerA) && order.amount < U64
             && ApplyLock(net, s, order).Some?
    ensures var s', k := ApplyLock(net, s, order).value, s.a.box.mailbox.value.nonce;
            && Pending(net, s', k)
            && RecipientOf(net, s'.a.box.dispatchEvents[k]) == net.addressAt(order.recipient.0, order.recipient.1)
            && WorthOf(net, s'.a.box.dispatchEvents[k]) == order.amount
            && MintedBy(net, s'.a.box.dispatchEvents[k])
               == FromWire(net.local, net.remote, order.amount * Pow(10, net.scale))
  {
    hide DispatchProxy.ApplyDispatch, Credits.Transfer, NativeOutbound, Solvent, Mailbox.Inv, TokenSupply.Inv,
        Injective, Wire, Governed, Genuine, Pow;
    NativeOutboundExact(net.scale, order.amount);
    PowPositive(10, net.scale);
    DivUnique(order.amount * Pow(10, net.scale), Pow(10, net.scale), order.amount, 0);
    var words := NativeOutbound(net.scale, order.amount).value;
    var body, recipient := Body(order.recipient, words), AddressBytes(net, net.routerB);
    SendLogged(net.a, s.a, net.domainA, net.routerA, order, net.domainB, recipient, body, s.b.box.deliveries);
  }

  // ---------------------------------------------------------------------------
  // Who pays
  // ---------------------------------------------------------------------------

  /** The hook of an order: the one it names, or the default one. */
  function HookOf(order: Order): Address {
    if order.customHook == 0 then order.defaultHook else order.customHook
  }

  /** A lock takes the amount and the price of the hooks from the signer, and the router gets exactly the amount. */
  lemma LockTakes(net: Net, s: State, order: Order, a: Address)
    requires Sound(net) && ApplyLock(net, s, order).Some?
    requires order.signer != net.routerA && order.signer != net.a.hooks.self && a != net.a.hooks.self
    ensures var c, c' := s.a.books.credits, ApplyLock(net, s, order).value.a.books.credits;
            var cost := Hooks.AllowanceFor(HookOf(order), order.allowances)
                        + Hooks.AllowanceFor(order.requiredHook, order.allowances);
            Credits.Balance(c', a) + (if a == order.signer then order.amount + cost else 0)
            == Credits.Balance(c, a) + (if a == net.routerA then order.amount else 0)
    ensures ApplyLock(net, s, order).value.b == s.b && ApplyLock(net, s, order).value.ledger == s.ledger
  {
    hide DispatchProxy.ApplyDispatch, Credits.Transfer, NativeOutbound, Hooks.AllowanceFor, Injective;
    var words := NativeOutbound(net.scale, order.amount).value;
    var step := Send(net.routerA, order, net.domainB, net.b.mailbox.bytesOf(net.routerB), Body(order.recipient, words));
    GasPayments.DispatchCosts(net.a, s.a, step, a);
    GasPayments.DispatchCosts(net.a, s.a, step, order.signer);
    var mid := DispatchProxy.ApplyDispatch(net.a, s.a, step).value.books.credits;
    Credits.TransferMoves(mid, order.signer, net.routerA, order.amount);
  }

  /** A burn takes the amount from the signer's holdings of the synthetic token, and from nobody else's. */
  lemma BurnTakes(net: Net, s: State, order: Order, o: TokenRegistry.Owner)
    requires ApplyBurn(net, s, order).Some? && TokenSupply.Inv(s.ledger)
    ensures var l, l' := s.ledger, ApplyBurn(net, s, order).value.ledger;
            TokenMoves.Free(l', o) + TokenAuthorization.Spendable(l', o)
            + (if o == TokenRegistry.Owner(order.signer, net.token) then order.amount else 0)
            == TokenMoves.Free(l, o) + TokenAuthorization.Spendable(l, o)
    ensures TokenMoves.Shielded(ApplyBurn(net, s, order).value.ledger, o) == TokenMoves.Shielded(s.ledger, o)
  {
    hide DispatchProxy.ApplyDispatch, TokenRegistry.Apply, Outbound, TokenSupply.Inv;
    var tx := TokenRegistry.BurnPublic(net.routerB, net.token, order.signer, order.amount);
    TokenMoves.EveryMove(net.registry, s.ledger, order.height, tx, o);
  }
}
