/**
The bridge theorems are about something: an ideal hash, an address format and a fresh bridge that
meet their hypotheses, a transfer there and back, and the two ways in which a transfer can fail.
 */
module BridgeWitness {
  import opened Prelude
  import opened Sums
  import opened Bytes
  import opened Messages
  import opened RouterAmounts
  import opened Bridge
  import opened BridgeSolvency
  import opened BridgeDelivery
  import Credits
  import Hooks
  import Mailbox
  import DispatchProxy
  import TokenRegistry
  import TokenSupply
  import TokenAuthorization
  import Conservation

  // ---------------------------------------------------------------------------
  // A hash without collisions
  // ---------------------------------------------------------------------------

  /** A number for every sequence: the head in the power of two, the tail in the odd factor. */
  function Code(x: seq<nat>): nat {
    if x == [] then 0
    else
      PowPositive(2, x[0]);
      Pow(2, x[0]) * (2 * Code(x[1..]) + 1)
  }

  lemma {:induction false} OddFactor(a: nat, u: nat, b: nat, v: nat)
    requires Pow(2, a) * (2 * u + 1) == Pow(2, b) * (2 * v + 1)
    ensures a == b && u == v
    decreases a + b
  {
    if a > 0 && b > 0 {
      MulAssoc(2, Pow(2, a - 1), 2 * u + 1);
      MulAssoc(2, Pow(2, b - 1), 2 * v + 1);
      OddFactor(a - 1, u, b - 1, v);
    } else if a > 0 {
      MulAssoc(2, Pow(2, a - 1), 2 * u + 1);
    } else if b > 0 {
      MulAssoc(2, Pow(2, b - 1), 2 * v + 1);
    }
  }

  lemma {:induction false} CodeInjective(x: seq<nat>, y: seq<nat>)
    requires Code(x) == Code(y)
    ensures x == y
    decreases |x|
  {
    if x != [] && y != [] {
      OddFactor(x[0], Code(x[1..]), y[0], Code(y[1..]));
      CodeInjective(x[1..], y[1..]);
      assert x == [x[0]] + x[1..] && y == [y[0]] + y[1..];
    } else if x != [] {
      CodePositive(x);
    } else if y != [] {
      CodePositive(y);
    }
  }

  lemma CodePositive(x: seq<nat>)
    requires x != []
    ensures Code(x) > 0
  {
    PowPositive(2, x[0]);
    MulLe(1, Pow(2, x[0]), 2 * Code(x[1..]) + 1);
  }

  function IdealHash(): Keccak {
    (x: seq<nat>) => (0, Code(x))
  }

  function AddressFormat(): Address -> seq<nat> {
    (a: Address) => [if a < 0 then 1 else 0, if a < 0 then -a else a] + seq(30, (i: nat) => 0)
  }

  lemma IdealEnv()
    ensures Injective(IdealHash())
    ensures forall x: Address, y: Address :: AddressFormat()(x) == AddressFormat()(y) ==> x == y
    ensures forall x: Address :: |AddressFormat()(x)| == 32
  {
    forall x: seq<nat>, y: seq<nat> | IdealHash()(x) == IdealHash()(y) ensures x == y {
      CodeInjective(x, y);
    }
    forall x: Address, y: Address | AddressFormat()(x) == AddressFormat()(y) ensures x == y {
      assert AddressFormat()(x)[0] == AddressFormat()(y)[0] && AddressFormat()(x)[1] == AddressFormat()(y)[1];
    }
  }

  // ---------------------------------------------------------------------------
  // A fresh bridge
  // ---------------------------------------------------------------------------

  const SELF: Address := 1
  const PROXY: Address := 2
  const ROUTER_A: Address := 5
  const ROUTER_B: Address := 6
  const TOKEN: TokenRegistry.TokenId := 7
  const HOOK: Address := 8
  const USER: Address := 9

  function IdealNet(scale: nat, local: nat, remote: nat): Net {
    var env := DispatchProxy.Env(Mailbox.Env(IdealHash(), AddressFormat()),
                                 Hooks.Env((p: Hooks.Preimage) => 0, SELF), PROXY);
    Net(env, env, TokenRegistry.Env(3, 4), (x: nat, y: nat) => Some(x), 100, 200, ROUTER_A, ROUTER_B, scale, local,
        remote, TOKEN)
  }

  lemma IdealIsSound(scale: nat, local: nat, remote: nat)
    requires scale <= MAX_NATIVE_SCALE && DecimalsOk(local, remote)
    ensures Sound(IdealNet(scale, local, remote))
  {
    hide Injective;
    IdealEnv();
  }

  /** A mailbox whose two hooks are one noop hook. */
  function FreshBox(domain: nat): Mailbox.State {
    Mailbox.EMPTY.(mailbox := Some(Mailbox.Config(domain, 0, 0, ZERO_ADDRESS, HOOK, HOOK, PROXY, ZERO_ADDRESS)))
  }

  /** The user is the only one with an account. */
  function FreshChain(domain: nat, funds: nat): DispatchProxy.Chain {
    DispatchProxy.Chain(
      FreshBox(domain),
      Hooks.Books(Hooks.EMPTY.(hooks := map[HOOK := Hooks.NOOP]),
                  Credits.State(map[], map[], map[], map[], map[], map[USER := funds], map[], map[], map[], 0)))
  }

  function FreshLedger(): TokenRegistry.State {
    TokenRegistry.EMPTY.(tokens := map[TOKEN := TokenRegistry.Token(6, 0, U128 - 1, ROUTER_B, false, ZERO_ADDRESS)])
  }

  /** `init` of the synthetic router registers the token. */
  lemma FreshLedgerValid(env: TokenRegistry.Env)
    ensures Governed(FreshLedger(), TOKEN, ROUTER_B) && TokenSupply.Inv(FreshLedger())
  {
    var tx := TokenRegistry.RegisterToken(ROUTER_B, TOKEN, 6, U128 - 1, false, ZERO_ADDRESS);
    TokenSupply.EmptyInv();
    TokenSupply.ApplyKeeps(env, TokenRegistry.EMPTY, 0, tx);
    hide TokenSupply.Inv;
    assert TokenRegistry.Apply(env, TokenRegistry.EMPTY, 0, tx) == Some(FreshLedger());
  }

  function Fresh(funds: nat): State {
    State(FreshChain(100, funds), FreshChain(200, 0), FreshLedger())
  }

  lemma FreshWired(env: DispatchProxy.Env, domain: nat)
    requires env.proxy == PROXY && domain < U32
    ensures Wired(env, FreshBox(domain), domain)
  {
  }

  /** There are bridges to which the theorems apply, for every scale and all decimals that `init` admits. */
  lemma BridgeExists(scale: nat, local: nat, remote: nat, funds: nat)
    requires scale <= MAX_NATIVE_SCALE && DecimalsOk(local, remote)
    ensures Sound(IdealNet(scale, local, remote)) && Unused(IdealNet(scale, local, remote), Fresh(funds))
    ensures Inv(IdealNet(scale, local, remote), Fresh(funds))
  {
    hide TokenSupply.Inv, Injective, Governed, Wired, Sound;
    var net := IdealNet(scale, local, remote);
    IdealIsSound(scale, local, remote);
    FreshWired(net.a, 100);
    FreshWired(net.b, 200);
    FreshLedgerValid(net.registry);
    UnusedIsSolvent(net, Fresh(funds));
  }

  lemma FreshTotal(funds: nat)
    ensures Conservation.Total(Fresh(funds).a.books.credits) == funds
  {
    var none: map<Address, nat> := map[];
    SumUpdate(none, USER, funds, Conservation.Coins());
    assert none[USER := funds] == map[USER := funds];
  }

  // ---------------------------------------------------------------------------
  // Steps that succeed
  // ---------------------------------------------------------------------------

  /** The user sends `amount` to itself on the other chain. */
  function OrderFor(amount: nat): Order {
    Order(0, USER, (USER, 0), amount, HOOK, HOOK, ZERO_ADDRESS, 0, [])
  }

  /** Nothing but the noop hook stands between the user and the mailbox. */
  ghost predicate Ready(c: DispatchProxy.Chain) {
    && c.box.mailbox.Some? && c.box.mailbox.value.dispatchProxy == PROXY && c.box.mailbox.value.nonce + 1 < U32
    && c.box.mailbox.value.defaultHook == HOOK && c.box.mailbox.value.requiredHook == HOOK
    && HOOK in c.books.hooks.hooks && c.books.hooks.hooks[HOOK] == Hooks.NOOP
    && USER in c.books.credits.account && Conservation.Total(c.books.credits) < U64
  }

  /** A transfer of nothing: balances and the total stay. */
  ghost predicate SameFunds(c: Credits.State, c': Credits.State) {
    && (forall a :: Credits.Balance(c', a) == Credits.Balance(c, a)) && (forall a :: a in c.account ==> a in c'.account)
    && Conservation.Total(c') == Conservation.Total(c)
  }

  lemma TransferKeepsTotal(c: Credits.State, from: Address, to: Address, amount: nat)
    requires Credits.Transfer(c, from, to, amount).Some?
    ensures Conservation.Total(Credits.Transfer(c, from, to, amount).value) == Conservation.Total(c)
  {
    hide Conservation.Total;
    Conservation.DebitTotal(c, from, amount);
    Conservation.CreditTotal(Credits.Debit(c, from, amount).value, to, amount);
  }

  lemma PayNothing(c: Credits.State, to: Address)
    requires USER in c.account && Conservation.Total(c) < U64
    ensures Credits.Transfer(c, USER, to, 0).Some? && SameFunds(c, Credits.Transfer(c, USER, to, 0).value)
  {
    FundsSuffice(c, USER, to, 0);
    TransferKeepsTotal(c, USER, to, 0);
  }

  lemma NoopPostDispatch(env: DispatchProxy.Env, c: DispatchProxy.Chain)
    requires Ready(c) && c.box.mailbox.value.nonce > 0
    requires c.box.mailbox.value.nonce - 1 in c.box.dispatchEvents && c.box.mailbox.value.nonce - 1 in c.box.dispatchIds
    ensures DispatchProxy.ApplyPostDispatch(env, c, USER, PROXY, HOOK, 0, []).Some?
    ensures var c' := DispatchProxy.ApplyPostDispatch(env, c, USER, PROXY, HOOK, 0, []).value;
            c'.box == c.box && c'.books.hooks == c.books.hooks && SameFunds(c.books.credits, c'.books.credits)
  {
    hide Credits.Transfer, SameFunds;
    PayNothing(c.books.credits, env.hooks.self);
  }

  lemma NoopDispatch(env: DispatchProxy.Env, c: DispatchProxy.Chain, router: Address, amount: nat, destination: nat,
                     recipient: seq<nat>, body: seq<nat>)
    requires env.proxy == PROXY && Ready(c) && c.box.mailbox.value.nonce + 2 < U32
    ensures DispatchProxy.ApplyDispatch(env, c, Send(router, OrderFor(amount), destination, recipient, body)).Some?
    ensures var c' := DispatchProxy.ApplyDispatch(env, c,
                                                  Send(router, OrderFor(amount), destination, recipient, body)).value;
            && SameFunds(c.books.credits, c'.books.credits)
            && c'.box.mailbox == Some(c.box.mailbox.value.(nonce := c.box.mailbox.value.nonce + 1))
  {
    hide DispatchProxy.ApplyPostDispatch, Encode, Conservation.Total;
    var box := Mailbox.Apply(env.mailbox, c.box, 0,
                             Mailbox.Dispatch(PROXY, router, destination, recipient, body)).value;
    var c0 := c.(box := box);
    NoopPostDispatch(env, c0);
    var c1 := DispatchProxy.ApplyPostDispatch(env, c0, USER, PROXY, HOOK, 0, []).value;
    NoopPostDispatch(env, c1);
  }

  lemma LockSucceeds(net: Net, s: State, amount: nat)
    requires net.a.proxy == PROXY && net.scale <= MAX_NATIVE_SCALE && amount < U64 && net.routerA != USER
    requires Ready(s.a) && s.a.box.mailbox.value.nonce + 2 < U32 && amount <= Credits.Balance(s.a.books.credits, USER)
    ensures ApplyLock(net, s, OrderFor(amount)).Some?
    ensures var s' := ApplyLock(net, s, OrderFor(amount)).value;
            && s'.b == s.b && s'.ledger == s.ledger
            && Conservation.Total(s'.a.books.credits) == Conservation.Total(s.a.books.credits)
            && net.routerA in s'.a.books.credits.account
            && s'.a.box.mailbox == Some(s.a.box.mailbox.value.(nonce := s.a.box.mailbox.value.nonce + 1))
  {
    hide DispatchProxy.ApplyDispatch, NativeOutbound, Conservation.Total, Wire, Pow;
    NativeOutboundExact(net.scale, amount);
    var words := NativeOutbound(net.scale, amount).value;
    var recipient, body := net.b.mailbox.bytesOf(net.routerB), Body((USER, 0), words);
    NoopDispatch(net.a, s.a, net.routerA, amount, net.domainB, recipient, body);
    var a := DispatchProxy.ApplyDispatch(net.a, s.a,
                                         Send(net.routerA, OrderFor(amount), net.domainB, recipient, body)).value;
    FundsSuffice(a.books.credits, USER, net.routerA, amount);
    TransferKeepsTotal(a.books.credits, USER, net.routerA, amount);
  }

  lemma BurnSucceeds(net: Net, s: State, amount: nat)
    requires net.b.proxy == PROXY && DecimalsOk(net.local, net.remote) && amount < U128
    requires Ready(s.b) && s.b.box.mailbox.value.nonce + 2 < U32
    requires Governed(s.ledger, net.token, net.routerB) && amount <= TokenSupply.Supply(s.ledger, net.token)
    requires amount <= TokenAuthorization.Spendable(s.ledger, TokenRegistry.Owner(USER, net.token))
    ensures ApplyBurn(net, s, OrderFor(amount)).Some? && ApplyBurn(net, s, OrderFor(amount)).value.a == s.a
  {
    hide DispatchProxy.ApplyDispatch, Outbound, Wire, ToWire, TokenRegistry.ApplyAdmin;
    OutboundExact(net.local, net.remote, amount);
    var words := Outbound(net.local, net.remote, amount).value;
    NoopDispatch(net.b, s.b, net.routerB, amount, net.domainA, net.a.mailbox.bytesOf(net.routerA),
                 Body((USER, 0), words));
  }

  // ---------------------------------------------------------------------------
  // What can happen
  // ---------------------------------------------------------------------------

  /**
  A redemption of nothing cannot be delivered while the native router was never credited: burning
  zero on a fresh bridge sends a message whose release reverts.
   */
  lemma WorthlessRedemptionFails(funds: nat, height: nat) returns (net: Net, s: State)
    requires funds < U64
    ensures Sound(net) && Unused(net, Fresh(funds)) && ApplyBurn(net, Fresh(funds), OrderFor(0)) == Some(s)
            && Inv(net, s)
    ensures Undelivered(net, s, 0) && ApplyRelease(net, s, Redemption(s, 0, height)).None?
  {
    hide ApplyBurn, ApplyRelease, Sound, Inv, Unused, Governed, Conservation.Total, Pow, Wire, ToWire;
    net := IdealNet(0, 6, 6);
    var s0 := Fresh(funds);
    BridgeExists(0, 6, 6, funds);
    FreshIsReady(funds);
    FreshLedgerValid(net.registry);
    BurnSucceeds(net, s0, 0);
    s := ApplyBurn(net, s0, OrderFor(0)).value;
    BurnKeeps(net, s0, OrderFor(0));
    BurnIsRedeemable(net, s0, OrderFor(0));
    NothingIsWorthless(net);
    FreshTotal(funds);
    RedemptionPayable(net, s, 0, height);
  }

  lemma NothingIsWorthless(net: Net)
    requires net.local == net.remote
    ensures Pow(10, net.scale) > 0 && ToWire(net.local, net.remote, 0) / Pow(10, net.scale) == 0
  {
    PowPositive(10, net.scale);
  }

  lemma FreshIsReady(funds: nat)
    requires funds < U64
    ensures Ready(Fresh(funds).a) && Ready(Fresh(funds).b)
  {
    FreshTotal(funds);
    FreshTotal(0);
  }

  lemma MintedIsSpendable(env: TokenRegistry.Env, s: TokenRegistry.State, height: nat, router: Address, to: Address,
                          amount: nat, until: nat)
    requires TOKEN in s.tokens && !s.tokens[TOKEN].external
    requires TokenRegistry.Apply(env, s, height, TokenRegistry.MintPublic(router, TOKEN, to, amount, until)).Some?
    ensures var s' := TokenRegistry.Apply(env, s, height,
                                          TokenRegistry.MintPublic(router, TOKEN, to, amount, until)).value;
            && TokenAuthorization.Spendable(s', TokenRegistry.Owner(to, TOKEN)) >= amount
            && TokenSupply.Supply(s', TOKEN) == TokenSupply.Supply(s, TOKEN) + amount
  {
    hide TokenRegistry.ApplyAdmin, TokenRegistry.HasRole;
  }

  /** `amount` was locked on a fresh bridge and is on its way. */
  ghost predicate Sent(net: Net, s: State, amount: nat) {
    && Inv(net, s) && Pending(net, s, 0) && s.b == Fresh(0).b && s.ledger == FreshLedger()
    && RecipientOf(net, s.a.box.dispatchEvents[0]) == Some(USER) && MintedBy(net, s.a.box.dispatchEvents[0]) == amount
    && CanPay(s)
  }

  /** Chain A can release what comes back. */
  ghost predicate CanPay(s: State) {
    && ROUTER_A in s.a.books.credits.account && Conservation.Total(s.a.books.credits) < U64
    && s.a.box.mailbox.Some? && s.a.box.mailbox.value.processCount == 0
  }

  lemma LockOnFresh(scale: nat, local: nat, remote: nat, funds: nat, amount: nat)
    requires scale <= MAX_NATIVE_SCALE && DecimalsOk(local, remote) && amount <= funds < U64
    ensures var net := IdealNet(scale, local, remote);
            && Sound(net) && Unused(net, Fresh(funds)) && ApplyLock(net, Fresh(funds), OrderFor(amount)).Some?
            && Sent(net, ApplyLock(net, Fresh(funds), OrderFor(amount)).value,
                    FromWire(local, remote, amount * Pow(10, scale)))
  {
    hide ApplyLock, Sound, Inv, Unused, Conservation.Total, FromWire, Wire, Pow;
    var net := IdealNet(scale, local, remote);
    BridgeExists(scale, local, remote, funds);
    FreshIsReady(funds);
    FreshTotal(funds);
    LockSucceeds(net, Fresh(funds), amount);
    LockKeeps(net, Fresh(funds), OrderFor(amount));
    LockIsMintable(net, Fresh(funds), OrderFor(amount));
  }

  lemma ReceivedConfig(env: Mailbox.Env, box: Mailbox.State, router: Address, origin: nat, sender: seq<nat>,
                       dispatched: set<Digest>, r: Relay)
    requires Receive(env, box, router, origin, sender, dispatched, r).Some?
    ensures box.mailbox.Some?
    ensures Receive(env, box, router, origin, sender, dispatched, r).value.mailbox
         == Some(box.mailbox.value.(processCount := box.mailbox.value.processCount + 1))
  {
    hide Encode;
  }

  /** `amount` was minted for the user. */
  ghost predicate Arrived(net: Net, s: State, amount: nat) {
    && Inv(net, s) && Ready(s.b) && s.b.box.mailbox.value.nonce == 0 && CanPay(s)
    && amount <= TokenSupply.Supply(s.ledger, TOKEN)
    && amount <= TokenAuthorization.Spendable(s.ledger, TokenRegistry.Owner(USER, TOKEN))
  }

  lemma MintOnFresh(net: Net, s: State, amount: nat, height: nat)
    requires net == IdealNet(0, 6, 6) && Sound(net) && Sent(net, s, amount) && amount < U64
    ensures ApplyMint(net, s, RelayOf(s.a.box, 0, height)).Some?
    ensures Arrived(net, ApplyMint(net, s, RelayOf(s.a.box, 0, height)).value, amount)
  {
    hide Sound, Inv, Conservation.Total, MintedBy, Wire, FromWire, TokenRegistry.Apply, Receive, Inbound;
    var r := RelayOf(s.a.box, 0, height);
    InvWired(net, s);
    LockMintableIff(net, s, 0, height);
    LoggedIsTyped(net, s);
    MintKeeps(net, s, r);
    FreshTotal(0);
    MintedIsSpendable(net.registry, s.ledger, height, ROUTER_B, USER, amount, TokenRegistry.FOREVER);
    ReceivedConfig(net.b.mailbox, s.b.box, net.routerB, net.domainA, net.a.mailbox.bytesOf(net.routerA),
                   s.a.box.dispatchIds.Values, r);
  }

  lemma InvWired(net: Net, s: State)
    requires Inv(net, s)
    ensures s.a.box.mailbox.Some? && s.b.box.mailbox.Some? && Governed(s.ledger, net.token, net.routerB)
  {
    hide Mailbox.Inv, Solvent;
  }

  lemma LoggedIsTyped(net: Net, s: State)
    requires Inv(net, s) && 0 in s.a.box.dispatchEvents
    ensures WellTyped(s.a.box.dispatchEvents[0])
  {
    hide Solvent, Mailbox.Inv;
    LoggedAreTyped(net.a.mailbox, s.a.box, 0);
  }

  lemma BurnBack(net: Net, s: State, amount: nat)
    requires net == IdealNet(0, 6, 6) && Sound(net) && Arrived(net, s, amount) && amount < U64
    ensures ApplyBurn(net, s, OrderFor(amount)).Some?
    ensures var s' := ApplyBurn(net, s, OrderFor(amount)).value;
            && Inv(net, s') && Undelivered(net, s', 0) && s'.a == s.a
            && RecipientOf(net, s'.b.box.dispatchEvents[0]) == Some(USER)
  {
    hide ApplyBurn, Sound, Inv, Conservation.Total, Wire, ToWire, Pow;
    InvWired(net, s);
    BurnSucceeds(net, s, amount);
    BurnKeeps(net, s, OrderFor(amount));
    BurnIsRedeemable(net, s, OrderFor(amount));
  }

  lemma ReleaseBack(net: Net, s: State, height: nat)
    requires net == IdealNet(0, 6, 6) && Sound(net) && Inv(net, s) && CanPay(s) && Undelivered(net, s, 0)
    requires RecipientOf(net, s.b.box.dispatchEvents[0]) == Some(USER)
    ensures ApplyRelease(net, s, Redemption(s, 0, height)).Some?
  {
    hide ApplyRelease, Sound, Inv, Conservation.Total, Wire, Pow;
    RedemptionPayable(net, s, 0, height);
  }

  lemma EqualDecimals(amount: nat)
    ensures Pow(10, 0) == 1 && FromWire(6, 6, amount * Pow(10, 0)) == amount
  {
  }

  /**
  A transfer there and back on a fresh bridge: lock, mint, burn and release all succeed, for every
  amount that the user has.
   */
  lemma RoundTripSucceeds(funds: nat, amount: nat, height: nat) returns (net: Net, s1: State, s2: State, s3: State)
    requires amount <= funds < U64
    ensures Sound(net) && Unused(net, Fresh(funds))
    ensures ApplyLock(net, Fresh(funds), OrderFor(amount)) == Some(s1) && Pending(net, s1, 0)
    ensures ApplyMint(net, s1, RelayOf(s1.a.box, 0, height)) == Some(s2)
    ensures ApplyBurn(net, s2, OrderFor(amount)) == Some(s3) && Undelivered(net, s3, 0)
    ensures ApplyRelease(net, s3, Redemption(s3, 0, height)).Some?
  {
    hide ApplyLock, ApplyMint, ApplyBurn, ApplyRelease, Sound, Inv, Unused, Conservation.Total;
    net := IdealNet(0, 6, 6);
    EqualDecimals(amount);
    LockOnFresh(0, 6, 6, funds, amount);
    s1 := ApplyLock(net, Fresh(funds), OrderFor(amount)).value;
    MintOnFresh(net, s1, amount, height);
    s2 := ApplyMint(net, s1, RelayOf(s1.a.box, 0, height)).value;
    BurnBack(net, s2, amount);
    s3 := ApplyBurn(net, s2, OrderFor(amount)).value;
    ReleaseBack(net, s3, height);
  }

  /** A hundred microcredits at the largest scale, for a token with 18 more decimals than the wire. */
  lemma HundredIsTooMuch()
    ensures FromWire(18, 0, 100 * Pow(10, 19)) >= U128
  {
    PowAdd(10, 19, 18);
    PowAdd(10, 18, 19);
    PowAdd(10, 10, 9);
    PowAdd(10, 9, 9);
    assert Pow(10, 9) == 1_000_000_000 && Pow(10, 10) == 10_000_000_000;
  }

  /**
  Locked credits can be stranded: with 18 more decimals than the wire and the largest scale, a lock
  of 100 microcredits goes through, and no relay of its message is accepted in any state.
   */
  lemma StrandedLock(s: State, r: Relay) returns (net: Net, s1: State)
    ensures Sound(net) && Unused(net, Fresh(100)) && ApplyLock(net, Fresh(100), OrderFor(100)) == Some(s1)
            && Pending(net, s1, 0)
    ensures r.message == s1.a.box.dispatchEvents[0] ==> ApplyMint(net, s, r).None?
  {
    hide ApplyLock, ApplyMint, Sound, Inv, Unused, Conservation.Total, MintedBy, FromWire, Pow;
    net := IdealNet(19, 18, 0);
    HundredIsTooMuch();
    LockOnFresh(19, 18, 0, 100, 100);
    s1 := ApplyLock(net, Fresh(100), OrderFor(100)).value;
    LoggedIsTyped(net, s1);
    if r.message == s1.a.box.dispatchEvents[0] {
      TooLargeNeverMints(net, s, r);
    }
  }
}
