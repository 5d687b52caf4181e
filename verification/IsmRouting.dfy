/**
`ism_manager.aleo`: registration of ISMs, the mutable route graph, and `verify`, which follows
routes for a fixed number of unrolled steps. The reference is resolution without a bound.
 */
module IsmRouting {
  import opened Prelude

  const ROUTING: nat := 1
  const MULTISIG: nat := 5
  const NOOP: nat := 6
  const SLOTS: nat := 6

  /** The number of nodes `verify` checks; the node after them is only looked up. */
  const CHECKED: nat := 4

  datatype Multisig = Multisig(validators: seq<nat>, count: nat, threshold: nat, nonce: nat)
  datatype RoutingIsm = RoutingIsm(owner: Address, nonce: nat)

  /** What the address of an ISM is the hash of. */
  datatype Preimage =
    | NoopImage(nonce: nat)
    | MultisigImage(ism: Multisig, nonce: nat)
    | RoutingImage(owner: Address, nonce: nat)

  /** `signed(ism, i)`: the signature in slot `i` of the metadata verifies for validator `i`. */
  datatype Env = Env(addressOf: Preimage -> Address, signed: (Multisig, nat) -> bool)

  datatype State = State(
    nonce: nat,
    isms: map<Address, nat>,
    routing: map<Address, RoutingIsm>,
    routes: map<(Address, nat), Address>,
    multisigs: map<Address, Multisig>)

  const EMPTY: State := State(0, map[], map[], map[], map[])

  datatype Tx =
    | InitNoop
    | InitMultisig(validators: seq<nat>, count: nat, threshold: nat)
    | InitRouting(caller: Address)
    | SetDomain(caller: Address, ism: Address, domain: nat, target: Address)
    | RemoveDomain(caller: Address, ism: Address, domain: nat)
    | TransferOwnership(caller: Address, ism: Address, owner: Address)

  /** The owner of a routing ISM. */
  predicate Owns(s: State, caller: Address, ism: Address) {
    ism in s.routing && s.routing[ism].owner == caller
  }

  function Apply(env: Env, s: State, tx: Tx): Option<State> {
    match tx
    case InitNoop =>
      var a := env.addressOf(NoopImage(s.nonce));
      if a in s.isms || s.nonce + 1 >= U32 then None
      else Some(s.(nonce := s.nonce + 1, isms := s.isms[a := NOOP]))
    case InitMultisig(validators, count, threshold) =>
      var ism := Multisig(validators, count, threshold, s.nonce);
      var a := env.addressOf(MultisigImage(ism, s.nonce));
      if threshold == 0 || threshold > count || count > SLOTS || a in s.multisigs || s.nonce + 1 >= U32 then None
      else Some(s.(nonce := s.nonce + 1, isms := s.isms[a := MULTISIG], multisigs := s.multisigs[a := ism]))
    case InitRouting(caller) =>
      var a := env.addressOf(RoutingImage(caller, s.nonce));
      if a in s.routing || s.nonce + 1 >= U32 then None
      else Some(s.(nonce := s.nonce + 1, isms := s.isms[a := ROUTING],
                   routing := s.routing[a := RoutingIsm(caller, s.nonce)]))
    case SetDomain(caller, ism, domain, target) =>
      if Owns(s, caller, ism) then Some(s.(routes := s.routes[(ism, domain) := target])) else None
    case RemoveDomain(caller, ism, domain) =>
      if Owns(s, caller, ism) then Some(s.(routes := s.routes - {(ism, domain)})) else None
    case TransferOwnership(caller, ism, owner) =>
      if Owns(s, caller, ism) then Some(s.(routing := s.routing[ism := s.routing[ism].(owner := owner)])) else None
  }

  function Run(env: Env, s: State, txs: seq<Tx>): State
    decreases |txs|
  {
    if txs == [] then s
    else Run(env, match Apply(env, s, txs[0]) case Some(s') => s' case None => s, txs[1..])
  }

  // ---------------------------------------------------------------------------
  // Reachable route graphs
  // ---------------------------------------------------------------------------

  ghost predicate Injective(env: Env) {
    forall p, q :: env.addressOf(p) == env.addressOf(q) ==> p == q
  }

  /** Each registered address has one kind, data of that kind, and routes only if it routes. */
  ghost predicate Kinds(s: State) {
    && (forall a :: a in s.isms ==> s.isms[a] == ROUTING || s.isms[a] == MULTISIG || s.isms[a] == NOOP)
    && (forall a :: a in s.routing <==> a in s.isms && s.isms[a] == ROUTING)
    && (forall a :: a in s.multisigs <==> a in s.isms && s.isms[a] == MULTISIG)
    && (forall a :: a in s.multisigs ==> 1 <= s.multisigs[a].threshold <= SLOTS)
    && (forall a, d :: (a, d) in s.routes ==> a in s.routing)
  }

  /** No address was derived from a nonce that is still to come. */
  ghost predicate Derived(env: Env, s: State) {
    forall p: Preimage :: env.addressOf(p) in s.isms ==> p.nonce < s.nonce
  }

  ghost predicate Inv(env: Env, s: State) {
    Kinds(s) && Derived(env, s)
  }

  lemma ApplyKeeps(env: Env, s: State, tx: Tx)
    requires Injective(env) && Inv(env, s) && Apply(env, s, tx).Some?
    ensures Inv(env, Apply(env, s, tx).value)
  {
  }

  /** With collision-free addresses every reachable state is well formed. */
  lemma {:induction false} ReachableKinds(env: Env, s: State, txs: seq<Tx>)
    requires Injective(env) && Inv(env, s)
    ensures Inv(env, Run(env, s, txs))
    decreases |txs|
  {
    if txs != [] {
      if Apply(env, s, txs[0]).Some? {
        ApplyKeeps(env, s, txs[0]);
        ReachableKinds(env, Apply(env, s, txs[0]).value, txs[1..]);
      } else {
        ReachableKinds(env, s, txs[1..]);
      }
    }
  }

  // ---------------------------------------------------------------------------
  // verify
  // ---------------------------------------------------------------------------

  /** `get.or_use routes[(a, origin)] a`. */
  function Next(s: State, origin: nat, a: Address): Address {
    GetOr(s.routes, (a, origin), a)
  }

  /** The slots from `i` on that verify. */
  function Signatures(env: Env, ism: Multisig, i: nat): nat
    decreases SLOTS - i
  {
    if i >= SLOTS then 0 else (if env.signed(ism, i) then 1 else 0) + Signatures(env, ism, i + 1)
  }

  /** An ISM that decides by itself accepts. */
  predicate Accepts(env: Env, s: State, a: Address) {
    a in s.isms
    && (s.isms[a] == NOOP
        || (s.isms[a] == MULTISIG && a in s.multisigs
          && Signatures(env, s.multisigs[a], 0) >= s.multisigs[a].threshold))
  }

  predicate Routes(s: State, a: Address) {
    a in s.isms && s.isms[a] == ROUTING
  }

  /** The finalize block of `verify`, its four copies of the check folded into a loop. */
  method Verify(env: Env, s: State, origin: nat, ism: Address) returns (ok: bool)
    ensures ok == Verdict(env, s, origin, ism)
  {
    var a := ism;
    for i := 0 to CHECKED
      invariant a == Hop(s, origin, ism, i)
      invariant forall j: nat :: j < i ==> Accepts(env, s, Hop(s, origin, ism, j)) || Routes(s, Hop(s, origin, ism, j))
    {
      if a !in s.isms { return false; }
      if s.isms[a] == 5 {
        if a !in s.multisigs { return false; }
        var count := 0;
        for k := 0 to SLOTS
          invariant count + Signatures(env, s.multisigs[a], k) == Signatures(env, s.multisigs[a], 0)
        {
          count := count + if env.signed(s.multisigs[a], k) then 1 else 0;
        }
        if count < s.multisigs[a].threshold { return false; }
      } else if s.isms[a] != 6 && s.isms[a] != 1 {
        return false;
      }
      a := Next(s, origin, a);
    }
    return a in s.isms && s.isms[a] != 1;
  }

  /** The node after `k` hops. */
  function Hop(s: State, origin: nat, a: Address, k: nat): Address {
    if k == 0 then a else Next(s, origin, Hop(s, origin, a, k - 1))
  }

  /** What `verify` computes. */
  ghost predicate Verdict(env: Env, s: State, origin: nat, a: Address) {
    && (forall j: nat :: j < CHECKED ==> Accepts(env, s, Hop(s, origin, a, j)) || Routes(s, Hop(s, origin, a, j)))
    && Hop(s, origin, a, CHECKED) in s.isms && !Routes(s, Hop(s, origin, a, CHECKED))
  }

  // ---------------------------------------------------------------------------
  // Resolution without a bound
  // ---------------------------------------------------------------------------

  /** Resolution leaves the routing ISMs after exactly `k` hops. */
  ghost predicate ResolvesAt(s: State, origin: nat, a: Address, k: nat) {
    && (forall j: nat :: j < k ==> Routes(s, Hop(s, origin, a, j)))
    && !Routes(s, Hop(s, origin, a, k))
  }

  /** The meaning of a route graph: the ISM that resolution ends at accepts. */
  ghost predicate Resolved(env: Env, s: State, origin: nat, a: Address) {
    exists k: nat :: ResolvesAt(s, origin, a, k) && Accepts(env, s, Hop(s, origin, a, k))
  }

  /** An ISM that does not route is its own successor. */
  lemma {:induction false} StaysPut(s: State, origin: nat, a: Address, k: nat, n: nat)
    requires Kinds(s) && k <= n && !Routes(s, Hop(s, origin, a, k))
    ensures Hop(s, origin, a, n) == Hop(s, origin, a, k)
  {
    if k < n {
      StaysPut(s, origin, a, k, n - 1);
    }
  }

  /** Up to three hops, `verify` accepts exactly if the ISM that was resolved accepts. */
  lemma WithinThreeHops(env: Env, s: State, origin: nat, a: Address, k: nat)
    requires Kinds(s) && ResolvesAt(s, origin, a, k) && k < CHECKED
    ensures Verdict(env, s, origin, a) <==> Accepts(env, s, Hop(s, origin, a, k))
  {
    forall j: nat | k <= j <= CHECKED ensures Hop(s, origin, a, j) == Hop(s, origin, a, k) {
      StaysPut(s, origin, a, k, j);
    }
  }

  /** At four hops the ISM is only looked up: `verify` accepts if it is registered at all. */
  lemma AtFourHops(env: Env, s: State, origin: nat, a: Address)
    requires ResolvesAt(s, origin, a, CHECKED)
    ensures Verdict(env, s, origin, a) <==> Hop(s, origin, a, CHECKED) in s.isms
  {
  }

  /** Beyond four hops `verify` rejects. */
  lemma BeyondFourHops(env: Env, s: State, origin: nat, a: Address, k: nat)
    requires ResolvesAt(s, origin, a, k) && k > CHECKED
    ensures !Verdict(env, s, origin, a)
  {
  }

  /** A missing route, or a cycle of any length: resolution never ends and `verify` rejects. */
  lemma NeverResolved(env: Env, s: State, origin: nat, a: Address)
    requires forall k: nat :: !ResolvesAt(s, origin, a, k)
    ensures !Verdict(env, s, origin, a) && !Resolved(env, s, origin, a)
  {
    AllRoute(s, origin, a, CHECKED);
  }

  lemma {:induction false} AllRoute(s: State, origin: nat, a: Address, n: nat)
    requires forall k: nat :: !ResolvesAt(s, origin, a, k)
    ensures forall j: nat :: j <= n ==> Routes(s, Hop(s, origin, a, j))
  {
    if n > 0 {
      AllRoute(s, origin, a, n - 1);
    }
    assert !ResolvesAt(s, origin, a, n);
  }

  /** A routing ISM without a route for the origin never resolves. */
  lemma MissingRouteRejects(env: Env, s: State, origin: nat, a: Address)
    requires Routes(s, a) && (a, origin) !in s.routes
    ensures !Verdict(env, s, origin, a)
  {
    forall k: nat ensures Hop(s, origin, a, k) == a {
      SelfLoop(s, origin, a, k);
    }
  }

  lemma {:induction false} SelfLoop(s: State, origin: nat, a: Address, k: nat)
    requires Next(s, origin, a) == a
    ensures Hop(s, origin, a, k) == a
  {
    if k > 0 {
      SelfLoop(s, origin, a, k - 1);
    }
  }

  lemma ResolvesOnce(s: State, origin: nat, a: Address, j: nat, k: nat)
    requires ResolvesAt(s, origin, a, j) && ResolvesAt(s, origin, a, k)
    ensures j == k
  {
  }

  /** Resolution that ends at `k` means what the ISM there says. */
  lemma ResolvedIs(env: Env, s: State, origin: nat, a: Address, k: nat)
    requires ResolvesAt(s, origin, a, k)
    ensures Resolved(env, s, origin, a) <==> Accepts(env, s, Hop(s, origin, a, k))
  {
    forall j: nat | ResolvesAt(s, origin, a, j) ensures j == k {
      ResolvesOnce(s, origin, a, j, k);
    }
  }

  ghost predicate Agrees(env: Env, s: State, origin: nat, a: Address) {
    Verdict(env, s, origin, a) <==> Resolved(env, s, origin, a)
  }

  /**
  The graphs that are too deep for `verify`: resolution ends at a registered ISM after more than
  four hops, or at a multisig after exactly four.
   */
  ghost predicate TooDeep(s: State, origin: nat, a: Address) {
    exists k: nat :: k >= CHECKED && ResolvesAt(s, origin, a, k) && Hop(s, origin, a, k) in s.isms
                     && (k == CHECKED ==> s.isms[Hop(s, origin, a, k)] == MULTISIG)
  }

  lemma ShallowAgrees(env: Env, s: State, origin: nat, a: Address)
    requires Kinds(s) && !TooDeep(s, origin, a)
    ensures Agrees(env, s, origin, a)
  {
    if k: nat :| ResolvesAt(s, origin, a, k) {
      ResolvedIs(env, s, origin, a, k);
      if k < CHECKED {
        WithinThreeHops(env, s, origin, a, k);
      } else if k == CHECKED {
        AtFourHops(env, s, origin, a);
      } else {
        BeyondFourHops(env, s, origin, a, k);
      }
    } else {
      NeverResolved(env, s, origin, a);
    }
  }

  /** Metadata with no valid signature, and metadata with one in every slot. */
  function Unsigned(): (Multisig, nat) -> bool {
    (ism: Multisig, i: nat) => false
  }

  function AllSigned(): (Multisig, nat) -> bool {
    (ism: Multisig, i: nat) => true
  }

  lemma {:induction false} AllSignatures(env: Env, ism: Multisig, i: nat)
    requires i <= SLOTS && forall m, k :: env.signed(m, k)
    ensures Signatures(env, ism, i) == SLOTS - i
    decreases SLOTS - i
  {
    if i < SLOTS {
      AllSignatures(env, ism, i + 1);
    }
  }

  /** On a graph that is too deep some metadata makes the difference. */
  lemma DeepDiffers(addressOf: Preimage -> Address, s: State, origin: nat, a: Address)
    requires Kinds(s) && TooDeep(s, origin, a)
    ensures !Agrees(Env(addressOf, Unsigned()), s, origin, a) || !Agrees(Env(addressOf, AllSigned()), s, origin, a)
  {
    var k: nat :| k >= CHECKED && ResolvesAt(s, origin, a, k) && Hop(s, origin, a, k) in s.isms
                  && (k == CHECKED ==> s.isms[Hop(s, origin, a, k)] == MULTISIG);
    var none, all, ism := Env(addressOf, Unsigned()), Env(addressOf, AllSigned()), Hop(s, origin, a, k);
    ResolvedIs(none, s, origin, a, k);
    ResolvedIs(all, s, origin, a, k);
    if s.isms[ism] == MULTISIG {
      NoSignatures(none, s.multisigs[ism], 0);
      AllSignatures(all, s.multisigs[ism], 0);
    }
    if k == CHECKED {
      AtFourHops(none, s, origin, a);
    } else {
      BeyondFourHops(all, s, origin, a, k);
    }
  }

  /** `verify` agrees with unbounded resolution, whatever is signed, exactly on the graphs that are not too deep. */
  lemma VerifyIsResolutionIff(addressOf: Preimage -> Address, s: State, origin: nat, a: Address)
    requires Kinds(s)
    ensures (forall signed: (Multisig, nat) -> bool :: Agrees(Env(addressOf, signed), s, origin, a))
            <==> !TooDeep(s, origin, a)
  {
    if TooDeep(s, origin, a) {
      DeepDiffers(addressOf, s, origin, a);
    } else {
      forall signed: (Multisig, nat) -> bool ensures Agrees(Env(addressOf, signed), s, origin, a) {
        ShallowAgrees(Env(addressOf, signed), s, origin, a);
      }
    }
  }

  // ---------------------------------------------------------------------------
  // verify along a route
  // ---------------------------------------------------------------------------

  /** The metadata slots from `i` on whose signature verifies. */
  ghost function SignedSlots(env: Env, ism: Multisig, i: nat): set<nat> {
    set k: nat | i <= k < 6 && env.signed(ism, k)
  }

  lemma {:induction false} SignaturesCountSlots(env: Env, ism: Multisig, i: nat)
    requires i <= SLOTS
    ensures Signatures(env, ism, i) == |SignedSlots(env, ism, i)|
    decreases SLOTS - i
  {
    if i < SLOTS {
      SignaturesCountSlots(env, ism, i + 1);
      var rest := SignedSlots(env, ism, i + 1);
      assert SignedSlots(env, ism, i) == if env.signed(ism, i) then {i} + rest else rest;
    }
  }

  /** A noop ISM (6), or a multisig (5) for which at least as many of the six slots verify as its threshold asks. */
  ghost predicate Approves(env: Env, s: State, a: Address) {
    && a in s.isms
    && (s.isms[a] == 6
        || (s.isms[a] == 5 && a in s.multisigs && |SignedSlots(env, s.multisigs[a], 0)| >= s.multisigs[a].threshold))
  }

  /** Routing ISMs (1), each with a route for the origin to the next, up to one that is not a routing ISM. */
  ghost predicate IsRoute(s: State, origin: nat, path: seq<Address>) {
    && path != []
    && (forall i :: 0 <= i < |path| - 1 ==>
          && path[i] in s.isms && s.isms[path[i]] == 1
          && (path[i], origin) in s.routes && s.routes[(path[i], origin)] == path[i + 1])
    && (path[|path| - 1] in s.isms ==> s.isms[path[|path| - 1]] != 1)
  }

  lemma {:induction false} HopOnRoute(s: State, origin: nat, path: seq<Address>, k: nat)
    requires IsRoute(s, origin, path) && k < |path|
    ensures Hop(s, origin, path[0], k) == path[k]
  {
    if k > 0 {
      HopOnRoute(s, origin, path, k - 1);
    }
  }

  /**
  What `verify` decides for a route of any length: with up to three hops what the last ISM says,
  with four whether it is registered, with more to reject.
   */
  lemma VerifyAlongRoute(env: Env, s: State, origin: nat, path: seq<Address>)
    requires Kinds(s) && IsRoute(s, origin, path)
    ensures var last := path[|path| - 1];
            Verdict(env, s, origin, path[0])
            <==> if |path| <= 4 then Approves(env, s, last) else |path| == 5 && last in s.isms
  {
    var n: nat := |path| - 1;
    forall k: nat | k < |path| ensures Hop(s, origin, path[0], k) == path[k] {
      HopOnRoute(s, origin, path, k);
    }
    assert ResolvesAt(s, origin, path[0], n);
    if n < CHECKED {
      WithinThreeHops(env, s, origin, path[0], n);
      if path[n] in s.multisigs {
        SignaturesCountSlots(env, s.multisigs[path[n]], 0);
      }
    } else if n == CHECKED {
      AtFourHops(env, s, origin, path[0]);
    } else {
      BeyondFourHops(env, s, origin, path[0], n);
    }
  }

  /** A chain of four routing ISMs to a multisig nobody signed for. */
  function DeepChain(): State {
    State(5, map[10 := ROUTING, 11 := ROUTING, 12 := ROUTING, 13 := ROUTING, 14 := MULTISIG],
          map[10 := RoutingIsm(1, 0), 11 := RoutingIsm(1, 1), 12 := RoutingIsm(1, 2), 13 := RoutingIsm(1, 3)],
          map[(10, 7) := 11, (11, 7) := 12, (12, 7) := 13, (13, 7) := 14],
          map[14 := Multisig([0, 0, 0, 0, 0, 0], 1, 1, 4)])
  }

  lemma DeepChainKinds()
    ensures Kinds(DeepChain())
  {
  }

  /** The two do differ: here `verify` accepts and the resolved ISM does not. */
  lemma DeepChainDiffers(env: Env)
    requires forall ism, i :: !env.signed(ism, i)
    ensures Kinds(DeepChain()) && Verdict(env, DeepChain(), 7, 10) && !Resolved(env, DeepChain(), 7, 10)
  {
    DeepChainKinds();
    hide Kinds;
    var s := DeepChain();
    assert Hop(s, 7, 10, 0) == 10 && Hop(s, 7, 10, 1) == 11 && Hop(s, 7, 10, 2) == 12;
    assert Hop(s, 7, 10, 3) == 13 && Hop(s, 7, 10, 4) == 14;
    assert ResolvesAt(s, 7, 10, CHECKED);
    NoSignatures(env, s.multisigs[14], 0);
    AtFourHops(env, s, 7, 10);
    ResolvedIs(env, s, 7, 10, CHECKED);
  }

  /** And the chain is reachable: the transactions that build it from an empty program. */
  function ChainTxs(): seq<Tx> {
    [InitRouting(1), InitRouting(1), InitRouting(1), InitRouting(1), InitMultisig([0, 0, 0, 0, 0, 0], 1, 1),
     SetDomain(1, 10, 7, 11), SetDomain(1, 11, 7, 12), SetDomain(1, 12, 7, 13), SetDomain(1, 13, 7, 14)]
  }

  lemma RunFrom(env: Env, s: State, txs: seq<Tx>, i: nat, s': State)
    requires i < |txs| && Apply(env, s, txs[i]) == Some(s')
    ensures Run(env, s, txs[i..]) == Run(env, s', txs[i + 1..])
  {
    assert txs[i..][1..] == txs[i + 1..];
  }

  lemma DeepChainReachable(env: Env)
    requires forall n: nat :: n < 4 ==> env.addressOf(RoutingImage(1, n)) == 10 + n
    requires env.addressOf(MultisigImage(Multisig([0, 0, 0, 0, 0, 0], 1, 1, 4), 4)) == 14
    ensures Run(env, EMPTY, ChainTxs()) == DeepChain()
  {
    hide Run, Apply;
    RegisterChain(env);
    ConnectChain(env);
    assert ChainTxs()[0..] == ChainTxs();
  }

  lemma RegisterChain(env: Env)
    requires forall n: nat :: n < 4 ==> env.addressOf(RoutingImage(1, n)) == 10 + n
    requires env.addressOf(MultisigImage(Multisig([0, 0, 0, 0, 0, 0], 1, 1, 4), 4)) == 14
    ensures Run(env, EMPTY, ChainTxs()[0..]) == Run(env, DeepChain().(routes := map[]), ChainTxs()[5..])
  {
    hide Run;
    var txs, end := ChainTxs(), DeepChain();
    var s1 := State(1, map[10 := ROUTING], map[10 := RoutingIsm(1, 0)], map[], map[]);
    var s2 := s1.(nonce := 2, isms := s1.isms[11 := ROUTING], routing := s1.routing[11 := RoutingIsm(1, 1)]);
    var s3 := s2.(nonce := 3, isms := s2.isms[12 := ROUTING], routing := s2.routing[12 := RoutingIsm(1, 2)]);
    var s4 := s3.(nonce := 4, isms := s3.isms[13 := ROUTING], routing := end.routing);
    RunFrom(env, EMPTY, txs, 0, s1);
    RunFrom(env, s1, txs, 1, s2);
    RunFrom(env, s2, txs, 2, s3);
    RunFrom(env, s3, txs, 3, s4);
    RunFrom(env, s4, txs, 4, end.(routes := map[]));
  }

  lemma ConnectChain(env: Env)
    ensures Run(env, DeepChain().(routes := map[]), ChainTxs()[5..]) == DeepChain()
  {
    hide Run;
    var txs, end := ChainTxs(), DeepChain();
    var s6 := end.(routes := map[(10, 7) := 11]);
    var s7 := s6.(routes := s6.routes[(11, 7) := 12]);
    var s8 := s7.(routes := s7.routes[(12, 7) := 13]);
    RunFrom(env, end.(routes := map[]), txs, 5, s6);
    RunFrom(env, s6, txs, 6, s7);
    RunFrom(env, s7, txs, 7, s8);
    RunFrom(env, s8, txs, 8, end);
    assert txs[9..] == [];
    RunNone(env, end);
  }

  lemma RunNone(env: Env, s: State)
    ensures Run(env, s, []) == s
  {
  }

  lemma {:induction false} NoSignatures(env: Env, ism: Multisig, i: nat)
    requires forall m, k :: !env.signed(m, k)
    ensures Signatures(env, ism, i) == 0
    decreases SLOTS - i
  {
    if i < SLOTS {
      NoSignatures(env, ism, i + 1);
    }
  }

  // ---------------------------------------------------------------------------
  // Who changes the graph, and how
  // ---------------------------------------------------------------------------

  /** Only the owner of a routing ISM changes its routes or hands it over, and nothing else changes. */
  lemma OwnerRoutes(env: Env, s: State, tx: Tx)
    requires tx.SetDomain? || tx.RemoveDomain? || tx.TransferOwnership?
    ensures Apply(env, s, tx).Some? <==> tx.ism in s.routing && s.routing[tx.ism].owner == tx.caller
    ensures Apply(env, s, tx).Some? ==>
              var s' := Apply(env, s, tx).value;
              && (tx.SetDomain? ==> s' == s.(routes := s.routes[(tx.ism, tx.domain) := tx.target]))
              && (tx.RemoveDomain? ==> s' == s.(routes := s.routes - {(tx.ism, tx.domain)}))
              && (tx.TransferOwnership? ==>
                    s' == s.(routing := s.routing[tx.ism := RoutingIsm(tx.owner, s.routing[tx.ism].nonce)]))
  {
  }

  /** A new ISM is registered under its kind with its own data; a multisig needs 1 <= threshold <= count <= 6. */
  lemma NewIsm(env: Env, s: State, tx: Tx)
    requires (tx.InitNoop? || tx.InitMultisig? || tx.InitRouting?) && Apply(env, s, tx).Some?
    ensures var s' := Apply(env, s, tx).value;
            && s'.nonce == s.nonce + 1 && s'.routes == s.routes
            && (tx.InitNoop? ==>
                  s'.isms == s.isms[env.addressOf(NoopImage(s.nonce)) := 6]
                  && s'.routing == s.routing && s'.multisigs == s.multisigs)
            && (tx.InitMultisig? ==>
                  var ism := Multisig(tx.validators, tx.count, tx.threshold, s.nonce);
                  var a := env.addressOf(MultisigImage(ism, s.nonce));
                  && 1 <= tx.threshold <= tx.count <= 6
                  && s'.isms == s.isms[a := 5] && s'.multisigs == s.multisigs[a := ism] && s'.routing == s.routing)
            && (tx.InitRouting? ==>
                  var a := env.addressOf(RoutingImage(tx.caller, s.nonce));
                  && s'.isms == s.isms[a := 1] && s'.routing == s.routing[a := RoutingIsm(tx.caller, s.nonce)]
                  && s'.multisigs == s.multisigs)
  {
  }
}
