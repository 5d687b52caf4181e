/**
`mailbox.aleo`: dispatch and process as a state machine, and what every run keeps. The
verification of a message by its ISM enters as the verdict `verified`.
 */
module Mailbox {
  import opened Prelude
  import opened Messages

  /** The primitives that are not modelled further: keccak256 and the 32-byte form of an address. */
  datatype Env = Env(keccak: Keccak, bytesOf: Address -> seq<nat>)

  datatype Config = Config(
    localDomain: nat,
    nonce: nat,
    processCount: nat,
    defaultIsm: Address,
    defaultHook: Address,
    requiredHook: Address,
    dispatchProxy: Address,
    owner: Address)

  datatype Delivery = Delivery(processor: Address, height: nat)

  datatype State = State(
    mailbox: Option<Config>,
    deliveries: map<Digest, Delivery>,
    dispatchEvents: map<nat, Message>,
    dispatchIds: map<nat, Digest>,
    processEvents: map<nat, Digest>,
    dispatchIndex: map<nat, nat>,
    processIndex: map<nat, nat>,
    applications: map<Address, seq<nat>>)

  const EMPTY: State := State(None, map[], map[], map[], map[], map[], map[], map[])

  datatype Tx =
    | Init(caller: Address, domain: nat)
    | SetDispatchProxy(caller: Address, proxy: Address)
    | SetOwner(caller: Address, owner: Address)
    | SetDefaultIsm(caller: Address, ism: Address)
    | SetDefaultHook(caller: Address, hook: Address)
    | SetRequiredHook(caller: Address, hook: Address)
    | RegisterApplication(caller: Address, application: seq<nat>)
    | Process(caller: Address, message: Message, length: nat, id: Digest, verified: bool)
    | Dispatch(caller: Address, sender: Address, destination: nat, recipient: seq<nat>, body: seq<nat>)

  /** The ranges that the register types of the inputs enforce. */
  ghost predicate TypedTx(env: Env, tx: Tx) {
    match tx
    case Init(_, domain) => domain < U32
    case Process(_, m, _, _, _) => WellTyped(m)
    case Dispatch(_, sender, destination, recipient, body) =>
      && |env.bytesOf(sender)| == 32 && destination < U32 && |recipient| == 32 && |body| == 16
      && forall i :: 0 <= i < 16 ==> body[i] < U128
    case _ => true
  }

  predicate CanProcess(env: Env, s: State, caller: Address, m: Message, length: nat, id: Digest, verified: bool) {
    && s.mailbox.Some? && Admitted(length) && length <= |Encode(m)|
    && env.keccak(Encode(m)[..length]) == id
    && verified
    && m.recipient == env.bytesOf(caller)
    && m.version == VERSION
    && m.destination == s.mailbox.value.localDomain
    && id !in s.deliveries
    && s.mailbox.value.processCount + 1 < U32
  }

  function Processed(s: State, height: nat, caller: Address, id: Digest): State
    requires s.mailbox.Some?
  {
    var c := s.mailbox.value;
    s.(deliveries := s.deliveries[id := Delivery(caller, height)],
       processEvents := s.processEvents[c.processCount := id],
       processIndex := s.processIndex[height := c.processCount],
       mailbox := Some(c.(processCount := c.processCount + 1)))
  }

  predicate CanDispatch(s: State, caller: Address) {
    && s.mailbox.Some?
    && caller == s.mailbox.value.dispatchProxy
    && s.mailbox.value.nonce + 1 < U32
  }

  /** The message the mailbox builds: it chooses version, nonce and origin itself. */
  function NextMessage(env: Env, c: Config, sender: Address, destination: nat, recipient: seq<nat>,
                       body: seq<nat>): Message {
    Message(VERSION, c.nonce, c.localDomain, env.bytesOf(sender), destination, recipient, body)
  }

  function Dispatched(env: Env, s: State, height: nat, m: Message): State
    requires s.mailbox.Some?
  {
    var c := s.mailbox.value;
    s.(dispatchEvents := s.dispatchEvents[c.nonce := m],
       dispatchIds := s.dispatchIds[c.nonce := env.keccak(Encode(m))],
       dispatchIndex := s.dispatchIndex[height := c.nonce],
       mailbox := Some(c.(nonce := c.nonce + 1)))
  }

  predicate IsSetter(tx: Tx) {
    tx.SetDispatchProxy? || tx.SetOwner? || tx.SetDefaultIsm? || tx.SetDefaultHook? || tx.SetRequiredHook?
  }

  /** The configuration after a setter: one field changes, never the domain or a counter. */
  function Reconfigured(c: Config, tx: Tx): (c': Config)
    requires IsSetter(tx)
    ensures c'.localDomain == c.localDomain && c'.nonce == c.nonce && c'.processCount == c.processCount
  {
    match tx
    case SetDispatchProxy(_, proxy) => c.(dispatchProxy := proxy)
    case SetOwner(_, owner) => c.(owner := owner)
    case SetDefaultIsm(_, ism) => c.(defaultIsm := ism)
    case SetDefaultHook(_, hook) => c.(defaultHook := hook)
    case SetRequiredHook(_, hook) => c.(requiredHook := hook)
  }

  /** Only the owner configures. */
  function ApplySetter(s: State, tx: Tx): Option<State>
    requires IsSetter(tx)
  {
    if s.mailbox.Some? && s.mailbox.value.owner == tx.caller
    then Some(s.(mailbox := Some(Reconfigured(s.mailbox.value, tx))))
    else None
  }

  function Apply(env: Env, s: State, height: nat, tx: Tx): Option<State> {
    match tx
    case Init(caller, domain) =>
      if s.mailbox.Some? then None
      else Some(s.(mailbox := Some(Config(domain, 0, 0, ZERO_ADDRESS, ZERO_ADDRESS, ZERO_ADDRESS,
                                          ZERO_ADDRESS, caller))))
    case RegisterApplication(caller, application) =>
      if s.mailbox.Some? && caller !in s.applications
      then Some(s.(applications := s.applications[caller := application])) else None
    case Process(caller, m, length, id, verified) =>
      if CanProcess(env, s, caller, m, length, id, verified) then Some(Processed(s, height, caller, id)) else None
    case Dispatch(caller, sender, destination, recipient, body) =>
      if CanDispatch(s, caller)
      then Some(Dispatched(env, s, height, NextMessage(env, s.mailbox.value, sender, destination, recipient, body)))
      else None
    case _ =>
      ApplySetter(s, tx)
  }

  function Commit(env: Env, s: State, height: nat, tx: Tx): State {
    match Apply(env, s, height, tx)
    case Some(s') => s'
    case None => s
  }

  function Run(env: Env, s: State, txs: seq<(nat, Tx)>): State
    decreases |txs|
  {
    if txs == [] then s else Run(env, Commit(env, s, txs[0].0, txs[0].1), txs[1..])
  }

  // ---------------------------------------------------------------------------
  // The logs
  // ---------------------------------------------------------------------------

  /** Entry `k` of the dispatch log. */
  ghost predicate DispatchEntry(env: Env, s: State, k: nat)
    requires s.mailbox.Some?
  {
    && k in s.dispatchEvents && k in s.dispatchIds
    && WellTyped(s.dispatchEvents[k])
    && s.dispatchEvents[k].version == VERSION
    && s.dispatchEvents[k].nonce == k
    && s.dispatchEvents[k].origin == s.mailbox.value.localDomain
    && s.dispatchIds[k] == env.keccak(Encode(s.dispatchEvents[k]))
  }

  /** The dispatch log is dense: one correct entry for every nonce used so far, and no other. */
  ghost predicate DispatchLog(env: Env, s: State)
    requires s.mailbox.Some?
  {
    && s.mailbox.value.nonce < U32 && s.mailbox.value.localDomain < U32
    && (forall k: nat :: k < s.mailbox.value.nonce ==> DispatchEntry(env, s, k))
    && (forall k: nat :: k in s.dispatchEvents || k in s.dispatchIds ==> k < s.mailbox.value.nonce)
  }

  ghost predicate Listed(events: map<nat, Digest>, count: nat, id: Digest) {
    exists k: nat :: k < count && k in events && events[k] == id
  }

  /** `events` lists the keys of `deliveries` at 0 to `count` - 1, each once. */
  ghost predicate Lists(events: map<nat, Digest>, deliveries: map<Digest, Delivery>, count: nat) {
    && (forall k: nat :: k in events <==> k < count)
    && (forall k: nat :: k < count ==> events[k] in deliveries)
    && (forall j: nat, k: nat :: j < k < count ==> events[j] != events[k])
    && (forall id :: id in deliveries ==> Listed(events, count, id))
  }

  /** The process log is dense, free of duplicates, and lists exactly the delivered ids. */
  ghost predicate ProcessLog(s: State)
    requires s.mailbox.Some?
  {
    Lists(s.processEvents, s.deliveries, s.mailbox.value.processCount)
  }

  ghost predicate Inv(env: Env, s: State) {
    if s.mailbox.None? then
      s.deliveries == map[] && s.dispatchEvents == map[] && s.dispatchIds == map[] && s.processEvents == map[]
    else
      DispatchLog(env, s) && ProcessLog(s)
  }

  lemma ProcessKeeps(env: Env, s: State, height: nat, caller: Address, id: Digest)
    requires Inv(env, s) && s.mailbox.Some? && id !in s.deliveries
    ensures Inv(env, Processed(s, height, caller, id))
  {
    var s' := Processed(s, height, caller, id);
    forall k: nat | k < s.mailbox.value.nonce ensures DispatchEntry(env, s', k) {
      assert DispatchEntry(env, s, k);
    }
    ListsOneMore(s.processEvents, s.deliveries, s.mailbox.value.processCount, id, Delivery(caller, height));
  }

  lemma ListsOneMore(events: map<nat, Digest>, deliveries: map<Digest, Delivery>, count: nat, id: Digest, d: Delivery)
    requires Lists(events, deliveries, count) && id !in deliveries
    ensures Lists(events[count := id], deliveries[id := d], count + 1)
  {
    var events', deliveries' := events[count := id], deliveries[id := d];
    forall x | x in deliveries' ensures Listed(events', count + 1, x) {
      if x == id {
        assert events'[count] == x;
      } else {
        assert Listed(events, count, x);
        var k: nat :| k < count && k in events && events[k] == x;
        assert events'[k] == x;
      }
    }
  }

  lemma DispatchKeeps(env: Env, s: State, height: nat, m: Message)
    requires Inv(env, s) && s.mailbox.Some? && s.mailbox.value.nonce + 1 < U32
    requires WellTyped(m) && m.version == VERSION && m.nonce == s.mailbox.value.nonce
             && m.origin == s.mailbox.value.localDomain
    ensures Inv(env, Dispatched(env, s, height, m))
  {
    var s' := Dispatched(env, s, height, m);
    forall k: nat | k < s'.mailbox.value.nonce ensures DispatchEntry(env, s', k) {
      if k < s.mailbox.value.nonce {
        assert DispatchEntry(env, s, k);
      }
    }
    assert ProcessLog(s');
  }

  lemma ConfigureKeeps(env: Env, s: State, c: Config)
    requires Inv(env, s) && s.mailbox.Some?
    requires c.localDomain == s.mailbox.value.localDomain && c.nonce == s.mailbox.value.nonce
    requires c.processCount == s.mailbox.value.processCount
    ensures Inv(env, s.(mailbox := Some(c)))
  {
    var s' := s.(mailbox := Some(c));
    forall k: nat | k < c.nonce ensures DispatchEntry(env, s', k) {
      assert DispatchEntry(env, s, k);
    }
    assert ProcessLog(s');
  }

  lemma ApplyKeeps(env: Env, s: State, height: nat, tx: Tx)
    requires Inv(env, s) && TypedTx(env, tx) && Apply(env, s, height, tx).Some?
    ensures Inv(env, Apply(env, s, height, tx).value)
  {
    var s' := Apply(env, s, height, tx).value;
    match tx
    case Init(_, _) =>
    case Process(caller, m, length, id, verified) =>
      ProcessKeeps(env, s, height, caller, id);
    case Dispatch(caller, sender, destination, recipient, body) =>
      DispatchKeeps(env, s, height, NextMessage(env, s.mailbox.value, sender, destination, recipient, body));
    case RegisterApplication(_, _) =>
      ConfigureKeeps(env, s, s.mailbox.value);
      forall k: nat | k < s.mailbox.value.nonce ensures DispatchEntry(env, s', k) {
        assert DispatchEntry(env, s, k);
      }
    case _ =>
      ConfigureKeeps(env, s, s'.mailbox.value);
  }

  /** Both logs are right after every run of a fresh mailbox. */
  lemma {:induction false} LogsInvariant(env: Env, s: State, txs: seq<(nat, Tx)>)
    requires Inv(env, s) && forall i :: 0 <= i < |txs| ==> TypedTx(env, txs[i].1)
    ensures Inv(env, Run(env, s, txs))
    decreases |txs|
  {
    if txs != [] {
      if Apply(env, s, txs[0].0, txs[0].1).Some? {
        ApplyKeeps(env, s, txs[0].0, txs[0].1);
      }
      LogsInvariant(env, Commit(env, s, txs[0].0, txs[0].1), txs[1..]);
    }
  }

  // ---------------------------------------------------------------------------
  // Logs only grow; a message is delivered at most once
  // ---------------------------------------------------------------------------

  ghost predicate Extends(s: State, t: State) {
    && (forall k :: k in s.dispatchEvents ==> k in t.dispatchEvents && t.dispatchEvents[k] == s.dispatchEvents[k])
    && (forall k :: k in s.dispatchIds ==> k in t.dispatchIds && t.dispatchIds[k] == s.dispatchIds[k])
    && (forall k :: k in s.processEvents ==> k in t.processEvents && t.processEvents[k] == s.processEvents[k])
    && (forall id :: id in s.deliveries ==> id in t.deliveries && t.deliveries[id] == s.deliveries[id])
  }

  predicate SameLogs(s: State, t: State) {
    && t.dispatchEvents == s.dispatchEvents && t.dispatchIds == s.dispatchIds
    && t.processEvents == s.processEvents && t.deliveries == s.deliveries
  }

  lemma OthersKeepLogs(env: Env, s: State, height: nat, tx: Tx)
    requires !tx.Process? && !tx.Dispatch?
    ensures SameLogs(s, Commit(env, s, height, tx))
  {
    if Apply(env, s, height, tx).Some? {
      var s' := Apply(env, s, height, tx).value;
      assert s' == s.(mailbox := s'.mailbox, applications := s'.applications);
    }
  }

  lemma ProcessExtends(env: Env, s: State, height: nat, caller: Address, id: Digest)
    requires Inv(env, s) && s.mailbox.Some? && id !in s.deliveries
    ensures Extends(s, Processed(s, height, caller, id))
  {
  }

  lemma DispatchExtends(env: Env, s: State, height: nat, m: Message)
    requires Inv(env, s) && s.mailbox.Some?
    ensures Extends(s, Dispatched(env, s, height, m))
  {
  }

  lemma SameLogsExtend(s: State, t: State)
    requires SameLogs(s, t)
    ensures Extends(s, t)
  {
  }

  lemma ApplyExtends(env: Env, s: State, height: nat, tx: Tx)
    requires Inv(env, s)
    ensures Extends(s, Commit(env, s, height, tx))
  {
    hide Inv, Encode, Extends, Processed, Dispatched, SameLogs;
    SameLogsAlways(s);
    SameLogsExtend(s, s);
    if tx.Process? {
      if CanProcess(env, s, tx.caller, tx.message, tx.length, tx.id, tx.verified) {
        ProcessExtends(env, s, height, tx.caller, tx.id);
      }
    } else if tx.Dispatch? {
      if CanDispatch(s, tx.caller) {
        DispatchExtends(env, s, height,
                        NextMessage(env, s.mailbox.value, tx.sender, tx.destination, tx.recipient, tx.body));
      }
    } else {
      OthersKeepLogs(env, s, height, tx);
      SameLogsExtend(s, Commit(env, s, height, tx));
    }
  }

  lemma SameLogsAlways(s: State)
    ensures SameLogs(s, s)
  {
  }

  lemma {:induction false} RunExtends(env: Env, s: State, txs: seq<(nat, Tx)>)
    requires Inv(env, s) && forall i :: 0 <= i < |txs| ==> TypedTx(env, txs[i].1)
    ensures Extends(s, Run(env, s, txs))
    decreases |txs|
  {
    if txs != [] {
      var s1 := Commit(env, s, txs[0].0, txs[0].1);
      LogsInvariant(env, s, [txs[0]]);
      assert Run(env, s, [txs[0]]) == Run(env, s1, []) == s1;
      ApplyExtends(env, s, txs[0].0, txs[0].1);
      RunExtends(env, s1, txs[1..]);
    }
  }

  lemma {:induction false} RunConcat(env: Env, s: State, a: seq<(nat, Tx)>, b: seq<(nat, Tx)>)
    ensures Run(env, s, a + b) == Run(env, Run(env, s, a), b)
    decreases |a|
  {
    if a == [] {
      assert a + b == b;
    } else {
      assert (a + b)[1..] == a[1..] + b;
      RunConcat(env, Commit(env, s, a[0].0, a[0].1), a[1..], b);
    }
  }

  /** The transaction at position `i` of the run is a delivery that goes through. */
  ghost predicate Delivers(env: Env, s: State, txs: seq<(nat, Tx)>, i: nat) {
    i < |txs| && txs[i].1.Process? && Apply(env, Run(env, s, txs[..i]), txs[i].0, txs[i].1).Some?
  }

  lemma DeliveryStays(env: Env, s: State, tx: (nat, Tx), rest: seq<(nat, Tx)>)
    requires Inv(env, s) && TypedTx(env, tx.1) && forall k :: 0 <= k < |rest| ==> TypedTx(env, rest[k].1)
    requires tx.1.Process? && Apply(env, s, tx.0, tx.1).Some?
    ensures tx.1.id in Run(env, s, [tx] + rest).deliveries
  {
    hide Inv, Encode;
    var after := Commit(env, s, tx.0, tx.1);
    ApplyKeeps(env, s, tx.0, tx.1);
    RunExtends(env, after, rest);
    assert ([tx] + rest)[1..] == rest;
    assert tx.1.id in after.deliveries;
  }

  /** No id is delivered twice in any run. */
  lemma AtMostOnce(env: Env, s: State, txs: seq<(nat, Tx)>, i: nat, j: nat)
    requires Inv(env, s) && forall k :: 0 <= k < |txs| ==> TypedTx(env, txs[k].1)
    requires i < j && Delivers(env, s, txs, i) && Delivers(env, s, txs, j)
    ensures txs[i].1.id != txs[j].1.id
  {
    hide Inv, Encode;
    LogsInvariant(env, s, txs[..i]);
    DeliveryStays(env, Run(env, s, txs[..i]), txs[i], txs[i + 1..j]);
    assert txs[..j] == txs[..i] + ([txs[i]] + txs[i + 1..j]);
    RunConcat(env, s, txs[..i], [txs[i]] + txs[i + 1..j]);
  }

  // ---------------------------------------------------------------------------
  // Delivered messages are dispatched messages
  // ---------------------------------------------------------------------------

  /** Under a collision-free hash no two dispatches share an id. */
  lemma DispatchIdsDistinct(env: Env, t: State, j: nat, k: nat)
    requires Injective(env.keccak) && Inv(env, t) && t.mailbox.Some?
    requires j < t.mailbox.value.nonce && k < t.mailbox.value.nonce && j != k
    ensures j in t.dispatchIds && k in t.dispatchIds && t.dispatchIds[j] != t.dispatchIds[k]
  {
    assert DispatchEntry(env, t, j) && DispatchEntry(env, t, k);
    if t.dispatchIds[j] == t.dispatchIds[k] {
      EncodeInjective(t.dispatchEvents[j], t.dispatchEvents[k]);
    }
  }

  /**
  If the id of a delivery is in the dispatch log of some mailbox, then the delivered message
  equals the logged one field for field, whatever length and body the relayer supplied.
   */
  lemma DeliveredIsDispatched(env: Env, s: State, caller: Address, m: Message, length: nat, id: Digest, verified: bool,
                              t: State, k: nat)
    requires Injective(env.keccak) && Inv(env, t) && t.mailbox.Some? && WellTyped(m)
    requires CanProcess(env, s, caller, m, length, id, verified)
    requires k in t.dispatchIds && t.dispatchIds[k] == id
    ensures length == ENCODED && k in t.dispatchEvents && m == t.dispatchEvents[k]
  {
    assert DispatchEntry(env, t, k);
    EncodeLength(m);
    IdIdentifies(env.keccak, t.dispatchEvents[k], m, length);
  }

  // ---------------------------------------------------------------------------
  // What is delivered was addressed here
  // ---------------------------------------------------------------------------

  /** Transaction `i` is a verified delivery of `m` by the program it is addressed to. */
  ghost predicate DeliveredBy(env: Env, tx: Tx, m: Message) {
    tx.Process? && tx.message == m && tx.verified && env.bytesOf(tx.caller) == m.recipient
  }

  lemma DomainFixed(env: Env, s: State, height: nat, tx: Tx)
    requires s.mailbox.Some?
    ensures var s' := Commit(env, s, height, tx);
            s'.mailbox.Some? && s'.mailbox.value.localDomain == s.mailbox.value.localDomain
  {
    hide CanProcess, Encode;
  }

  /** One step delivers a message only if it is a delivery of just that message, addressed here. */
  lemma StepDelivers(env: Env, s: State, height: nat, tx: Tx, m: Message)
    requires Injective(env.keccak) && s.mailbox.Some? && TypedTx(env, tx) && WellTyped(m)
    requires env.keccak(Encode(m)) !in s.deliveries && env.keccak(Encode(m)) in Commit(env, s, height, tx).deliveries
    ensures DeliveredBy(env, tx, m) && m.destination == s.mailbox.value.localDomain && m.version == 3
    ensures Commit(env, s, height, tx).deliveries[env.keccak(Encode(m))] == Delivery(tx.caller, height)
  {
    hide Encode, WellTyped;
    if tx.Process? {
      EncodeLength(tx.message);
      IdIdentifies(env.keccak, m, tx.message, tx.length);
    } else if !tx.Dispatch? {
      OthersKeepLogs(env, s, height, tx);
      assert false;
    }
  }

  /**
  Over every run: a message is delivered only on the chain that it names, in the current version,
  by the program that it names, and with the approval of its ISM.
   */
  lemma {:induction false} OnlyAddressedIsDelivered(env: Env, s: State, txs: seq<(nat, Tx)>, m: Message)
    requires Injective(env.keccak) && s.mailbox.Some? && WellTyped(m)
    requires forall i :: 0 <= i < |txs| ==> TypedTx(env, txs[i].1)
    requires env.keccak(Encode(m)) !in s.deliveries && env.keccak(Encode(m)) in Run(env, s, txs).deliveries
    ensures m.destination == s.mailbox.value.localDomain && m.version == 3
    ensures exists i :: 0 <= i < |txs| && DeliveredBy(env, txs[i].1, m)
    decreases |txs|
  {
    hide Encode, WellTyped, TypedTx, Injective, DeliveredBy;
    if txs != [] {
      var s1 := Commit(env, s, txs[0].0, txs[0].1);
      DomainFixed(env, s, txs[0].0, txs[0].1);
      if env.keccak(Encode(m)) in s1.deliveries {
        StepDelivers(env, s, txs[0].0, txs[0].1, m);
      } else {
        OnlyAddressedIsDelivered(env, s1, txs[1..], m);
        var i :| 0 <= i < |txs[1..]| && DeliveredBy(env, txs[1..][i].1, m);
        assert DeliveredBy(env, txs[i + 1].1, m);
      }
    }
  }

  /** A full relay of a message goes through exactly when it is addressed here, approved, and not yet delivered. */
  lemma FullRelayIff(env: Env, s: State, height: nat, caller: Address, m: Message, verified: bool)
    requires WellTyped(m)
    ensures Apply(env, s, height, Process(caller, m, 333, env.keccak(Encode(m)), verified)).Some?
            <==> s.mailbox.Some? && s.mailbox.value.localDomain == m.destination && m.version == 3
                 && env.bytesOf(caller) == m.recipient && verified
                 && env.keccak(Encode(m)) !in s.deliveries && s.mailbox.value.processCount + 1 < 0x1_0000_0000
  {
    hide Encode;
    EncodeLength(m);
    assert Encode(m)[..333] == Encode(m);
  }

  /** What a dispatch logs: the caller's choice of destination, recipient and body, and the sender it vouches for. */
  lemma DispatchLogs(env: Env, s: State, height: nat, tx: Tx)
    requires tx.Dispatch? && Apply(env, s, height, tx).Some?
    ensures var s' := Apply(env, s, height, tx).value;
            && s.mailbox.Some? && tx.caller == s.mailbox.value.dispatchProxy
            && var k := s.mailbox.value.nonce;
            && k in s'.dispatchEvents && s'.mailbox == Some(s.mailbox.value.(nonce := k + 1))
            && var m := s'.dispatchEvents[k];
            && m.sender == env.bytesOf(tx.sender) && m.destination == tx.destination
            && m.recipient == tx.recipient && m.body == tx.body
            && m.nonce == k && m.origin == s.mailbox.value.localDomain && m.version == 3
            && s'.deliveries == s.deliveries && s'.processEvents == s.processEvents
  {
    hide Encode;
  }

  /** Only the owner configures; each setter sets what it names and keeps the rest. */
  lemma SettersSet(env: Env, s: State, height: nat, tx: Tx)
    requires IsSetter(tx)
    ensures Apply(env, s, height, tx).Some? <==> s.mailbox.Some? && s.mailbox.value.owner == tx.caller
    ensures Apply(env, s, height, tx).Some? ==>
              var c, c' := s.mailbox.value, Apply(env, s, height, tx).value.mailbox.value;
              && c'.dispatchProxy == (if tx.SetDispatchProxy? then tx.proxy else c.dispatchProxy)
              && c'.owner == (if tx.SetOwner? then tx.owner else c.owner)
              && c'.defaultIsm == (if tx.SetDefaultIsm? then tx.ism else c.defaultIsm)
              && c'.defaultHook == (if tx.SetDefaultHook? then tx.hook else c.defaultHook)
              && c'.requiredHook == (if tx.SetRequiredHook? then tx.hook else c.requiredHook)
  {
  }

  /** A mailbox is set up once, for good, and belongs to whoever did it. */
  lemma InitTerms(env: Env, s: State, height: nat, tx: Tx)
    requires tx.Init?
    ensures Apply(env, s, height, tx).Some? <==> s.mailbox.None?
    ensures Apply(env, s, height, tx).Some? ==>
              Apply(env, s, height, tx).value == s.(mailbox := Some(Config(tx.domain, 0, 0, 0, 0, 0, 0, tx.caller)))
  {
  }
}
