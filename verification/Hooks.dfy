/**
`hook_manager.aleo` as a state machine: Merkle tree hooks, interchain gas paymasters (IGPs) and
the noop hook. A tree is represented by the sequence of its leaves; `HookProgram` shows that the
incremental tree of the program implements this.
 */
module Hooks {
  import opened Prelude
  import opened Sums
  import Credits

  const NOOP: nat := 0
  const TREE: nat := 3
  const IGP: nat := 4

  const DEFAULT_GAS: nat := 50_000
  const RATE_SCALE: nat := 10_000_000_000

  datatype Igp = Igp(owner: Address, nonce: nat, balance: nat, count: nat)
  datatype TreeHook = TreeHook(parent: Address, leaves: seq<Digest>, nonce: nat)
  datatype GasConfig = GasConfig(overhead: nat, exchangeRate: nat, gasPrice: nat)
  datatype Payment = Payment(id: Digest, destination: nat, gas: nat, payment: nat, index: nat)
  datatype Insertion = Insertion(id: Digest, index: nat)
  datatype Allowance = Allowance(spender: Address, amount: nat)

  /** What the address of a hook is the hash of. */
  datatype Preimage =
    | NoopImage(nonce: nat)
    | IgpImage(owner: Address, nonce: nat)
    | TreeImage(parent: Address, nonce: nat)

  datatype Env = Env(addressOf: Preimage -> Address, self: Address)

  datatype State = State(
    nonce: nat,
    hooks: map<Address, nat>,
    igps: map<Address, Igp>,
    gasConfigs: map<(Address, nat), GasConfig>,
    trees: map<Address, TreeHook>,
    payments: map<(Address, nat), Payment>,
    insertions: map<(Address, nat), Insertion>)

  const EMPTY: State := State(0, map[], map[], map[], map[], map[], map[])

  /** The hooks and the credits they are paid in. */
  datatype Books = Books(hooks: State, credits: Credits.State)

  datatype Tx =
    | InitNoop
    | InitIgp(caller: Address)
    | InitTree(parent: Address)
    | SetGasConfig(caller: Address, igp: Address, destination: nat, config: GasConfig)
    | RemoveGasConfig(caller: Address, igp: Address, destination: nat)
    | TransferIgpOwnership(caller: Address, igp: Address, owner: Address)
    | Claim(caller: Address, igp: Address, amount: nat)
    | PayForGas(signer: Address, igp: Address, id: Digest, destination: nat, gas: nat, amount: nat)
    | PostDispatch(signer: Address, caller: Address, hook: Address, gasLimit: nat, amount: nat, id: Digest,
                   destination: nat)
    | CreditsTx(height: nat, tx: Credits.Tx)  // anything else that happens in credits.aleo

  // ---------------------------------------------------------------------------
  // Effects
  // ---------------------------------------------------------------------------

  /** The allowance granted to `hook`; the last matching entry counts. */
  function AllowanceFor(hook: Address, allowances: seq<Allowance>): nat {
    if allowances == [] then 0
    else
      var last := allowances[|allowances| - 1];
      if last.spender == hook then last.amount else AllowanceFor(hook, allowances[..|allowances| - 1])
  }

  function Register(env: Env, s: State, image: Preimage, kind: nat): Option<(Address, State)> {
    var hook := env.addressOf(image);
    if hook in s.hooks || s.nonce + 1 >= U32 then None
    else Some((hook, s.(nonce := s.nonce + 1, hooks := s.hooks[hook := kind])))
  }

  /** The price of `gas`: `mul`, `mul`, `div` at 128 bits, then a cast to 64. */
  function Quote(gas: nat, config: GasConfig): Option<nat> {
    var product :- Mul(gas, config.gasPrice, U128);
    var scaled :- Mul(product, config.exchangeRate, U128);
    if scaled / RATE_SCALE < U64 then Some(scaled / RATE_SCALE) else None
  }

  predicate CanRecord(s: State, igp: Address, amount: nat) {
    igp in s.igps && s.igps[igp].balance + amount < U64 && s.igps[igp].count + 1 < U32
  }

  /** A payment is logged under the next index and added to the balance. */
  function Record(s: State, igp: Address, id: Digest, destination: nat, gas: nat, amount: nat): State
    requires CanRecord(s, igp, amount)
  {
    var i := s.igps[igp];
    s.(payments := s.payments[(igp, i.count) := Payment(id, destination, gas, amount, i.count)],
       igps := s.igps[igp := i.(balance := i.balance + amount, count := i.count + 1)])
  }

  predicate CanInsert(s: State, hook: Address, caller: Address) {
    hook in s.trees && s.trees[hook].parent == caller && |s.trees[hook].leaves| < U32 - 1
  }

  function Insert(s: State, hook: Address, id: Digest): State
    requires hook in s.trees
  {
    var t := s.trees[hook];
    s.(trees := s.trees[hook := t.(leaves := t.leaves + [id])],
       insertions := s.insertions[(hook, |t.leaves|) := Insertion(id, |t.leaves|)])
  }

  /** The part of `post_dispatch` that follows the payment. */
  function RunHook(s: State, caller: Address, hook: Address, gasLimit: nat, amount: nat, id: Digest,
                   destination: nat): Option<State> {
    if hook !in s.hooks then None
    else if s.hooks[hook] == TREE then
      if CanInsert(s, hook, caller) && amount == 0 then Some(Insert(s, hook, id)) else None
    else if s.hooks[hook] == IGP then
      var config := GetOr(s.gasConfigs, (hook, destination), GasConfig(0, 0, 0));
      var gas :- Add(if gasLimit == 0 then DEFAULT_GAS else gasLimit, config.overhead, U128);
      var price :- Quote(gas, config);
      if price == amount && CanRecord(s, hook, amount)
        then Some(Record(s, hook, id, destination, gas, amount)) else None
    else if s.hooks[hook] == NOOP && amount == 0 then Some(s)
    else None
  }

  function ApplyPostDispatch(env: Env, b: Books, signer: Address, caller: Address, hook: Address, gasLimit: nat,
                             amount: nat, id: Digest, destination: nat): Option<Books> {
    var credits :- Credits.Transfer(b.credits, signer, env.self, amount);
    var hooks :- RunHook(b.hooks, caller, hook, gasLimit, amount, id, destination);
    Some(Books(hooks, credits))
  }

  function ApplyPayForGas(env: Env, b: Books, signer: Address, igp: Address, id: Digest, destination: nat, gas: nat,
                          amount: nat): Option<Books> {
    var config :- Get(b.hooks.gasConfigs, (igp, destination));
    var price :- Quote(gas, config);
    var credits :- Credits.Transfer(b.credits, signer, env.self, amount);
    if price == amount && CanRecord(b.hooks, igp, amount)
    then Some(Books(Record(b.hooks, igp, id, destination, gas, amount), credits)) else None
  }

  function ApplyClaim(env: Env, b: Books, caller: Address, igp: Address, amount: nat): Option<Books> {
    var i :- Get(b.hooks.igps, igp);
    var credits :- Credits.Transfer(b.credits, env.self, caller, amount);
    if i.owner == caller && amount <= i.balance
    then Some(Books(b.hooks.(igps := b.hooks.igps[igp := i.(balance := i.balance - amount)]), credits)) else None
  }

  predicate IsConfigTx(tx: Tx) {
    || tx.InitNoop? || tx.InitIgp? || tx.InitTree?
    || tx.SetGasConfig? || tx.RemoveGasConfig? || tx.TransferIgpOwnership?
  }

  function ApplyConfig(env: Env, s: State, tx: Tx): Option<State>
    requires IsConfigTx(tx)
  {
    match tx
    case InitNoop =>
      var (_, s1) :- Register(env, s, NoopImage(s.nonce), NOOP);
      Some(s1)
    case InitIgp(caller) =>
      var (hook, s1) :- Register(env, s, IgpImage(caller, s.nonce), IGP);
      Some(s1.(igps := s1.igps[hook := Igp(caller, s.nonce, 0, 0)]))
    case InitTree(parent) =>
      var (hook, s1) :- Register(env, s, TreeImage(parent, s.nonce), TREE);
      Some(s1.(trees := s1.trees[hook := TreeHook(parent, [], s.nonce)]))
    case SetGasConfig(caller, igp, destination, config) =>
      var i :- Get(s.igps, igp);
      if i.owner == caller then Some(s.(gasConfigs := s.gasConfigs[(igp, destination) := config])) else None
    case RemoveGasConfig(caller, igp, destination) =>
      var i :- Get(s.igps, igp);
      if i.owner == caller then Some(s.(gasConfigs := s.gasConfigs - {(igp, destination)})) else None
    case TransferIgpOwnership(caller, igp, owner) =>
      var i :- Get(s.igps, igp);
      if i.owner == caller then Some(s.(igps := s.igps[igp := i.(owner := owner)])) else None
  }

  function Apply(env: Env, b: Books, tx: Tx): Option<Books> {
    match tx
    case Claim(caller, igp, amount) => ApplyClaim(env, b, caller, igp, amount)
    case PayForGas(signer, igp, id, destination, gas, amount) =>
      ApplyPayForGas(env, b, signer, igp, id, destination, gas, amount)
    case PostDispatch(signer, caller, hook, gasLimit, amount, id, destination) =>
      ApplyPostDispatch(env, b, signer, caller, hook, gasLimit, amount, id, destination)
    case CreditsTx(height, ctx) =>
      var credits :- Credits.Apply(b.credits, height, ctx);
      Some(b.(credits := credits))
    case _ =>
      var hooks :- ApplyConfig(env, b.hooks, tx);
      Some(b.(hooks := hooks))
  }

  function Commit(env: Env, b: Books, tx: Tx): Books {
    match Apply(env, b, tx)
    case Some(b') => b'
    case None => b
  }

  function Run(env: Env, b: Books, txs: seq<Tx>): Books
    decreases |txs|
  {
    if txs == [] then b else Run(env, Commit(env, b, txs[0]), txs[1..])
  }
}
