/**
`token_registry.aleo`: a ledger of many tokens with public balances, authorized balances and
private records. The bhp256 keys of the mappings are represented by what they are hashes of.
 */
module TokenRegistry {
  import opened Prelude

  type TokenId = int

  /** The token of wrapped credits, registered by `initialize`. */
  const CREDITS_TOKEN: TokenId := 3443843282313283355522573239085696902919850365217539366784739393210722344986
  const MAX_CREDITS: nat := 10_000_000_000_000_000
  const FOREVER: nat := 4294967295

  const MINTER: nat := 1
  const BURNER: nat := 2
  const SUPPLY_MANAGER: nat := 3

  datatype Token = Token(decimals: nat, supply: nat, maxSupply: nat, admin: Address, external: bool, party: Address)
  datatype Owner = Owner(account: Address, token: TokenId)
  datatype AllowanceKey = AllowanceKey(account: Address, spender: Address, token: TokenId)
  datatype Balance = Balance(amount: nat, until: nat)
  datatype Record = Record(owner: Address, amount: nat, token: TokenId, external: bool, until: nat)

  datatype State = State(
    tokens: map<TokenId, Token>,
    balances: map<Owner, Balance>,
    authorized: map<Owner, Balance>,
    allowances: map<AllowanceKey, nat>,
    roles: map<Owner, nat>,
    records: map<nat, Record>,  // the unspent records, by serial number
    serial: nat)

  const EMPTY: State := State(map[], map[], map[], map[], map[], map[], 0)

  /** `self` and `wrappedCredits` are program addresses that `initialize` stores. */
  datatype Env = Env(self: Address, wrappedCredits: Address)

  datatype Tx =
    | TransferPublic(from: Address, token: TokenId, to: Address, amount: nat)  // by caller or as signer
    | TransferPrivate(input: nat, to: Address, amount: nat)
    | TransferPrivateToPublic(input: nat, to: Address, amount: nat)
    | TransferPublicToPrivate(from: Address, token: TokenId, to: Address, amount: nat, external: bool)
    | TransferFromPublic(spender: Address, token: TokenId, from: Address, to: Address, amount: nat)
    | TransferFromPublicToPrivate(spender: Address, token: TokenId, from: Address, to: Address, amount: nat,
                                  external: bool)
    | Approve(owner: Address, token: TokenId, spender: Address, amount: nat)
    | Unapprove(owner: Address, token: TokenId, spender: Address, amount: nat)
    | Join(first: nat, second: nat)
    | Split(input: nat, amount: nat)
    | Initialize
    | RegisterToken(caller: Address, token: TokenId, decimals: nat, maxSupply: nat, external: bool, party: Address)
    | UpdateManagement(caller: Address, token: TokenId, admin: Address, party: Address)
    | SetRole(caller: Address, token: TokenId, account: Address, role: nat)
    | RemoveRole(caller: Address, token: TokenId, account: Address)
    | MintPublic(caller: Address, token: TokenId, to: Address, amount: nat, until: nat)
    | MintPrivate(caller: Address, token: TokenId, to: Address, amount: nat, external: bool, until: nat)
    | BurnPublic(caller: Address, token: TokenId, account: Address, amount: nat)
    | BurnPrivate(caller: Address, input: nat, amount: nat)
    | PrehookPublic(caller: Address, token: TokenId, account: Address, amount: nat, until: nat)
    | PrehookPrivate(caller: Address, input: nat, amount: nat, until: nat)

  // ---------------------------------------------------------------------------
  // Primitive moves
  // ---------------------------------------------------------------------------

  /** Tokens and roles are the same. */
  predicate SameTerms(s: State, s': State) {
    s'.tokens == s.tokens && s'.roles == s.roles
  }

  predicate CanDebit(s: State, height: nat, o: Owner, amount: nat) {
    && o in s.authorized && o.token in s.tokens
    && (height <= s.authorized[o].until || !s.tokens[o.token].external)
    && amount <= s.authorized[o].amount
  }

  /** Public transfers spend the authorized balance. */
  function Debit(s: State, height: nat, o: Owner, amount: nat): (r: Option<State>)
    ensures r.Some? ==> SameTerms(s, r.value) && r.value.allowances == s.allowances
  {
    if CanDebit(s, height, o, amount)
    then Some(s.(authorized := s.authorized[o := s.authorized[o].(amount := s.authorized[o].amount - amount)]))
    else None
  }

  /** What `o` holds where credits to it go: `balances` if the token needs authorization. */
  function Receiving(s: State, o: Owner, until: nat): Balance
    requires o.token in s.tokens
  {
    GetOr(if s.tokens[o.token].external then s.balances else s.authorized, o, Balance(0, until))
  }

  function Credit(s: State, o: Owner, amount: nat, until: nat): (r: Option<State>)
    ensures r.Some? ==> SameTerms(s, r.value) && r.value.allowances == s.allowances
  {
    if o.token !in s.tokens then None
    else
      var b := Receiving(s, o, until);
      if b.amount + amount >= U128 then None
      else if s.tokens[o.token].external then Some(s.(balances := s.balances[o := b.(amount := b.amount + amount)]))
      else Some(s.(authorized := s.authorized[o := b.(amount := b.amount + amount)]))
  }

  /** The expiry of freshly received funds. */
  function Expiry(external: bool): nat {
    if external then 0 else FOREVER
  }

  function CreditTransfer(s: State, o: Owner, amount: nat): Option<State> {
    var token :- Get(s.tokens, o.token);
    Credit(s, o, amount, Expiry(token.external))
  }

  function Consume(s: State, input: nat): State {
    s.(records := s.records - {input})
  }

  function Create(s: State, r: Record): State {
    s.(records := s.records[s.serial := r], serial := s.serial + 1)
  }

  /** A record with part of its amount. */
  function Part(r: Record, amount: nat): Record {
    r.(amount := amount)
  }

  /** A record spent into two, the first of which is `first`. */
  function Break(s: State, input: nat, first: Record): (r: Option<State>)
    ensures r.Some? ==> SameTerms(s, r.value) && r.value.allowances == s.allowances
    ensures r.Some? ==> r.value.authorized == s.authorized && r.value.balances == s.balances
  {
    var r :- Get(s.records, input);
    var rest :- Sub(r.amount, first.amount);
    Some(Create(Create(Consume(s, input), Part(r, rest)), first))
  }

  function SetSupply(s: State, t: TokenId, supply: nat): State
    requires t in s.tokens
  {
    s.(tokens := s.tokens[t := s.tokens[t].(supply := supply)])
  }

  predicate HasRole(s: State, caller: Address, t: TokenId, role: nat)
    requires t in s.tokens
  {
    || caller == s.tokens[t].admin
    || (Owner(caller, t) in s.roles
      && (s.roles[Owner(caller, t)] == role || s.roles[Owner(caller, t)] == SUPPLY_MANAGER))
  }

  /** The supply after minting; the limit is the token's maximum. */
  function Minted(s: State, caller: Address, t: TokenId, amount: nat): Option<State> {
    if t in s.tokens && HasRole(s, caller, t, MINTER) && s.tokens[t].supply + amount < U128
       && s.tokens[t].supply + amount <= s.tokens[t].maxSupply
    then Some(SetSupply(s, t, s.tokens[t].supply + amount)) else None
  }

  function Burned(s: State, caller: Address, t: TokenId, amount: nat): Option<State> {
    if t in s.tokens && HasRole(s, caller, t, BURNER) && amount <= s.tokens[t].supply
    then Some(SetSupply(s, t, s.tokens[t].supply - amount)) else None
  }

  // ---------------------------------------------------------------------------
  // Transactions
  // ---------------------------------------------------------------------------

  function ApplyTransferPublic(s: State, height: nat, from: Address, t: TokenId, to: Address,
                               amount: nat): Option<State> {
    var s1 :- Debit(s, height, Owner(from, t), amount);
    CreditTransfer(s1, Owner(to, t), amount)
  }

  function ApplyTransferPublicToPrivate(s: State, height: nat, from: Address, t: TokenId, to: Address, amount: nat,
                                        external: bool): Option<State> {
    var token :- Get(s.tokens, t);
    var _ :- Check(token.external == external);
    Debit(Create(s, Record(to, amount, t, external, Expiry(external))), height, Owner(from, t), amount)
  }

  function SpendAllowance(s: State, owner: Address, spender: Address, t: TokenId, amount: nat): (r: Option<State>)
    ensures r.Some? ==> SameTerms(s, r.value)
  {
    var key := AllowanceKey(owner, spender, t);
    var granted :- Get(s.allowances, key);
    var rest :- Sub(granted, amount);
    Some(s.(allowances := s.allowances[key := rest]))
  }

  function ApplyTransferPrivate(s: State, height: nat, input: nat, to: Address, amount: nat): Option<State> {
    var r :- Get(s.records, input);
    var _ :- Check(height <= r.until || !r.external);
    Break(s, input, Record(to, amount, r.token, r.external, Expiry(r.external)))
  }

  function ApplyTransferPrivateToPublic(s: State, height: nat, input: nat, to: Address, amount: nat): Option<State> {
    var r :- Get(s.records, input);
    var rest :- Sub(r.amount, amount);
    var _ :- Check(height <= r.until || !r.external);
    CreditTransfer(Create(Consume(s, input), Part(r, rest)), Owner(to, r.token), amount)
  }

  function ApplyJoin(s: State, first: nat, second: nat): Option<State> {
    var r :- Get(s.records, first);
    var q :- Get(s.records, second);
    var _ :- Check(first != second && r.token == q.token);
    var sum :- Add(r.amount, q.amount, U128);
    Some(Create(Consume(Consume(s, first), second),
                r.(amount := sum, until := if r.until < q.until then r.until else q.until)))
  }

  function ApplySplit(s: State, input: nat, amount: nat): Option<State> {
    var r :- Get(s.records, input);
    Break(s, input, Part(r, amount))
  }

  function ApplyMintPublic(s: State, caller: Address, t: TokenId, to: Address, amount: nat, until: nat): Option<State> {
    var s1 :- Minted(s, caller, t, amount);
    Credit(s1, Owner(to, t), amount, until)
  }

  function ApplyMintPrivate(s: State, caller: Address, t: TokenId, to: Address, amount: nat, external: bool,
                            until: nat): Option<State> {
    var s1 :- Minted(s, caller, t, amount);
    var _ :- Check(s.tokens[t].external == external && (until == 0 || !external));
    Some(Create(s1, Record(to, amount, t, external, until)))
  }

  /** The authorized balance is burned first, then the rest from `balances`. */
  function BurnHoldings(s: State, o: Owner, amount: nat): (r: Option<State>)
    ensures r.Some? ==> SameTerms(s, r.value) && r.value.allowances == s.allowances
  {
    var a := GetOr(s.authorized, o, Balance(0, 0));
    if a.amount > amount then Some(s.(authorized := s.authorized[o := a.(amount := a.amount - amount)]))
    else
      var s1 := s.(authorized := s.authorized[o := a.(amount := 0)]);
      var rest := amount - a.amount;
      if rest == 0 then Some(s1)
      else if o in s.balances && rest <= s.balances[o].amount
      then Some(s1.(balances := s.balances[o := s.balances[o].(amount := s.balances[o].amount - rest)]))
      else None
  }

  function ApplyBurnPublic(s: State, caller: Address, t: TokenId, account: Address, amount: nat): Option<State> {
    var s1 :- Burned(s, caller, t, amount);
    BurnHoldings(s1, Owner(account, t), amount)
  }

  function ApplyBurnPrivate(s: State, caller: Address, input: nat, amount: nat): Option<State> {
    var r :- Get(s.records, input);
    var rest :- Sub(r.amount, amount);
    Burned(Create(Consume(s, input), Part(r, rest)), caller, r.token, amount)
  }

  /** An expired authorization flows back before a new one is given. */
  function ApplyPrehookPublic(s: State, height: nat, caller: Address, o: Owner, amount: nat,
                              until: nat): Option<State> {
    var token :- Get(s.tokens, o.token);
    var _ :- Check(token.external && caller == token.party);
    var b := GetOr(s.balances, o, Balance(0, 0));
    var a := GetOr(s.authorized, o, Balance(0, 0));
    var both :- Add(b.amount, a.amount, U128);
    var pool := if a.until < height then both else b.amount;
    var kept := if a.until < height then 0 else a.amount;
    var rest :- Sub(pool, amount);
    var sum :- Add(kept, amount, U128);
    Some(s.(authorized := s.authorized[o := Balance(sum, until)],
            balances := s.balances[o := Balance(rest, b.until)]))
  }

  function ApplyPrehookPrivate(s: State, caller: Address, input: nat, amount: nat, until: nat): Option<State> {
    var r :- Get(s.records, input);
    var token :- Get(s.tokens, r.token);
    var _ :- Check(caller == token.party);
    Break(s, input, Record(r.owner, amount, r.token, r.external, until))
  }

  predicate IsAdminTx(tx: Tx) {
    tx.Initialize? || tx.RegisterToken? || tx.UpdateManagement? || tx.SetRole? || tx.RemoveRole? || tx.Approve?
      || tx.Unapprove?
  }

  /** The transactions that move no value. */
  function ApplyAdmin(env: Env, s: State, tx: Tx): Option<State>
    requires IsAdminTx(tx)
  {
    match tx
    case Initialize =>
      if CREDITS_TOKEN in s.tokens then None
      else Some(s.(tokens := s.tokens[CREDITS_TOKEN := Token(6, 0, MAX_CREDITS, env.wrappedCredits, false, env.self)]))
    case RegisterToken(caller, t, decimals, maxSupply, external, party) =>
      if t == CREDITS_TOKEN || t in s.tokens || maxSupply >= U128 then None
      else Some(s.(tokens := s.tokens[t := Token(decimals, 0, maxSupply, caller, external, party)]))
    case UpdateManagement(caller, t, admin, party) =>
      if t != CREDITS_TOKEN && t in s.tokens && s.tokens[t].admin == caller
      then Some(s.(tokens := s.tokens[t := s.tokens[t].(admin := admin, party := party)])) else None
    case SetRole(caller, t, account, role) =>
      if t != CREDITS_TOKEN && t in s.tokens && s.tokens[t].admin == caller && 1 <= role <= 3
      then Some(s.(roles := s.roles[Owner(account, t) := role])) else None
    case RemoveRole(caller, t, account) =>
      if t != CREDITS_TOKEN && t in s.tokens && s.tokens[t].admin == caller
      then Some(s.(roles := s.roles - {Owner(account, t)})) else None
    case Approve(owner, t, spender, amount) =>
      var key := AllowanceKey(owner, spender, t);
      var granted :- Add(GetOr(s.allowances, key, 0), amount, U128);
      Some(s.(allowances := s.allowances[key := granted]))
    case Unapprove(owner, t, spender, amount) =>
      SpendAllowance(s, owner, spender, t, amount)
  }

  function Apply(env: Env, s: State, height: nat, tx: Tx): Option<State> {
    match tx
    case TransferPublic(from, t, to, amount) => ApplyTransferPublic(s, height, from, t, to, amount)
    case TransferPrivate(input, to, amount) => ApplyTransferPrivate(s, height, input, to, amount)
    case TransferPrivateToPublic(input, to, amount) => ApplyTransferPrivateToPublic(s, height, input, to, amount)
    case TransferPublicToPrivate(from, t, to, amount, external) =>
      ApplyTransferPublicToPrivate(s, height, from, t, to, amount, external)
    case TransferFromPublic(spender, t, from, to, amount) =>
      var s1 :- SpendAllowance(s, from, spender, t, amount);
      ApplyTransferPublic(s1, height, from, t, to, amount)
    case TransferFromPublicToPrivate(spender, t, from, to, amount, external) =>
      var s1 :- SpendAllowance(s, from, spender, t, amount);
      ApplyTransferPublicToPrivate(s1, height, from, t, to, amount, external)
    case Join(first, second) => ApplyJoin(s, first, second)
    case Split(input, amount) => ApplySplit(s, input, amount)
    case MintPublic(caller, t, to, amount, until) => ApplyMintPublic(s, caller, t, to, amount, until)
    case MintPrivate(caller, t, to, amount, external, until) =>
      ApplyMintPrivate(s, caller, t, to, amount, external, until)
    case BurnPublic(caller, t, account, amount) => ApplyBurnPublic(s, caller, t, account, amount)
    case BurnPrivate(caller, input, amount) => ApplyBurnPrivate(s, caller, input, amount)
    case PrehookPublic(caller, t, account, amount, until) =>
      ApplyPrehookPublic(s, height, caller, Owner(account, t), amount, until)
    case PrehookPrivate(caller, input, amount, until) => ApplyPrehookPrivate(s, caller, input, amount, until)
    case _ => ApplyAdmin(env, s, tx)
  }

  function Commit(env: Env, s: State, height: nat, tx: Tx): State {
    match Apply(env, s, height, tx)
    case Some(s') => s'
    case None => s
  }

  function Run(env: Env, s: State, txs: seq<(nat, Tx)>): State
    decreases |txs|
  {
    if txs == [] then s else Run(env, Commit(env, s, txs[0].0, txs[0].1), txs[1..])
  }
}
