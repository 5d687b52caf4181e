/**
`credits.aleo`: public accounts, private records and the staking state. Each function of this
module is the effect of one transaction on the mappings; `None` is a transaction that reverts.
 */
module Credits {
  import opened Prelude
  import opened Sums

  const MIN_BOND: nat := 1_000_000
  const MIN_VALIDATOR_STAKE: nat := 10_000_000_000_000
  const MIN_SELF_BOND: nat := 100_000_000
  const MIN_DELEGATOR_BOND: nat := 10_000_000_000
  const MAX_DELEGATORS: nat := 100_000
  const UNBONDING_BLOCKS: nat := 360
  const SPLIT_FEE: nat := 10_000
  const MAX_UPGRADE: nat := 1_000_000_000_000
  const MAX_POOL: nat := 4_000_000_000_000

  // The two keys of `metadata`; all that matters is that they differ.
  const COMMITTEE_COUNT: Address := ZERO_ADDRESS
  const DELEGATOR_COUNT: Address := 2

  datatype CommitteeState = CommitteeState(isOpen: bool, commission: nat)
  datatype BondState = BondState(validator: Address, microcredits: nat)
  datatype UnbondState = UnbondState(microcredits: nat, height: nat)
  datatype Record = Record(owner: Address, microcredits: nat)

  datatype State = State(
    committee: map<Address, CommitteeState>,
    delegated: map<Address, nat>,
    metadata: map<Address, nat>,
    bonded: map<Address, BondState>,
    unbonding: map<Address, UnbondState>,
    account: map<Address, nat>,
    withdraw: map<Address, Address>,
    pool: map<Address, nat>,
    records: map<nat, Record>,  // the unspent records, by serial number
    serial: nat)                // the next serial number

  datatype Tx =
    | BondValidator(signer: Address, withdrawal: Address, amount: nat, commission: nat)
    | BondPublic(caller: Address, validator: Address, withdrawal: Address, amount: nat)
    | UnbondPublic(caller: Address, staker: Address, amount: nat)
    | ClaimUnbondPublic(staker: Address)
    | SetValidatorState(caller: Address, isOpen: bool)
    | TransferPublic(from: Address, to: Address, amount: nat)  // by caller or as signer
    | TransferPrivate(input: nat, to: Address, amount: nat)
    | TransferPrivateToPublic(input: nat, to: Address, amount: nat)
    | TransferPublicToPrivate(caller: Address, to: Address, amount: nat)
    | Join(first: nat, second: nat)
    | Split(input: nat, amount: nat)
    | FeePrivate(input: nat, baseFee: nat, priorityFee: nat, execution: nat)
    | FeePublic(signer: Address, baseFee: nat, priorityFee: nat, execution: nat)
    | Upgrade(input: nat)

  // ---------------------------------------------------------------------------
  // Staking: a guard and an effect for each change of the staking state
  // ---------------------------------------------------------------------------

  function Own(s: State, a: Address): nat {
    if a in s.bonded then s.bonded[a].microcredits else 0
  }

  function Delegated(s: State, v: Address): nat {
    if v in s.delegated then s.delegated[v] else 0
  }

  function Pending(s: State, a: Address): nat {
    if a in s.unbonding then s.unbonding[a].microcredits else 0
  }

  function Count(s: State, key: Address): nat {
    if key in s.metadata then s.metadata[key] else 0
  }

  predicate BondChecks(s: State, v: Address, withdrawal: Address, amount: nat, commission: nat) {
    && v != withdrawal && amount >= MIN_BOND && commission <= 100
    && (v in s.withdraw ==> s.withdraw[v] == withdrawal)
    && (v in s.committee ==> s.committee[v].commission == commission)
    && (v in s.bonded ==> s.bonded[v].validator == v)
    && Own(s, v) + amount < U64
    && MIN_VALIDATOR_STAKE <= Delegated(s, v) + amount < U64
    && v in s.account && amount <= s.account[v]
  }

  predicate CanBondValidator(s: State, v: Address, withdrawal: Address, amount: nat, commission: nat) {
    && BondChecks(s, v, withdrawal, amount, commission)
    && (v !in s.committee ==>
          amount >= MIN_SELF_BOND && Count(s, COMMITTEE_COUNT) + 1 < U32 && v !in s.unbonding)
  }

  /** A validator without a seat is given one. */
  function Admitted(s: State, v: Address, withdrawal: Address): State {
    if v in s.committee then s
    else s.(withdraw := s.withdraw[v := withdrawal],
            metadata := s.metadata[COMMITTEE_COUNT := Count(s, COMMITTEE_COUNT) + 1])
  }

  /** A validator adds to its self-bond, taking a seat in the committee if it has none. */
  function BondSelf(s: State, v: Address, withdrawal: Address, amount: nat, commission: nat): State
    requires CanBondValidator(s, v, withdrawal, amount, commission)
  {
    Admitted(s, v, withdrawal).(
      committee := s.committee[v := GetOr(s.committee, v, CommitteeState(true, commission))],
      delegated := s.delegated[v := Delegated(s, v) + amount],
      bonded := s.bonded[v := BondState(v, Own(s, v) + amount)],
      account := s.account[v := s.account[v] - amount])
  }

  predicate CanBondPublic(s: State, a: Address, v: Address, withdrawal: Address, amount: nat) {
    && a != v && amount >= MIN_BOND
    && (a in s.withdraw ==> s.withdraw[a] == withdrawal)
    && (a in s.bonded ==> s.bonded[a].validator == v)
    && (a !in s.bonded ==> (v in s.committee ==> s.committee[v].isOpen) && Count(s, DELEGATOR_COUNT) < MAX_DELEGATORS)
    && MIN_DELEGATOR_BOND <= Own(s, a) + amount < U64
    && Delegated(s, v) + amount < U64
    && a in s.account && amount <= s.account[a]
    && v !in s.unbonding
  }

  /** A delegator adds to its bond, or opens it. */
  function BondTo(s: State, a: Address, v: Address, withdrawal: Address, amount: nat): State
    requires CanBondPublic(s, a, v, withdrawal, amount)
  {
    s.(delegated := s.delegated[v := Delegated(s, v) + amount],
       bonded := s.bonded[a := BondState(v, Own(s, a) + amount)],
       account := s.account[a := s.account[a] - amount],
       withdraw := if a in s.bonded then s.withdraw else s.withdraw[a := withdrawal],
       metadata := if a in s.bonded then s.metadata
                   else s.metadata[DELEGATOR_COUNT := Count(s, DELEGATOR_COUNT) + 1])
  }

  predicate CanReduce(s: State, a: Address, v: Address, amount: nat) {
    && a in s.bonded && v in s.delegated
    && amount <= Own(s, a) && amount <= s.delegated[v]
    && Pending(s, a) + amount < U64
  }

  /** Part of the bond of `a` to `v` starts unbonding. */
  function Reduce(s: State, a: Address, v: Address, amount: nat, until: nat): State
    requires CanReduce(s, a, v, amount)
  {
    s.(delegated := s.delegated[v := s.delegated[v] - amount],
       bonded := s.bonded[a := BondState(v, Own(s, a) - amount)],
       unbonding := s.unbonding[a := UnbondState(Pending(s, a) + amount, until)])
  }

  predicate CanLeave(s: State, a: Address, v: Address, key: Address) {
    CanReduce(s, a, v, Own(s, a)) && key in s.metadata && s.metadata[key] >= 1
  }

  /** The whole bond of `a` to `v` starts unbonding; `key` is the counter that `a` was part of. */
  function Leave(s: State, a: Address, v: Address, key: Address, until: nat): State
    requires CanLeave(s, a, v, key)
  {
    s.(committee := if key == COMMITTEE_COUNT then s.committee - {a} else s.committee,
       delegated := s.delegated[v := s.delegated[v] - Own(s, a)],
       metadata := s.metadata[key := s.metadata[key] - 1],
       bonded := s.bonded - {a},
       unbonding := s.unbonding[a := UnbondState(Pending(s, a) + Own(s, a), until)])
  }

  /** Nothing but the staking mappings differs, and the withdrawal addresses do not. */
  predicate OnlyStake(s: State, s': State) {
    s' == s.(committee := s'.committee, delegated := s'.delegated, metadata := s'.metadata, bonded := s'.bonded,
             unbonding := s'.unbonding)
  }

  /** A validator loses its seat and its self-bond; its delegators stay bonded. */
  function RemoveValidator(s: State, v: Address, until: nat): (r: Option<State>)
    ensures r.Some? ==> OnlyStake(s, r.value)
  {
    if v in s.committee && CanLeave(s, v, v, COMMITTEE_COUNT)
    then Some(Leave(s, v, v, COMMITTEE_COUNT, until))
    else None
  }

  function UnbondValidator(s: State, v: Address, amount: nat, until: nat): (r: Option<State>)
    requires v in s.bonded && s.bonded[v].validator == v
    ensures r.Some? ==> OnlyStake(s, r.value)
  {
    if v !in s.committee || v !in s.delegated then None
    else if s.delegated[v] < MIN_VALIDATOR_STAKE then RemoveValidator(s, v, until)
    else if amount > s.delegated[v] || amount > Own(s, v) then None
    else if Own(s, v) - amount < MIN_SELF_BOND || s.delegated[v] - amount < MIN_VALIDATOR_STAKE then
      RemoveValidator(s, v, until)
    else if CanReduce(s, v, v, amount) then Some(Reduce(s, v, v, amount, until))
    else None
  }

  /** The caller is the withdrawal address of the staker's validator. */
  predicate ByValidator(s: State, caller: Address, a: Address)
    requires a in s.bonded
  {
    s.bonded[a].validator in s.withdraw && caller == s.withdraw[s.bonded[a].validator]
  }

  predicate MayUnbond(s: State, caller: Address, a: Address)
    requires a in s.bonded
  {
    a in s.withdraw && (caller == s.withdraw[a] || ByValidator(s, caller, a))
  }

  /** The whole bond goes if the validator asks, or if too little would remain. */
  function UnbondDelegator(s: State, a: Address, amount: nat, byValidator: bool, until: nat): (r: Option<State>)
    requires a in s.bonded
    ensures r.Some? ==> OnlyStake(s, r.value)
  {
    var v := s.bonded[a].validator;
    if amount > Own(s, a) then None
    else if byValidator || Own(s, a) - amount < MIN_DELEGATOR_BOND then
      if CanLeave(s, a, v, DELEGATOR_COUNT) then Some(Leave(s, a, v, DELEGATOR_COUNT, until)) else None
    else
      if CanReduce(s, a, v, amount) then Some(Reduce(s, a, v, amount, until)) else None
  }

  /**
  Unbonding in structured form. A delegator that takes its validator below the minimum stake
  also removes that validator from the committee.
   */
  function Unbond(s: State, height: nat, caller: Address, a: Address, amount: nat): (r: Option<State>)
    ensures r.Some? ==> OnlyStake(s, r.value)
  {
    var until := height + UNBONDING_BLOCKS;
    if until >= U32 || a !in s.bonded || !MayUnbond(s, caller, a) then None
    else if s.bonded[a].validator == a then UnbondValidator(s, a, amount, until)
    else
      var v := s.bonded[a].validator;
      var s1 :- UnbondDelegator(s, a, amount, ByValidator(s, caller, a), until);
      if Delegated(s1, v) < MIN_VALIDATOR_STAKE && v in s1.committee
      then RemoveValidator(s1, v, until)
      else Some(s1)
  }

  predicate CanClaim(s: State, height: nat, a: Address) {
    && a in s.unbonding && height >= s.unbonding[a].height && a in s.withdraw
    && Pending(s, a) + GetOr(s.account, s.withdraw[a], 0) < U64
  }

  function Claim(s: State, height: nat, a: Address): State
    requires CanClaim(s, height, a)
  {
    var owner := s.withdraw[a];
    s.(account := s.account[owner := Pending(s, a) + GetOr(s.account, owner, 0)],
       unbonding := s.unbonding - {a},
       withdraw := if a in s.bonded then s.withdraw else s.withdraw - {a})
  }

  // ---------------------------------------------------------------------------
  // Accounts and records
  // ---------------------------------------------------------------------------

  predicate SameStake(s: State, s': State) {
    && s'.committee == s.committee && s'.delegated == s.delegated && s'.metadata == s.metadata
    && s'.bonded == s.bonded && s'.unbonding == s.unbonding && s'.withdraw == s.withdraw
  }

  function Debit(s: State, from: Address, amount: nat): Option<State> {
    if from in s.account && amount <= s.account[from]
    then Some(s.(account := s.account[from := s.account[from] - amount]))
    else None
  }

  function Credit(s: State, to: Address, amount: nat): Option<State> {
    var funds := GetOr(s.account, to, 0) + amount;
    if funds < U64 then Some(s.(account := s.account[to := funds])) else None
  }

  function Transfer(s: State, from: Address, to: Address, amount: nat): Option<State> {
    var s1 :- Debit(s, from, amount);
    Credit(s1, to, amount)
  }

  /** A record is consumed, once. */
  function Consume(s: State, input: nat): State {
    s.(records := s.records - {input})
  }

  function Create(s: State, owner: Address, amount: nat): State {
    s.(records := s.records[s.serial := Record(owner, amount)], serial := s.serial + 1)
  }

  function SendPrivate(s: State, input: nat, to: Address, amount: nat): Option<State> {
    var r :- Get(s.records, input);
    var rest :- Sub(r.microcredits, amount);
    Some(Create(Create(Consume(s, input), to, amount), r.owner, rest))
  }

  function Publish(s: State, input: nat, to: Address, amount: nat): Option<State> {
    var r :- Get(s.records, input);
    var rest :- Sub(r.microcredits, amount);
    Credit(Create(Consume(s, input), r.owner, rest), to, amount)
  }

  function Shield(s: State, caller: Address, to: Address, amount: nat): Option<State> {
    Debit(Create(s, to, amount), caller, amount)
  }

  /** The two inputs of one transaction are different records. */
  function JoinRecords(s: State, first: nat, second: nat): Option<State> {
    var r :- Get(s.records, first);
    var q :- Get(s.records, second);
    var _ :- Check(first != second);
    var sum :- Add(r.microcredits, q.microcredits, U64);
    Some(Create(Consume(Consume(s, first), second), r.owner, sum))
  }

  function SplitRecord(s: State, input: nat, amount: nat): Option<State> {
    var r :- Get(s.records, input);
    var rest :- Sub(r.microcredits, amount);
    var rest' :- Sub(rest, SPLIT_FEE);
    Some(Create(Create(Consume(s, input), r.owner, amount), r.owner, rest'))
  }

  function PayPrivate(s: State, input: nat, baseFee: nat, priorityFee: nat, execution: nat): Option<State> {
    var _ :- Check(baseFee != 0 && execution != 0);
    var r :- Get(s.records, input);
    var fee :- Add(baseFee, priorityFee, U64);
    var rest :- Sub(r.microcredits, fee);
    Some(Create(Consume(s, input), r.owner, rest))
  }

  function PayPublic(s: State, signer: Address, baseFee: nat, priorityFee: nat, execution: nat): Option<State> {
    var _ :- Check(baseFee != 0 && execution != 0);
    var fee :- Add(baseFee, priorityFee, U64);
    Debit(s, signer, fee)
  }

  function UpgradeRecord(s: State, input: nat): Option<State> {
    var r :- Get(s.records, input);
    var _ :- Check(r.microcredits <= MAX_UPGRADE);
    var used :- Add(GetOr(s.pool, ZERO_ADDRESS, 0), r.microcredits, U64);
    var _ :- Check(used <= MAX_POOL);
    Some(Create(Consume(s, input), r.owner, r.microcredits).(pool := s.pool[ZERO_ADDRESS := used]))
  }

  /** The transactions that touch accounts, records and fees only. */
  predicate IsMoneyTx(tx: Tx) {
    !(tx.BondValidator? || tx.BondPublic? || tx.UnbondPublic? || tx.ClaimUnbondPublic? || tx.SetValidatorState?)
  }

  function ApplyMoney(s: State, tx: Tx): (r: Option<State>)
    requires IsMoneyTx(tx)
    ensures r.Some? ==> SameStake(s, r.value)
  {
    match tx
    case TransferPublic(from, to, amount) => Transfer(s, from, to, amount)
    case TransferPrivate(input, to, amount) => SendPrivate(s, input, to, amount)
    case TransferPrivateToPublic(input, to, amount) => Publish(s, input, to, amount)
    case TransferPublicToPrivate(caller, to, amount) => Shield(s, caller, to, amount)
    case Join(first, second) => JoinRecords(s, first, second)
    case Split(input, amount) => SplitRecord(s, input, amount)
    case FeePrivate(input, baseFee, priorityFee, execution) => PayPrivate(s, input, baseFee, priorityFee, execution)
    case FeePublic(signer, baseFee, priorityFee, execution) => PayPublic(s, signer, baseFee, priorityFee, execution)
    case Upgrade(input) => UpgradeRecord(s, input)
  }

  // ---------------------------------------------------------------------------
  // Runs
  // ---------------------------------------------------------------------------

  function Apply(s: State, height: nat, tx: Tx): Option<State> {
    match tx
    case BondValidator(signer, withdrawal, amount, commission) =>
      if CanBondValidator(s, signer, withdrawal, amount, commission)
      then Some(BondSelf(s, signer, withdrawal, amount, commission)) else None
    case BondPublic(caller, validator, withdrawal, amount) =>
      if CanBondPublic(s, caller, validator, withdrawal, amount)
      then Some(BondTo(s, caller, validator, withdrawal, amount)) else None
    case UnbondPublic(caller, staker, amount) =>
      Unbond(s, height, caller, staker, amount)
    case ClaimUnbondPublic(staker) =>
      if CanClaim(s, height, staker) then Some(Claim(s, height, staker)) else None
    case SetValidatorState(caller, isOpen) =>
      var seat :- Get(s.committee, caller);
      Some(s.(committee := s.committee[caller := CommitteeState(isOpen, seat.commission)]))
    case _ =>
      ApplyMoney(s, tx)
  }

  /** A transaction that reverts changes nothing. */
  function Commit(s: State, height: nat, tx: Tx): State {
    match Apply(s, height, tx)
    case Some(s') => s'
    case None => s
  }

  /** A block height with each transaction; heights may be anything. */
  function Run(s: State, txs: seq<(nat, Tx)>): State
    decreases |txs|
  {
    if txs == [] then s else Run(Commit(s, txs[0].0, txs[0].1), txs[1..])
  }

  // ---------------------------------------------------------------------------
  // Whose account a transaction can debit
  // ---------------------------------------------------------------------------

  function Balance(s: State, a: Address): nat {
    if a in s.account then s.account[a] else 0
  }

  predicate Spends(tx: Tx, a: Address) {
    match tx
    case BondValidator(signer, _, _, _) => signer == a
    case BondPublic(caller, _, _, _) => caller == a
    case TransferPublic(from, _, _) => from == a
    case TransferPublicToPrivate(caller, _, _) => caller == a
    case FeePublic(signer, _, _, _) => signer == a
    case _ => false
  }

  /** Nobody else's transaction lowers the balance of `a`. */
  lemma OnlySpenderDebits(s: State, height: nat, tx: Tx, a: Address)
    requires !Spends(tx, a) && Apply(s, height, tx).Some?
    ensures Balance(Apply(s, height, tx).value, a) >= Balance(s, a)
  {
    hide Unbond;
  }

  lemma TransferMoves(s: State, from: Address, to: Address, amount: nat)
    requires Transfer(s, from, to, amount).Some?
    ensures var s' := Transfer(s, from, to, amount).value;
            && amount <= Balance(s, from)
            && (from != to ==>
                  Balance(s', from) == Balance(s, from) - amount && Balance(s', to) == Balance(s, to) + amount)
            && (from == to ==> Balance(s', from) == Balance(s, from))
            && forall a :: a != from && a != to ==> Balance(s', a) == Balance(s, a)
  {
  }
}
