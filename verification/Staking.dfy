/** What every run of `credits.aleo` keeps: the staking invariant. */
module Staking {
  import opened Prelude
  import opened Sums
  import opened Credits

  // ---------------------------------------------------------------------------
  // The staking invariant
  // ---------------------------------------------------------------------------

  /** The stake an entry of `bonded` places on `v`. */
  ghost function StakeOn(v: Address): (Address, BondState) -> nat {
    (a: Address, b: BondState) => if b.validator == v then b.microcredits else 0
  }

  /** One for each delegator, none for a self-bond. */
  ghost function IsDelegator(): (Address, BondState) -> nat {
    (a: Address, b: BondState) => if b.validator != a then 1 else 0
  }

  ghost function Delegators(bonded: map<Address, BondState>): nat {
    Sum(bonded, IsDelegator())
  }

  /** `delegated[v]` is the sum of the bonds that point at `v`. */
  ghost predicate Tally(bonded: map<Address, BondState>, delegated: map<Address, nat>) {
    forall v: Address {:trigger Sum(bonded, StakeOn(v))} :: GetOr(delegated, v, 0) == Sum(bonded, StakeOn(v))
  }

  ghost predicate Counts(s: State) {
    && Count(s, COMMITTEE_COUNT) == Size(s.committee)
    && Count(s, DELEGATOR_COUNT) == Delegators(s.bonded) <= MAX_DELEGATORS
  }

  /** The committee is exactly the self-bonded addresses. */
  ghost predicate Seated(s: State) {
    forall v: Address :: v in s.committee <==> v in s.bonded && s.bonded[v].validator == v
  }

  /** The minimum stakes; `exempt` is a validator whose total is not asked for. */
  ghost predicate MinimumsExcept(s: State, exempt: set<Address>) {
    && (forall v: Address :: v in s.committee ==>
          v in s.delegated && (v in exempt || s.delegated[v] >= MIN_VALIDATOR_STAKE))
    && (forall a: Address :: a in s.bonded ==>
          s.bonded[a].microcredits >= if s.bonded[a].validator == a then MIN_SELF_BOND else MIN_DELEGATOR_BOND)
  }

  /** A withdrawal address is on record exactly while something is bonded or unbonding. */
  ghost predicate Withdrawable(s: State) {
    forall a: Address :: a in s.withdraw <==> a in s.bonded || a in s.unbonding
  }

  /** The derived sums and counters agree with the bonds. */
  ghost predicate Ledger(s: State) {
    Tally(s.bonded, s.delegated) && Counts(s)
  }

  ghost predicate Shape(s: State, exempt: set<Address>) {
    Seated(s) && MinimumsExcept(s, exempt) && Withdrawable(s)
  }

  ghost predicate Inv(s: State) {
    Ledger(s) && Shape(s, {})
  }

  /** No stake, no committee; accounts and records may hold anything. */
  predicate NoStake(s: State) {
    && s.committee == map[] && s.delegated == map[] && s.metadata == map[]
    && s.bonded == map[] && s.unbonding == map[] && s.withdraw == map[]
  }

  // Bonds and tallies move together.

  lemma TallyBond(bonded: map<Address, BondState>, delegated: map<Address, nat>, a: Address, v: Address,
                  x: nat, total: nat)
    requires Tally(bonded, delegated)
    requires a in bonded ==> bonded[a].validator == v
    requires total + (if a in bonded then bonded[a].microcredits else 0) == GetOr(delegated, v, 0) + x
    ensures Tally(bonded[a := BondState(v, x)], delegated[v := total])
  {
    var bonded', delegated' := bonded[a := BondState(v, x)], delegated[v := total];
    forall w: Address ensures GetOr(delegated', w, 0) == Sum(bonded', StakeOn(w)) {
      SumUpdate(bonded, a, BondState(v, x), StakeOn(w));
    }
  }

  lemma TallyUnbond(bonded: map<Address, BondState>, delegated: map<Address, nat>, a: Address, v: Address, total: nat)
    requires Tally(bonded, delegated)
    requires a in bonded && bonded[a].validator == v && total + bonded[a].microcredits == GetOr(delegated, v, 0)
    ensures Tally(bonded - {a}, delegated[v := total])
  {
    var bonded', delegated' := bonded - {a}, delegated[v := total];
    forall w: Address ensures GetOr(delegated', w, 0) == Sum(bonded', StakeOn(w)) {
      SumRemove(bonded, a, StakeOn(w));
    }
  }

  lemma DelegatorsBond(bonded: map<Address, BondState>, a: Address, v: Address, x: nat)
    requires a in bonded ==> bonded[a].validator == v
    ensures Delegators(bonded[a := BondState(v, x)]) == Delegators(bonded) + (if a in bonded || v == a then 0 else 1)
  {
    SumUpdate(bonded, a, BondState(v, x), IsDelegator());
  }

  lemma DelegatorsUnbond(bonded: map<Address, BondState>, a: Address)
    requires a in bonded
    ensures Delegators(bonded) == Delegators(bonded - {a}) + (if bonded[a].validator == a then 0 else 1)
  {
    SumRemove(bonded, a, IsDelegator());
  }

  // Each change of the staking state keeps the sums and the shape.

  lemma BondSelfKeeps(s: State, v: Address, withdrawal: Address, amount: nat, commission: nat)
    requires Ledger(s) && CanBondValidator(s, v, withdrawal, amount, commission)
    requires v in s.committee ==> v in s.bonded
    ensures Ledger(BondSelf(s, v, withdrawal, amount, commission))
  {
    TallyBond(s.bonded, s.delegated, v, v, Own(s, v) + amount, Delegated(s, v) + amount);
    DelegatorsBond(s.bonded, v, v, Own(s, v) + amount);
    SizeUpdate(s.committee, v, GetOr(s.committee, v, CommitteeState(true, commission)));
  }

  lemma BondSelfShape(s: State, v: Address, withdrawal: Address, amount: nat, commission: nat)
    requires Shape(s, {}) && CanBondValidator(s, v, withdrawal, amount, commission)
    ensures Shape(BondSelf(s, v, withdrawal, amount, commission), {})
  {
  }

  lemma BondToTally(s: State, a: Address, v: Address, withdrawal: Address, amount: nat)
    requires Tally(s.bonded, s.delegated) && CanBondPublic(s, a, v, withdrawal, amount)
    ensures var s' := BondTo(s, a, v, withdrawal, amount); Tally(s'.bonded, s'.delegated)
  {
    TallyBond(s.bonded, s.delegated, a, v, Own(s, a) + amount, Delegated(s, v) + amount);
  }

  lemma BondToCounts(s: State, a: Address, v: Address, withdrawal: Address, amount: nat)
    requires Counts(s) && CanBondPublic(s, a, v, withdrawal, amount)
    ensures Counts(BondTo(s, a, v, withdrawal, amount))
  {
    DelegatorsBond(s.bonded, a, v, Own(s, a) + amount);
  }

  lemma BondToShape(s: State, a: Address, v: Address, withdrawal: Address, amount: nat)
    requires Shape(s, {}) && CanBondPublic(s, a, v, withdrawal, amount)
    ensures Shape(BondTo(s, a, v, withdrawal, amount), {})
  {
  }

  lemma ReduceKeeps(s: State, a: Address, v: Address, amount: nat, until: nat)
    requires Ledger(s) && CanReduce(s, a, v, amount) && s.bonded[a].validator == v
    ensures Ledger(Reduce(s, a, v, amount, until))
  {
    TallyBond(s.bonded, s.delegated, a, v, Own(s, a) - amount, s.delegated[v] - amount);
    DelegatorsBond(s.bonded, a, v, Own(s, a) - amount);
  }

  lemma ReduceShape(s: State, a: Address, v: Address, amount: nat, until: nat)
    requires Shape(s, {}) && CanReduce(s, a, v, amount) && s.bonded[a].validator == v
    requires Own(s, a) - amount >= if v == a then MIN_SELF_BOND else MIN_DELEGATOR_BOND
    ensures Shape(Reduce(s, a, v, amount, until), {v})
    ensures s.delegated[v] - amount >= MIN_VALIDATOR_STAKE ==> Shape(Reduce(s, a, v, amount, until), {})
  {
  }

  lemma LeaveKeeps(s: State, a: Address, v: Address, key: Address, until: nat)
    requires Ledger(s) && CanLeave(s, a, v, key) && s.bonded[a].validator == v
    requires if v == a then key == COMMITTEE_COUNT && a in s.committee else key == DELEGATOR_COUNT
    ensures Ledger(Leave(s, a, v, key, until))
  {
    TallyUnbond(s.bonded, s.delegated, a, v, s.delegated[v] - Own(s, a));
    DelegatorsUnbond(s.bonded, a);
    if v == a {
      SizeRemove(s.committee, a);
    }
  }

  lemma LeaveShape(s: State, a: Address, v: Address, key: Address, until: nat)
    requires Shape(s, {v}) && CanLeave(s, a, v, key) && s.bonded[a].validator == v
    requires key == if v == a then COMMITTEE_COUNT else DELEGATOR_COUNT
    ensures Shape(Leave(s, a, v, key, until), {v})
    ensures v == a ==> Shape(Leave(s, a, v, key, until), {})
  {
  }

  // The transactions.

  lemma RemoveValidatorKeeps(s: State, v: Address, until: nat)
    requires Ledger(s) && Shape(s, {v}) && RemoveValidator(s, v, until).Some?
    ensures Inv(RemoveValidator(s, v, until).value)
  {
    LeaveKeeps(s, v, v, COMMITTEE_COUNT, until);
    LeaveShape(s, v, v, COMMITTEE_COUNT, until);
  }

  lemma ShapeWeaken(s: State, v: Address)
    requires Shape(s, {})
    ensures Shape(s, {v})
  {
  }

  lemma ShapeRestore(s: State, v: Address)
    requires Shape(s, {v}) && (v in s.committee ==> Delegated(s, v) >= MIN_VALIDATOR_STAKE)
    ensures Shape(s, {})
  {
  }

  lemma UnbondValidatorKeeps(s: State, v: Address, amount: nat, until: nat)
    requires Inv(s) && v in s.bonded && s.bonded[v].validator == v
    requires UnbondValidator(s, v, amount, until).Some?
    ensures Inv(UnbondValidator(s, v, amount, until).value)
  {
    ShapeWeaken(s, v);
    if RemoveValidator(s, v, until).Some? {
      RemoveValidatorKeeps(s, v, until);
    }
    if CanReduce(s, v, v, amount) && Own(s, v) - amount >= MIN_SELF_BOND {
      ReduceKeeps(s, v, v, amount, until);
      ReduceShape(s, v, v, amount, until);
    }
  }

  lemma UnbondDelegatorKeeps(s: State, a: Address, amount: nat, byValidator: bool, until: nat)
    requires Inv(s) && a in s.bonded && s.bonded[a].validator != a
    requires UnbondDelegator(s, a, amount, byValidator, until).Some?
    ensures var s' := UnbondDelegator(s, a, amount, byValidator, until).value;
            Ledger(s') && Shape(s', {s.bonded[a].validator})
  {
    var v := s.bonded[a].validator;
    ShapeWeaken(s, v);
    if byValidator || Own(s, a) - amount < MIN_DELEGATOR_BOND {
      LeaveKeeps(s, a, v, DELEGATOR_COUNT, until);
      LeaveShape(s, a, v, DELEGATOR_COUNT, until);
    } else {
      ReduceKeeps(s, a, v, amount, until);
      ReduceShape(s, a, v, amount, until);
    }
  }

  lemma UnbondKeeps(s: State, height: nat, caller: Address, a: Address, amount: nat)
    requires Inv(s) && Unbond(s, height, caller, a, amount).Some?
    ensures Inv(Unbond(s, height, caller, a, amount).value)
  {
    hide UnbondValidator, UnbondDelegator, RemoveValidator, Ledger, Shape, MayUnbond;
    var v, until := s.bonded[a].validator, height + UNBONDING_BLOCKS;
    if v == a {
      UnbondValidatorKeeps(s, a, amount, until);
    } else {
      var byValidator := ByValidator(s, caller, a);
      UnbondDelegatorKeeps(s, a, amount, byValidator, until);
      var s1 := UnbondDelegator(s, a, amount, byValidator, until).value;
      if Delegated(s1, v) < MIN_VALIDATOR_STAKE && v in s1.committee {
        RemoveValidatorKeeps(s1, v, until);
      } else {
        ShapeRestore(s1, v);
      }
    }
  }

  lemma SameStakeKeeps(s: State, s': State)
    requires Inv(s) && SameStake(s, s')
    ensures Inv(s')
  {
  }

  lemma ClaimKeeps(s: State, height: nat, a: Address)
    requires Inv(s) && CanClaim(s, height, a)
    ensures Inv(Claim(s, height, a))
  {
    assert Ledger(Claim(s, height, a));
  }

  lemma StakingTxKeeps(s: State, height: nat, tx: Tx)
    requires Inv(s) && Apply(s, height, tx).Some?
    requires tx.BondValidator? || tx.BondPublic? || tx.UnbondPublic?
    ensures Inv(Apply(s, height, tx).value)
  {
    match tx
    case BondValidator(signer, withdrawal, amount, commission) =>
      BondSelfKeeps(s, signer, withdrawal, amount, commission);
      BondSelfShape(s, signer, withdrawal, amount, commission);
    case BondPublic(caller, validator, withdrawal, amount) =>
      BondToTally(s, caller, validator, withdrawal, amount);
      BondToCounts(s, caller, validator, withdrawal, amount);
      BondToShape(s, caller, validator, withdrawal, amount);
    case UnbondPublic(caller, staker, amount) =>
      UnbondKeeps(s, height, caller, staker, amount);
  }

  lemma SetValidatorStateKeeps(s: State, caller: Address, isOpen: bool)
    requires Inv(s) && caller in s.committee
    ensures Inv(s.(committee := s.committee[caller := CommitteeState(isOpen, s.committee[caller].commission)]))
  {
    SizeUpdate(s.committee, caller, CommitteeState(isOpen, s.committee[caller].commission));
  }

  lemma ApplyKeeps(s: State, height: nat, tx: Tx)
    requires Inv(s) && Apply(s, height, tx).Some?
    ensures Inv(Apply(s, height, tx).value)
  {
    if tx.BondValidator? || tx.BondPublic? || tx.UnbondPublic? {
      StakingTxKeeps(s, height, tx);
    } else if tx.ClaimUnbondPublic? {
      ClaimKeeps(s, height, tx.staker);
    } else if tx.SetValidatorState? {
      SetValidatorStateKeeps(s, tx.caller, tx.isOpen);
    } else {
      SameStakeKeeps(s, Apply(s, height, tx).value);
    }
  }

  /** Every run from a state without stake keeps the whole staking invariant. */
  lemma {:induction false} StakingInvariant(s: State, txs: seq<(nat, Tx)>)
    requires NoStake(s) || Inv(s)
    ensures Inv(Run(s, txs))
    ensures Count(Run(s, txs), COMMITTEE_COUNT) == |Run(s, txs).committee|
    decreases |txs|
  {
    assert Inv(s);
    SizeIsCardinality(s.committee);
    if txs != [] {
      if Apply(s, txs[0].0, txs[0].1).Some? {
        ApplyKeeps(s, txs[0].0, txs[0].1);
      }
      StakingInvariant(Commit(s, txs[0].0, txs[0].1), txs[1..]);
    }
  }
}
