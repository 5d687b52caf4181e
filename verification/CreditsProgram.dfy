/**
The finalize blocks of `credits.aleo` as they are written: mappings that are read and
written in order, with forward jumps. A transaction works on copies of the mappings and
commits them at its end, so every `return` before that is a revert. Each block is proved
equal to the structured transition of module `Credits`.
 */
module CreditsProgram {
  import opened Prelude
  import opened Credits

  /** The registers that the reads and checks of `bond_validator` fill. */
  datatype BondRegisters = BondRegisters(seat: CommitteeState, own: nat, total: nat, rest: nat)

  /** `bond_validator` up to its branch. */
  method BondValidatorReads(s: State, signer: Address, withdrawal: Address, amount: nat, commission: nat)
    returns (r: Option<BondRegisters>)
    ensures r.Some? == BondChecks(s, signer, withdrawal, amount, commission)
    ensures r.Some? ==> r.value == BondRegisters(GetOr(s.committee, signer, CommitteeState(true, commission)),
                                                 Own(s, signer) + amount, Delegated(s, signer) + amount,
                                                 s.account[signer] - amount)
  {
    if signer == withdrawal || amount < MIN_BOND || commission > 100 { return None; }
    if withdrawal != GetOr(s.withdraw, signer, withdrawal) { return None; }
    var seat := GetOr(s.committee, signer, CommitteeState(true, commission));
    if commission != seat.commission { return None; }
    var bond := GetOr(s.bonded, signer, BondState(signer, 0));
    if bond.validator != signer { return None; }
    var own := bond.microcredits + amount;
    if own >= U64 { return None; }
    var total := amount + GetOr(s.delegated, signer, 0);
    if total >= U64 || total < MIN_VALIDATOR_STAKE { return None; }
    if signer !in s.account || s.account[signer] < amount { return None; }
    return Some(BondRegisters(seat, own, total, s.account[signer] - amount));
  }

  /** `bond_validator` on a working copy of the mappings. */
  method BondValidatorBlock(s: State, signer: Address, withdrawal: Address, amount: nat,
                            commission: nat) returns (r: Option<State>)
    ensures r.Some? == CanBondValidator(s, signer, withdrawal, amount, commission)
    ensures r.Some? ==> r.value == BondSelf(s, signer, withdrawal, amount, commission)
  {
    hide BondChecks, Own, Delegated;
    var regs := BondValidatorReads(s, signer, withdrawal, amount, commission);
    if regs.None? { return None; }
    var s1 := s;
    label validator_in_committee: {
      if signer in s.committee { break validator_in_committee; }
      s1 := s1.(withdraw := s1.withdraw[signer := withdrawal]);
      if amount < MIN_SELF_BOND { return None; }
      var seats := GetOr(s1.metadata, COMMITTEE_COUNT, 0) + 1;
      if seats >= U32 { return None; }
      s1 := s1.(metadata := s1.metadata[COMMITTEE_COUNT := seats]);
      if signer in s1.unbonding { return None; }
    }
    assert s1 == Admitted(s, signer, withdrawal);
    return Some(s1.(committee := s.committee[signer := regs.value.seat],
                    delegated := s.delegated[signer := regs.value.total],
                    bonded := s.bonded[signer := BondState(signer, regs.value.own)],
                    account := s.account[signer := regs.value.rest]));
  }

  /** `unbond_public`, up to the test of the validator's remaining stake. */
  method UnbondDelegatorPart(s: State, staker: Address, amount: nat, byValidator: bool,
                             until: nat) returns (r: Option<State>)
    requires staker in s.bonded
    ensures r == UnbondDelegator(s, staker, amount, byValidator, until)
    ensures r.Some? ==> s.bonded[staker].validator in r.value.delegated && OnlyStake(s, r.value)
  {
    var v, own := s.bonded[staker].validator, s.bonded[staker].microcredits;
    var delegated, metadata, bonded, unbonding := s.delegated, s.metadata, s.bonded, s.unbonding;
    var pending := GetOr(unbonding, staker, UnbondState(0, until)).microcredits;
    assert pending == Pending(s, staker) && own == Own(s, staker);
    if v !in delegated || own < amount { return None; }
    var total := delegated[v];
    var all := byValidator || own - amount < MIN_DELEGATOR_BOND;
    var out := if all then own else amount;
    if pending + out >= U64 { return None; }
    unbonding := unbonding[staker := UnbondState(pending + out, until)];
    if total < out { return None; }
    delegated := delegated[v := total - out];
    label end_unbond_delegator: {
      label remove_delegator: {
        if all { break remove_delegator; }
        bonded := bonded[staker := BondState(v, own - amount)];
        break end_unbond_delegator;
      }
      bonded := bonded - {staker};
      if DELEGATOR_COUNT !in metadata || metadata[DELEGATOR_COUNT] < 1 { return None; }
      metadata := metadata[DELEGATOR_COUNT := metadata[DELEGATOR_COUNT] - 1];
    }
    return Some(s.(delegated := delegated, metadata := metadata, bonded := bonded, unbonding := unbonding));
  }

  /** `unbond_public` from position `unbond_validator`; `self` tells how it was reached. */
  method UnbondValidatorPart(s: State, v: Address, amount: nat, self: bool, until: nat) returns (r: Option<State>)
    requires if self then v in s.bonded && s.bonded[v].validator == v
             else v in s.delegated && s.delegated[v] < MIN_VALIDATOR_STAKE
    ensures r == if self then UnbondValidator(s, v, amount, until)
                 else if v in s.committee then RemoveValidator(s, v, until)
                 else Some(s)
    ensures r.Some? ==> OnlyStake(s, r.value)
  {
    var committee, delegated, metadata, bonded, unbonding := s.committee, s.delegated, s.metadata,
        s.bonded, s.unbonding;
    label end: {
      if !self && v !in committee { break end; }
      if v !in committee || v !in bonded || v !in delegated { return None; }
      var own, total := bonded[v].microcredits, delegated[v];
      var pending := GetOr(unbonding, v, UnbondState(0, until)).microcredits;
      assert pending == Pending(s, v) && own == Own(s, v);
      label remove_validator: {
        if total < MIN_VALIDATOR_STAKE { break remove_validator; }
        if total < amount || own < amount { return None; }
        if own - amount < MIN_SELF_BOND || total - amount < MIN_VALIDATOR_STAKE { break remove_validator; }
        if pending + amount >= U64 { return None; }
        unbonding := unbonding[v := UnbondState(pending + amount, until)];
        delegated := delegated[v := total - amount];
        bonded := bonded[v := BondState(v, own - amount)];
        break end;
      }
      committee := committee - {v};
      if COMMITTEE_COUNT !in metadata || metadata[COMMITTEE_COUNT] < 1 { return None; }
      metadata := metadata[COMMITTEE_COUNT := metadata[COMMITTEE_COUNT] - 1];
      if total < own { return None; }
      delegated := delegated[v := total - own];
      bonded := bonded - {v};
      if pending + own >= U64 { return None; }
      unbonding := unbonding[v := UnbondState(pending + own, until)];
    }
    return Some(s.(committee := committee, delegated := delegated, metadata := metadata, bonded := bonded,
                   unbonding := unbonding));
  }

  class Program {
    var committee: map<Address, CommitteeState>
    var delegated: map<Address, nat>
    var metadata: map<Address, nat>
    var bonded: map<Address, BondState>
    var unbonding: map<Address, UnbondState>
    var account: map<Address, nat>
    var withdraw: map<Address, Address>
    const pool: map<Address, nat>
    const records: map<nat, Record>
    const serial: nat

    function Value(): State
      reads this
    {
      State(committee, delegated, metadata, bonded, unbonding, account, withdraw, pool, records, serial)
    }

    constructor (s: State)
      ensures Value() == s
    {
      committee, delegated, metadata, bonded := s.committee, s.delegated, s.metadata, s.bonded;
      unbonding, account, withdraw := s.unbonding, s.account, s.withdraw;
      pool, records, serial := s.pool, s.records, s.serial;
    }

    method BondValidator(signer: Address, withdrawal: Address, amount: nat, commission: nat) returns (ok: bool)
      modifies this
      ensures ok == CanBondValidator(old(Value()), signer, withdrawal, amount, commission)
      ensures Value() == if ok then BondSelf(old(Value()), signer, withdrawal, amount, commission) else old(Value())
    {
      var work := BondValidatorBlock(Value(), signer, withdrawal, amount, commission);
      ok := work.Some?;
      if ok {
        committee, delegated, metadata := work.value.committee, work.value.delegated, work.value.metadata;
        bonded, account, withdraw := work.value.bonded, work.value.account, work.value.withdraw;
      }
    }

    method BondPublic(caller: Address, validator: Address, withdrawal: Address, amount: nat) returns (ok: bool)
      modifies this
      ensures ok == CanBondPublic(old(Value()), caller, validator, withdrawal, amount)
      ensures Value() == if ok then BondTo(old(Value()), caller, validator, withdrawal, amount) else old(Value())
    {
      ok := false;
      if amount < MIN_BOND || caller == validator { return; }
      var owner := GetOr(withdraw, caller, withdrawal);
      if withdrawal != owner { return; }
      var withdraw1, metadata1 := withdraw, metadata;
      label continue_bond_delegator: {
        if caller in bonded { break continue_bond_delegator; }
        withdraw1 := withdraw1[caller := withdrawal];
        var seat := GetOr(committee, validator, CommitteeState(true, 0));
        if !seat.isOpen { return; }
        var delegators := GetOr(metadata1, DELEGATOR_COUNT, 0) + 1;
        if delegators >= U32 || delegators > MAX_DELEGATORS { return; }
        metadata1 := metadata1[DELEGATOR_COUNT := delegators];
      }
      var bond := GetOr(bonded, caller, BondState(validator, 0));
      if bond.validator != validator { return; }
      var own := bond.microcredits + amount;
      if own >= U64 || own < MIN_DELEGATOR_BOND { return; }
      if caller !in account || account[caller] < amount { return; }
      var rest := account[caller] - amount;
      var total := amount + GetOr(delegated, validator, 0);
      if total >= U64 || validator in unbonding { return; }
      withdraw, metadata := withdraw1, metadata1;
      bonded := bonded[caller := BondState(validator, own)];
      account := account[caller := rest];
      delegated := delegated[validator := total];
      ok := true;
    }

    /** `unbond_public`; the delegator part falls through into the validator part. */
    method UnbondPublic(height: nat, caller: Address, staker: Address, amount: nat) returns (ok: bool)
      modifies this
      ensures ok == Unbond(old(Value()), height, caller, staker, amount).Some?
      ensures Value() == if ok then Unbond(old(Value()), height, caller, staker, amount).value else old(Value())
    {
      ok := false;
      var until := height + UNBONDING_BLOCKS;
      if until >= U32 || staker !in bonded || staker !in withdraw { return; }
      var v := bonded[staker].validator;
      var byValidator := v in withdraw && caller == withdraw[v];
      if !(caller == withdraw[staker] || byValidator) { return; }
      var work := Some(Value());
      label end: {
        label unbond_validator: {
          if v == staker { break unbond_validator; }
          work := UnbondDelegatorPart(Value(), staker, amount, byValidator, until);
          if work.None? { return; }
          if work.value.delegated[v] >= MIN_VALIDATOR_STAKE { break end; }
        }
        work := UnbondValidatorPart(work.value, v, amount, v == staker, until);
        if work.None? { return; }
      }
      committee, delegated, metadata := work.value.committee, work.value.delegated, work.value.metadata;
      bonded, unbonding := work.value.bonded, work.value.unbonding;
      ok := true;
    }

    method ClaimUnbondPublic(height: nat, staker: Address) returns (ok: bool)
      modifies this
      ensures ok == CanClaim(old(Value()), height, staker)
      ensures Value() == if ok then Claim(old(Value()), height, staker) else old(Value())
    {
      ok := false;
      if staker !in unbonding || height < unbonding[staker].height || staker !in withdraw { return; }
      var owner := withdraw[staker];
      var funds := unbonding[staker].microcredits + GetOr(account, owner, 0);
      if funds >= U64 { return; }
      account := account[owner := funds];
      unbonding := unbonding - {staker};
      label end: {
        if staker in bonded { break end; }
        withdraw := withdraw - {staker};
      }
      ok := true;
    }

    method TransferPublic(from: Address, to: Address, amount: nat) returns (ok: bool)
      modifies this
      ensures ok == Transfer(old(Value()), from, to, amount).Some?
      ensures Value() == if ok then Transfer(old(Value()), from, to, amount).value else old(Value())
    {
      ok := false;
      if from !in account || account[from] < amount { return; }
      var account1 := account[from := account[from] - amount];
      var funds := GetOr(account1, to, 0) + amount;
      if funds >= U64 { return; }
      account := account1[to := funds];
      ok := true;
    }
  }
}
