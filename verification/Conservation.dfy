/** Credits are neither created nor lost, except for what fees and `split` burn. */
module Conservation {
  import opened Prelude
  import opened Sums
  import opened Credits
  import opened Staking

  ghost function Coins(): (Address, nat) -> nat { (a: Address, n: nat) => n }
  ghost function BondCoins(): (Address, BondState) -> nat { (a: Address, b: BondState) => b.microcredits }
  ghost function UnbondCoins(): (Address, UnbondState) -> nat { (a: Address, u: UnbondState) => u.microcredits }
  ghost function RecordCoins(): (nat, Record) -> nat { (k: nat, r: Record) => r.microcredits }

  /** Every microcredit there is. */
  ghost function Total(s: State): nat {
    Sum(s.account, Coins()) + Sum(s.bonded, BondCoins()) + Sum(s.unbonding, UnbondCoins())
      + Sum(s.records, RecordCoins())
  }

  /** Serial numbers are handed out once. */
  ghost predicate Fresh(s: State) {
    forall k :: k in s.records ==> k < s.serial
  }

  /** `s'` holds what `s` holds, less `burned`. */
  ghost predicate Conserves(s: State, s': State, burned: nat) {
    Fresh(s') && Total(s') + burned == Total(s)
  }

  /** What a transaction destroys when it goes through. */
  function BurnedBy(tx: Tx): nat {
    match tx
    case Split(_, _) => SPLIT_FEE
    case FeePrivate(_, baseFee, priorityFee, _) => baseFee + priorityFee
    case FeePublic(_, baseFee, priorityFee, _) => baseFee + priorityFee
    case _ => 0
  }

  function BurnedIn(s: State, txs: seq<(nat, Tx)>): nat
    decreases |txs|
  {
    if txs == [] then 0
    else
      (if Apply(s, txs[0].0, txs[0].1).Some? then BurnedBy(txs[0].1) else 0)
      + BurnedIn(Commit(s, txs[0].0, txs[0].1), txs[1..])
  }

  // The primitive moves.

  lemma DebitTotal(s: State, from: Address, amount: nat)
    requires Debit(s, from, amount).Some?
    ensures Total(Debit(s, from, amount).value) + amount == Total(s)
  {
    SumUpdate<Address, nat>(s.account, from, s.account[from] - amount, Coins());
  }

  lemma CreditTotal(s: State, to: Address, amount: nat)
    requires Credit(s, to, amount).Some?
    ensures Total(Credit(s, to, amount).value) == Total(s) + amount
  {
    SumUpdate<Address, nat>(s.account, to, GetOr(s.account, to, 0) + amount, Coins());
  }

  lemma ConsumeTotal(s: State, input: nat)
    requires Fresh(s) && input in s.records
    ensures Fresh(Consume(s, input)) && Total(Consume(s, input)) + s.records[input].microcredits == Total(s)
  {
    SumRemove(s.records, input, RecordCoins());
  }

  lemma CreateTotal(s: State, owner: Address, amount: nat)
    requires Fresh(s)
    ensures Fresh(Create(s, owner, amount)) && Total(Create(s, owner, amount)) == Total(s) + amount
  {
    SumUpdate(s.records, s.serial, Record(owner, amount), RecordCoins());
  }

  // Staking moves credits between accounts, bonds and unbonding entries.

  lemma BondTotal(s: State, a: Address, b: BondState, amount: nat, s': State)
    requires a in s.account && amount <= s.account[a] && b.microcredits == Own(s, a) + amount
    requires s'.account == s.account[a := s.account[a] - amount] && s'.bonded == s.bonded[a := b]
    requires Fresh(s) && s'.unbonding == s.unbonding && s'.records == s.records && s'.serial == s.serial
    ensures Conserves(s, s', 0)
  {
    SumUpdate<Address, nat>(s.account, a, s.account[a] - amount, Coins());
    SumUpdate(s.bonded, a, b, BondCoins());
  }

  lemma ReduceTotal(s: State, a: Address, v: Address, amount: nat, until: nat)
    requires Fresh(s) && CanReduce(s, a, v, amount)
    ensures Conserves(s, Reduce(s, a, v, amount, until), 0)
  {
    SumUpdate(s.bonded, a, BondState(v, Own(s, a) - amount), BondCoins());
    SumUpdate(s.unbonding, a, UnbondState(Pending(s, a) + amount, until), UnbondCoins());
  }

  lemma LeaveTotal(s: State, a: Address, v: Address, key: Address, until: nat)
    requires Fresh(s) && CanLeave(s, a, v, key)
    ensures Conserves(s, Leave(s, a, v, key, until), 0)
  {
    SumRemove(s.bonded, a, BondCoins());
    SumUpdate(s.unbonding, a, UnbondState(Pending(s, a) + Own(s, a), until), UnbondCoins());
  }

  lemma ClaimTotal(s: State, height: nat, a: Address)
    requires Fresh(s) && CanClaim(s, height, a)
    ensures Conserves(s, Claim(s, height, a), 0)
  {
    var owner := s.withdraw[a];
    SumUpdate<Address, nat>(s.account, owner, Pending(s, a) + GetOr(s.account, owner, 0), Coins());
    SumRemove(s.unbonding, a, UnbondCoins());
  }

  lemma RemoveValidatorTotal(s: State, v: Address, until: nat)
    requires Fresh(s) && RemoveValidator(s, v, until).Some?
    ensures Conserves(s, RemoveValidator(s, v, until).value, 0)
  {
    LeaveTotal(s, v, v, COMMITTEE_COUNT, until);
  }

  lemma UnbondValidatorTotal(s: State, v: Address, amount: nat, until: nat)
    requires Fresh(s) && v in s.bonded && s.bonded[v].validator == v && UnbondValidator(s, v, amount, until).Some?
    ensures Conserves(s, UnbondValidator(s, v, amount, until).value, 0)
  {
    if RemoveValidator(s, v, until).Some? {
      RemoveValidatorTotal(s, v, until);
    }
    if CanReduce(s, v, v, amount) {
      ReduceTotal(s, v, v, amount, until);
    }
  }

  lemma UnbondDelegatorTotal(s: State, a: Address, amount: nat, byValidator: bool, until: nat)
    requires Fresh(s) && a in s.bonded && UnbondDelegator(s, a, amount, byValidator, until).Some?
    ensures Conserves(s, UnbondDelegator(s, a, amount, byValidator, until).value, 0)
  {
    var v := s.bonded[a].validator;
    if byValidator || Own(s, a) - amount < MIN_DELEGATOR_BOND {
      LeaveTotal(s, a, v, DELEGATOR_COUNT, until);
    } else {
      ReduceTotal(s, a, v, amount, until);
    }
  }

  /** Includes the delegator path that goes on to remove the validator. */
  lemma UnbondTotal(s: State, height: nat, caller: Address, a: Address, amount: nat)
    requires Fresh(s) && Unbond(s, height, caller, a, amount).Some?
    ensures Conserves(s, Unbond(s, height, caller, a, amount).value, 0)
  {
    var v, until := s.bonded[a].validator, height + UNBONDING_BLOCKS;
    if v == a {
      UnbondValidatorTotal(s, a, amount, until);
    } else {
      var byValidator := ByValidator(s, caller, a);
      UnbondDelegatorTotal(s, a, amount, byValidator, until);
      var s1 := UnbondDelegator(s, a, amount, byValidator, until).value;
      if Delegated(s1, v) < MIN_VALIDATOR_STAKE && v in s1.committee {
        RemoveValidatorTotal(s1, v, until);
      }
    }
  }

  lemma TransferTotal(s: State, from: Address, to: Address, amount: nat)
    requires Fresh(s) && Transfer(s, from, to, amount).Some?
    ensures Conserves(s, Transfer(s, from, to, amount).value, 0)
  {
    DebitTotal(s, from, amount);
    CreditTotal(Debit(s, from, amount).value, to, amount);
  }

  /** Replacing a record by one of another value. */
  lemma ReplaceTotal(s: State, input: nat, owner: Address, amount: nat)
    requires Fresh(s) && input in s.records
    ensures var s' := Create(Consume(s, input), owner, amount);
            Fresh(s') && Total(s') + s.records[input].microcredits == Total(s) + amount
  {
    ConsumeTotal(s, input);
    CreateTotal(Consume(s, input), owner, amount);
  }

  /** Replacing a record by two. */
  lemma BreakTotal(s: State, input: nat, first: Address, x: nat, second: Address, y: nat)
    requires Fresh(s) && input in s.records
    ensures var s' := Create(Create(Consume(s, input), first, x), second, y);
            Fresh(s') && Total(s') + s.records[input].microcredits == Total(s) + x + y
  {
    ReplaceTotal(s, input, first, x);
    CreateTotal(Create(Consume(s, input), first, x), second, y);
  }

  lemma SendPrivateTotal(s: State, input: nat, to: Address, amount: nat)
    requires Fresh(s) && SendPrivate(s, input, to, amount).Some?
    ensures Conserves(s, SendPrivate(s, input, to, amount).value, 0)
  {
    var r := s.records[input];
    BreakTotal(s, input, to, amount, r.owner, r.microcredits - amount);
  }

  lemma PublishTotal(s: State, input: nat, to: Address, amount: nat)
    requires Fresh(s) && Publish(s, input, to, amount).Some?
    ensures Conserves(s, Publish(s, input, to, amount).value, 0)
  {
    var r := s.records[input];
    ReplaceTotal(s, input, r.owner, r.microcredits - amount);
    CreditTotal(Create(Consume(s, input), r.owner, r.microcredits - amount), to, amount);
  }

  lemma ShieldTotal(s: State, caller: Address, to: Address, amount: nat)
    requires Fresh(s) && Shield(s, caller, to, amount).Some?
    ensures Conserves(s, Shield(s, caller, to, amount).value, 0)
  {
    CreateTotal(s, to, amount);
    DebitTotal(Create(s, to, amount), caller, amount);
  }

  lemma JoinTotal(s: State, first: nat, second: nat)
    requires Fresh(s) && JoinRecords(s, first, second).Some?
    ensures Conserves(s, JoinRecords(s, first, second).value, 0)
  {
    var r, q := s.records[first], s.records[second];
    ConsumeTotal(s, first);
    ReplaceTotal(Consume(s, first), second, r.owner, r.microcredits + q.microcredits);
  }

  lemma SplitTotal(s: State, input: nat, amount: nat)
    requires Fresh(s) && SplitRecord(s, input, amount).Some?
    ensures Conserves(s, SplitRecord(s, input, amount).value, SPLIT_FEE)
  {
    var r := s.records[input];
    BreakTotal(s, input, r.owner, amount, r.owner, r.microcredits - amount - SPLIT_FEE);
  }

  lemma PayPrivateTotal(s: State, input: nat, baseFee: nat, priorityFee: nat, execution: nat)
    requires Fresh(s) && PayPrivate(s, input, baseFee, priorityFee, execution).Some?
    ensures Conserves(s, PayPrivate(s, input, baseFee, priorityFee, execution).value, baseFee + priorityFee)
  {
    var r := s.records[input];
    ReplaceTotal(s, input, r.owner, r.microcredits - (baseFee + priorityFee));
  }

  lemma PayPublicTotal(s: State, signer: Address, baseFee: nat, priorityFee: nat, execution: nat)
    requires Fresh(s) && PayPublic(s, signer, baseFee, priorityFee, execution).Some?
    ensures Conserves(s, PayPublic(s, signer, baseFee, priorityFee, execution).value, baseFee + priorityFee)
  {
    DebitTotal(s, signer, baseFee + priorityFee);
  }

  lemma UpgradeTotal(s: State, input: nat)
    requires Fresh(s) && UpgradeRecord(s, input).Some?
    ensures Conserves(s, UpgradeRecord(s, input).value, 0)
  {
    ReplaceTotal(s, input, s.records[input].owner, s.records[input].microcredits);
  }

  lemma MoneyTotal(s: State, tx: Tx)
    requires Fresh(s) && IsMoneyTx(tx) && ApplyMoney(s, tx).Some?
    ensures Conserves(s, ApplyMoney(s, tx).value, BurnedBy(tx))
  {
    match tx
    case TransferPublic(from, to, amount) => TransferTotal(s, from, to, amount);
    case TransferPrivate(input, to, amount) => SendPrivateTotal(s, input, to, amount);
    case TransferPrivateToPublic(input, to, amount) => PublishTotal(s, input, to, amount);
    case TransferPublicToPrivate(caller, to, amount) => ShieldTotal(s, caller, to, amount);
    case Join(first, second) => JoinTotal(s, first, second);
    case Split(input, amount) => SplitTotal(s, input, amount);
    case FeePrivate(input, baseFee, priorityFee, execution) =>
      PayPrivateTotal(s, input, baseFee, priorityFee, execution);
    case FeePublic(signer, baseFee, priorityFee, execution) =>
      PayPublicTotal(s, signer, baseFee, priorityFee, execution);
    case Upgrade(input) => UpgradeTotal(s, input);
  }

  lemma BondTxTotal(s: State, height: nat, tx: Tx)
    requires Fresh(s) && Apply(s, height, tx).Some? && (tx.BondValidator? || tx.BondPublic?)
    ensures Conserves(s, Apply(s, height, tx).value, 0)
  {
    var s' := Apply(s, height, tx).value;
    match tx
    case BondValidator(signer, _, amount, _) => BondTotal(s, signer, s'.bonded[signer], amount, s');
    case BondPublic(caller, _, _, amount) => BondTotal(s, caller, s'.bonded[caller], amount, s');
  }

  lemma ApplyTotal(s: State, height: nat, tx: Tx)
    requires Fresh(s) && Apply(s, height, tx).Some?
    ensures Conserves(s, Apply(s, height, tx).value, BurnedBy(tx))
  {
    if IsMoneyTx(tx) {
      MoneyTotal(s, tx);
    } else if tx.BondValidator? || tx.BondPublic? {
      BondTxTotal(s, height, tx);
    } else if tx.UnbondPublic? {
      UnbondTotal(s, height, tx.caller, tx.staker, tx.amount);
    } else if tx.ClaimUnbondPublic? {
      ClaimTotal(s, height, tx.staker);
    }
  }

  /**
  Conservation over every run: accounts, bonds, unbonding entries and records together lose
  exactly what fees and `split` burned.
   */
  lemma {:induction false} CreditsConserved(s: State, txs: seq<(nat, Tx)>)
    requires Fresh(s)
    ensures Total(Run(s, txs)) + BurnedIn(s, txs) == Total(s)
    decreases |txs|
  {
    if txs != [] {
      var (height, tx) := txs[0];
      if Apply(s, height, tx).Some? {
        ApplyTotal(s, height, tx);
      }
      CreditsConserved(Commit(s, height, tx), txs[1..]);
    }
  }
}
