/**
What each transaction of `credits.aleo` moves: how much, from whom, to whom, and that nothing else
changes. The effects are stated on balances, bonds and unbonding entries, not on the mappings'
updates.
 */
module CreditMoves {
  import opened Prelude
  import opened Sums
  import opened Credits
  import opened Conservation

  // ---------------------------------------------------------------------------
  // Unbonding
  // ---------------------------------------------------------------------------

  /** Too little would stay, or the validator of a delegator asks: then the whole bond goes. */
  predicate TakesAll(s: State, caller: Address, a: Address, amount: nat)
    requires a in s.bonded
  {
    var v := s.bonded[a].validator;
    if v == a then Own(s, a) - amount < 100_000_000 || Delegated(s, a) - amount < 10_000_000_000_000
    else (v in s.withdraw && caller == s.withdraw[v]) || Own(s, a) - amount < 10_000_000_000
  }

  function Taken(s: State, caller: Address, a: Address, amount: nat): nat
    requires a in s.bonded
  {
    if TakesAll(s, caller, a, amount) then Own(s, a) else amount
  }

  /** A delegator takes its validator below the minimum stake. */
  predicate Topples(s: State, caller: Address, a: Address, amount: nat)
    requires a in s.bonded
  {
    var v := s.bonded[a].validator;
    v != a && v in s.committee && Delegated(s, v) - Taken(s, caller, a, amount) < 10_000_000_000_000
  }

  /** `taken` of the bond of `a` has become an unbonding entry that matures at `until`. */
  ghost predicate Moved(s: State, s': State, a: Address, taken: nat, until: nat) {
    && taken <= Own(s, a)
    && Own(s', a) == Own(s, a) - taken
    && (a in s'.bonded <==> taken < Own(s, a))
    && (a in s.bonded && a in s'.bonded ==> s'.bonded[a].validator == s.bonded[a].validator)
    && a in s'.unbonding && s'.unbonding[a] == UnbondState(Pending(s, a) + taken, until)
  }

  /** The staking entries of `x` are the same. */
  ghost predicate Untouched(s: State, s': State, x: Address) {
    && (x in s.bonded <==> x in s'.bonded) && (x in s.bonded ==> s'.bonded[x] == s.bonded[x])
    && (x in s.unbonding <==> x in s'.unbonding) && (x in s.unbonding ==> s'.unbonding[x] == s.unbonding[x])
    && (x in s.committee <==> x in s'.committee) && (x in s.committee ==> s'.committee[x] == s.committee[x])
  }

  ghost predicate UnbondEffect(s: State, s': State, caller: Address, a: Address, amount: nat, until: nat)
    requires a in s.bonded
  {
    var v, taken, topples := s.bonded[a].validator, Taken(s, caller, a, amount), Topples(s, caller, a, amount);
    && Moved(s, s', a, taken, until)
    && (v == a ==> (a in s'.committee <==> !TakesAll(s, caller, a, amount)))
    && (v != a ==> if topples then Moved(s, s', v, Own(s, v), until) && v !in s'.committee else Untouched(s, s', v))
    && Delegated(s', v) == Delegated(s, v) - taken - (if topples then Own(s, v) else 0)
    && (forall x :: x != a && x != v ==> Untouched(s, s', x) && Delegated(s', x) == Delegated(s, x))
    && Count(s', DELEGATOR_COUNT)
       == Count(s, DELEGATOR_COUNT) - (if v != a && TakesAll(s, caller, a, amount) then 1 else 0)
    && Count(s', COMMITTEE_COUNT)
       == Count(s, COMMITTEE_COUNT) - (if topples || (v == a && TakesAll(s, caller, a, amount)) then 1 else 0)
    && s'.account == s.account && s'.withdraw == s.withdraw && s'.records == s.records
  }

  /** `a` has moved `taken` out of its bond to `v`, and nobody else is touched. */
  ghost predicate OneMoved(s: State, s': State, a: Address, v: Address, taken: nat, until: nat) {
    && Moved(s, s', a, taken, until) && Delegated(s', v) == Delegated(s, v) - taken
    && (forall x :: x != a ==> Untouched(s, s', x))
    && (forall x :: x != v ==> Delegated(s', x) == Delegated(s, x))
    && s'.account == s.account && s'.withdraw == s.withdraw && s'.records == s.records
  }

  lemma ReduceMoves(s: State, a: Address, amount: nat, until: nat)
    requires a in s.bonded && CanReduce(s, a, s.bonded[a].validator, amount) && amount < Own(s, a)
    ensures var s' := Reduce(s, a, s.bonded[a].validator, amount, until);
            OneMoved(s, s', a, s.bonded[a].validator, amount, until)
            && s'.committee == s.committee && s'.metadata == s.metadata
  {
  }

  lemma LeaveMoves(s: State, a: Address, key: Address, until: nat)
    requires a in s.bonded && CanLeave(s, a, s.bonded[a].validator, key)
    ensures var s' := Leave(s, a, s.bonded[a].validator, key, until);
            && OneMoved(s, s', a, s.bonded[a].validator, Own(s, a), until)
            && (a in s'.committee <==> a in s.committee && key != COMMITTEE_COUNT)
            && Count(s', key) == Count(s, key) - 1 && forall k :: k != key ==> Count(s', k) == Count(s, k)
  {
  }

  lemma DelegatorUnbonds(s: State, caller: Address, a: Address, amount: nat, until: nat)
    requires a in s.bonded && s.bonded[a].validator != a
    requires UnbondDelegator(s, a, amount, ByValidator(s, caller, a), until).Some?
    ensures var s', v := UnbondDelegator(s, a, amount, ByValidator(s, caller, a), until).value, s.bonded[a].validator;
            && OneMoved(s, s', a, v, Taken(s, caller, a, amount), until) && (a in s'.committee <==> a in s.committee)
            && Count(s', DELEGATOR_COUNT) == Count(s, DELEGATOR_COUNT) - (if TakesAll(s, caller, a, amount)
              then 1 else 0)
            && Count(s', COMMITTEE_COUNT) == Count(s, COMMITTEE_COUNT)
  {
    hide Reduce, Leave, OneMoved;
    if TakesAll(s, caller, a, amount) {
      LeaveMoves(s, a, DELEGATOR_COUNT, until);
    } else {
      ReduceMoves(s, a, amount, until);
    }
  }

  lemma ValidatorLeaves(s: State, v: Address, until: nat)
    requires RemoveValidator(s, v, until).Some?
    ensures var s' := RemoveValidator(s, v, until).value;
            && Moved(s, s', v, Own(s, v), until) && v !in s'.committee
            && Delegated(s', v) == Delegated(s, v) - Own(s, v)
            && (forall x :: x != v ==> Untouched(s, s', x) && Delegated(s', x) == Delegated(s, x))
            && Count(s', DELEGATOR_COUNT) == Count(s, DELEGATOR_COUNT)
            && Count(s', COMMITTEE_COUNT) == Count(s, COMMITTEE_COUNT) - 1
            && s'.account == s.account && s'.withdraw == s.withdraw && s'.records == s.records
  {
  }

  lemma ValidatorUnbonds(s: State, caller: Address, v: Address, amount: nat, until: nat)
    requires v in s.bonded && s.bonded[v].validator == v && UnbondValidator(s, v, amount, until).Some?
    ensures UnbondEffect(s, UnbondValidator(s, v, amount, until).value, caller, v, amount, until)
  {
    hide RemoveValidator;
    if TakesAll(s, caller, v, amount) {
      ValidatorLeaves(s, v, until);
    }
  }

  /**
  What an unbond takes: exactly `amount`, or the whole bond where too little would stay or the
  validator asks. It matures 360 blocks later; a delegator that takes its validator below the
  minimum also turns the self-bond into an unbonding entry; nobody else is touched.
   */
  lemma UnbondTakes(s: State, height: nat, caller: Address, a: Address, amount: nat)
    requires Unbond(s, height, caller, a, amount).Some?
    ensures a in s.bonded && UnbondEffect(s, Unbond(s, height, caller, a, amount).value, caller, a,
                                          amount, height + 360)
  {
    hide UnbondDelegator, UnbondValidator, RemoveValidator, Moved, Untouched, Taken;
    var v, until := s.bonded[a].validator, height + 360;
    if v == a {
      ValidatorUnbonds(s, caller, a, amount, until);
    } else {
      DelegatorUnbonds(s, caller, a, amount, until);
      var s1 := UnbondDelegator(s, a, amount, ByValidator(s, caller, a), until).value;
      var s' := Unbond(s, height, caller, a, amount).value;
      assert OneMoved(s, s1, a, v, Taken(s, caller, a, amount), until);
      SeatKept(s, s1, v);
      if v in s1.committee && Delegated(s1, v) < 10_000_000_000_000 {
        ValidatorLeaves(s1, v, until);
        AfterOthers(s, s1, s', a, v, Taken(s, caller, a, amount), until);
      }
    }
  }

  lemma SeatKept(s: State, s': State, x: Address)
    requires Untouched(s, s', x)
    ensures (x in s.committee <==> x in s'.committee) && Own(s', x) == Own(s, x)
  {
  }

  /** The two halves of an unbond do not interfere. */
  lemma AfterOthers(s: State, s1: State, s': State, a: Address, v: Address, taken: nat, until: nat)
    requires a != v && Moved(s, s1, a, taken, until) && Moved(s1, s', v, Own(s1, v), until)
    requires (forall x :: x != a ==> Untouched(s, s1, x)) && (forall x :: x != v ==> Untouched(s1, s', x))
    ensures Moved(s, s', a, taken, until) && Moved(s, s', v, Own(s, v), until)
    ensures forall x :: x != a && x != v ==> Untouched(s, s', x)
  {
    assert Untouched(s, s1, v) && Untouched(s1, s', a);
    forall x | x != a && x != v ensures Untouched(s, s', x) {
      assert Untouched(s, s1, x) && Untouched(s1, s', x);
    }
  }

  // ---------------------------------------------------------------------------
  // Claiming and bonding
  // ---------------------------------------------------------------------------

  /** `x` holds `change` more in its account, and everybody else what they held. */
  ghost predicate OnlyBalance(s: State, s': State, x: Address, change: int) {
    Balance(s', x) == Balance(s, x) + change && forall y :: y != x ==> Balance(s', y) == Balance(s, y)
  }

  /** A claim pays the whole entry to the withdrawal address on record, and to nobody else. */
  lemma ClaimPays(s: State, height: nat, a: Address)
    requires CanClaim(s, height, a)
    ensures var s' := Claim(s, height, a);
            && s.unbonding[a].height <= height
            && OnlyBalance(s, s', s.withdraw[a], Pending(s, a))
            && s'.unbonding == s.unbonding - {a} && s'.bonded == s.bonded && s'.committee == s.committee
            && s'.delegated == s.delegated && s'.metadata == s.metadata && s'.records == s.records
            && (a in s'.withdraw <==> a in s.bonded)
            && (forall x :: x in s.withdraw && (x != a || a in s.bonded) ==>
                  x in s'.withdraw && s'.withdraw[x] == s.withdraw[x])
            && (forall x :: x in s'.withdraw ==> x in s.withdraw)
  {
  }

  /** `a` has bonded `amount` more to `v`, out of its own account, and nobody else is touched. */
  ghost predicate BondEffect(s: State, s': State, a: Address, v: Address, withdrawal: Address, amount: nat) {
    && OnlyBalance(s, s', a, -(amount as int))
    && a in s'.bonded && s'.bonded[a] == BondState(v, Own(s, a) + amount)
    && a in s'.withdraw && s'.withdraw[a] == withdrawal
    && Delegated(s', v) == Delegated(s, v) + amount
    && (forall x :: x != v ==> Delegated(s', x) == Delegated(s, x))
    && (forall x :: x != a ==> Untouched(s, s', x) && (x in s'.withdraw <==> x in s.withdraw))
    && (forall x :: x != a && x in s.withdraw ==> s'.withdraw[x] == s.withdraw[x])
    && s'.unbonding == s.unbonding && s'.records == s.records
  }

  lemma BondSelfMoves(s: State, v: Address, withdrawal: Address, amount: nat, commission: nat)
    requires CanBondValidator(s, v, withdrawal, amount, commission) && (v in s.committee ==> v in s.withdraw)
    ensures var s' := BondSelf(s, v, withdrawal, amount, commission);
            && BondEffect(s, s', v, v, withdrawal, amount)
            && v in s'.committee && s'.committee[v].commission == commission
            && (s'.committee[v].isOpen <==> v !in s.committee || s.committee[v].isOpen)
            && Count(s', COMMITTEE_COUNT) == Count(s, COMMITTEE_COUNT) + (if v in s.committee then 0 else 1)
            && Count(s', DELEGATOR_COUNT) == Count(s, DELEGATOR_COUNT)
  {
  }

  lemma BondToMoves(s: State, a: Address, v: Address, withdrawal: Address, amount: nat)
    requires CanBondPublic(s, a, v, withdrawal, amount) && (a in s.bonded ==> a in s.withdraw)
    ensures var s' := BondTo(s, a, v, withdrawal, amount);
            && BondEffect(s, s', a, v, withdrawal, amount) && s'.committee == s.committee
            && Count(s', DELEGATOR_COUNT) == Count(s, DELEGATOR_COUNT) + (if a in s.bonded then 0 else 1)
            && Count(s', COMMITTEE_COUNT) == Count(s, COMMITTEE_COUNT)
  {
  }

  // ---------------------------------------------------------------------------
  // Accounts and records
  // ---------------------------------------------------------------------------

  ghost function OwnedBy(a: Address): (nat, Record) -> nat {
    (k: nat, r: Record) => if r.owner == a then r.microcredits else 0
  }

  /** What `a` holds in records. */
  ghost function Shielded(s: State, a: Address): nat {
    Sum(s.records, OwnedBy(a))
  }

  function If(c: bool, amount: nat): nat {
    if c then amount else 0
  }

  /** The owner of an input record. */
  function OwnerOf(s: State, input: nat): Address {
    if input in s.records then s.records[input].owner else ZERO_ADDRESS
  }

  function AmountOf(s: State, input: nat): nat {
    if input in s.records then s.records[input].microcredits else 0
  }

  /** What a transaction adds to the account of `a`, and what it takes from it. */
  function PublicIn(tx: Tx, a: Address): nat {
    match tx
    case TransferPublic(_, to, amount) => If(a == to, amount)
    case TransferPrivateToPublic(_, to, amount) => If(a == to, amount)
    case _ => 0
  }

  function PublicOut(tx: Tx, a: Address): nat {
    match tx
    case TransferPublic(from, _, amount) => If(a == from, amount)
    case TransferPublicToPrivate(caller, _, amount) => If(a == caller, amount)
    case FeePublic(signer, baseFee, priorityFee, _) => If(a == signer, baseFee + priorityFee)
    case _ => 0
  }

  /** The same for the records of `a`. */
  function PrivateIn(s: State, tx: Tx, a: Address): nat {
    match tx
    case TransferPrivate(_, to, amount) => If(a == to, amount)
    case TransferPublicToPrivate(_, to, amount) => If(a == to, amount)
    case Join(first, second) => If(a == OwnerOf(s, first), AmountOf(s, second))
    case _ => 0
  }

  function PrivateOut(s: State, tx: Tx, a: Address): nat {
    match tx
    case TransferPrivate(input, _, amount) => If(a == OwnerOf(s, input), amount)
    case TransferPrivateToPublic(input, _, amount) => If(a == OwnerOf(s, input), amount)
    case Join(_, second) => If(a == OwnerOf(s, second), AmountOf(s, second))
    case Split(input, _) => If(a == OwnerOf(s, input), 10_000)
    case FeePrivate(input, baseFee, priorityFee, _) => If(a == OwnerOf(s, input), baseFee + priorityFee)
    case _ => 0
  }

  lemma ConsumeShielded(s: State, input: nat, a: Address)
    requires input in s.records
    ensures Shielded(s, a) == Shielded(Consume(s, input), a)
            + If(s.records[input].owner == a, s.records[input].microcredits)
  {
    SumRemove(s.records, input, OwnedBy(a));
  }

  lemma CreateShielded(s: State, owner: Address, amount: nat, a: Address)
    requires Fresh(s)
    ensures Fresh(Create(s, owner, amount)) && Shielded(Create(s, owner, amount), a) == Shielded(s, a)
            + If(owner == a, amount)
  {
    SumUpdate(s.records, s.serial, Record(owner, amount), OwnedBy(a));
  }

  /** A record is replaced by others: what its owner had, less that, plus what they hold. */
  lemma ReplaceShielded(s: State, input: nat, first: Address, x: nat, second: Address, y: nat, a: Address)
    requires Fresh(s) && input in s.records
    ensures var s1 := Create(Consume(s, input), first, x);
            && Shielded(s1, a) + If(s.records[input].owner == a, s.records[input].microcredits)
               == Shielded(s, a) + If(first == a, x)
            && Shielded(Create(s1, second, y), a) == Shielded(s1, a) + If(second == a, y)
  {
    hide Shielded;
    ConsumeShielded(s, input, a);
    CreateShielded(Consume(s, input), first, x, a);
    CreateShielded(Create(Consume(s, input), first, x), second, y, a);
  }

  lemma JoinShielded(s: State, first: nat, second: nat, a: Address)
    requires Fresh(s) && JoinRecords(s, first, second).Some?
    ensures Shielded(JoinRecords(s, first, second).value, a) + If(a == OwnerOf(s, second), AmountOf(s, second))
         == Shielded(s, a) + If(a == OwnerOf(s, first), AmountOf(s, second))
  {
    hide Shielded;
    ConsumeShielded(s, first, a);
    ConsumeShielded(Consume(s, first), second, a);
    CreateShielded(Consume(Consume(s, first), second), s.records[first].owner,
                   AmountOf(s, first) + AmountOf(s, second), a);
  }

  lemma MoneyPublic(s: State, tx: Tx, a: Address)
    requires IsMoneyTx(tx) && ApplyMoney(s, tx).Some?
    ensures Balance(ApplyMoney(s, tx).value, a) + PublicOut(tx, a) == Balance(s, a) + PublicIn(tx, a)
  {
  }

  lemma SameRecords(s: State, s': State, a: Address)
    requires s'.records == s.records
    ensures Shielded(s', a) == Shielded(s, a)
  {
  }

  lemma SpendPrivate(s: State, tx: Tx, a: Address)
    requires tx.TransferPrivate? || tx.TransferPrivateToPublic? || tx.Split?
    requires Fresh(s) && ApplyMoney(s, tx).Some?
    ensures Shielded(ApplyMoney(s, tx).value, a) + PrivateOut(s, tx, a) == Shielded(s, a) + PrivateIn(s, tx, a)
  {
    hide Shielded, Balance, PayPrivate, UpgradeRecord, JoinRecords, Shield;
    var s', owner, total := ApplyMoney(s, tx).value, OwnerOf(s, tx.input), AmountOf(s, tx.input);
    match tx
    case TransferPrivate(input, to, amount) => ReplaceShielded(s, input, to, amount, owner, total - amount, a);
    case TransferPrivateToPublic(input, to, amount) =>
      ReplaceShielded(s, input, owner, total - amount, 0, 0, a);
      SameRecords(Create(Consume(s, input), owner, total - amount), s', a);
    case Split(input, amount) => ReplaceShielded(s, input, owner, amount, owner, total - amount - 10_000, a);
  }

  lemma ChargePrivate(s: State, tx: Tx, a: Address)
    requires (tx.FeePrivate? || tx.Upgrade?) && Fresh(s) && ApplyMoney(s, tx).Some?
    ensures Shielded(ApplyMoney(s, tx).value, a) + PrivateOut(s, tx, a) == Shielded(s, a) + PrivateIn(s, tx, a)
  {
    hide Shielded, Balance, SendPrivate, Publish, SplitRecord, JoinRecords, Shield;
    var s', owner, total := ApplyMoney(s, tx).value, OwnerOf(s, tx.input), AmountOf(s, tx.input);
    match tx
    case FeePrivate(input, baseFee, priorityFee, _) =>
      ReplaceShielded(s, input, owner, total - (baseFee + priorityFee), 0, 0, a);
    case Upgrade(input) =>
      ReplaceShielded(s, input, owner, total, 0, 0, a);
      SameRecords(Create(Consume(s, input), owner, total), s', a);
  }

  lemma MoneyPrivate(s: State, tx: Tx, a: Address)
    requires IsMoneyTx(tx) && Fresh(s) && ApplyMoney(s, tx).Some?
    ensures Shielded(ApplyMoney(s, tx).value, a) + PrivateOut(s, tx, a) == Shielded(s, a) + PrivateIn(s, tx, a)
  {
    hide Shielded, Balance, JoinRecords, SendPrivate, SplitRecord, PayPrivate, UpgradeRecord, Publish;
    var s' := ApplyMoney(s, tx).value;
    match tx
    case TransferPublic(_, _, _) => SameRecords(s, s', a);
    case FeePublic(_, _, _, _) => SameRecords(s, s', a);
    case TransferPublicToPrivate(_, to, amount) =>
      CreateShielded(s, to, amount, a);
      SameRecords(Create(s, to, amount), s', a);
    case Join(first, second) => JoinShielded(s, first, second, a);
    case FeePrivate(_, _, _, _) => ChargePrivate(s, tx, a);
    case Upgrade(_) => ChargePrivate(s, tx, a);
    case _ => SpendPrivate(s, tx, a);
  }

  /**
  What the transactions on accounts and records do to everybody's public and private holdings: the
  amount leaves the sender and reaches the receiver, on the side that the transaction names.
   */
  lemma MoneyMoves(s: State, tx: Tx, a: Address)
    requires IsMoneyTx(tx) && Fresh(s) && ApplyMoney(s, tx).Some?
    ensures var s' := ApplyMoney(s, tx).value;
            && Balance(s', a) + PublicOut(tx, a) == Balance(s, a) + PublicIn(tx, a)
            && Shielded(s', a) + PrivateOut(s, tx, a) == Shielded(s, a) + PrivateIn(s, tx, a)
            && SameStake(s, s')
  {
    hide ApplyMoney, Balance, Shielded;
    MoneyPublic(s, tx, a);
    MoneyPrivate(s, tx, a);
  }

  lemma TwoMade(m: map<nat, Record>, k: nat, x: Record, y: Record)
    ensures m[k := x][k + 1 := y] == m + map[k := x, k + 1 := y]
  {
  }

  /** The two parts of a split, and what both holders of a private transfer get, are records of their own. */
  lemma RecordsMade(s: State, tx: Tx)
    requires (tx.TransferPrivate? || tx.Split?) && ApplyMoney(s, tx).Some?
    ensures var s', owner, total := ApplyMoney(s, tx).value, OwnerOf(s, tx.input), AmountOf(s, tx.input);
            var fee := If(tx.Split?, 10_000);
            && tx.amount + fee <= total
            && s'.records == (s.records - {tx.input})
                             + map[s.serial := Record(if tx.Split? then owner else tx.to, tx.amount),
                                   s.serial + 1 := Record(owner, total - tx.amount - fee)]
  {
    var owner, total, fee := OwnerOf(s, tx.input), AmountOf(s, tx.input), If(tx.Split?, 10_000);
    TwoMade(s.records - {tx.input}, s.serial, Record(if tx.Split? then owner else tx.to, tx.amount),
            Record(owner, total - tx.amount - fee));
  }

  // ---------------------------------------------------------------------------
  // What bonding cannot do
  // ---------------------------------------------------------------------------

  /** `a` bonds to `v` now and did not before. */
  ghost predicate Joins(s: State, s': State, a: Address, v: Address) {
    a !in s.bonded && a in s'.bonded && s'.bonded[a].validator == v
  }

  lemma UnbondJoinsNobody(s: State, height: nat, caller: Address, staker: Address, amount: nat, a: Address)
    requires Unbond(s, height, caller, staker, amount).Some? && a !in s.bonded
    ensures a !in Unbond(s, height, caller, staker, amount).value.bonded
  {
    hide Unbond;
    UnbondTakes(s, height, caller, staker, amount);
    if a != s.bonded[staker].validator {
      assert Untouched(s, Unbond(s, height, caller, staker, amount).value, a);
    }
  }

  /** A closed validator gets no new delegators, and one that is unbonding gets no stake of delegators at all. */
  lemma ClosedToDelegators(s: State, height: nat, tx: Tx, a: Address, v: Address)
    requires Apply(s, height, tx).Some? && a != v
    ensures var s' := Apply(s, height, tx).value;
            && (v in s.committee && !s.committee[v].isOpen ==> !Joins(s, s', a, v))
            && (v in s.unbonding && a in s'.bonded && s'.bonded[a].validator == v ==> Own(s', a) <= Own(s, a))
  {
    hide Unbond, BondSelf;
    if tx.UnbondPublic? {
      UnbondTakes(s, height, tx.caller, tx.staker, tx.amount);
      if a !in s.bonded {
        UnbondJoinsNobody(s, height, tx.caller, tx.staker, tx.amount, a);
      }
      UnbondLowers(s, height, tx.caller, tx.staker, tx.amount, a);
    } else if tx.BondValidator? {
      BondedToSelf(s, tx.signer, tx.withdrawal, tx.amount, tx.commission, a);
    }
  }

  lemma UnbondLowers(s: State, height: nat, caller: Address, staker: Address, amount: nat, a: Address)
    requires Unbond(s, height, caller, staker, amount).Some?
    ensures Own(Unbond(s, height, caller, staker, amount).value, a) <= Own(s, a)
  {
    hide Unbond;
    UnbondTakes(s, height, caller, staker, amount);
    var s' := Unbond(s, height, caller, staker, amount).value;
    if a != staker && a != s.bonded[staker].validator {
      assert Untouched(s, s', a);
    }
  }

  lemma BondedToSelf(s: State, v: Address, withdrawal: Address, amount: nat, commission: nat, a: Address)
    requires CanBondValidator(s, v, withdrawal, amount, commission)
    ensures var s' := BondSelf(s, v, withdrawal, amount, commission);
            && (a != v ==> (a in s.bonded <==> a in s'.bonded) && (a in s.bonded ==> s'.bonded[a] == s.bonded[a]))
            && (a == v ==> a in s'.bonded && s'.bonded[a].validator == v)
  {
  }

  /**
  Who may bond: at least one credit at a time; a validator with a withdrawal address of its own, at
  most 100% commission, 100 credits of self-bond to enter and no unbonding entry; a delegator with
  room among 100,000.
   */
  lemma BondTerms(s: State, height: nat, tx: Tx)
    requires Apply(s, height, tx).Some?
    ensures tx.BondValidator? ==>
              && tx.amount >= 1_000_000 && tx.signer != tx.withdrawal && tx.commission <= 100
              && (tx.signer !in s.committee ==> tx.amount >= 100_000_000 && tx.signer !in s.unbonding)
              && (tx.signer in s.committee ==> tx.commission == s.committee[tx.signer].commission)
              && Delegated(s, tx.signer) + tx.amount >= 10_000_000_000_000
    ensures tx.BondPublic? ==>
              && tx.amount >= 1_000_000 && tx.caller != tx.validator && Own(s, tx.caller) + tx.amount >= 10_000_000_000
              && (tx.caller !in s.bonded ==> Count(s, DELEGATOR_COUNT) < 100_000)
              && (tx.caller in s.withdraw ==> tx.withdrawal == s.withdraw[tx.caller])
    ensures tx.SetValidatorState? ==>
              var s' := Apply(s, height, tx).value;
              && tx.caller in s.committee && tx.caller in s'.committee
              && s'.committee[tx.caller] == s.committee[tx.caller].(isOpen := tx.isOpen)
              && s' == s.(committee := s.committee[tx.caller := s'.committee[tx.caller]])
    ensures tx.FeePublic? || tx.FeePrivate? ==> tx.baseFee > 0 && tx.execution != 0
    ensures tx.Upgrade? ==> AmountOf(s, tx.input) <= 1_000_000_000_000
  {
    hide Unbond, BondSelf, BondTo, Claim, Transfer, SendPrivate, Publish, Shield, JoinRecords, SplitRecord;
  }
}
