/** What every run of `token_registry.aleo` keeps: the supply of each token, and who may hold what where. */
module TokenSupply {
  import opened Prelude
  import opened Sums
  import opened TokenRegistry

  function AmountIn(t: TokenId, o: Owner, b: Balance): nat {
    if o.token == t then b.amount else 0
  }

  ghost function OfToken(t: TokenId): (Owner, Balance) -> nat {
    (o: Owner, b: Balance) => AmountIn(t, o, b)
  }

  ghost function RecordOf(t: TokenId): (nat, Record) -> nat {
    (k: nat, r: Record) => if r.token == t then r.amount else 0
  }

  /** Everything that is held of `t`: balances, authorized balances and live records. */
  ghost function Held(s: State, t: TokenId): nat {
    Sum(s.balances, OfToken(t)) + Sum(s.authorized, OfToken(t)) + Sum(s.records, RecordOf(t))
  }

  function Supply(s: State, t: TokenId): nat {
    if t in s.tokens then s.tokens[t].supply else 0
  }

  /** Supply that nobody holds; negative while a credit is ahead of its debit. */
  ghost function Surplus(s: State, t: TokenId): int {
    Supply(s, t) - Held(s, t)
  }

  ghost predicate Backed(s: State) {
    forall t: TokenId :: Surplus(s, t) == 0
  }

  /** Entries belong to registered tokens, and to the mapping that the token's flag selects. */
  ghost predicate Disciplined(s: State) {
    && (forall o :: o in s.authorized ==> o.token in s.tokens)
    && (forall o :: o in s.balances ==> o.token in s.tokens && s.tokens[o.token].external)
    && (forall k :: k in s.records ==>
          k < s.serial && s.records[k].token in s.tokens
            && s.records[k].external == s.tokens[s.records[k].token].external)
    && (forall t :: t in s.tokens ==> s.tokens[t].supply <= s.tokens[t].maxSupply < U128)
  }

  ghost predicate Inv(s: State) {
    Backed(s) && Disciplined(s)
  }

  // ---------------------------------------------------------------------------
  // The primitive moves
  // ---------------------------------------------------------------------------

  /** `s'` has `amount` more surplus of `token` than `s`, and the same of every other token. */
  ghost predicate Shifts(s: State, s': State, token: TokenId, amount: int) {
    forall t: TokenId :: Surplus(s', t) == Surplus(s, t) + if t == token then amount else 0
  }

  lemma ShiftTwice(s: State, s1: State, s2: State, t: TokenId, x: int, y: int)
    requires Shifts(s, s1, t, x) && Shifts(s1, s2, t, y)
    ensures Shifts(s, s2, t, x + y)
  {
  }

  lemma ShiftBack(s: State, s': State, t: TokenId)
    requires Backed(s) && Shifts(s, s', t, 0)
    ensures Backed(s')
  {
  }

  lemma AuthorizedShift(s: State, o: Owner, b: Balance)
    ensures Shifts(s, s.(authorized := s.authorized[o := b]), o.token,
                   (if o in s.authorized then s.authorized[o].amount else 0) - b.amount)
  {
    forall t: TokenId {
      SumUpdate(s.authorized, o, b, OfToken(t));
    }
  }

  lemma BalancesShift(s: State, o: Owner, b: Balance)
    ensures Shifts(s, s.(balances := s.balances[o := b]), o.token,
                   (if o in s.balances then s.balances[o].amount else 0) - b.amount)
  {
    forall t: TokenId {
      SumUpdate(s.balances, o, b, OfToken(t));
    }
  }

  lemma ConsumeShift(s: State, input: nat)
    requires input in s.records
    ensures Shifts(s, Consume(s, input), s.records[input].token, s.records[input].amount)
  {
    forall t: TokenId {
      SumRemove(s.records, input, RecordOf(t));
    }
  }

  lemma CreateShift(s: State, r: Record)
    requires Disciplined(s)
    ensures Shifts(s, Create(s, r), r.token, -(r.amount as int))
  {
    forall t: TokenId {
      SumUpdate(s.records, s.serial, r, RecordOf(t));
    }
  }

  lemma SupplyShift(s: State, t: TokenId, supply: nat)
    requires t in s.tokens
    ensures Shifts(s, SetSupply(s, t, supply), t, supply - s.tokens[t].supply)
  {
  }

  lemma DebitShift(s: State, height: nat, o: Owner, amount: nat)
    requires Debit(s, height, o, amount).Some?
    ensures Shifts(s, Debit(s, height, o, amount).value, o.token, amount)
  {
    hide Shifts;
    AuthorizedShift(s, o, s.authorized[o].(amount := s.authorized[o].amount - amount));
  }

  lemma CreditShift(s: State, o: Owner, amount: nat, until: nat)
    requires Credit(s, o, amount, until).Some?
    ensures Shifts(s, Credit(s, o, amount, until).value, o.token, -(amount as int))
  {
    hide Shifts;
    var b := Receiving(s, o, until);
    BalancesShift(s, o, b.(amount := b.amount + amount));
    AuthorizedShift(s, o, b.(amount := b.amount + amount));
  }

  // Discipline, move by move.

  lemma DebitDisciplined(s: State, height: nat, o: Owner, amount: nat)
    requires Disciplined(s) && Debit(s, height, o, amount).Some?
    ensures Disciplined(Debit(s, height, o, amount).value)
  {
  }

  lemma CreditDisciplined(s: State, o: Owner, amount: nat, until: nat)
    requires Disciplined(s) && Credit(s, o, amount, until).Some?
    ensures Disciplined(Credit(s, o, amount, until).value)
  {
  }

  lemma ConsumeDisciplined(s: State, input: nat)
    requires Disciplined(s)
    ensures Disciplined(Consume(s, input))
  {
  }

  lemma CreateDisciplined(s: State, r: Record)
    requires Disciplined(s) && r.token in s.tokens && r.external == s.tokens[r.token].external
    ensures Disciplined(Create(s, r))
  {
  }

  lemma SupplyDisciplined(s: State, t: TokenId, supply: nat)
    requires Disciplined(s) && t in s.tokens && supply <= s.tokens[t].maxSupply
    ensures Disciplined(SetSupply(s, t, supply))
  {
  }

  // ---------------------------------------------------------------------------
  // The transactions
  // ---------------------------------------------------------------------------

  lemma TransferPublicKeeps(s: State, height: nat, from: Address, t: TokenId, to: Address, amount: nat)
    requires Inv(s) && ApplyTransferPublic(s, height, from, t, to, amount).Some?
    ensures Inv(ApplyTransferPublic(s, height, from, t, to, amount).value)
  {
    hide Shifts, Backed, Disciplined, Debit, Credit;
    var s1 := Debit(s, height, Owner(from, t), amount).value;
    var until := Expiry(s1.tokens[t].external);
    var s2 := Credit(s1, Owner(to, t), amount, until).value;
    DebitShift(s, height, Owner(from, t), amount);
    CreditShift(s1, Owner(to, t), amount, until);
    ShiftTwice(s, s1, s2, t, amount, -(amount as int));
    ShiftBack(s, s2, t);
    DebitDisciplined(s, height, Owner(from, t), amount);
    CreditDisciplined(s1, Owner(to, t), amount, until);
  }

  lemma TransferPublicToPrivateKeeps(s: State, height: nat, from: Address, t: TokenId, to: Address, amount: nat,
                                     external: bool)
    requires Inv(s) && ApplyTransferPublicToPrivate(s, height, from, t, to, amount, external).Some?
    ensures Inv(ApplyTransferPublicToPrivate(s, height, from, t, to, amount, external).value)
  {
    hide Shifts, Backed, Disciplined, Debit, Create;
    var r := Record(to, amount, t, external, Expiry(external));
    var s1 := Create(s, r);
    var s2 := Debit(s1, height, Owner(from, t), amount).value;
    CreateShift(s, r);
    DebitShift(s1, height, Owner(from, t), amount);
    ShiftTwice(s, s1, s2, t, -(amount as int), amount);
    ShiftBack(s, s2, t);
    CreateDisciplined(s, r);
    DebitDisciplined(s1, height, Owner(from, t), amount);
  }

  /** Replacing a record by another of the same token. */
  lemma ReplaceShift(s: State, input: nat, r: Record)
    requires Disciplined(s) && input in s.records && r.token == s.records[input].token
    ensures Shifts(s, Create(Consume(s, input), r), r.token, s.records[input].amount - r.amount)
  {
    hide Shifts, Disciplined, Create, Consume;
    ConsumeShift(s, input);
    ConsumeDisciplined(s, input);
    CreateShift(Consume(s, input), r);
    ShiftTwice(s, Consume(s, input), Create(Consume(s, input), r), r.token, s.records[input].amount,
               -(r.amount as int));
  }

  lemma ReplaceDisciplined(s: State, input: nat, r: Record)
    requires Disciplined(s) && input in s.records
    requires r.token == s.records[input].token && r.external == s.records[input].external
    ensures Disciplined(Create(Consume(s, input), r))
  {
  }

  lemma BreakKeeps(s: State, input: nat, first: Record)
    requires Inv(s) && Break(s, input, first).Some?
    requires first.token == s.records[input].token && first.external == s.records[input].external
    ensures Inv(Break(s, input, first).value)
  {
    hide Shifts, Backed, Create, Consume;
    var r := s.records[input];
    var rest := Part(r, r.amount - first.amount);
    var s1 := Create(Consume(s, input), rest);
    ReplaceShift(s, input, rest);
    ReplaceDisciplined(s, input, rest);
    CreateShift(s1, first);
    ShiftTwice(s, s1, Create(s1, first), r.token, first.amount, -(first.amount as int));
    ShiftBack(s, Create(s1, first), r.token);
    SameTokens(s, input, rest);
    CreateDisciplined(s1, first);
  }

  lemma SameTokens(s: State, input: nat, r: Record)
    ensures Create(Consume(s, input), r).tokens == s.tokens
  {
  }

  lemma TransferPrivateToPublicKeeps(s: State, height: nat, input: nat, to: Address, amount: nat)
    requires Inv(s) && ApplyTransferPrivateToPublic(s, height, input, to, amount).Some?
    ensures Inv(ApplyTransferPrivateToPublic(s, height, input, to, amount).value)
  {
    hide Shifts, Backed, Disciplined, Create, Consume, Credit;
    var r := s.records[input];
    var rest := Part(r, r.amount - amount);
    var s1 := Create(Consume(s, input), rest);
    var until := Expiry(s1.tokens[r.token].external);
    var s2 := Credit(s1, Owner(to, r.token), amount, until).value;
    ReplaceShift(s, input, rest);
    ReplaceDisciplined(s, input, rest);
    CreditShift(s1, Owner(to, r.token), amount, until);
    CreditDisciplined(s1, Owner(to, r.token), amount, until);
    ShiftTwice(s, s1, s2, r.token, amount, -(amount as int));
    ShiftBack(s, s2, r.token);
  }

  lemma JoinKeeps(s: State, first: nat, second: nat)
    requires Inv(s) && ApplyJoin(s, first, second).Some?
    ensures Inv(ApplyJoin(s, first, second).value)
  {
    hide Shifts, Backed;
    var r, q := s.records[first], s.records[second];
    var joined := r.(amount := r.amount + q.amount, until := if r.until < q.until then r.until else q.until);
    var s1 := Consume(s, first);
    var s2 := Create(Consume(s1, second), joined);
    ConsumeShift(s, first);
    ReplaceShift(s1, second, joined);
    ShiftTwice(s, s1, s2, r.token, r.amount, -(r.amount as int));
    ShiftBack(s, s2, r.token);
    ReplaceDisciplined(s1, second, joined);
  }

  lemma MintPublicKeeps(s: State, caller: Address, t: TokenId, to: Address, amount: nat, until: nat)
    requires Inv(s) && ApplyMintPublic(s, caller, t, to, amount, until).Some?
    ensures Inv(ApplyMintPublic(s, caller, t, to, amount, until).value)
  {
    hide Shifts, Backed, Disciplined, Credit, SetSupply;
    var s1 := SetSupply(s, t, s.tokens[t].supply + amount);
    var s2 := Credit(s1, Owner(to, t), amount, until).value;
    SupplyShift(s, t, s.tokens[t].supply + amount);
    SupplyDisciplined(s, t, s.tokens[t].supply + amount);
    CreditShift(s1, Owner(to, t), amount, until);
    CreditDisciplined(s1, Owner(to, t), amount, until);
    ShiftTwice(s, s1, s2, t, amount, -(amount as int));
    ShiftBack(s, s2, t);
  }

  lemma MintPrivateKeeps(s: State, caller: Address, t: TokenId, to: Address, amount: nat, external: bool, until: nat)
    requires Inv(s) && ApplyMintPrivate(s, caller, t, to, amount, external, until).Some?
    ensures Inv(ApplyMintPrivate(s, caller, t, to, amount, external, until).value)
  {
    hide Shifts, Backed, Disciplined, Create;
    var r := Record(to, amount, t, external, until);
    var s1 := SetSupply(s, t, s.tokens[t].supply + amount);
    SupplyShift(s, t, s.tokens[t].supply + amount);
    SupplyDisciplined(s, t, s.tokens[t].supply + amount);
    CreateShift(s1, r);
    CreateDisciplined(s1, r);
    ShiftTwice(s, s1, Create(s1, r), t, amount, -(amount as int));
    ShiftBack(s, Create(s1, r), t);
  }

  lemma BurnHoldingsShift(s: State, o: Owner, amount: nat)
    requires BurnHoldings(s, o, amount).Some?
    ensures Shifts(s, BurnHoldings(s, o, amount).value, o.token, amount)
  {
    hide Shifts;
    var a := GetOr(s.authorized, o, Balance(0, 0));
    if a.amount > amount {
      AuthorizedShift(s, o, a.(amount := a.amount - amount));
    } else {
      var s1 := s.(authorized := s.authorized[o := a.(amount := 0)]);
      AuthorizedShift(s, o, a.(amount := 0));
      var rest := amount - a.amount;
      if rest > 0 {
        var b := s.balances[o].(amount := s.balances[o].amount - rest);
        BalancesShift(s1, o, b);
        ShiftTwice(s, s1, s1.(balances := s1.balances[o := b]), o.token, a.amount, rest);
      }
    }
  }

  lemma BurnHoldingsDisciplined(s: State, o: Owner, amount: nat)
    requires Disciplined(s) && o.token in s.tokens && BurnHoldings(s, o, amount).Some?
    ensures Disciplined(BurnHoldings(s, o, amount).value)
  {
  }

  lemma BurnPublicKeeps(s: State, caller: Address, t: TokenId, account: Address, amount: nat)
    requires Inv(s) && ApplyBurnPublic(s, caller, t, account, amount).Some?
    ensures Inv(ApplyBurnPublic(s, caller, t, account, amount).value)
  {
    hide Shifts, Backed, BurnHoldings;
    var s1 := SetSupply(s, t, s.tokens[t].supply - amount);
    var s2 := BurnHoldings(s1, Owner(account, t), amount).value;
    SupplyShift(s, t, s.tokens[t].supply - amount);
    SupplyDisciplined(s, t, s.tokens[t].supply - amount);
    BurnHoldingsShift(s1, Owner(account, t), amount);
    BurnHoldingsDisciplined(s1, Owner(account, t), amount);
    ShiftTwice(s, s1, s2, t, -(amount as int), amount);
    ShiftBack(s, s2, t);
  }

  lemma BurnPrivateKeeps(s: State, caller: Address, input: nat, amount: nat)
    requires Inv(s) && ApplyBurnPrivate(s, caller, input, amount).Some?
    ensures Inv(ApplyBurnPrivate(s, caller, input, amount).value)
  {
    hide Shifts, Backed, Create, Consume;
    var r := s.records[input];
    var rest := Part(r, r.amount - amount);
    var s1 := Create(Consume(s, input), rest);
    SameTokens(s, input, rest);
    var s2 := SetSupply(s1, r.token, s1.tokens[r.token].supply - amount);
    ReplaceShift(s, input, rest);
    ReplaceDisciplined(s, input, rest);
    SupplyShift(s1, r.token, s1.tokens[r.token].supply - amount);
    SupplyDisciplined(s1, r.token, s1.tokens[r.token].supply - amount);
    ShiftTwice(s, s1, s2, r.token, amount, -(amount as int));
    ShiftBack(s, s2, r.token);
  }

  lemma PrehookPublicKeeps(s: State, height: nat, caller: Address, o: Owner, amount: nat, until: nat)
    requires Inv(s) && ApplyPrehookPublic(s, height, caller, o, amount, until).Some?
    ensures Inv(ApplyPrehookPublic(s, height, caller, o, amount, until).value)
  {
    hide Shifts, Backed;
    var s' := ApplyPrehookPublic(s, height, caller, o, amount, until).value;
    var b := GetOr(s.balances, o, Balance(0, 0));
    var a := GetOr(s.authorized, o, Balance(0, 0));
    var s1 := s.(authorized := s'.authorized);
    AuthorizedShift(s, o, s'.authorized[o]);
    BalancesShift(s1, o, s'.balances[o]);
    ShiftTwice(s, s1, s', o.token, a.amount - s'.authorized[o].amount, b.amount - s'.balances[o].amount);
    ShiftBack(s, s', o.token);
  }

  lemma AdminBacked(env: Env, s: State, tx: Tx)
    requires Inv(s) && IsAdminTx(tx) && ApplyAdmin(env, s, tx).Some?
    ensures Backed(ApplyAdmin(env, s, tx).value)
  {
    var s' := ApplyAdmin(env, s, tx).value;
    forall t: TokenId ensures Surplus(s', t) == 0 {
      assert Surplus(s, t) == 0;
      assert Supply(s', t) == Supply(s, t) by {
        if t !in s.tokens { NothingHeld(s, t); }
      }
    }
  }

  lemma NothingHeld(s: State, t: TokenId)
    requires Inv(s) && t !in s.tokens
    ensures Held(s, t) == 0
  {
    assert Surplus(s, t) == 0;
  }

  lemma AdminDisciplined(env: Env, s: State, tx: Tx)
    requires Disciplined(s) && IsAdminTx(tx) && ApplyAdmin(env, s, tx).Some?
    ensures Disciplined(ApplyAdmin(env, s, tx).value)
  {
  }

  lemma AllowanceKeeps(s: State, owner: Address, spender: Address, t: TokenId, amount: nat)
    requires Inv(s) && SpendAllowance(s, owner, spender, t, amount).Some?
    ensures Inv(SpendAllowance(s, owner, spender, t, amount).value)
  {
    var s' := SpendAllowance(s, owner, spender, t, amount).value;
    forall u: TokenId ensures Surplus(s', u) == 0 {
      assert Surplus(s, u) == 0;
    }
  }

  lemma ApplyKeeps(env: Env, s: State, height: nat, tx: Tx)
    requires Inv(s) && Apply(env, s, height, tx).Some?
    ensures Inv(Apply(env, s, height, tx).value)
  {
    hide Inv, ApplyTransferPublic, ApplyTransferPublicToPrivate, SpendAllowance, Break, ApplyJoin, ApplyMintPublic,
        ApplyMintPrivate,
      ApplyBurnPublic, ApplyBurnPrivate, ApplyPrehookPublic, ApplyTransferPrivateToPublic, ApplyAdmin;
    match tx
    case TransferPublic(from, t, to, amount) => TransferPublicKeeps(s, height, from, t, to, amount);
    case TransferPrivate(input, to, amount) =>
      var r := s.records[input];
      BreakKeeps(s, input, Record(to, amount, r.token, r.external, Expiry(r.external)));
    case TransferPrivateToPublic(input, to, amount) => TransferPrivateToPublicKeeps(s, height, input, to, amount);
    case TransferPublicToPrivate(from, t, to, amount, external) =>
      TransferPublicToPrivateKeeps(s, height, from, t, to, amount, external);
    case TransferFromPublic(spender, t, from, to, amount) =>
      AllowanceKeeps(s, from, spender, t, amount);
      TransferPublicKeeps(SpendAllowance(s, from, spender, t, amount).value, height, from, t, to, amount);
    case TransferFromPublicToPrivate(spender, t, from, to, amount, external) =>
      AllowanceKeeps(s, from, spender, t, amount);
      TransferPublicToPrivateKeeps(SpendAllowance(s, from, spender, t, amount).value, height, from, t, to,
                                   amount, external);
    case Join(first, second) => JoinKeeps(s, first, second);
    case Split(input, amount) => BreakKeeps(s, input, Part(s.records[input], amount));
    case MintPublic(caller, t, to, amount, until) => MintPublicKeeps(s, caller, t, to, amount, until);
    case MintPrivate(caller, t, to, amount, external, until) =>
      MintPrivateKeeps(s, caller, t, to, amount, external, until);
    case BurnPublic(caller, t, account, amount) => BurnPublicKeeps(s, caller, t, account, amount);
    case BurnPrivate(caller, input, amount) => BurnPrivateKeeps(s, caller, input, amount);
    case PrehookPublic(caller, t, account, amount, until) =>
      PrehookPublicKeeps(s, height, caller, Owner(account, t), amount, until);
    case PrehookPrivate(caller, input, amount, until) =>
      var r := s.records[input];
      BreakKeeps(s, input, Record(r.owner, amount, r.token, r.external, until));
    case _ => AdminKeeps(env, s, tx);
  }

  lemma AdminKeeps(env: Env, s: State, tx: Tx)
    requires Inv(s) && IsAdminTx(tx) && ApplyAdmin(env, s, tx).Some?
    ensures Inv(ApplyAdmin(env, s, tx).value)
  {
    hide Backed, Disciplined, ApplyAdmin;
    AdminBacked(env, s, tx);
    AdminDisciplined(env, s, tx);
  }

  lemma EmptyInv()
    ensures Inv(EMPTY)
  {
    forall t: TokenId ensures Surplus(EMPTY, t) == 0 {
    }
  }

  /** In every reachable state each supply is exactly what is held of the token, and at most its maximum. */
  lemma {:induction false} SupplyInvariant(env: Env, s: State, txs: seq<(nat, Tx)>)
    requires Inv(s)
    ensures Inv(Run(env, s, txs))
    decreases |txs|
  {
    hide Inv, Apply;
    if txs != [] {
      if Apply(env, s, txs[0].0, txs[0].1).Some? {
        ApplyKeeps(env, s, txs[0].0, txs[0].1);
      }
      SupplyInvariant(env, Commit(env, s, txs[0].0, txs[0].1), txs[1..]);
    }
  }
}
