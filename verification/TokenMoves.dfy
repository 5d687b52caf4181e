/**
What each transaction of `token_registry.aleo` moves. The holdings of an account in a token are its
`balances` entry, its `authorized_balances` entry and its records; for every transaction and every
holder this says by how much each of the three changes.
 */
module TokenMoves {
  import opened Prelude
  import opened Sums
  import opened TokenRegistry
  import opened TokenSupply
  import opened TokenAuthorization

  function Free(s: State, o: Owner): nat {
    if o in s.balances then s.balances[o].amount else 0
  }

  ghost function RecordsOf(o: Owner): (nat, Record) -> nat {
    (k: nat, r: Record) => if Owner(r.owner, r.token) == o then r.amount else 0
  }

  ghost function Shielded(s: State, o: Owner): nat {
    Sum(s.records, RecordsOf(o))
  }

  /** Amounts that are added to and taken from the three kinds of holdings. */
  datatype Change = Change(freeIn: nat, freeOut: nat, spendIn: nat, spendOut: nat, privateIn: nat, privateOut: nat)

  const NONE: Change := Change(0, 0, 0, 0, 0, 0)

  ghost predicate Changes(s: State, s': State, o: Owner, c: Change) {
    && Free(s', o) + c.freeOut == Free(s, o) + c.freeIn
    && Spendable(s', o) + c.spendOut == Spendable(s, o) + c.spendIn
    && Shielded(s', o) + c.privateOut == Shielded(s, o) + c.privateIn
  }

  function If(c: bool, amount: nat): nat {
    if c then amount else 0
  }

  predicate IsExternal(s: State, t: TokenId) {
    t in s.tokens && s.tokens[t].external
  }

  /** The holder of an input record. */
  function HolderOf(s: State, input: nat): Owner {
    if input in s.records then Owner(s.records[input].owner, s.records[input].token) else Owner(ZERO_ADDRESS, 0)
  }

  function AmountOf(s: State, input: nat): nat {
    if input in s.records then s.records[input].amount else 0
  }

  /** A public receipt: unspendable until authorized, if the token asks for that. */
  function Receipt(s: State, o: Owner, to: Owner, amount: nat, c: Change): Change {
    c.(freeIn := If(o == to && IsExternal(s, o.token), amount),
       spendIn := If(o == to && !IsExternal(s, o.token), amount))
  }

  /** The part of a burn that the authorized balance covers. */
  function FromSpendable(s: State, o: Owner, amount: nat): nat {
    if amount < Spendable(s, o) then amount else Spendable(s, o)
  }

  predicate Lapsed(s: State, height: nat, o: Owner) {
    if o in s.authorized then s.authorized[o].until < height else 0 < height
  }

  /** What the transaction does to the holdings of `o`. */
  function ChangeOf(s: State, height: nat, tx: Tx, o: Owner): Change {
    match tx
    case TransferPublic(from, t, to, amount) =>
      Receipt(s, o, Owner(to, t), amount, NONE.(spendOut := If(o == Owner(from, t), amount)))
    case TransferFromPublic(_, t, from, to, amount) =>
      Receipt(s, o, Owner(to, t), amount, NONE.(spendOut := If(o == Owner(from, t), amount)))
    case TransferPrivate(input, to, amount) =>
      NONE.(privateOut := If(o == HolderOf(s, input), amount),
            privateIn := If(o == Owner(to, HolderOf(s, input).token), amount))
    case TransferPrivateToPublic(input, to, amount) =>
      Receipt(s, o, Owner(to, HolderOf(s, input).token), amount,
              NONE.(privateOut := If(o == HolderOf(s, input), amount)))
    case TransferPublicToPrivate(from, t, to, amount, _) =>
      NONE.(spendOut := If(o == Owner(from, t), amount), privateIn := If(o == Owner(to, t), amount))
    case TransferFromPublicToPrivate(_, t, from, to, amount, _) =>
      NONE.(spendOut := If(o == Owner(from, t), amount), privateIn := If(o == Owner(to, t), amount))
    case Join(first, second) =>
      NONE.(privateIn := If(o == HolderOf(s, first), AmountOf(s, second)),
            privateOut := If(o == HolderOf(s, second), AmountOf(s, second)))
    case MintPublic(_, t, to, amount, _) => Receipt(s, o, Owner(to, t), amount, NONE)
    case MintPrivate(_, t, to, amount, _, _) => NONE.(privateIn := If(o == Owner(to, t), amount))
    case BurnPublic(_, t, account, amount) =>
      NONE.(spendOut := If(o == Owner(account, t), FromSpendable(s, o, amount)),
            freeOut := If(o == Owner(account, t), amount - FromSpendable(s, o, amount)))
    case BurnPrivate(_, input, amount) => NONE.(privateOut := If(o == HolderOf(s, input), amount))
    case PrehookPublic(_, t, account, amount, _) =>
      var mine := o == Owner(account, t);
      var back := mine && Lapsed(s, height, o);
      NONE.(freeIn := If(back, Spendable(s, o)), spendOut := If(back, Spendable(s, o)),
            freeOut := If(mine, amount), spendIn := If(mine, amount))
    case _ => NONE
  }

  // ---------------------------------------------------------------------------
  // The primitive moves
  // ---------------------------------------------------------------------------

  lemma DebitChanges(s: State, height: nat, x: Owner, amount: nat, o: Owner)
    requires Debit(s, height, x, amount).Some?
    ensures Changes(s, Debit(s, height, x, amount).value, o, NONE.(spendOut := If(o == x, amount)))
  {
    hide Shielded;
    SameRecords(s, Debit(s, height, x, amount).value, o);
  }

  lemma SameRecords(s: State, s': State, o: Owner)
    requires s'.records == s.records
    ensures Shielded(s', o) == Shielded(s, o)
  {
  }

  lemma CreditChanges(s: State, x: Owner, amount: nat, until: nat, o: Owner)
    requires Credit(s, x, amount, until).Some?
    ensures Changes(s, Credit(s, x, amount, until).value, o, Receipt(s, o, x, amount, NONE))
  {
    hide Shielded, Credit;
    var s' := Credit(s, x, amount, until).value;
    if IsExternal(s, x.token) {
      CreditFree(s, x, amount, until);
    } else {
      CreditSpend(s, x, amount, until);
    }
    SameRecords(s, s', o);
  }

  lemma CreditFree(s: State, x: Owner, amount: nat, until: nat)
    requires Credit(s, x, amount, until).Some? && IsExternal(s, x.token)
    ensures var s' := Credit(s, x, amount, until).value;
            && s'.authorized == s.authorized && s'.records == s.records
            && forall o :: Free(s', o) == Free(s, o) + If(o == x, amount)
  {
  }

  lemma CreditSpend(s: State, x: Owner, amount: nat, until: nat)
    requires Credit(s, x, amount, until).Some? && !IsExternal(s, x.token)
    ensures var s' := Credit(s, x, amount, until).value;
            && s'.balances == s.balances && s'.records == s.records
            && forall o :: Spendable(s', o) == Spendable(s, o) + If(o == x, amount)
  {
  }

  lemma ConsumeChanges(s: State, input: nat, o: Owner)
    requires input in s.records
    ensures Changes(s, Consume(s, input), o, NONE.(privateOut := If(o == HolderOf(s, input), AmountOf(s, input))))
  {
    SumRemove(s.records, input, RecordsOf(o));
  }

  lemma CreateChanges(s: State, r: Record, o: Owner)
    requires s.serial !in s.records
    ensures Changes(s, Create(s, r), o, NONE.(privateIn := If(o == Owner(r.owner, r.token), r.amount)))
  {
    SumUpdate(s.records, s.serial, r, RecordsOf(o));
  }

  lemma SupplyChanges(s: State, t: TokenId, supply: nat, o: Owner)
    requires t in s.tokens
    ensures Changes(s, SetSupply(s, t, supply), o, NONE)
  {
    hide Shielded;
    SameRecords(s, SetSupply(s, t, supply), o);
  }

  // ---------------------------------------------------------------------------
  // The transactions
  // ---------------------------------------------------------------------------

  lemma TransferChanges(s: State, height: nat, from: Owner, to: Owner, amount: nat, o: Owner)
    requires from.token == to.token
    requires ApplyTransferPublic(s, height, from.account, from.token, to.account, amount).Some?
    ensures Changes(s, ApplyTransferPublic(s, height, from.account, from.token, to.account, amount).value, o,
                    Receipt(s, o, to, amount, NONE.(spendOut := If(o == from, amount))))
  {
    hide Debit, Credit, Free, Spendable, Shielded;
    var s1 := Debit(s, height, from, amount).value;
    DebitChanges(s, height, from, amount, o);
    CreditChanges(s1, to, amount, Expiry(s1.tokens[to.token].external), o);
  }

  lemma ToPrivateChanges(s: State, height: nat, from: Owner, to: Address, amount: nat, external: bool, o: Owner)
    requires s.serial !in s.records
    requires ApplyTransferPublicToPrivate(s, height, from.account, from.token, to, amount, external).Some?
    ensures Changes(s, ApplyTransferPublicToPrivate(s, height, from.account, from.token, to, amount, external).value, o,
                    NONE.(spendOut := If(o == from, amount), privateIn := If(o == Owner(to, from.token), amount)))
  {
    hide Debit, Create, Free, Spendable, Shielded;
    var r := Record(to, amount, from.token, external, Expiry(external));
    CreateChanges(s, r, o);
    DebitChanges(Create(s, r), height, from, amount, o);
  }

  lemma AllowanceChanges(s: State, owner: Address, spender: Address, t: TokenId, amount: nat, o: Owner)
    requires SpendAllowance(s, owner, spender, t, amount).Some?
    ensures var s' := SpendAllowance(s, owner, spender, t, amount).value;
            && Changes(s, s', o, NONE) && s'.tokens == s.tokens && s'.records == s.records && s'.serial == s.serial
  {
    hide Shielded;
    SameRecords(s, SpendAllowance(s, owner, spender, t, amount).value, o);
  }

  /** A record spent into what is left of it. */
  lemma ReplaceChanges(s: State, input: nat, rest: nat, o: Owner)
    requires Disciplined(s) && input in s.records && rest <= s.records[input].amount
    ensures var s' := Create(Consume(s, input), Part(s.records[input], rest));
            && Changes(s, s', o, NONE.(privateOut := If(o == HolderOf(s, input), AmountOf(s, input) - rest)))
            && s'.serial !in s'.records && s'.tokens == s.tokens
  {
    hide Free, Spendable, Shielded;
    ConsumeChanges(s, input, o);
    CreateChanges(Consume(s, input), Part(s.records[input], rest), o);
  }

  lemma BreakChanges(s: State, input: nat, first: Record, o: Owner)
    requires Disciplined(s) && Break(s, input, first).Some?
    ensures Changes(s, Break(s, input, first).value, o,
                    NONE.(privateOut := If(o == HolderOf(s, input), first.amount),
                          privateIn := If(o == Owner(first.owner, first.token), first.amount)))
  {
    hide Free, Spendable, Shielded, Create, Consume, Disciplined;
    var rest := s.records[input].amount - first.amount;
    ReplaceChanges(s, input, rest, o);
    CreateChanges(Create(Consume(s, input), Part(s.records[input], rest)), first, o);
  }

  lemma JoinChanges(s: State, first: nat, second: nat, o: Owner)
    requires Disciplined(s) && ApplyJoin(s, first, second).Some?
    ensures Changes(s, ApplyJoin(s, first, second).value, o,
                    NONE.(privateIn := If(o == HolderOf(s, first), AmountOf(s, second)),
                          privateOut := If(o == HolderOf(s, second), AmountOf(s, second))))
  {
    hide Free, Spendable, Shielded;
    var r, q := s.records[first], s.records[second];
    var s1 := Consume(s, first);
    var s2 := Consume(s1, second);
    ConsumeChanges(s, first, o);
    ConsumeChanges(s1, second, o);
    CreateChanges(s2, r.(amount := r.amount + q.amount, until := if r.until < q.until then r.until else q.until), o);
  }

  lemma BurnHoldingsChanges(s: State, x: Owner, amount: nat, o: Owner)
    requires BurnHoldings(s, x, amount).Some?
    ensures Changes(s, BurnHoldings(s, x, amount).value, o,
                    NONE.(spendOut := If(o == x, FromSpendable(s, o, amount)),
                          freeOut := If(o == x, amount - FromSpendable(s, o, amount))))
  {
    hide Shielded;
    SameRecords(s, BurnHoldings(s, x, amount).value, o);
  }

  lemma PrehookChanges(s: State, height: nat, caller: Address, x: Owner, amount: nat, until: nat, o: Owner)
    requires ApplyPrehookPublic(s, height, caller, x, amount, until).Some?
    ensures Changes(s, ApplyPrehookPublic(s, height, caller, x, amount, until).value, o,
                    ChangeOf(s, height, PrehookPublic(caller, x.token, x.account, amount, until), o))
  {
    hide Shielded;
    SameRecords(s, ApplyPrehookPublic(s, height, caller, x, amount, until).value, o);
  }

  lemma AdminChanges(env: Env, s: State, tx: Tx, o: Owner)
    requires IsAdminTx(tx) && ApplyAdmin(env, s, tx).Some?
    ensures Changes(s, ApplyAdmin(env, s, tx).value, o, NONE)
  {
    hide Shielded;
    SameRecords(s, ApplyAdmin(env, s, tx).value, o);
  }

  lemma MintChanges(env: Env, s: State, height: nat, tx: Tx, o: Owner)
    requires tx.MintPublic? || tx.MintPrivate?
    requires Disciplined(s) && Apply(env, s, height, tx).Some?
    ensures Changes(s, Apply(env, s, height, tx).value, o, ChangeOf(s, height, tx, o))
  {
    hide Free, Spendable, Shielded, Credit, Create, ApplyAdmin, HasRole, Disciplined, SetSupply;
    NextSerial(s);
    var s1 := SetSupply(s, tx.token, s.tokens[tx.token].supply + tx.amount);
    SupplyChanges(s, tx.token, s.tokens[tx.token].supply + tx.amount, o);
    SupplyKeepsFlags(s, tx.token, s.tokens[tx.token].supply + tx.amount);
    match tx
    case MintPublic(_, t, to, amount, until) => CreditChanges(s1, Owner(to, t), amount, until, o);
    case MintPrivate(_, t, to, amount, external, until) =>
      CreateChanges(s1, Record(to, amount, t, external, until), o);
  }

  lemma BurnChanges(env: Env, s: State, height: nat, tx: Tx, o: Owner)
    requires tx.BurnPublic? || tx.BurnPrivate?
    requires Disciplined(s) && Apply(env, s, height, tx).Some?
    ensures Changes(s, Apply(env, s, height, tx).value, o, ChangeOf(s, height, tx, o))
  {
    hide Free, Spendable, Shielded, Create, Consume, BurnHoldings, ApplyAdmin, HasRole, Disciplined, SetSupply;
    match tx
    case BurnPublic(_, t, account, amount) =>
      SupplyChanges(s, t, s.tokens[t].supply - amount, o);
      SupplyKeepsFlags(s, t, s.tokens[t].supply - amount);
      BurnHoldingsChanges(SetSupply(s, t, s.tokens[t].supply - amount), Owner(account, t), amount, o);
    case BurnPrivate(_, input, amount) =>
      var s1 := Create(Consume(s, input), Part(s.records[input], s.records[input].amount - amount));
      ReplaceChanges(s, input, s.records[input].amount - amount, o);
      SupplyChanges(s1, s.records[input].token, s1.tokens[s.records[input].token].supply - amount, o);
  }

  lemma NextSerial(s: State)
    requires Disciplined(s)
    ensures s.serial !in s.records
  {
  }

  lemma SupplyKeepsFlags(s: State, t: TokenId, supply: nat)
    requires t in s.tokens
    ensures var s' := SetSupply(s, t, supply);
            && s'.records == s.records && s'.serial == s.serial && s'.authorized == s.authorized
            && forall u :: IsExternal(s', u) == IsExternal(s, u)
  {
  }

  /**
  The effect of every transaction on everybody's holdings: what leaves the sender reaches the
  receiver, in the mapping that the token's flag selects or as a record, and nobody else's holdings
  change.
   */
  lemma EveryMove(env: Env, s: State, height: nat, tx: Tx, o: Owner)
    requires Inv(s) && Apply(env, s, height, tx).Some?
    ensures Changes(s, Apply(env, s, height, tx).value, o, ChangeOf(s, height, tx, o))
  {
    hide Backed, Disciplined, Free, Spendable, Shielded, SpendAllowance, ApplyTransferPublic,
        ApplyTransferPublicToPrivate,
      Break, ApplyJoin, ApplyPrehookPublic, ApplyAdmin, Credit, Create, Consume, ApplyMintPublic, ApplyMintPrivate,
      ApplyBurnPublic, ApplyBurnPrivate;
    NextSerial(s);
    match tx
    case TransferPublic(from, t, to, amount) => TransferChanges(s, height, Owner(from, t), Owner(to, t), amount, o);
    case TransferFromPublic(spender, t, from, to, amount) =>
      AllowanceChanges(s, from, spender, t, amount, o);
      TransferChanges(SpendAllowance(s, from, spender, t, amount).value, height, Owner(from, t),
                      Owner(to, t), amount, o);
    case TransferPublicToPrivate(from, t, to, amount, external) =>
      ToPrivateChanges(s, height, Owner(from, t), to, amount, external, o);
    case TransferFromPublicToPrivate(spender, t, from, to, amount, external) =>
      AllowanceChanges(s, from, spender, t, amount, o);
      ToPrivateChanges(SpendAllowance(s, from, spender, t, amount).value, height, Owner(from, t), to,
                       amount, external, o);
    case TransferPrivateToPublic(input, to, amount) => PublishChanges(s, height, input, to, amount, o);
    case Join(first, second) => JoinChanges(s, first, second, o);
    case PrehookPublic(caller, t, account, amount, until) =>
      PrehookChanges(s, height, caller, Owner(account, t), amount, until, o);
    case _ =>
      if tx.MintPublic? || tx.MintPrivate? {
        MintChanges(env, s, height, tx, o);
      } else if tx.BurnPublic? || tx.BurnPrivate? {
        BurnChanges(env, s, height, tx, o);
      } else if IsAdminTx(tx) {
        AdminChanges(env, s, tx, o);
      } else {
        RecordChanges(env, s, height, tx, o);
      }
  }

  lemma PublishChanges(s: State, height: nat, input: nat, to: Address, amount: nat, o: Owner)
    requires Disciplined(s) && ApplyTransferPrivateToPublic(s, height, input, to, amount).Some?
    ensures Changes(s, ApplyTransferPrivateToPublic(s, height, input, to, amount).value, o,
                    Receipt(s, o, Owner(to, HolderOf(s, input).token), amount,
                            NONE.(privateOut := If(o == HolderOf(s, input), amount))))
  {
    hide Disciplined, Free, Spendable, Shielded, Create, Consume, Credit;
    var r := s.records[input];
    ReplaceChanges(s, input, r.amount - amount, o);
    var s1 := Create(Consume(s, input), Part(r, r.amount - amount));
    CreditChanges(s1, Owner(to, r.token), amount, Expiry(s1.tokens[r.token].external), o);
  }

  lemma RecordChanges(env: Env, s: State, height: nat, tx: Tx, o: Owner)
    requires tx.TransferPrivate? || tx.Split? || tx.PrehookPrivate?
    requires Disciplined(s) && Apply(env, s, height, tx).Some?
    ensures Changes(s, Apply(env, s, height, tx).value, o, ChangeOf(s, height, tx, o))
  {
    hide Disciplined, Free, Spendable, Shielded, Break, ApplyAdmin;
    var r := s.records[tx.input];
    match tx
    case TransferPrivate(input, to, amount) =>
      BreakChanges(s, input, Record(to, amount, r.token, r.external, Expiry(r.external)), o);
    case Split(input, amount) => BreakChanges(s, input, Part(r, amount), o);
    case PrehookPrivate(_, input, amount, until) =>
      BreakChanges(s, input, Record(r.owner, amount, r.token, r.external, until), o);
  }

  // ---------------------------------------------------------------------------
  // Allowances, supplies and new records
  // ---------------------------------------------------------------------------

  function Granted(s: State, key: AllowanceKey): nat {
    if key in s.allowances then s.allowances[key] else 0
  }

  function GrantIn(tx: Tx, key: AllowanceKey): nat {
    match tx
    case Approve(owner, t, spender, amount) => If(key == AllowanceKey(owner, spender, t), amount)
    case _ => 0
  }

  /** What a transaction takes from an allowance: the spender's transfers do. */
  function GrantOut(tx: Tx, key: AllowanceKey): nat {
    match tx
    case Unapprove(owner, t, spender, amount) => If(key == AllowanceKey(owner, spender, t), amount)
    case TransferFromPublic(spender, t, from, _, amount) => If(key == AllowanceKey(from, spender, t), amount)
    case TransferFromPublicToPrivate(spender, t, from, _, amount, _) =>
      If(key == AllowanceKey(from, spender, t), amount)
    case _ => 0
  }

  function SupplyIn(tx: Tx, t: TokenId): nat {
    match tx
    case MintPublic(_, u, _, amount, _) => If(u == t, amount)
    case MintPrivate(_, u, _, amount, _, _) => If(u == t, amount)
    case _ => 0
  }

  function SupplyOut(s: State, tx: Tx, t: TokenId): nat {
    match tx
    case BurnPublic(_, u, _, amount) => If(u == t, amount)
    case BurnPrivate(_, input, amount) => If(HolderOf(s, input).token == t, amount)
    case _ => 0
  }

  lemma TermsMove(env: Env, s: State, height: nat, tx: Tx, key: AllowanceKey, t: TokenId)
    requires Apply(env, s, height, tx).Some?
    ensures var s' := Apply(env, s, height, tx).value;
            && Granted(s', key) + GrantOut(tx, key) == Granted(s, key) + GrantIn(tx, key)
            && Supply(s', t) + SupplyOut(s, tx, t) == Supply(s, t) + SupplyIn(tx, t)
  {
    if IsAdminTx(tx) {
      hide Apply, ApplyAdmin;
      ApplyIsAdmin(env, s, height, tx);
      AdminTerms(env, s, tx, key, t);
    } else if tx.MintPublic? || tx.MintPrivate? || tx.BurnPublic? || tx.BurnPrivate? {
      hide Apply;
      IssueTerms(env, s, height, tx, key, t);
    } else {
      hide Apply;
      TransferTerms(env, s, height, tx, key);
    }
  }

  lemma AdminTerms(env: Env, s: State, tx: Tx, key: AllowanceKey, t: TokenId)
    requires IsAdminTx(tx) && ApplyAdmin(env, s, tx).Some?
    ensures var s' := ApplyAdmin(env, s, tx).value;
            && Granted(s', key) + GrantOut(tx, key) == Granted(s, key) + GrantIn(tx, key)
            && Supply(s', t) == Supply(s, t)
  {
  }

  lemma IssueTerms(env: Env, s: State, height: nat, tx: Tx, key: AllowanceKey, t: TokenId)
    requires tx.MintPublic? || tx.MintPrivate? || tx.BurnPublic? || tx.BurnPrivate?
    requires Apply(env, s, height, tx).Some?
    ensures var s' := Apply(env, s, height, tx).value;
            && s'.allowances == s.allowances
            && Supply(s', t) + SupplyOut(s, tx, t) == Supply(s, t) + SupplyIn(tx, t)
  {
    hide Credit, BurnHoldings, HasRole, ApplyAdmin;
  }

  lemma TransferTerms(env: Env, s: State, height: nat, tx: Tx, key: AllowanceKey)
    requires !IsAdminTx(tx) && !tx.MintPublic? && !tx.MintPrivate? && !tx.BurnPublic? && !tx.BurnPrivate?
    requires Apply(env, s, height, tx).Some?
    ensures var s' := Apply(env, s, height, tx).value;
            && s'.tokens == s.tokens && Granted(s', key) + GrantOut(tx, key) == Granted(s, key)
  {
    hide Debit, Credit, Break, ApplyAdmin;
  }

  /** The record that the receiver of a private transfer gets: expired at once if the token asks for authorization. */
  lemma ReceivedRecord(env: Env, s: State, height: nat, tx: Tx)
    requires tx.TransferPrivate? || tx.TransferPublicToPrivate? || tx.TransferFromPublicToPrivate?
    requires Inv(s) && Apply(env, s, height, tx).Some?
    ensures var s', k := Apply(env, s, height, tx).value, if tx.TransferPrivate? then s.serial + 1 else s.serial;
            var t := if tx.TransferPrivate? then HolderOf(s, tx.input).token else tx.token;
            && t in s.tokens && k in s'.records
            && s'.records[k] == Record(tx.to, tx.amount, t, s.tokens[t].external, if s.tokens[t].external then 0
              else 4294967295)
  {
    hide Backed, CanDebit, ApplyAdmin;
  }

  // ---------------------------------------------------------------------------
  // Who may issue and authorize
  // ---------------------------------------------------------------------------

  /** The admin, the given role, or the supply manager. */
  predicate MayIssue(s: State, caller: Address, t: TokenId, role: nat)
    requires t in s.tokens
  {
    var key := Owner(caller, t);
    caller == s.tokens[t].admin || (key in s.roles && s.roles[key] in {role, 3})
  }

  /** Minting needs the admin, a minter (1) or the supply manager (3), and room below the maximum. */
  lemma MintPublicIff(s: State, caller: Address, t: TokenId, to: Address, amount: nat, until: nat)
    requires Inv(s)
    ensures ApplyMintPublic(s, caller, t, to, amount, until).Some?
            <==> t in s.tokens && MayIssue(s, caller, t, 1) && s.tokens[t].supply + amount <= s.tokens[t].maxSupply
  {
    hide Credit;
    if t in s.tokens && MayIssue(s, caller, t, 1) && s.tokens[t].supply + amount <= s.tokens[t].maxSupply {
      var supply: nat := s.tokens[t].supply + amount;
      var s1 := SetSupply(s, t, supply);
      SupplyShift(s, t, supply);
      SupplyDisciplined(s, t, supply);
      InTransit(s, s1, t, amount);
      CreditFits(s1, Owner(to, t), amount, until);
    }
  }

  /** Burning needs the admin, a burner (2) or the supply manager (3), and holdings that cover the amount. */
  lemma BurnPublicIff(s: State, caller: Address, t: TokenId, account: Address, amount: nat)
    requires Inv(s)
    ensures var o := Owner(account, t);
            ApplyBurnPublic(s, caller, t, account, amount).Some?
            <==> t in s.tokens && MayIssue(s, caller, t, 2) && amount <= Free(s, o) + Spendable(s, o)
  {
    var o := Owner(account, t);
    HeldBySupply(s, o);
  }

  /** No account holds more than the supply. */
  lemma HeldBySupply(s: State, o: Owner)
    requires Inv(s)
    ensures Free(s, o) + Spendable(s, o) <= Supply(s, o.token) < U128
  {
    SumAtLeast(s.balances, o, OfToken(o.token));
    SumAtLeast(s.authorized, o, OfToken(o.token));
    assert Surplus(s, o.token) == 0;
  }

  /** Only the external party authorizes, and only what the account has left to authorize. */
  lemma PrehookPublicIff(s: State, height: nat, caller: Address, o: Owner, amount: nat, until: nat)
    requires Inv(s)
    ensures ApplyPrehookPublic(s, height, caller, o, amount, until).Some?
            <==> && IsExternal(s, o.token) && caller == s.tokens[o.token].party
                 && amount <= Free(s, o) + If(Lapsed(s, height, o), Spendable(s, o))
    ensures ApplyPrehookPublic(s, height, caller, o, amount, until).Some? ==>
              var s' := ApplyPrehookPublic(s, height, caller, o, amount, until).value;
              o in s'.authorized && s'.authorized[o].until == until
  {
    HeldBySupply(s, o);
  }

  /** Whoever registers a token becomes its admin; only the admin hands it over and gives roles. */
  lemma ManagementTerms(env: Env, s: State, tx: Tx)
    requires IsAdminTx(tx) && ApplyAdmin(env, s, tx).Some?
    ensures var s' := ApplyAdmin(env, s, tx).value;
            && (tx.RegisterToken? ==>
                  && tx.token !in s.tokens && s'.roles == s.roles
                  && s'.tokens == s.tokens[tx.token := Token(tx.decimals, 0, tx.maxSupply, tx.caller,
                                                             tx.external, tx.party)])
            && (tx.UpdateManagement? ==>
                  && tx.token in s.tokens && tx.caller == s.tokens[tx.token].admin && s'.roles == s.roles
                  && s'.tokens == s.tokens[tx.token := s.tokens[tx.token].(admin := tx.admin, party := tx.party)])
            && (tx.SetRole? ==>
                  && tx.token in s.tokens && tx.caller == s.tokens[tx.token].admin && tx.role in {1, 2, 3}
                  && s'.tokens == s.tokens && s'.roles == s.roles[Owner(tx.account, tx.token) := tx.role])
            && (tx.RemoveRole? ==>
                  && tx.token in s.tokens && tx.caller == s.tokens[tx.token].admin
                  && s'.tokens == s.tokens && s'.roles == s.roles - {Owner(tx.account, tx.token)})
            && (tx.Approve? || tx.Unapprove? ==> SameTerms(s, s'))
  {
  }

  /** Authorizing a record needs the token's external party, and dates the authorized part. */
  lemma PrehookPrivateIff(env: Env, s: State, height: nat, tx: Tx)
    requires Inv(s) && tx.PrehookPrivate?
    ensures Apply(env, s, height, tx).Some?
            <==> tx.input in s.records && tx.caller == s.tokens[s.records[tx.input].token].party
                 && tx.amount <= s.records[tx.input].amount
    ensures Apply(env, s, height, tx).Some? ==>
              var s', r := Apply(env, s, height, tx).value, s.records[tx.input];
              s'.records == (s.records - {tx.input})
                            + map[s.serial := r.(amount := r.amount - tx.amount),
                                  s.serial + 1 := r.(amount := tx.amount, until := tx.until)]
  {
    hide Backed;
  }

  /** Joined records expire with the earlier of the two and stay with the holder of the first. */
  lemma JoinedRecord(env: Env, s: State, height: nat, tx: Tx)
    requires tx.Join? && Apply(env, s, height, tx).Some?
    ensures && tx.first in s.records && tx.second in s.records && tx.first != tx.second
            && var s', r, q := Apply(env, s, height, tx).value, s.records[tx.first], s.records[tx.second];
            && r.token == q.token && s.serial in s'.records
            && var joined := s'.records[s.serial];
            && joined.amount == r.amount + q.amount < U128 && joined.until <= r.until && joined.until <= q.until
            && joined.until in {r.until, q.until}
            && Owner(joined.owner, joined.token) == Owner(r.owner, r.token) && joined.external == r.external
            && s'.records == (s.records - {tx.first, tx.second})[s.serial := joined]
  {
    assert s.records - {tx.first} - {tx.second} == s.records - {tx.first, tx.second};
  }

  /** The parts of a split keep everything but the amount. */
  lemma SplitRecords(env: Env, s: State, height: nat, tx: Tx)
    requires tx.Split? && Apply(env, s, height, tx).Some?
    ensures && tx.input in s.records && tx.amount <= s.records[tx.input].amount
            && var s', r := Apply(env, s, height, tx).value, s.records[tx.input];
            s'.records == (s.records - {tx.input})
                          + map[s.serial := r.(amount := r.amount - tx.amount), s.serial + 1 := r.(amount := tx.amount)]
  {
  }
}
