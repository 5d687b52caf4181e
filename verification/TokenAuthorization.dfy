/** Consequences of the supply invariant, and the discipline of external authorization. */
module TokenAuthorization {
  import opened Prelude
  import opened Sums
  import opened TokenRegistry
  import opened TokenSupply

  // ---------------------------------------------------------------------------
  // Credits of transfers never overflow
  // ---------------------------------------------------------------------------

  /** With `amount` of the supply in transit, crediting it to anyone stays below 2^128. */
  lemma CreditFits(s: State, o: Owner, amount: nat, until: nat)
    requires Disciplined(s) && o.token in s.tokens && Surplus(s, o.token) == amount
    ensures Credit(s, o, amount, until).Some?
  {
    SumAtLeast(s.balances, o, OfToken(o.token));
    SumAtLeast(s.authorized, o, OfToken(o.token));
  }

  /**
  A public transfer goes through exactly when the sender can be debited; the credit never fails,
  to whatever account it goes, the sender's own included.
   */
  lemma TransferSucceedsIff(s: State, height: nat, from: Address, t: TokenId, to: Address, amount: nat)
    requires Inv(s)
    ensures ApplyTransferPublic(s, height, from, t, to, amount).Some? <==> CanDebit(s, height, Owner(from, t), amount)
  {
    if CanDebit(s, height, Owner(from, t), amount) {
      var s1 := Debit(s, height, Owner(from, t), amount).value;
      DebitShift(s, height, Owner(from, t), amount);
      DebitDisciplined(s, height, Owner(from, t), amount);
      assert Surplus(s, t) == 0 && Surplus(s1, t) == amount;
      CreditFits(s1, Owner(to, t), amount, Expiry(s1.tokens[t].external));
    }
  }

  predicate CanSpendRecord(s: State, height: nat, input: nat, amount: nat) {
    && input in s.records && amount <= s.records[input].amount
    && (height <= s.records[input].until || !s.records[input].external)
  }

  /** The same for the credit of `transfer_private_to_public`: only the record can be the obstacle. */
  lemma PrivateToPublicSucceedsIff(s: State, height: nat, input: nat, to: Address, amount: nat)
    requires Inv(s)
    ensures ApplyTransferPrivateToPublic(s, height, input, to, amount).Some?
            <==> CanSpendRecord(s, height, input, amount)
  {
    hide Shifts, Create, Consume, Credit;
    if CanSpendRecord(s, height, input, amount) {
      var r := s.records[input];
      var rest := Part(r, r.amount - amount);
      var s1 := Create(Consume(s, input), rest);
      ReplaceShift(s, input, rest);
      ReplaceDisciplined(s, input, rest);
      SameTokens(s, input, rest);
      InTransit(s, s1, r.token, amount);
      CreditFits(s1, Owner(to, r.token), amount, Expiry(s1.tokens[r.token].external));
    }
  }

  lemma InTransit(s: State, s1: State, t: TokenId, amount: nat)
    requires Inv(s) && Shifts(s, s1, t, amount)
    ensures Surplus(s1, t) == amount
  {
    assert Surplus(s, t) == 0;
  }

  predicate HasAllowance(s: State, owner: Address, spender: Address, t: TokenId, amount: nat) {
    AllowanceKey(owner, spender, t) in s.allowances && amount <= s.allowances[AllowanceKey(owner, spender, t)]
  }

  predicate IsTransfer(tx: Tx) {
    || tx.TransferPublic? || tx.TransferFromPublic? || tx.TransferPrivateToPublic?
    || tx.TransferPrivate? || tx.TransferPublicToPrivate? || tx.TransferFromPublicToPrivate?
  }

  /** The authorized balance covers the amount and, for a token that asks for authorization, has not expired. */
  predicate MaySpend(s: State, height: nat, o: Owner, amount: nat) {
    && o.token in s.tokens && o in s.authorized && amount <= s.authorized[o].amount
    && (s.tokens[o.token].external ==> height <= s.authorized[o].until)
  }

  /** What the sender of a transfer must have; nothing about the receiver. */
  predicate CanSend(s: State, height: nat, tx: Tx)
    requires IsTransfer(tx)
  {
    match tx
    case TransferPublic(from, t, _, amount) => MaySpend(s, height, Owner(from, t), amount)
    case TransferFromPublic(spender, t, from, _, amount) =>
      HasAllowance(s, from, spender, t, amount) && MaySpend(s, height, Owner(from, t), amount)
    case TransferPrivate(input, _, amount) => CanSpendRecord(s, height, input, amount)
    case TransferPrivateToPublic(input, _, amount) => CanSpendRecord(s, height, input, amount)
    case TransferPublicToPrivate(from, t, _, amount, external) =>
      MaySpend(s, height, Owner(from, t), amount) && s.tokens[t].external == external
    case TransferFromPublicToPrivate(spender, t, from, _, amount, external) =>
      && HasAllowance(s, from, spender, t, amount)
      && MaySpend(s, height, Owner(from, t), amount) && s.tokens[t].external == external
  }

  /**
  All six transfers go through exactly when the sender can send: in a reachable state no credit
  of a transfer ever overflows, whoever receives it.
   */
  lemma TransfersSucceedIff(env: Env, s: State, height: nat, tx: Tx)
    requires Inv(s) && IsTransfer(tx)
    ensures Apply(env, s, height, tx).Some? <==> CanSend(s, height, tx)
  {
    hide Inv, ApplyTransferPublic, ApplyTransferPrivateToPublic, ApplyAdmin, Break;
    match tx
    case TransferPublic(from, t, to, amount) => TransferSucceedsIff(s, height, from, t, to, amount);
    case TransferPrivateToPublic(input, to, amount) => PrivateToPublicSucceedsIff(s, height, input, to, amount);
    case TransferFromPublic(spender, t, from, to, amount) =>
      if HasAllowance(s, from, spender, t, amount) {
        AllowanceKeeps(s, from, spender, t, amount);
        TransferSucceedsIff(SpendAllowance(s, from, spender, t, amount).value, height, from, t, to, amount);
      }
    case TransferPrivate(input, to, amount) =>
      if input in s.records {
        BreakSucceeds(s, input, amount, to);
      }
    case _ =>
  }

  lemma BreakSucceeds(s: State, input: nat, amount: nat, to: Address)
    requires input in s.records
    ensures var r := s.records[input];
            Break(s, input, Record(to, amount, r.token, r.external, Expiry(r.external))).Some? <==> amount <= r.amount
  {
  }

  /** A self-transfer of a token without external authorization changes nothing. */
  lemma SelfTransferIsNeutral(s: State, height: nat, a: Address, t: TokenId, amount: nat)
    requires Inv(s) && CanDebit(s, height, Owner(a, t), amount) && !s.tokens[t].external
    ensures ApplyTransferPublic(s, height, a, t, a, amount) == Some(s)
  {
    TransferSucceedsIff(s, height, a, t, a, amount);
    assert ApplyTransferPublic(s, height, a, t, a, amount).value.authorized == s.authorized;
  }

  // ---------------------------------------------------------------------------
  // External authorization
  // ---------------------------------------------------------------------------

  /** What `o` may spend. */
  function Spendable(s: State, o: Owner): nat {
    if o in s.authorized then s.authorized[o].amount else 0
  }

  /** What a transaction takes out of the public holdings of `o` by a transfer. */
  function Outflow(tx: Tx, o: Owner): nat {
    match tx
    case TransferPublic(from, t, _, amount) => if Owner(from, t) == o then amount else 0
    case TransferPublicToPrivate(from, t, _, amount, _) => if Owner(from, t) == o then amount else 0
    case TransferFromPublic(_, t, from, _, amount) => if Owner(from, t) == o then amount else 0
    case TransferFromPublicToPrivate(_, t, from, _, amount, _) => if Owner(from, t) == o then amount else 0
    case _ => 0
  }

  /** What a transaction authorizes `o` to spend. */
  function Authorizes(tx: Tx, o: Owner): nat {
    if tx.PrehookPublic? && Owner(tx.account, tx.token) == o then tx.amount else 0
  }

  function OutflowIn(env: Env, s: State, txs: seq<(nat, Tx)>, o: Owner): nat
    decreases |txs|
  {
    if txs == [] then 0
    else
      (if Apply(env, s, txs[0].0, txs[0].1).Some? then Outflow(txs[0].1, o) else 0)
      + OutflowIn(env, Commit(env, s, txs[0].0, txs[0].1), txs[1..], o)
  }

  function AuthorizedIn(env: Env, s: State, txs: seq<(nat, Tx)>, o: Owner): nat
    decreases |txs|
  {
    if txs == [] then 0
    else
      (if Apply(env, s, txs[0].0, txs[0].1).Some? then Authorizes(txs[0].1, o) else 0)
      + AuthorizedIn(env, Commit(env, s, txs[0].0, txs[0].1), txs[1..], o)
  }

  /** Registered tokens stay registered and keep their flag. */
  ghost predicate FlagsKept(s: State, s': State) {
    forall t :: t in s.tokens ==> t in s'.tokens && s'.tokens[t].external == s.tokens[t].external
  }

  lemma DebitSpends(s: State, height: nat, x: Owner, amount: nat, o: Owner)
    requires Debit(s, height, x, amount).Some?
    ensures var s' := Debit(s, height, x, amount).value;
            FlagsKept(s, s') && Spendable(s', o) + (if x == o then amount else 0) == Spendable(s, o)
  {
  }

  lemma CreditSpends(s: State, x: Owner, amount: nat, until: nat, o: Owner)
    requires Credit(s, x, amount, until).Some? && (o.token in s.tokens ==> s.tokens[o.token].external)
    ensures var s' := Credit(s, x, amount, until).value; FlagsKept(s, s') && Spendable(s', o) == Spendable(s, o)
  {
  }

  lemma TransferSpends(s: State, height: nat, from: Address, t: TokenId, to: Address, amount: nat, o: Owner)
    requires ApplyTransferPublic(s, height, from, t, to, amount).Some?
             && (o.token in s.tokens ==> s.tokens[o.token].external)
    ensures var s' := ApplyTransferPublic(s, height, from, t, to, amount).value;
            FlagsKept(s, s') && Spendable(s', o) + (if Owner(from, t) == o then amount else 0) == Spendable(s, o)
  {
    hide Debit, Credit, Spendable;
    var s1 := Debit(s, height, Owner(from, t), amount).value;
    DebitSpends(s, height, Owner(from, t), amount, o);
    KeepsExternal(s, s1, o, height, Owner(from, t), amount);
    CreditSpends(s1, Owner(to, t), amount, Expiry(s1.tokens[t].external), o);
  }

  lemma KeepsExternal(s: State, s1: State, o: Owner, height: nat, x: Owner, amount: nat)
    requires Debit(s, height, x, amount) == Some(s1) && (o.token in s.tokens ==> s.tokens[o.token].external)
    ensures o.token in s1.tokens ==> s1.tokens[o.token].external
  {
  }

  lemma TransferToPrivateSpends(s: State, height: nat, from: Address, t: TokenId, to: Address, amount: nat,
                                external: bool, o: Owner)
    requires ApplyTransferPublicToPrivate(s, height, from, t, to, amount, external).Some?
    ensures var s' := ApplyTransferPublicToPrivate(s, height, from, t, to, amount, external).value;
            FlagsKept(s, s') && Spendable(s', o) + (if Owner(from, t) == o then amount else 0) == Spendable(s, o)
  {
    var s1 := Create(s, Record(to, amount, t, external, Expiry(external)));
    DebitSpends(s1, height, Owner(from, t), amount, o);
  }

  lemma PublicSpends(env: Env, s: State, height: nat, tx: Tx, o: Owner)
    requires tx.TransferPublic? || tx.TransferPublicToPrivate? || tx.TransferFromPublic?
             || tx.TransferFromPublicToPrivate?
    requires Apply(env, s, height, tx).Some? && (o.token in s.tokens ==> s.tokens[o.token].external)
    ensures var s' := Apply(env, s, height, tx).value;
            FlagsKept(s, s') && Spendable(s', o) + Outflow(tx, o) == Spendable(s, o)
  {
    hide ApplyTransferPublic, ApplyTransferPublicToPrivate;
    match tx
    case TransferPublic(from, t, to, amount) => TransferSpends(s, height, from, t, to, amount, o);
    case TransferPublicToPrivate(from, t, to, amount, external) =>
      TransferToPrivateSpends(s, height, from, t, to, amount, external, o);
    case TransferFromPublic(spender, t, from, to, amount) =>
      TransferSpends(SpendAllowance(s, from, spender, t, amount).value, height, from, t, to, amount, o);
    case TransferFromPublicToPrivate(spender, t, from, to, amount, external) =>
      TransferToPrivateSpends(SpendAllowance(s, from, spender, t, amount).value, height, from, t, to,
                              amount, external, o);
  }

  lemma MintSpends(s: State, tx: Tx, env: Env, height: nat, o: Owner)
    requires (tx.MintPublic? || tx.MintPrivate?) && Apply(env, s, height, tx).Some?
    requires o.token in s.tokens ==> s.tokens[o.token].external
    ensures var s' := Apply(env, s, height, tx).value; FlagsKept(s, s') && Spendable(s', o) == Spendable(s, o)
  {
    hide HasRole, Credit, Spendable;
    var s1 := Minted(s, tx.caller, tx.token, tx.amount).value;
    SupplySpends(s, tx.token, s.tokens[tx.token].supply + tx.amount, o);
    if tx.MintPublic? {
      CreditSpends(s1, Owner(tx.to, tx.token), tx.amount, tx.until, o);
    } else {
      CreateSpends(s1, Record(tx.to, tx.amount, tx.token, tx.external, tx.until), o);
    }
  }

  lemma SupplySpends(s: State, t: TokenId, supply: nat, o: Owner)
    requires t in s.tokens
    ensures FlagsKept(s, SetSupply(s, t, supply)) && Spendable(SetSupply(s, t, supply), o) == Spendable(s, o)
  {
  }

  lemma CreateSpends(s: State, r: Record, o: Owner)
    ensures FlagsKept(s, Create(s, r)) && Spendable(Create(s, r), o) == Spendable(s, o)
  {
  }

  lemma BurnHoldingsSpends(s: State, x: Owner, amount: nat, o: Owner)
    requires BurnHoldings(s, x, amount).Some?
    ensures var s' := BurnHoldings(s, x, amount).value; FlagsKept(s, s') && Spendable(s', o) <= Spendable(s, o)
  {
  }

  lemma BurnSpends(s: State, tx: Tx, env: Env, height: nat, o: Owner)
    requires (tx.BurnPublic? || tx.BurnPrivate?) && Apply(env, s, height, tx).Some?
    ensures var s' := Apply(env, s, height, tx).value; FlagsKept(s, s') && Spendable(s', o) <= Spendable(s, o)
  {
    hide HasRole, BurnHoldings;
    if tx.BurnPublic? {
      var s1 := Burned(s, tx.caller, tx.token, tx.amount).value;
      SupplySpends(s, tx.token, s.tokens[tx.token].supply - tx.amount, o);
      BurnHoldingsSpends(s1, Owner(tx.account, tx.token), tx.amount, o);
    }
  }

  lemma PrehookSpends(s: State, height: nat, caller: Address, x: Owner, amount: nat, until: nat, o: Owner)
    requires ApplyPrehookPublic(s, height, caller, x, amount, until).Some?
    ensures var s' := ApplyPrehookPublic(s, height, caller, x, amount, until).value;
            FlagsKept(s, s') && Spendable(s', o) <= Spendable(s, o) + if x == o then amount else 0
  {
  }

  lemma IssueSpends(env: Env, s: State, height: nat, tx: Tx, o: Owner)
    requires tx.MintPublic? || tx.MintPrivate? || tx.BurnPublic? || tx.BurnPrivate? || tx.PrehookPublic?
    requires Apply(env, s, height, tx).Some? && (o.token in s.tokens ==> s.tokens[o.token].external)
    ensures var s' := Apply(env, s, height, tx).value;
            FlagsKept(s, s') && Spendable(s', o) <= Spendable(s, o) + Authorizes(tx, o)
  {
    hide ApplyMintPublic, ApplyMintPrivate, ApplyBurnPublic, ApplyBurnPrivate, ApplyPrehookPublic, FlagsKept, Spendable;
    if tx.PrehookPublic? {
      PrehookSpends(s, height, tx.caller, Owner(tx.account, tx.token), tx.amount, tx.until, o);
    } else if tx.MintPublic? || tx.MintPrivate? {
      MintSpends(s, tx, env, height, o);
    } else {
      BurnSpends(s, tx, env, height, o);
    }
  }

  lemma RecordSpends(env: Env, s: State, height: nat, tx: Tx, o: Owner)
    requires tx.TransferPrivate? || tx.TransferPrivateToPublic? || tx.Join? || tx.Split? || tx.PrehookPrivate?
    requires Apply(env, s, height, tx).Some? && (o.token in s.tokens ==> s.tokens[o.token].external)
    ensures var s' := Apply(env, s, height, tx).value; FlagsKept(s, s') && Spendable(s', o) == Spendable(s, o)
  {
    hide ApplyAdmin, Break, Credit;
    if tx.TransferPrivateToPublic? {
      var r := s.records[tx.input];
      var s1 := Create(Consume(s, tx.input), Part(r, r.amount - tx.amount));
      CreditSpends(s1, Owner(tx.to, r.token), tx.amount, Expiry(s1.tokens[r.token].external), o);
    }
  }

  lemma AdminSpends(env: Env, s: State, tx: Tx, o: Owner)
    requires IsAdminTx(tx) && ApplyAdmin(env, s, tx).Some?
    ensures var s' := ApplyAdmin(env, s, tx).value; FlagsKept(s, s') && Spendable(s', o) == Spendable(s, o)
  {
  }

  lemma ApplySpends(env: Env, s: State, height: nat, tx: Tx, o: Owner)
    requires Apply(env, s, height, tx).Some? && (o.token in s.tokens ==> s.tokens[o.token].external)
    ensures var s' := Apply(env, s, height, tx).value;
            FlagsKept(s, s') && Spendable(s', o) + Outflow(tx, o) <= Spendable(s, o) + Authorizes(tx, o)
  {
    hide FlagsKept, Spendable, Apply, ApplyAdmin;
    if tx.TransferPublic? || tx.TransferPublicToPrivate? || tx.TransferFromPublic? || tx.TransferFromPublicToPrivate? {
      PublicSpends(env, s, height, tx, o);
    } else if tx.MintPublic? || tx.MintPrivate? || tx.BurnPublic? || tx.BurnPrivate? || tx.PrehookPublic? {
      IssueSpends(env, s, height, tx, o);
    } else if tx.TransferPrivate? || tx.TransferPrivateToPublic? || tx.Join? || tx.Split? || tx.PrehookPrivate? {
      RecordSpends(env, s, height, tx, o);
    } else {
      ApplyIsAdmin(env, s, height, tx);
      AdminSpends(env, s, tx, o);
    }
  }

  lemma ApplyIsAdmin(env: Env, s: State, height: nat, tx: Tx)
    requires IsAdminTx(tx)
    ensures Apply(env, s, height, tx) == ApplyAdmin(env, s, tx)
  {
  }

  lemma {:induction false} RunKeepsFlags(env: Env, s: State, txs: seq<(nat, Tx)>)
    requires Inv(s)
    ensures FlagsKept(s, Run(env, s, txs))
    decreases |txs|
  {
    hide Apply, Inv;
    if txs != [] {
      if Apply(env, s, txs[0].0, txs[0].1).Some? {
        ApplyKeeps(env, s, txs[0].0, txs[0].1);
        ApplyKeepsFlags(env, s, txs[0].0, txs[0].1);
      }
      RunKeepsFlags(env, Commit(env, s, txs[0].0, txs[0].1), txs[1..]);
    }
  }

  /** No account holds a token that is not registered, so its flag does not matter. */
  lemma ApplyKeepsFlags(env: Env, s: State, height: nat, tx: Tx)
    requires Apply(env, s, height, tx).Some?
    ensures FlagsKept(s, Apply(env, s, height, tx).value)
  {
    var unused := UnusedToken(s.tokens.Keys);
    hide Apply, FlagsKept;
    ApplySpends(env, s, height, tx, Owner(ZERO_ADDRESS, unused));
  }

  /** Token identifiers are unbounded here, so some are free. */
  lemma {:induction false} UnusedToken(used: set<TokenId>) returns (t: TokenId)
    ensures t !in used && forall u :: u in used ==> u < t
  {
    t := 0;
    if u :| u in used {
      var below := UnusedToken(used - {u});
      t := if below > u then below else u + 1;
      assert used == (used - {u}) + {u};
    }
  }

  /**
  For a token with external authorization, an account never transfers more out of its public
  holdings than `prehook_public` has authorized for it.
   */
  lemma {:induction false} OutflowIsAuthorized(env: Env, s: State, txs: seq<(nat, Tx)>, o: Owner)
    requires Inv(s)
    requires o.token in Run(env, s, txs).tokens && Run(env, s, txs).tokens[o.token].external
    ensures Spendable(Run(env, s, txs), o) + OutflowIn(env, s, txs, o) <= Spendable(s, o) + AuthorizedIn(env, s, txs, o)
    decreases |txs|
  {
    hide Apply, Inv, Spendable;
    if txs != [] {
      RunKeepsFlags(env, s, txs);
      if Apply(env, s, txs[0].0, txs[0].1).Some? {
        ApplyKeeps(env, s, txs[0].0, txs[0].1);
        ApplySpends(env, s, txs[0].0, txs[0].1, o);
      }
      OutflowIsAuthorized(env, Commit(env, s, txs[0].0, txs[0].1), txs[1..], o);
    }
  }
}
