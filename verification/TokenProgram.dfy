/**
The finalize blocks of `token_registry.aleo` with the most branching, on their mappings. A block
works on copies and commits at its end; a `return` before that is a revert.
 */
module TokenProgram {
  import opened Prelude
  import opened TokenRegistry

  class Program {
    var tokens: map<TokenId, Token>
    var balances: map<Owner, Balance>
    var authorized: map<Owner, Balance>
    var allowances: map<AllowanceKey, nat>
    const roles: map<Owner, nat>
    const records: map<nat, Record>
    const serial: nat

    function Value(): State
      reads this
    {
      State(tokens, balances, authorized, allowances, roles, records, serial)
    }

    constructor (s: State)
      ensures Value() == s
    {
      tokens, balances, authorized, allowances := s.tokens, s.balances, s.authorized, s.allowances;
      roles, records, serial := s.roles, s.records, s.serial;
    }

    /** Shared by `transfer_public`, `transfer_public_as_signer` and `transfer_from_public`. */
    method TransferPublic(height: nat, from: Address, t: TokenId, to: Address, amount: nat) returns (ok: bool)
      modifies this`balances, this`authorized
      ensures ok == ApplyTransferPublic(old(Value()), height, from, t, to, amount).Some?
      ensures Value() == if ok then ApplyTransferPublic(old(Value()), height, from, t, to, amount).value
              else old(Value())
    {
      ok := false;
      var sender, receiver := Owner(from, t), Owner(to, t);
      if sender !in authorized || t !in tokens { return; }
      var external := tokens[t].external;
      var a := authorized[sender];
      if height > a.until && external { return; }
      if a.amount < amount { return; }
      var authorized1 := authorized[sender := Balance(a.amount - amount, a.until)];
      var initial := Balance(0, if external then 0 else 4294967295);
      var held, free := GetOr(balances, receiver, initial), GetOr(authorized1, receiver, initial);
      var target := if external then held else free;
      if target.amount + amount >= U128 { return; }
      target := Balance(target.amount + amount, target.until);
      label end_otherwise: {
        label end_then: {
          if !external { break end_then; }
          balances := balances[receiver := target];
          break end_otherwise;
        }
        authorized1 := authorized1[receiver := target];
      }
      authorized := authorized1;
      ok := true;
    }

    /** The test `gte balance 0` of the program always holds, so its other branch is dead. */
    method BurnPublic(caller: Address, t: TokenId, account: Address, amount: nat) returns (ok: bool)
      modifies this`tokens, this`balances, this`authorized
      ensures ok == ApplyBurnPublic(old(Value()), caller, t, account, amount).Some?
      ensures Value() == if ok then ApplyBurnPublic(old(Value()), caller, t, account, amount).value else old(Value())
    {
      ok := false;
      var o := Owner(account, t);
      if t !in tokens { return; }
      var token := tokens[t];
      label end_then_role: {
        if caller == token.admin { break end_then_role; }
        if Owner(caller, t) !in roles { return; }
        var role := roles[Owner(caller, t)];
        if role != 2 && role != 3 { return; }
      }
      if token.supply < amount { return; }
      var a := GetOr(authorized, o, Balance(0, 0));
      var balances1 := balances;
      var left := a;
      label end_otherwise: {
        label end_then: {
          if a.amount <= amount { break end_then; }
          left := Balance(a.amount - amount, a.until);
          break end_otherwise;
        }
        left := Balance(0, a.until);
        var rest := amount - a.amount;
        if rest == 0 { break end_otherwise; }
        if o !in balances || balances[o].amount < rest { return; }
        balances1 := balances1[o := Balance(balances[o].amount - rest, balances[o].until)];
      }
      tokens := tokens[t := token.(supply := token.supply - amount)];
      authorized, balances := authorized[o := left], balances1;
      ok := true;
    }

    method PrehookPublic(height: nat, caller: Address, o: Owner, amount: nat, until: nat) returns (ok: bool)
      modifies this`balances, this`authorized
      ensures ok == ApplyPrehookPublic(old(Value()), height, caller, o, amount, until).Some?
      ensures Value() == if ok then ApplyPrehookPublic(old(Value()), height, caller, o, amount, until).value
              else old(Value())
    {
      ok := false;
      if o.token !in tokens || !tokens[o.token].external || caller != tokens[o.token].party { return; }
      var b := GetOr(balances, o, Balance(0, 0));
      var a := GetOr(authorized, o, Balance(0, 0));
      var expired := a.until < height;
      if b.amount + a.amount >= U128 { return; }
      var pool := if expired then b.amount + a.amount else b.amount;
      var kept := if expired then 0 else a.amount;
      if pool < amount || kept + amount >= U128 { return; }
      authorized := authorized[o := Balance(kept + amount, until)];
      balances := balances[o := Balance(pool - amount, b.until)];
      ok := true;
    }
  }
}
