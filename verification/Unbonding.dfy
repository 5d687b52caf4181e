/** When stake can be moved out again, and to whom it goes. */
module Unbonding {
  import opened Prelude
  import opened Sums
  import opened Credits
  import opened Staking
  import opened Conservation

  /** Sums and counters cover every bond, so a bond can always be taken out whole. */
  lemma BondCanLeave(s: State, a: Address, exempt: set<Address>)
    requires Ledger(s) && Shape(s, exempt) && a in s.bonded && Total(s) < U64
    ensures var v := s.bonded[a].validator;
            CanLeave(s, a, v, if v == a then COMMITTEE_COUNT else DELEGATOR_COUNT)
  {
    var v := s.bonded[a].validator;
    SumAtLeast(s.bonded, a, StakeOn(v));
    assert GetOr(s.delegated, v, 0) >= Own(s, a) > 0;
    SumAtLeast(s.bonded, a, BondCoins());
    SumAtLeast(s.unbonding, a, UnbondCoins());
    if v == a {
      SizeRemove(s.committee, a);
    } else {
      DelegatorsUnbond(s.bonded, a);
    }
  }

  lemma UnbondDelegatorSucceeds(s: State, a: Address, amount: nat, byValidator: bool, until: nat)
    requires Inv(s) && a in s.bonded && s.bonded[a].validator != a && Total(s) < U64
    ensures UnbondDelegator(s, a, amount, byValidator, until).Some? <==> amount <= Own(s, a)
  {
    BondCanLeave(s, a, {});
  }

  lemma UnbondValidatorSucceeds(s: State, v: Address, amount: nat, until: nat)
    requires Inv(s) && v in s.bonded && s.bonded[v].validator == v && Total(s) < U64
    ensures UnbondValidator(s, v, amount, until).Some? <==> amount <= Own(s, v)
  {
    BondCanLeave(s, v, {});
  }

  /**
  While fewer than 2^64 microcredits exist, an unbond goes through exactly when the staker is
  bonded, the caller is entitled and the amount is covered. In particular none of the `get`s,
  `sub`s and `add`s on the way can fail, whichever of the branches is taken.
   */
  lemma UnbondSucceedsIff(s: State, height: nat, caller: Address, a: Address, amount: nat)
    requires Inv(s) && Fresh(s) && Total(s) < U64 && height + UNBONDING_BLOCKS < U32
    ensures Unbond(s, height, caller, a, amount).Some?
            <==> && a in s.bonded && amount <= Own(s, a)
                 && var v := s.bonded[a].validator;
                 caller == s.withdraw[a] || (v in s.withdraw && caller == s.withdraw[v])
  {
    if a in s.bonded && MayUnbond(s, caller, a) {
      var v, until := s.bonded[a].validator, height + UNBONDING_BLOCKS;
      if v == a {
        UnbondValidatorSucceeds(s, a, amount, until);
      } else {
        var byValidator := ByValidator(s, caller, a);
        UnbondDelegatorSucceeds(s, a, amount, byValidator, until);
        if amount <= Own(s, a) {
          UnbondDelegatorKeeps(s, a, amount, byValidator, until);
          UnbondDelegatorTotal(s, a, amount, byValidator, until);
          var s1 := UnbondDelegator(s, a, amount, byValidator, until).value;
          if v in s1.committee {
            BondCanLeave(s1, v, {v});
          }
        }
      }
    }
  }

  /** A matured entry can always be claimed. */
  lemma ClaimSucceedsIff(s: State, height: nat, a: Address)
    requires Inv(s) && Total(s) < U64
    ensures CanClaim(s, height, a) <==> a in s.unbonding && height >= s.unbonding[a].height
  {
    if a in s.unbonding {
      SumAtLeast(s.unbonding, a, UnbondCoins());
      SumAtLeast(s.account, s.withdraw[a], Coins());
    }
  }

  /** One transaction never redirects a withdrawal address that stays on record. */
  lemma WithdrawFixedByOne(s: State, height: nat, tx: Tx, a: Address)
    requires Inv(s) && a in s.withdraw && a in Commit(s, height, tx).withdraw
    ensures Commit(s, height, tx).withdraw[a] == s.withdraw[a]
  {
    hide Unbond;
    if tx.UnbondPublic? && Apply(s, height, tx).Some? {
      assert OnlyStake(s, Commit(s, height, tx));
    }
  }

  /** `a` has something bonded or unbonding after every transaction of the run. */
  ghost predicate Staked(s: State, txs: seq<(nat, Tx)>, a: Address)
    decreases |txs|
  {
    && (a in s.bonded || a in s.unbonding)
    && (txs != [] ==> Staked(Commit(s, txs[0].0, txs[0].1), txs[1..], a))
  }

  /** Whoever was entitled when the stake was opened is entitled until it is gone. */
  lemma {:induction false} WithdrawFixed(s: State, txs: seq<(nat, Tx)>, a: Address)
    requires Inv(s) && Staked(s, txs, a)
    ensures a in s.withdraw && a in Run(s, txs).withdraw && Run(s, txs).withdraw[a] == s.withdraw[a]
    decreases |txs|
  {
    if txs != [] {
      var s1 := Commit(s, txs[0].0, txs[0].1);
      StakingInvariant(s, [txs[0]]);
      assert Run(s, [txs[0]]) == Run(s1, []) == s1;
      WithdrawFixed(s1, txs[1..], a);
      WithdrawFixedByOne(s, txs[0].0, txs[0].1, a);
    }
  }
}
