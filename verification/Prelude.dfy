/** Widths, identifiers and the failure type shared by the models of the Aleo programs. */
module Prelude {

  // One past the largest value of each unsigned register type.
  const U8: nat := 0x100
  const U32: nat := 0x1_0000_0000
  const U64: nat := 0x1_0000_0000_0000_0000
  const U128: nat := 0x1_0000_0000_0000_0000_0000_0000_0000_0000

  /** An account or program address, identified by its 253-bit serialization. */
  type Address = int

  /** `aleo1qqq...3ljyzc`, the all-zero address. */
  const ZERO_ADDRESS: Address := 0

  /** A 256-bit digest as the programs hold it: an array of two `u128` words. */
  type Digest = (nat, nat)

  /** A failed assert, a missing `get` or an out-of-range result halts the transaction. */
  datatype Option<+T> = None | Some(value: T) {
    predicate IsFailure() { None? }

    function PropagateFailure<U>(): Option<U>
      requires None?
    {
      None
    }

    function Extract(): T
      requires Some?
    {
      value
    }
  }

  /** `assert.eq c true`. */
  function Check(c: bool): Option<()> {
    if c then Some(()) else None
  }

  /** `get m[k]`. */
  function Get<K, V>(m: map<K, V>, k: K): Option<V> {
    if k in m then Some(m[k]) else None
  }

  /** `get.or_use m[k] d`. */
  function GetOr<K, V>(m: map<K, V>, k: K, d: V): V {
    if k in m then m[k] else d
  }

  /** `add`, at an unsigned width whose values are below `bound`. */
  function Add(a: nat, b: nat, bound: nat): Option<nat> {
    if a + b < bound then Some(a + b) else None
  }

  /** `sub` on unsigned operands. */
  function Sub(a: nat, b: nat): Option<nat> {
    if b <= a then Some(a - b) else None
  }

  /** `mul`, at an unsigned width whose values are below `bound`. */
  function Mul(a: nat, b: nat, bound: nat): Option<nat> {
    if a * b < bound then Some(a * b) else None
  }

  /** All values, if all are there. */
  function Collect<K, V>(m: map<K, Option<V>>): Option<map<K, V>> {
    if forall k :: k in m ==> m[k].Some? then Some(map k | k in m :: m[k].value) else None
  }

  lemma CollectAll<K, V>(m: map<K, Option<V>>, all: map<K, V>)
    requires m.Keys == all.Keys && forall k :: k in m ==> m[k] == Some(all[k])
    ensures Collect(m) == Some(all)
  {
    assert (map k | k in m :: m[k].value) == all;
  }

  lemma CollectNone<K, V>(m: map<K, Option<V>>, k: K)
    requires k in m && m[k].None?
    ensures Collect(m).None?
  {
  }

  function CollectSeq<V>(s: seq<Option<V>>): Option<seq<V>> {
    if forall i :: 0 <= i < |s| ==> s[i].Some? then Some(seq(|s|, i requires 0 <= i < |s| => s[i].value)) else None
  }

  lemma CollectSeqAll<V>(s: seq<Option<V>>, all: seq<V>)
    requires |s| == |all| && forall i :: 0 <= i < |s| ==> s[i] == Some(all[i])
    ensures CollectSeq(s) == Some(all)
  {
    assert CollectSeq(s).value == all;
  }
}
