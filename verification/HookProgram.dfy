/**
`hook_manager.aleo` with the tree it really stores: a branch of 32 digests, a count and a root.
Every stored root is the root of the full tree of depth 32 over the leaves inserted so far.
 */
module HookProgram {
  import opened Prelude
  import opened MerkleTree
  import opened Hooks

  const TREE_DEPTH: nat := 32
  const MAX_COUNT: nat := 4294967295

  datatype StoredTree = StoredTree(parent: Address, root: Digest, tree: Tree, nonce: nat)

  lemma Pow2Half()
    ensures Pow2(16) == 0x1_0000
  {
    Pow2Add(8, 8);
    assert Pow2(8) == 0x100;
  }

  lemma DepthCapacity()
    ensures Pow2(TREE_DEPTH) == U32
  {
    hide Pow2;
    Pow2Half();
    Pow2Add(16, 16);
  }

  lemma {:induction false} Pow2Add(m: nat, n: nat)
    ensures Pow2(m + n) == Pow2(m) * Pow2(n)
  {
    if m > 0 {
      Pow2Add(m - 1, n);
    }
  }

  /** A stored tree is right for `leaves`. */
  ghost predicate Stores(hash: Hash, t: StoredTree, leaves: seq<Digest>) {
    && |t.tree.branch| == TREE_DEPTH
    && Represents(hash, t.tree, leaves)
    && t.root == FullRoot(hash, leaves, |t.tree.branch|)
  }

  lemma StoresCount(hash: Hash, t: StoredTree, leaves: seq<Digest>)
    requires Stores(hash, t, leaves)
    ensures t.tree.count == |leaves|
  {
  }

  /** `init_merkle_tree` stores the zero tower as branch and its top as root. */
  function InitialTree(hash: Hash, depth: nat, parent: Address, nonce: nat): StoredTree {
    StoredTree(parent, Zero(hash, depth), EmptyTree(hash, depth), nonce)
  }

  lemma InitialTreeStores(hash: Hash, depth: nat, parent: Address, nonce: nat)
    requires depth == TREE_DEPTH
    ensures Stores(hash, InitialTree(hash, depth, parent, nonce), [])
  {
    hide Zero, Node, Represents, FullRoot;
    EmptyTreeRepresents(hash, depth);
  }

  class Program {
    const env: Env
    const hash: Hash
    const depth: nat
    var nonce: nat
    var hooks: map<Address, nat>
    var igps: map<Address, Igp>
    var gasConfigs: map<(Address, nat), GasConfig>
    var trees: map<Address, StoredTree>
    var payments: map<(Address, nat), Payment>
    var insertions: map<(Address, nat), Insertion>
    ghost var leaves: map<Address, seq<Digest>>

    /** Every stored branch, count and root agrees with the leaves inserted so far. */
    ghost predicate Valid()
      reads this
    {
      depth == TREE_DEPTH && forall h :: h in trees ==> h in leaves && Stores(hash, trees[h], leaves[h])
    }

    ghost function Value(): State
      reads this
      requires Valid()
    {
      State(nonce, hooks, igps, gasConfigs,
            map h | h in trees :: TreeHook(trees[h].parent, leaves[h], trees[h].nonce), payments, insertions)
    }

    constructor (env: Env, hash: Hash)
      ensures Valid() && Value() == EMPTY && this.env == env && this.hash == hash
    {
      this.env, this.hash, depth, nonce := env, hash, TREE_DEPTH, 0;
      hooks, igps, gasConfigs, trees, payments, insertions := map[], map[], map[], map[], map[], map[];
      leaves := map[];
    }

    method InitTree(parent: Address) returns (ok: bool)
      requires Valid()
      modifies this
      ensures Valid()
      ensures ok == ApplyConfig(env, old(Value()), Hooks.InitTree(parent)).Some?
      ensures Value() == if ok then ApplyConfig(env, old(Value()), Hooks.InitTree(parent)).value else old(Value())
    {
      hide Stores, Zero, EmptyTree;
      ghost var before := Value();
      var hook := env.addressOf(TreeImage(parent, nonce));
      ok := hook !in hooks && nonce + 1 < U32;
      if ok {
        var stored := InitialTree(hash, depth, parent, nonce);
        InitialTreeStores(hash, depth, parent, nonce);
        trees, leaves := trees[hook := stored], leaves[hook := []];
        hooks, nonce := hooks[hook := TREE], nonce + 1;
        assert Value().trees == before.trees[hook := TreeHook(parent, [], before.nonce)];
      }
    }

    /** The Merkle branch of `post_dispatch`. */
    method PostDispatchTree(caller: Address, hook: Address, amount: nat, id: Digest) returns (ok: bool)
      requires Valid() && hook in hooks && hooks[hook] == TREE
      modifies this`trees, this`insertions, this`leaves
      ensures Valid()
      ensures ok == (CanInsert(old(Value()), hook, caller) && amount == 0)
      ensures Value() == if ok then Insert(old(Value()), hook, id) else old(Value())
    {
      hide Represents, FullRoot, Node, Zero, Pow2, Shr;
      ghost var before := Value();
      ok := false;
      if hook in trees {
        StoresCount(hash, trees[hook], leaves[hook]);
      }
      if hook !in trees || trees[hook].parent != caller || trees[hook].tree.count >= MAX_COUNT { return; }
      var t := trees[hook];
      DepthCapacity();
      assert Represents(hash, t.tree, leaves[hook]);
      var tree := InsertLeaf(hash, t.tree, id, leaves[hook]);
      var root := FoldRoot(hash, tree, leaves[hook] + [id]);
      if amount != 0 { return; }
      trees := trees[hook := StoredTree(t.parent, root, tree, t.nonce)];
      insertions := insertions[(hook, t.tree.count) := Insertion(id, t.tree.count)];
      leaves := leaves[hook := leaves[hook] + [id]];
      assert Value().trees == before.trees[hook := before.trees[hook].(leaves := leaves[hook])];
      ok := true;
    }

    /** `post_dispatch` after its payment has been awaited; `id` and `destination` are the last dispatch. */
    method PostDispatch(caller: Address, hook: Address, gasLimit: nat, amount: nat, id: Digest,
                        destination: nat) returns (ok: bool)
      requires Valid()
      modifies this
      ensures Valid()
      ensures ok == RunHook(old(Value()), caller, hook, gasLimit, amount, id, destination).Some?
      ensures Value() == if ok then RunHook(old(Value()), caller, hook, gasLimit, amount, id, destination).value
              else old(Value())
    {
      ok := false;
      if hook !in hooks { return; }
      if hooks[hook] == 3 {
        ok := PostDispatchTree(caller, hook, amount, id);
      } else if hooks[hook] == 4 {
        if hook !in igps { return; }
        var igp := igps[hook];
        var config := GetOr(gasConfigs, (hook, destination), GasConfig(0, 0, 0));
        var gas := (if gasLimit == 0 then 50_000 else gasLimit) + config.overhead;
        if gas >= U128 { return; }
        var price := Quote(gas, config);
        if price.None? || price.value != amount { return; }
        if igp.balance + amount >= U64 || igp.count + 1 >= U32 { return; }
        payments := payments[(hook, igp.count) := Payment(id, destination, gas, price.value, igp.count)];
        igps := igps[hook := igp.(balance := igp.balance + amount, count := igp.count + 1)];
        ok := true;
      } else if hooks[hook] == 0 {
        ok := amount == 0;
      }
    }
  }
}
