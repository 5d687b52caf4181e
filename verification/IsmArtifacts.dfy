/** ISM configurations as artifacts: trees whose nodes are new, deployed, or known by address only. */
module IsmArtifacts {
  import opened Prelude

  /** A node of a composite ISM; `K` is a chain name or a domain id. */
  datatype Node<K> =
    | TrustedRelayer(relayer: string)
    | MultisigNode(validators: seq<string>, quorum: int)
    | AggregationNode(quorum: int, subIsms: seq<Node<K>>)
    | TestNode(accept: bool)
    | PausableNode(paused: bool)
    | AmountRouting(limit: string, lower: Node<K>, upper: Node<K>)
    | RateLimited(maxCapacity: string, mailbox: string, recipient: Option<string>)
    | RoutingNode(domains: Table<K>)
    | FallbackRouting(fallbackIsm: string, domains: Table<K>)

  /** The optional `domains` record of a routing node. */
  datatype Table<K> = Unset | Table(entries: map<K, Node<K>>)

  datatype Config =
    | Routing(owner: string, domains: map<nat, Artifact>)
    | MerkleRootMultisig(validators: seq<string>, threshold: int)
    | MessageIdMultisig(validators: seq<string>, threshold: int)
    | TestIsm
    | Composite(owner: string, root: Node<nat>)
    | Aggregation(modules: seq<Artifact>, threshold: int)
    | Pausable(owner: string, paused: bool)

  datatype Artifact =
    | New(config: Config)
    | Deployed(config: Config, address: string)
    | Underived(address: string)

  predicate SameType(a: Config, b: Config) {
    || (a.Routing? && b.Routing?) || (a.Composite? && b.Composite?) || (a.Aggregation? && b.Aggregation?)
    || (a.MerkleRootMultisig? && b.MerkleRootMultisig?) || (a.MessageIdMultisig? && b.MessageIdMultisig?)
    || (a.TestIsm? && b.TestIsm?) || (a.Pausable? && b.Pausable?)
  }

  predicate IsStatic(c: Config) {
    c.TestIsm? || c.MerkleRootMultisig? || c.MessageIdMultisig?
  }

  // ---------------------------------------------------------------------------
  // The meaning of an artifact
  // ---------------------------------------------------------------------------

  /** Deployment states and addresses forgotten; a bare address is all there is to an underived node. */
  function Erase(a: Artifact): Artifact {
    match a
    case New(c) => New(EraseConfig(c))
    case Deployed(c, _) => New(EraseConfig(c))
    case Underived(_) => a
  }

  function EraseConfig(c: Config): Config {
    match c
    case Routing(owner, domains) => Routing(owner, map d | d in domains :: Erase(domains[d]))
    case Aggregation(modules, threshold) =>
      Aggregation(seq(|modules|, i requires 0 <= i < |modules| => Erase(modules[i])), threshold)
    case _ => c
  }

  /** No node of the tree is new. */
  predicate NoNew(a: Artifact) {
    match a
    case New(_) => false
    case Deployed(c, _) => NoNewIn(c)
    case Underived(_) => true
  }

  predicate NoNewIn(c: Config) {
    match c
    case Routing(_, domains) => forall d :: d in domains ==> NoNew(domains[d])
    case Aggregation(modules, _) => forall i :: 0 <= i < |modules| ==> NoNew(modules[i])
    case _ => true
  }

  datatype Step = Domain(id: nat) | Module(index: nat)

  /** The child of a configuration in one direction. */
  function Child(c: Config, step: Step): Option<Artifact> {
    if c.Routing? && step.Domain? && step.id in c.domains then Some(c.domains[step.id])
    else if c.Aggregation? && step.Module? && step.index < |c.modules| then Some(c.modules[step.index])
    else None
  }

  /** The artifact at a path of the tree. */
  function At(a: Artifact, path: seq<Step>): Option<Artifact>
    decreases |path|
  {
    if path == [] then Some(a)
    else if a.Underived? then None
    else
      var child :- Child(a.config, path[0]);
      At(child, path[1..])
  }

  lemma {:induction false} EraseTwice(a: Artifact)
    ensures Erase(Erase(a)) == Erase(a)
  {
    if !a.Underived? {
      EraseConfigTwice(a.config);
    }
  }

  lemma {:induction false} EraseConfigTwice(c: Config)
    ensures EraseConfig(EraseConfig(c)) == EraseConfig(c)
  {
    match c
    case Routing(_, domains) =>
      forall d | d in domains ensures Erase(Erase(domains[d])) == Erase(domains[d]) {
        EraseTwice(domains[d]);
      }
    case Aggregation(modules, _) =>
      forall i | 0 <= i < |modules| ensures Erase(Erase(modules[i])) == Erase(modules[i]) {
        EraseTwice(modules[i]);
      }
    case _ =>
  }

  lemma EraseRoutes(c: Config)
    requires c.Routing?
    ensures EraseConfig(c).Routing? && EraseConfig(c).owner == c.owner && EraseConfig(c).domains.Keys == c.domains.Keys
    ensures forall d :: d in c.domains ==> EraseConfig(c).domains[d] == Erase(c.domains[d])
  {
    hide Erase;
  }

  lemma EraseModules(c: Config)
    requires c.Aggregation?
    ensures EraseConfig(c).Aggregation? && EraseConfig(c).threshold == c.threshold
            && |EraseConfig(c).modules| == |c.modules|
    ensures forall i :: 0 <= i < |c.modules| ==> EraseConfig(c).modules[i] == Erase(c.modules[i])
  {
    hide Erase;
  }

  /** Erasing keeps the type. */
  lemma EraseKeepsType(c: Config)
    ensures SameType(EraseConfig(c), c)
  {
    hide Erase;
  }

  /** The names of the types in configuration files. */
  function TypeName(c: Config): string {
    match c
    case Routing(_, _) => "domainRoutingIsm"
    case MerkleRootMultisig(_, _) => "merkleRootMultisigIsm"
    case MessageIdMultisig(_, _) => "messageIdMultisigIsm"
    case TestIsm => "testIsm"
    case Composite(_, _) => "compositeIsm"
    case Aggregation(_, _) => "staticAggregationIsm"
    case Pausable(_, _) => "pausableIsm"
  }

  lemma TypesByName(a: Config, b: Config)
    ensures SameType(a, b) <==> TypeName(a) == TypeName(b)
    ensures IsStatic(a) <==> TypeName(a) in {"testIsm", "merkleRootMultisigIsm", "messageIdMultisigIsm"}
  {
    TypeInitials(a);
    TypeInitials(b);
  }

  lemma TypeInitials(c: Config)
    ensures var n := TypeName(c);
            && |n| > 6
            && (c.Routing? <==> n[0] == 'd') && (c.TestIsm? <==> n[0] == 't') && (c.Composite? <==> n[0] == 'c')
            && (c.Aggregation? <==> n[0] == 's') && (c.Pausable? <==> n[0] == 'p')
            && (c.MerkleRootMultisig? <==> n[0] == 'm' && n[2] == 'r')
              && (c.MessageIdMultisig? <==> n[0] == 'm' && n[2] == 's')
  {
  }

  /** A tree has no new node iff there is none at any path. */
  lemma {:induction false} NoNewByPath(a: Artifact)
    ensures NoNew(a) <==> forall path :: At(a, path).Some? ==> !At(a, path).value.New?
  {
    if NoNew(a) {
      forall path | At(a, path).Some? ensures !At(a, path).value.New? {
        NoNewAlong(a, path);
      }
    } else {
      var path := FindNew(a);
    }
  }

  lemma {:induction false} NoNewAlong(a: Artifact, path: seq<Step>)
    requires NoNew(a) && At(a, path).Some?
    ensures !At(a, path).value.New?
    decreases |path|
  {
    if path != [] {
      var child := Child(a.config, path[0]).value;
      assert NoNewIn(a.config);
      NoNewAlong(child, path[1..]);
    }
  }

  lemma {:induction false} FindNew(a: Artifact) returns (path: seq<Step>)
    requires !NoNew(a)
    ensures At(a, path).Some? && At(a, path).value.New?
    decreases a
  {
    path := [];
    if a.Deployed? {
      assert !NoNewIn(a.config);
      if a.config.Routing? {
        var d :| d in a.config.domains && !NoNew(a.config.domains[d]);
        var rest := FindNew(a.config.domains[d]);
        path := [Domain(d)] + rest;
        assert path[1..] == rest;
      } else {
        var i: nat :| i < |a.config.modules| && !NoNew(a.config.modules[i]);
        var rest := FindNew(a.config.modules[i]);
        path := [Module(i)] + rest;
        assert path[1..] == rest;
      }
    }
  }
}
