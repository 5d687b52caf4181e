/**
The conversion of configurations to artifacts, node by node: along every path, with chain names
translated to domain ids, the converted tree has a node exactly where the original has one whose
names are all known, of the same type and with the same fields of its own.
 */
module IsmPaths {
  import opened Prelude
  import opened IsmArtifacts
  import opened IsmConversion

  // ---------------------------------------------------------------------------
  // Composite trees
  // ---------------------------------------------------------------------------

  /** A step to a child of a composite node. */
  datatype Branch<K> = Sub(index: nat) | Lower | Upper | Via(key: K)

  /** The `domains` record of a node that routes. */
  function TableOf<K>(node: Node<K>): Table<K> {
    if node.RoutingNode? || node.FallbackRouting? then node.domains else Unset
  }

  function ChildOf<K(==)>(node: Node<K>, b: Branch<K>): Option<Node<K>> {
    match b
    case Sub(i) => if node.AggregationNode? && i < |node.subIsms| then Some(node.subIsms[i]) else None
    case Lower => if node.AmountRouting? then Some(node.lower) else None
    case Upper => if node.AmountRouting? then Some(node.upper) else None
    case Via(k) => if TableOf(node).Table? && k in TableOf(node).entries then Some(TableOf(node).entries[k]) else None
  }

  function NodeAt<K(==)>(node: Node<K>, path: seq<Branch<K>>): Option<Node<K>>
    decreases |path|
  {
    if path == [] then Some(node)
    else
      var child :- ChildOf(node, path[0]);
      NodeAt(child, path[1..])
  }

  function TranslateBranch<K, L>(b: Branch<K>, f: K -> Option<L>): Option<Branch<L>> {
    match b
    case Sub(i) => Some(Sub(i))
    case Lower => Some(Lower)
    case Upper => Some(Upper)
    case Via(k) =>
      var l :- f(k);
      Some(Via(l))
  }

  /** The path with its keys translated, if all are known. */
  function Translate<K, L>(path: seq<Branch<K>>, f: K -> Option<L>): Option<seq<Branch<L>>>
    decreases |path|
  {
    if path == [] then Some([])
    else
      var head :- TranslateBranch(path[0], f);
      var tail :- Translate(path[1..], f);
      Some([head] + tail)
  }

  /** The same type of node, with the same fields apart from its children. */
  predicate SameNode<K, L>(a: Node<K>, b: Node<L>) {
    match (a, b)
    case (TrustedRelayer(relayer), TrustedRelayer(relayer')) => relayer == relayer'
    case (MultisigNode(validators, quorum), MultisigNode(validators', quorum')) =>
      validators == validators' && quorum == quorum'
    case (AggregationNode(quorum, subs), AggregationNode(quorum', subs')) => quorum == quorum' && |subs| == |subs'|
    case (TestNode(accept), TestNode(accept')) => accept == accept'
    case (PausableNode(paused), PausableNode(paused')) => paused == paused'
    case (AmountRouting(limit, _, _), AmountRouting(limit', _, _)) => limit == limit'
    case (RateLimited(capacity, mailbox, recipient), RateLimited(capacity', mailbox', recipient')) =>
      capacity == capacity' && mailbox == mailbox' && recipient == recipient'
    case (RoutingNode(domains), RoutingNode(domains')) => domains.Unset? == domains'.Unset?
    case (FallbackRouting(fallback, domains), FallbackRouting(fallback', domains')) =>
      fallback == fallback' && domains.Unset? == domains'.Unset?
    case _ => false
  }

  lemma ConvertIsSameNode<K(!new), L(!new)>(node: Node<K>, f: K -> Option<L>)
    requires Injective(f)
    ensures SameNode(node, Convert(node, f))
  {
    hide ConvertEntries, Rekey;
  }

  lemma TableConverts<K(!new), L(!new)>(node: Node<K>, f: K -> Option<L>)
    requires Injective(f)
    ensures TableOf(Convert(node, f)) == ConvertTable(TableOf(node), f)
  {
    hide ConvertEntries, Rekey;
  }

  lemma RekeyAt<K(!new), L(!new), V>(m: map<K, V>, f: K -> Option<L>, k: K)
    requires Injective(f) && f(k).Some?
    ensures f(k).value in Rekey(m, f) <==> k in m
    ensures k in m ==> Rekey(m, f)[f(k).value] == m[k]
  {
  }

  lemma RekeyFrom<K(!new), L(!new), V>(m: map<K, V>, f: K -> Option<L>, l: L) returns (k: K)
    requires Injective(f) && l in Rekey(m, f)
    ensures k in m && f(k) == Some(l)
  {
    k :| k in m && f(k) == Some(l);
  }

  lemma ViaConverts<K(!new), L(!new)>(node: Node<K>, f: K -> Option<L>, k: K)
    requires Injective(f) && f(k).Some?
    ensures ChildOf(Convert(node, f), Via(f(k).value))
         == match ChildOf(node, Via(k)) case Some(child) => Some(Convert(child, f)) case None => None
  {
    hide Convert, ConvertEntries, Rekey, Injective, TableOf;
    TableConverts(node, f);
    var t := TableOf(node);
    if t.Table? {
      RekeyAt(ConvertEntries(t, f), f, k);
      if k in t.entries {
        ConvertAt(t, f, k);
      }
    }
  }

  lemma SubConverts<K(!new), L(!new)>(node: Node<K>, f: K -> Option<L>, i: nat)
    requires Injective(f)
    ensures ChildOf(Convert(node, f), Sub(i))
         == match ChildOf(node, Sub(i)) case Some(child) => Some(Convert(child, f)) case None => None
  {
    hide ConvertTable, Injective;
  }

  lemma AmountConverts<K(!new), L(!new)>(node: Node<K>, f: K -> Option<L>)
    requires Injective(f)
    ensures Convert(node, f).AmountRouting? <==> node.AmountRouting?
    ensures node.AmountRouting? ==>
              Convert(node, f).lower == Convert(node.lower, f) && Convert(node, f).upper == Convert(node.upper, f)
  {
    hide ConvertTable, Injective;
  }

  /** A child whose key is known is converted into the child there. */
  lemma ChildConverts<K(!new), L(!new)>(node: Node<K>, f: K -> Option<L>, b: Branch<K>)
    requires Injective(f) && TranslateBranch(b, f).Some?
    ensures ChildOf(Convert(node, f), TranslateBranch(b, f).value)
         == match ChildOf(node, b) case Some(child) => Some(Convert(child, f)) case None => None
  {
    hide Convert, Injective, TableOf;
    match b
    case Via(k) => ViaConverts(node, f, k);
    case Sub(i) => SubConverts(node, f, i);
    case _ => AmountConverts(node, f);
  }

  /** Every child of the converted node comes from a child of the original. */
  lemma ChildComesFrom<K(!new), L(!new)>(node: Node<K>, f: K -> Option<L>, b: Branch<L>) returns (a: Branch<K>)
    requires Injective(f) && ChildOf(Convert(node, f), b).Some?
    ensures TranslateBranch(a, f) == Some(b) && ChildOf(node, a).Some?
  {
    hide Convert, ConvertEntries, Rekey, Injective, TableOf;
    match b
    case Sub(i) =>
      a := Sub(i);
      SubConverts(node, f, i);
    case Lower =>
      a := Lower;
      AmountConverts(node, f);
    case Upper =>
      a := Upper;
      AmountConverts(node, f);
    case Via(l) =>
      TableConverts(node, f);
      var k := RekeyFrom(ConvertEntries(TableOf(node), f), f, l);
      a := Via(k);
  }

  /** Along a path of known keys the converted tree has the converted nodes, and no others. */
  lemma {:induction false} ConvertAlongPath<K(!new), L(!new)>(node: Node<K>, f: K -> Option<L>, path: seq<Branch<K>>)
    requires Injective(f) && Translate(path, f).Some?
    ensures var there := NodeAt(Convert(node, f), Translate(path, f).value);
            && (there.Some? <==> NodeAt(node, path).Some?)
            && (there.Some? ==> SameNode(NodeAt(node, path).value, there.value))
    decreases |path|
  {
    if path == [] {
      ConvertIsSameNode(node, f);
    } else {
      hide Convert, SameNode, TranslateBranch, ChildOf;
      ChildConverts(node, f, path[0]);
      var q := Translate(path, f).value;
      assert q[0] == TranslateBranch(path[0], f).value && q[1..] == Translate(path[1..], f).value;
      if ChildOf(node, path[0]).Some? {
        ConvertAlongPath(ChildOf(node, path[0]).value, f, path[1..]);
      }
    }
  }

  /** Every node of the converted tree comes from a path of known keys. */
  lemma {:induction false} ConvertedComesFrom<K(!new), L(!new)>(node: Node<K>, f: K -> Option<L>, q: seq<Branch<L>>)
    returns (path: seq<Branch<K>>)
    requires Injective(f) && NodeAt(Convert(node, f), q).Some?
    ensures Translate(path, f) == Some(q) && NodeAt(node, path).Some?
    decreases |q|
  {
    path := [];
    if q != [] {
      var b := ChildComesFrom(node, f, q[0]);
      ChildConverts(node, f, b);
      var rest := ConvertedComesFrom(ChildOf(node, b).value, f, q[1..]);
      path := [b] + rest;
      assert path[1..] == rest && [q[0]] + q[1..] == q;
    }
  }

  // ---------------------------------------------------------------------------
  // Whole configurations
  // ---------------------------------------------------------------------------

  /** A step to a nested ISM of a configuration. */
  datatype Link = Chain(name: string) | Part(index: nat)

  function EntryAt(e: Entry, path: seq<Link>): Option<Entry>
    decreases |path|
  {
    if path == [] then Some(e)
    else if e.Ref? then None
    else
      var child :- Nested(e.config, path[0]);
      EntryAt(child, path[1..])
  }

  function Nested(c: IsmConfig, link: Link): Option<Entry> {
    match link
    case Chain(name) => if c.RoutingConfig? && name in c.domains then Some(c.domains[name]) else None
    case Part(i) => if c.AggregationConfig? && i < |c.modules| then Some(c.modules[i]) else None
  }

  function TranslateLink(lk: Lookup, link: Link): Option<Step> {
    match link
    case Part(i) => Some(Module(i))
    case Chain(name) =>
      var d :- lk.domainOf(name);
      Some(Domain(d))
  }

  function TranslateLinks(lk: Lookup, path: seq<Link>): Option<seq<Step>>
    decreases |path|
  {
    if path == [] then Some([])
    else
      var head :- TranslateLink(lk, path[0]);
      var tail :- TranslateLinks(lk, path[1..]);
      Some([head] + tail)
  }

  /** The same type of ISM with the same fields of its own; a composite tree is converted with its keys. */
  predicate SameIsm(lk: Lookup, c: IsmConfig, d: Config)
    requires lk.Inverse()
  {
    InverseLookups(lk);
    match (c, d)
    case (RoutingConfig(owner, _), Routing(owner', _)) => owner == owner'
    case (MerkleRootConfig(validators, threshold), MerkleRootMultisig(validators', threshold')) =>
      validators == validators' && threshold == threshold'
    case (MessageIdConfig(validators, threshold), MessageIdMultisig(validators', threshold')) =>
      validators == validators' && threshold == threshold'
    case (TestConfig, TestIsm) => true
    case (CompositeConfig(owner, root), Composite(owner', root')) => owner == owner'
      && root' == Convert(root, Domains(lk))
    case (AggregationConfig(modules, threshold), Aggregation(modules', threshold')) =>
      |modules| == |modules'| && threshold == threshold'
    case (PausableConfig(owner, paused), Pausable(owner', paused')) => owner == owner' && paused == paused'
    case _ => false
  }

  /** A bare address stays one, a configuration becomes a new artifact of the same ISM. */
  predicate SameEntry(lk: Lookup, e: Entry, a: Artifact)
    requires lk.Inverse()
  {
    match e
    case Ref(address) => a == Underived(address)
    case Inline(c, _) => a.New? && SameIsm(lk, c, a.config)
  }

  lemma ArtifactIsSame(lk: Lookup, e: Entry)
    requires lk.Inverse()
    ensures SameEntry(lk, e, ToArtifact(lk, e))
  {
    hide Convert, ArtifactEntries, Rekey;
  }

  lemma NestedConverts(lk: Lookup, c: IsmConfig, link: Link)
    requires lk.Inverse() && TranslateLink(lk, link).Some?
    ensures Child(ToArtifactConfig(lk, c), TranslateLink(lk, link).value)
         == match Nested(c, link) case Some(e) => Some(ToArtifact(lk, e)) case None => None
  {
    hide ToArtifact, Convert, ArtifactEntries;
    InverseLookups(lk);
    if c.RoutingConfig? && link.Chain? && link.name in c.domains {
      ArtifactAt(lk, c, link.name);
    }
  }

  lemma NestedComesFrom(lk: Lookup, c: IsmConfig, step: Step) returns (link: Link)
    requires lk.Inverse() && Child(ToArtifactConfig(lk, c), step).Some?
    ensures TranslateLink(lk, link) == Some(step) && Nested(c, link).Some?
  {
    hide ToArtifact, Convert, ArtifactEntries;
    InverseLookups(lk);
    match step
    case Module(i) => link := Part(i);
    case Domain(d) =>
      var name :| name in c.domains && Domains(lk)(name) == Some(d);
      link := Chain(name);
  }

  /** Along a path of known chains the artifact has the converted ISMs, and no others. */
  lemma {:induction false} ArtifactAlongPath(lk: Lookup, e: Entry, path: seq<Link>)
    requires lk.Inverse() && TranslateLinks(lk, path).Some?
    ensures var there := At(ToArtifact(lk, e), TranslateLinks(lk, path).value);
            && (there.Some? <==> EntryAt(e, path).Some?)
            && (there.Some? ==> SameEntry(lk, EntryAt(e, path).value, there.value))
    decreases |path|
  {
    if path == [] {
      ArtifactIsSame(lk, e);
    } else if e.Inline? {
      hide ToArtifactConfig, SameEntry, TranslateLink, Nested, Child;
      NestedConverts(lk, e.config, path[0]);
      var q := TranslateLinks(lk, path).value;
      assert q[0] == TranslateLink(lk, path[0]).value && q[1..] == TranslateLinks(lk, path[1..]).value;
      if Nested(e.config, path[0]).Some? {
        ArtifactAlongPath(lk, Nested(e.config, path[0]).value, path[1..]);
      }
    }
  }

  /** Every node of the artifact comes from a path of known chains. */
  lemma {:induction false} ArtifactComesFrom(lk: Lookup, e: Entry, q: seq<Step>) returns (path: seq<Link>)
    requires lk.Inverse() && At(ToArtifact(lk, e), q).Some?
    ensures TranslateLinks(lk, path) == Some(q) && EntryAt(e, path).Some?
    decreases |q|
  {
    path := [];
    if q != [] {
      hide ToArtifactConfig;
      var link := NestedComesFrom(lk, e.config, q[0]);
      NestedConverts(lk, e.config, link);
      var rest := ArtifactComesFrom(lk, Nested(e.config, link).value, q[1..]);
      path := [link] + rest;
      assert path[1..] == rest && [q[0]] + q[1..] == q;
    }
  }
}
