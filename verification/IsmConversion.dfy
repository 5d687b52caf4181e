/**
Conversion between configurations, which name chains, and artifacts, which number them. Converting
there and back prunes exactly the chains that the lookups do not know.
 */
module IsmConversion {
  import opened Prelude
  import opened IsmArtifacts

  // ---------------------------------------------------------------------------
  // Records with translated keys
  // ---------------------------------------------------------------------------

  /** Different keys have different translations. */
  ghost predicate Injective<K(!new), L(!new)>(f: K -> Option<L>) {
    forall j, k :: f(j).Some? && f(j) == f(k) ==> j == k
  }

  /** `m` with its keys translated; entries whose key has no translation are skipped. */
  function Rekey<K(!new, ==), L(!new, ==), V>(m: map<K, V>, f: K -> Option<L>): map<L, V>
    requires Injective(f)
  {
    map k | k in m && f(k).Some? :: f(k).value := m[k]
  }

  /** Where `g` undoes `f`. */
  ghost predicate Undoes<K(!new), L(!new)>(f: K -> Option<L>, g: L -> Option<K>) {
    forall k :: f(k).Some? && g(f(k).value).Some? ==> g(f(k).value) == Some(k)
  }

  /** Keys that survive the way there and back. */
  ghost predicate Survives<K, L>(k: K, f: K -> Option<L>, g: L -> Option<K>) {
    f(k).Some? && g(f(k).value).Some?
  }

  /** Translating the keys there and back keeps the surviving entries. */
  lemma RekeyBack<K(!new), L(!new), V>(m: map<K, V>, n: map<L, V>, f: K -> Option<L>, g: L -> Option<K>)
    requires Injective(f) && Injective(g) && Undoes(f, g)
    requires n.Keys == Rekey(m, f).Keys
    requires forall k :: k in m && f(k).Some? ==> n[f(k).value] == m[k]
    ensures Rekey(n, g) == map k | k in m && Survives(k, f, g) :: m[k]
  {
    var r := Rekey(n, g);
    forall k | k in m && Survives(k, f, g) ensures k in r && r[k] == m[k] {
      var l := f(k).value;
      assert l in n && g(l) == Some(k);
    }
    forall k | k in r ensures k in m && Survives(k, f, g) {
      var l :| l in n && g(l) == Some(k);
      var j :| j in m && f(j) == Some(l);
      assert g(f(j).value) == Some(j);
    }
  }

  /** One more entry of the record, or none if its key is unknown. */
  lemma RekeyOneMore<K(!new), L(!new), V>(m: map<K, V>, todo: set<K>, k: K, f: K -> Option<L>)
    requires Injective(f) && k in todo && k in m
    ensures Rekey(m - (todo - {k}), f) == if f(k).Some? then Rekey(m - todo, f)[f(k).value := m[k]]
            else Rekey(m - todo, f)
  {
    assert forall j :: j in m - (todo - {k}) <==> j == k || j in m - todo;
  }

  // ---------------------------------------------------------------------------
  // Composite trees
  // ---------------------------------------------------------------------------

  /** Either direction of the conversion of composite nodes; `f` translates the keys. */
  function Convert<K(!new, ==), L(!new, ==)>(node: Node<K>, f: K -> Option<L>): Node<L>
    requires Injective(f)
    decreases node
  {
    match node
    case TrustedRelayer(relayer) => TrustedRelayer(relayer)
    case MultisigNode(validators, quorum) => MultisigNode(validators, quorum)
    case TestNode(accept) => TestNode(accept)
    case PausableNode(paused) => PausableNode(paused)
    case RateLimited(maxCapacity, mailbox, recipient) => RateLimited(maxCapacity, mailbox, recipient)
    case AggregationNode(quorum, subs) =>
      AggregationNode(quorum, seq(|subs|, i requires 0 <= i < |subs| => Convert(subs[i], f)))
    case AmountRouting(limit, lower, upper) => AmountRouting(limit, Convert(lower, f), Convert(upper, f))
    case RoutingNode(domains) => RoutingNode(ConvertTable(domains, f))
    case FallbackRouting(fallback, domains) => FallbackRouting(fallback, ConvertTable(domains, f))
  }

  function ConvertTable<K(!new, ==), L(!new, ==)>(t: Table<K>, f: K -> Option<L>): Table<L>
    requires Injective(f)
    decreases t, 1
  {
    match t
    case Unset => Unset
    case Table(_) => Table(Rekey(ConvertEntries(t, f), f))
  }

  function ConvertEntries<K(!new, ==), L(!new, ==)>(t: Table<K>, f: K -> Option<L>): (r: map<K, Node<L>>)
    requires Injective(f) && t.Table?
    ensures r.Keys == t.entries.Keys
    decreases t, 0
  {
    map k | k in t.entries :: Convert(t.entries[k], f)
  }

  /** The tree without the domains that do not survive. */
  ghost function Prune<K(!new), L(!new)>(node: Node<K>, f: K -> Option<L>, g: L -> Option<K>): Node<K>
    decreases node
  {
    match node
    case AggregationNode(quorum, subs) =>
      AggregationNode(quorum, seq(|subs|, i requires 0 <= i < |subs| => Prune(subs[i], f, g)))
    case AmountRouting(limit, lower, upper) => AmountRouting(limit, Prune(lower, f, g), Prune(upper, f, g))
    case RoutingNode(domains) => RoutingNode(PruneTable(domains, f, g))
    case FallbackRouting(fallback, domains) => FallbackRouting(fallback, PruneTable(domains, f, g))
    case _ => node
  }

  ghost function PruneTable<K(!new), L(!new)>(t: Table<K>, f: K -> Option<L>, g: L -> Option<K>): Table<K>
    decreases t, 1
  {
    match t
    case Unset => Unset
    case Table(_) => Table(map k | k in t.entries && Survives(k, f, g) :: PruneEntries(t, f, g)[k])
  }

  ghost function PruneEntries<K(!new), L(!new)>(t: Table<K>, f: K -> Option<L>, g: L -> Option<K>): (r: map<K, Node<K>>)
    requires t.Table?
    ensures r.Keys == t.entries.Keys
    decreases t, 0
  {
    map k | k in t.entries :: Prune(t.entries[k], f, g)
  }

  /** On every composite tree, there and back is exactly pruning. */
  lemma {:induction false} CompositeRoundTrip<K(!new), L(!new)>(node: Node<K>, f: K -> Option<L>, g: L -> Option<K>)
    requires Injective(f) && Injective(g) && Undoes(f, g)
    ensures Convert(Convert(node, f), g) == Prune(node, f, g)
    decreases node
  {
    match node
    case AggregationNode(_, subs) =>
      forall i | 0 <= i < |subs| ensures Convert(Convert(subs[i], f), g) == Prune(subs[i], f, g) {
        CompositeRoundTrip(subs[i], f, g);
      }
    case AmountRouting(_, lower, upper) =>
      CompositeRoundTrip(lower, f, g);
      CompositeRoundTrip(upper, f, g);
    case RoutingNode(domains) => TableRoundTrip(domains, f, g);
    case FallbackRouting(_, domains) => TableRoundTrip(domains, f, g);
    case _ =>
  }

  lemma {:induction false} TableRoundTrip<K(!new), L(!new)>(t: Table<K>, f: K -> Option<L>, g: L -> Option<K>)
    requires Injective(f) && Injective(g) && Undoes(f, g)
    ensures ConvertTable(ConvertTable(t, f), g) == PruneTable(t, f, g)
    decreases t
  {
    hide Convert, ConvertEntries, Prune, PruneEntries;
    if t.Table? {
      var m := ConvertEntries(t, f);
      var there := Table(Rekey(m, f));
      forall k | k in t.entries && f(k).Some? ensures ConvertEntries(there, g)[f(k).value] == PruneEntries(t, f, g)[k] {
        ConvertAt(t, f, k);
        PruneAt(t, f, g, k);
        ConvertAt(there, g, f(k).value);
        CompositeRoundTrip(t.entries[k], f, g);
      }
      RekeyBack(PruneEntries(t, f, g), ConvertEntries(there, g), f, g);
    }
  }

  lemma ConvertAt<K(!new), L(!new)>(t: Table<K>, f: K -> Option<L>, k: K)
    requires Injective(f) && t.Table? && k in t.entries
    ensures ConvertEntries(t, f)[k] == Convert(t.entries[k], f)
  {
    hide Convert;
  }

  lemma PruneAt<K(!new), L(!new)>(t: Table<K>, f: K -> Option<L>, g: L -> Option<K>, k: K)
    requires t.Table? && k in t.entries
    ensures PruneEntries(t, f, g)[k] == Prune(t.entries[k], f, g)
  {
    hide Prune;
  }

  /** The loop over the `domains` record of a composite node, in any order. */
  method ConvertDomains<K(!new, ==), L(!new, ==)>(t: Table<K>, f: K -> Option<L>) returns (r: Table<L>)
    requires Injective(f)
    ensures r == ConvertTable(t, f)
  {
    hide Convert, ConvertEntries;
    if t.Unset? {
      return Unset;
    }
    var domains: map<L, Node<L>> := map[];
    var todo := t.entries.Keys;
    ghost var entries := ConvertEntries(t, f);
    while todo != {}
      invariant todo <= t.entries.Keys && domains == Rekey(entries - todo, f)
      decreases |todo|
    {
      var k :| k in todo;
      RekeyOneMore(entries, todo, k, f);
      if f(k).Some? {
        ConvertAt(t, f, k);
        domains := domains[f(k).value := Convert(t.entries[k], f)];
      }
      todo := todo - {k};
    }
    assert entries - {} == entries;
    r := Table(domains);
  }

  // ---------------------------------------------------------------------------
  // Whole configurations
  // ---------------------------------------------------------------------------

  /** A nested ISM in a configuration: an address, or a configuration that may carry its address. */
  datatype Entry = Ref(address: string) | Inline(config: IsmConfig, at: Option<string>)

  datatype IsmConfig =
    | RoutingConfig(owner: string, domains: map<string, Entry>)
    | MerkleRootConfig(validators: seq<string>, threshold: int)
    | MessageIdConfig(validators: seq<string>, threshold: int)
    | TestConfig
    | CompositeConfig(owner: string, root: Node<string>)
    | AggregationConfig(modules: seq<Entry>, threshold: int)
    | PausableConfig(owner: string, paused: bool)

  datatype Lookup = Lookup(domainOf: string -> Option<nat>, nameOf: nat -> Option<string>) {
    ghost predicate Inverse() {
      forall name: string, d: nat :: domainOf(name) == Some(d) <==> nameOf(d) == Some(name)
    }

    /** An empty chain name counts as unknown. */
    function Named(d: nat): Option<string> {
      if nameOf(d) == Some("") then None else nameOf(d)
    }
  }

  function Domains(lk: Lookup): string -> Option<nat> {
    (name: string) => lk.domainOf(name)
  }

  function Names(lk: Lookup): nat -> Option<string> {
    (d: nat) => lk.Named(d)
  }

  lemma InverseLookups(lk: Lookup)
    requires lk.Inverse()
    ensures Injective(Domains(lk)) && Injective(Names(lk)) && Undoes(Domains(lk), Names(lk))
            && Undoes(Names(lk), Domains(lk))
  {
  }

  function ToArtifact(lk: Lookup, e: Entry): Artifact
    requires lk.Inverse()
    decreases e
  {
    match e
    case Ref(address) => Underived(address)
    case Inline(config, _) => New(ToArtifactConfig(lk, config))
  }

  function ToArtifactConfig(lk: Lookup, c: IsmConfig): Config
    requires lk.Inverse()
    decreases c, 1
  {
    InverseLookups(lk);
    match c
    case RoutingConfig(owner, _) => Routing(owner, Rekey(ArtifactEntries(lk, c), Domains(lk)))
    case MerkleRootConfig(validators, threshold) => MerkleRootMultisig(validators, threshold)
    case MessageIdConfig(validators, threshold) => MessageIdMultisig(validators, threshold)
    case TestConfig => TestIsm
    case CompositeConfig(owner, root) => Composite(owner, Convert(root, Domains(lk)))
    case AggregationConfig(modules, threshold) =>
      Aggregation(seq(|modules|, i requires 0 <= i < |modules| => ToArtifact(lk, modules[i])), threshold)
    case PausableConfig(owner, paused) => Pausable(owner, paused)
  }

  function ArtifactEntries(lk: Lookup, c: IsmConfig): (r: map<string, Artifact>)
    requires lk.Inverse() && c.RoutingConfig?
    ensures r.Keys == c.domains.Keys
    decreases c, 0
  {
    map name | name in c.domains :: ToArtifact(lk, c.domains[name])
  }

  /** The configuration of a deployed artifact; a new one has no address to show. */
  function ToDerived(lk: Lookup, a: Artifact): Option<Entry>
    requires lk.Inverse()
    decreases a
  {
    match a
    case New(_) => None
    case Underived(address) => Some(Ref(address))
    case Deployed(config, address) =>
      var derived :- ToDerivedConfig(lk, config);
      Some(Inline(derived, Some(address)))
  }

  function ToDerivedConfig(lk: Lookup, c: Config): Option<IsmConfig>
    requires lk.Inverse()
    decreases c, 1
  {
    InverseLookups(lk);
    match c
    case Routing(owner, _) =>
      var entries :- Collect(DerivedEntries(lk, c));
      Some(RoutingConfig(owner, Rekey(entries, Names(lk))))
    case MerkleRootMultisig(validators, threshold) => Some(MerkleRootConfig(validators, threshold))
    case MessageIdMultisig(validators, threshold) => Some(MessageIdConfig(validators, threshold))
    case TestIsm => Some(TestConfig)
    case Composite(owner, root) => Some(CompositeConfig(owner, Convert(root, Names(lk))))
    case Aggregation(modules, threshold) =>
      var derived :- CollectSeq(seq(|modules|, i requires 0 <= i < |modules| => ToDerived(lk, modules[i])));
      Some(AggregationConfig(derived, threshold))
    case Pausable(owner, paused) => Some(PausableConfig(owner, paused))
  }

  /** Unknown domains are skipped, whatever is in them. */
  function DerivedEntries(lk: Lookup, c: Config): (r: map<nat, Option<Entry>>)
    requires lk.Inverse() && c.Routing?
    ensures forall d :: d in r <==> d in c.domains && lk.Named(d).Some?
    decreases c, 0
  {
    map d | d in c.domains && lk.Named(d).Some? :: ToDerived(lk, c.domains[d])
  }

  /** A configuration without the addresses of its nested ISMs. */
  function Forget(e: Entry): Entry {
    match e
    case Ref(_) => e
    case Inline(config, _) => Inline(ForgetConfig(config), None)
  }

  function ForgetConfig(c: IsmConfig): IsmConfig {
    match c
    case RoutingConfig(owner, domains) => RoutingConfig(owner, map name | name in domains :: Forget(domains[name]))
    case AggregationConfig(modules, threshold) =>
      AggregationConfig(seq(|modules|, i requires 0 <= i < |modules| => Forget(modules[i])), threshold)
    case _ => c
  }

  ghost predicate IsKnown(lk: Lookup, name: string) {
    name != "" && lk.domainOf(name).Some?
  }

  /** The configuration without the chains that the lookups do not know, at any depth. */
  ghost function PruneEntry(lk: Lookup, e: Entry): Entry {
    match e
    case Ref(_) => e
    case Inline(config, at) => Inline(PruneConfig(lk, config), at)
  }

  ghost function PruneConfig(lk: Lookup, c: IsmConfig): IsmConfig {
    match c
    case RoutingConfig(owner, domains) =>
      RoutingConfig(owner, map name | name in domains && IsKnown(lk, name) :: PruneEntry(lk, domains[name]))
    case AggregationConfig(modules, threshold) =>
      AggregationConfig(seq(|modules|, i requires 0 <= i < |modules| => PruneEntry(lk, modules[i])), threshold)
    case CompositeConfig(owner, root) => CompositeConfig(owner, Prune(root, Domains(lk), Names(lk)))
    case _ => c
  }

  /** Going back yields the pruned entry, addresses aside. */
  ghost predicate Returns(lk: Lookup, e: Entry, d: Artifact)
    requires lk.Inverse()
  {
    ToDerived(lk, d).Some? && Forget(ToDerived(lk, d).value) == Forget(PruneEntry(lk, e))
  }

  /**
  After any deployment of a converted configuration (the same tree, with addresses of whatever
  kind where there were none), the derived configuration is the original one, pruned.
   */
  lemma {:induction false} ConversionRoundTrip(lk: Lookup, e: Entry, d: Artifact)
    requires lk.Inverse() && NoNew(d) && Erase(d) == Erase(ToArtifact(lk, e))
    ensures Returns(lk, e, d)
    ensures ToDerived(lk, d) == Some(Ref(d.address))
            || (ToDerived(lk, d).value.Inline? && ToDerived(lk, d).value.at == Some(d.address))
    decreases e
  {
    if e.Inline? {
      ConfigRoundTrip(lk, e.config, d.config);
    }
  }

  lemma {:induction false} ConfigRoundTrip(lk: Lookup, c: IsmConfig, d: Config)
    requires lk.Inverse() && NoNewIn(d) && EraseConfig(d) == EraseConfig(ToArtifactConfig(lk, c))
    ensures ToDerivedConfig(lk, d).Some?
            && ForgetConfig(ToDerivedConfig(lk, d).value) == ForgetConfig(PruneConfig(lk, c))
    decreases c
  {
    match c
    case RoutingConfig(_, _) => RoutingRoundTrip(lk, c, d);
    case AggregationConfig(modules, _) => AggregationRoundTrip(lk, c, d);
    case CompositeConfig(_, root) =>
      InverseLookups(lk);
      CompositeRoundTrip(root, Domains(lk), Names(lk));
    case _ =>
  }

  lemma {:induction false} AggregationRoundTrip(lk: Lookup, c: IsmConfig, d: Config)
    requires lk.Inverse() && NoNewIn(d) && c.AggregationConfig?
             && EraseConfig(d) == EraseConfig(ToArtifactConfig(lk, c))
    ensures ToDerivedConfig(lk, d).Some?
            && ForgetConfig(ToDerivedConfig(lk, d).value) == ForgetConfig(PruneConfig(lk, c))
    decreases c, 0
  {
    hide Erase, EraseConfig, NoNew, ToArtifact, ToArtifactConfig, ToDerivedConfig, ForgetConfig, PruneConfig, Returns;
    var n, art := |c.modules|, ToArtifactConfig(lk, c);
    ArtifactModules(lk, c);
    EraseModules(art);
    EraseKeepsType(d);
    EraseModules(d);
    forall i | 0 <= i < n ensures Returns(lk, c.modules[i], d.modules[i]) {
      assert Erase(d.modules[i]) == EraseConfig(d).modules[i] == Erase(ToArtifact(lk, c.modules[i]));
      ConversionRoundTrip(lk, c.modules[i], d.modules[i]);
    }
    DerivedModules(lk, c, d);
  }

  lemma ArtifactModules(lk: Lookup, c: IsmConfig)
    requires lk.Inverse() && c.AggregationConfig?
    ensures ToArtifactConfig(lk, c).Aggregation? && ToArtifactConfig(lk, c).threshold == c.threshold
    ensures |ToArtifactConfig(lk, c).modules| == |c.modules|
    ensures forall i :: 0 <= i < |c.modules| ==> ToArtifactConfig(lk, c).modules[i] == ToArtifact(lk, c.modules[i])
  {
    hide ToArtifact;
  }

  lemma DerivedModules(lk: Lookup, c: IsmConfig, d: Config)
    requires lk.Inverse() && c.AggregationConfig? && d.Aggregation? && d.threshold == c.threshold
             && |d.modules| == |c.modules|
    requires forall i :: 0 <= i < |c.modules| ==> Returns(lk, c.modules[i], d.modules[i])
    ensures ToDerivedConfig(lk, d).Some?
            && ForgetConfig(ToDerivedConfig(lk, d).value) == ForgetConfig(PruneConfig(lk, c))
  {
    hide ToDerived, Forget, PruneEntry;
    forall i | 0 <= i < |c.modules|
      ensures ToDerived(lk, d.modules[i]).Some?
              && Forget(ToDerived(lk, d.modules[i]).value) == Forget(PruneEntry(lk, c.modules[i]))
    {
      assert Returns(lk, c.modules[i], d.modules[i]);
    }
    var derived, pruned := ToDerivedConfig(lk, d).value, PruneConfig(lk, c);
    forall i | 0 <= i < |c.modules| ensures Forget(derived.modules[i]) == Forget(pruned.modules[i]) {
      assert derived.modules[i] == ToDerived(lk, d.modules[i]).value;
      assert pruned.modules[i] == PruneEntry(lk, c.modules[i]);
    }
    assert ForgetConfig(derived).modules == ForgetConfig(pruned).modules;
  }

  lemma {:induction false} RoutingRoundTrip(lk: Lookup, c: IsmConfig, d: Config)
    requires lk.Inverse() && NoNewIn(d) && c.RoutingConfig? && EraseConfig(d) == EraseConfig(ToArtifactConfig(lk, c))
    ensures ToDerivedConfig(lk, d).Some?
            && ForgetConfig(ToDerivedConfig(lk, d).value) == ForgetConfig(PruneConfig(lk, c))
    decreases c, 0
  {
    hide ToDerivedConfig, ForgetConfig, PruneConfig, Returns;
    DeployedRoutes(lk, c, d);
    forall name | name in c.domains && lk.domainOf(name).Some?
      ensures Returns(lk, c.domains[name], d.domains[lk.domainOf(name).value])
    {
      ConversionRoundTrip(lk, c.domains[name], d.domains[lk.domainOf(name).value]);
    }
    DerivedRoutes(lk, c, d);
  }

  /** The deployed routing ISM has a deployed copy of every entry with a known name, and nothing else. */
  lemma DeployedRoutes(lk: Lookup, c: IsmConfig, d: Config)
    requires lk.Inverse() && NoNewIn(d) && c.RoutingConfig? && EraseConfig(d) == EraseConfig(ToArtifactConfig(lk, c))
    ensures d.Routing? && d.owner == c.owner
    ensures forall name :: name in c.domains && lk.domainOf(name).Some? ==>
              && lk.domainOf(name).value in d.domains && NoNew(d.domains[lk.domainOf(name).value])
              && Erase(d.domains[lk.domainOf(name).value]) == Erase(ToArtifact(lk, c.domains[name]))
    ensures forall k :: k in d.domains ==> exists name :: name in c.domains && lk.domainOf(name) == Some(k)
  {
    hide Erase, NoNew, ToArtifact;
    InverseLookups(lk);
    var arts := ToArtifactConfig(lk, c);
    EraseRoutes(arts);
    EraseKeepsType(d);
    EraseRoutes(d);
    forall name | name in c.domains && lk.domainOf(name).Some?
      ensures lk.domainOf(name).value in d.domains
      ensures Erase(d.domains[lk.domainOf(name).value]) == Erase(ToArtifact(lk, c.domains[name]))
    {
      var k := lk.domainOf(name).value;
      assert k in arts.domains && arts.domains[k] == ToArtifact(lk, c.domains[name]);
    }
    forall k | k in d.domains ensures exists name :: name in c.domains && lk.domainOf(name) == Some(k) {
      assert k in arts.domains;
    }
  }

  lemma DerivedRoutes(lk: Lookup, c: IsmConfig, d: Config)
    requires lk.Inverse() && c.RoutingConfig? && d.Routing? && d.owner == c.owner
    requires forall name :: name in c.domains && lk.domainOf(name).Some? ==>
               lk.domainOf(name).value in d.domains && Returns(lk, c.domains[name], d.domains[lk.domainOf(name).value])
    requires forall k :: k in d.domains ==> exists name :: name in c.domains && lk.domainOf(name) == Some(k)
    ensures ToDerivedConfig(lk, d).Some?
            && ForgetConfig(ToDerivedConfig(lk, d).value) == ForgetConfig(PruneConfig(lk, c))
  {
    hide Forget, PruneEntry, ToDerived, ToDerivedConfig, PruneConfig, ForgetConfig, DerivedEntries;
    forall k | k in d.domains && lk.Named(k).Some? ensures NamedEntry(lk, c, d, k) {
      var name :| name in c.domains && lk.domainOf(name) == Some(k);
      assert lk.nameOf(k) == Some(name);
    }
    SameRoutes(lk, c, d);
  }

  /** Domain `k` is there for a known entry of the configuration. */
  ghost predicate NamedEntry(lk: Lookup, c: IsmConfig, d: Config, k: nat)
    requires lk.Inverse() && c.RoutingConfig? && d.Routing? && k in d.domains
  {
    && lk.Named(k).Some? && lk.Named(k).value in c.domains && IsKnown(lk, lk.Named(k).value)
    && Returns(lk, c.domains[lk.Named(k).value], d.domains[k])
  }

  lemma SameRoutes(lk: Lookup, c: IsmConfig, d: Config)
    requires lk.Inverse() && c.RoutingConfig? && d.Routing? && d.owner == c.owner
    requires forall k :: k in d.domains && lk.Named(k).Some? ==> NamedEntry(lk, c, d, k)
    requires forall name :: name in c.domains && lk.domainOf(name).Some? ==> lk.domainOf(name).value in d.domains
    ensures ToDerivedConfig(lk, d).Some?
            && ForgetConfig(ToDerivedConfig(lk, d).value) == ForgetConfig(PruneConfig(lk, c))
  {
    hide Forget, PruneEntry, ToDerived, ToDerivedConfig, PruneConfig, ForgetConfig, DerivedEntries;
    DerivedDomains(lk, d);
    PruneRoutes(lk, c);
    var derived, pruned := ToDerivedConfig(lk, d).value, PruneConfig(lk, c);
    ForgetRoutes(derived);
    ForgetRoutes(pruned);
    forall name | name in pruned.domains
      ensures name in derived.domains && Forget(derived.domains[name]) == Forget(pruned.domains[name])
    {
      var k := lk.domainOf(name).value;
      assert lk.nameOf(k) == Some(name);
      assert NamedEntry(lk, c, d, k);
    }
    forall name | name in derived.domains ensures name in pruned.domains {
      var k :| k in d.domains && lk.Named(k) == Some(name);
      assert NamedEntry(lk, c, d, k);
    }
    assert ForgetConfig(derived).domains == ForgetConfig(pruned).domains;
  }

  lemma DerivedDomains(lk: Lookup, d: Config)
    requires lk.Inverse() && d.Routing?
    requires forall k :: k in d.domains && lk.Named(k).Some? ==> ToDerived(lk, d.domains[k]).Some?
    ensures ToDerivedConfig(lk, d).Some?
    ensures var derived := ToDerivedConfig(lk, d).value;
            && derived.RoutingConfig? && derived.owner == d.owner
            && (forall k :: k in d.domains && lk.Named(k).Some? ==>
                  && lk.Named(k).value in derived.domains
                  && ToDerived(lk, d.domains[k]) == Some(derived.domains[lk.Named(k).value]))
            && (forall name :: name in derived.domains ==> exists k :: k in d.domains && lk.Named(k) == Some(name))
  {
    hide ToDerived;
    InverseLookups(lk);
    var entries := DerivedEntries(lk, d);
    assert forall k :: k in entries ==> entries[k] == ToDerived(lk, d.domains[k]);
    var all := Collect(entries).value;
    assert ToDerivedConfig(lk, d).value.domains == Rekey(all, Names(lk));
    forall k | k in d.domains && lk.Named(k).Some? ensures k in all && Names(lk)(k) == lk.Named(k) {
    }
  }

  lemma PruneRoutes(lk: Lookup, c: IsmConfig)
    requires c.RoutingConfig?
    ensures PruneConfig(lk, c).RoutingConfig? && PruneConfig(lk, c).owner == c.owner
    ensures forall name :: name in PruneConfig(lk, c).domains <==> name in c.domains && IsKnown(lk, name)
    ensures forall name :: name in PruneConfig(lk, c).domains ==>
            PruneConfig(lk, c).domains[name] == PruneEntry(lk, c.domains[name])
  {
    hide PruneEntry, IsKnown;
  }

  lemma ForgetRoutes(c: IsmConfig)
    requires c.RoutingConfig?
    ensures ForgetConfig(c).RoutingConfig? && ForgetConfig(c).owner == c.owner
            && ForgetConfig(c).domains.Keys == c.domains.Keys
    ensures forall name :: name in c.domains ==> ForgetConfig(c).domains[name] == Forget(c.domains[name])
  {
    hide Forget;
  }

  /** A registry that knows one chain, without a name. */
  function NamelessLookup(): Lookup {
    Lookup((name: string) => if name == "" then Some(5) else None, (d: nat) => if d == 5 then Some("") else None)
  }

  /** An empty chain name is kept on the way there and dropped on the way back. */
  lemma EmptyNameIsDropped(owner: string, address: string)
    ensures NamelessLookup().Inverse()
    ensures var lk, there := NamelessLookup(), Routing(owner, map[5 := Underived(address)]);
            && ToArtifactConfig(lk, RoutingConfig(owner, map["" := Ref(address)])) == there
            && ToDerivedConfig(lk, there) == Some(RoutingConfig(owner, map[]))
  {
    hide ToArtifactConfig, ToDerivedConfig;
    EmptyNameIsKept(owner, address);
    NothingIsNamed(owner, address);
  }

  lemma EmptyNameIsKept(owner: string, address: string)
    ensures NamelessLookup().Inverse()
    ensures ToArtifactConfig(NamelessLookup(), RoutingConfig(owner, map["" := Ref(address)]))
         == Routing(owner, map[5 := Underived(address)])
  {
    hide ToArtifactConfig, ArtifactEntries;
    var lk, c := NamelessLookup(), RoutingConfig(owner, map["" := Ref(address)]);
    RoutingArtifact(lk, c);
    ArtifactAt(lk, c, "");
    assert Rekey(ArtifactEntries(lk, c), Domains(lk)) == map[5 := Underived(address)];
  }

  lemma NothingIsNamed(owner: string, address: string)
    ensures NamelessLookup().Inverse()
    ensures ToDerivedConfig(NamelessLookup(), Routing(owner, map[5 := Underived(address)]))
            == Some(RoutingConfig(owner, map[]))
  {
    hide ToDerivedConfig, ToDerived, DerivedEntries;
    var lk, there := NamelessLookup(), Routing(owner, map[5 := Underived(address)]);
    DerivedDomains(lk, there);
    assert ToDerivedConfig(lk, there).value.domains == map[];
  }

  // ---------------------------------------------------------------------------
  // The loops over the domains of a routing ISM, in any order
  // ---------------------------------------------------------------------------

  method ConvertChains(lk: Lookup, c: IsmConfig) returns (r: Config)
    requires lk.Inverse() && c.RoutingConfig?
    ensures r == ToArtifactConfig(lk, c)
  {
    hide ToArtifact, ToArtifactConfig, ArtifactEntries, Rekey;
    InverseLookups(lk);
    ghost var entries, f := ArtifactEntries(lk, c), Domains(lk);
    var domains: map<nat, Artifact> := map[];
    var todo := c.domains.Keys;
    NothingRekeyed(entries, f);
    while todo != {}
      invariant todo <= c.domains.Keys && domains == Rekey(entries - todo, f)
      decreases |todo|
    {
      var name :| name in todo;
      RekeyOneMore(entries, todo, name, f);
      ArtifactAt(lk, c, name);
      var domainId := lk.domainOf(name);
      if domainId.Some? {
        domains := domains[domainId.value := ToArtifact(lk, c.domains[name])];
      }
      todo := todo - {name};
    }
    assert entries - {} == entries;
    RoutingArtifact(lk, c);
    r := Routing(c.owner, domains);
  }

  lemma NothingRekeyed<V>(m: map<string, V>, f: string -> Option<nat>)
    requires Injective(f)
    ensures Rekey(m - m.Keys, f) == map[]
  {
  }

  lemma ArtifactAt(lk: Lookup, c: IsmConfig, name: string)
    requires lk.Inverse() && c.RoutingConfig? && name in c.domains
    ensures ArtifactEntries(lk, c)[name] == ToArtifact(lk, c.domains[name])
  {
    hide ToArtifact;
  }

  lemma RoutingArtifact(lk: Lookup, c: IsmConfig)
    requires lk.Inverse() && c.RoutingConfig?
    ensures Injective(Domains(lk))
            && ToArtifactConfig(lk, c) == Routing(c.owner, Rekey(ArtifactEntries(lk, c), Domains(lk)))
  {
    hide ToArtifact, ArtifactEntries, Rekey;
    InverseLookups(lk);
  }

  method DeriveChains(lk: Lookup, c: Config) returns (r: Option<IsmConfig>)
    requires lk.Inverse() && c.Routing?
    ensures r == ToDerivedConfig(lk, c)
  {
    hide ToDerived, ToDerivedConfig, DerivedEntries;
    var domains: map<string, Entry> := map[];
    var todo := c.domains.Keys;
    while todo != {}
      invariant todo <= c.domains.Keys
      invariant forall k :: k in c.domains && k !in todo && lk.Named(k).Some? ==>
                  lk.Named(k).value in domains && ToDerived(lk, c.domains[k]) == Some(domains[lk.Named(k).value])
      invariant forall name :: name in domains ==> exists k :: k in c.domains && k !in todo && lk.Named(k) == Some(name)
      decreases |todo|
    {
      var k :| k in todo;
      var name := lk.Named(k);
      if name.Some? {
        var entry := ToDerived(lk, c.domains[k]);
        if entry.None? {
          NewInside(lk, c, k);
          return None;
        }
        NamesDiffer(lk, k);
        domains := domains[name.value := entry.value];
      }
      todo := todo - {k};
    }
    DerivedDomains(lk, c);
    r := Some(RoutingConfig(c.owner, domains));
    assert domains == ToDerivedConfig(lk, c).value.domains;
  }

  lemma NamesDiffer(lk: Lookup, k: nat)
    requires lk.Inverse() && lk.Named(k).Some?
    ensures forall j: nat :: lk.Named(j) == lk.Named(k) ==> j == k
  {
    InverseLookups(lk);
    forall j: nat | lk.Named(j) == lk.Named(k) ensures j == k {
      assert Names(lk)(j) == Names(lk)(k);
    }
  }

  lemma NewInside(lk: Lookup, c: Config, k: nat)
    requires lk.Inverse() && c.Routing? && k in c.domains && lk.Named(k).Some? && ToDerived(lk, c.domains[k]).None?
    ensures ToDerivedConfig(lk, c).None?
  {
    hide ToDerived;
    var entries := DerivedEntries(lk, c);
    assert k in entries && entries[k] == ToDerived(lk, c.domains[k]);
  }
}
