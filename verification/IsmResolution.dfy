/** Resolution of recipients in whole ISM artifacts, in the context of a create or an update. */
module IsmResolution {
  import opened Prelude
  import opened IsmArtifacts
  import opened IsmRecipients

  // ---------------------------------------------------------------------------
  // Traversals of the expanded part of an artifact
  // ---------------------------------------------------------------------------

  /** Whether `p` holds of some composite node. */
  predicate SomeIn(c: Config, p: Node<nat> -> bool)
    decreases c
  {
    match c
    case Aggregation(modules, _) => exists i :: 0 <= i < |modules| && SomeUnder(modules[i], p)
    case Routing(_, domains) => exists d :: d in domains && SomeUnder(domains[d], p)
    case Composite(_, root) => SomeNode(root, p)
    case _ => false
  }

  predicate SomeUnder(a: Artifact, p: Node<nat> -> bool)
    decreases a
  {
    !a.Underived? && SomeIn(a.config, p)
  }

  predicate ConfigMatches(c: Config, router: string)
    decreases c
  {
    match c
    case Aggregation(modules, _) => forall i :: 0 <= i < |modules| ==> ArtifactMatches(modules[i], router)
    case Routing(_, domains) => forall d :: d in domains ==> ArtifactMatches(domains[d], router)
    case Composite(_, root) => Matches(root, router)
    case _ => true
  }

  predicate ArtifactMatches(a: Artifact, router: string)
    decreases a
  {
    a.Underived? || ConfigMatches(a.config, router)
  }

  function BlankConfig(c: Config): Config
    decreases c
  {
    match c
    case Aggregation(modules, threshold) =>
      Aggregation(seq(|modules|, i requires 0 <= i < |modules| => BlankArtifact(modules[i])), threshold)
    case Routing(owner, domains) => Routing(owner, map d | d in domains :: BlankArtifact(domains[d]))
    case Composite(owner, root) => Composite(owner, Blank(root))
    case _ => c
  }

  /** The artifact with every recipient struck out; states and addresses stay. */
  function BlankArtifact(a: Artifact): Artifact
    decreases a
  {
    if a.Underived? then a else a.(config := BlankConfig(a.config))
  }

  // ---------------------------------------------------------------------------
  // Resolution
  // ---------------------------------------------------------------------------

  function ResolveConfig(c: Config, router: string): Option<Config>
    decreases c, 1
  {
    match c
    case Aggregation(_, threshold) =>
      var modules :- CollectSeq(ResolveModules(c, router));
      Some(Aggregation(modules, threshold))
    case Routing(owner, _) =>
      var domains :- Collect(ResolveDomains(c, router));
      Some(Routing(owner, domains))
    case Composite(owner, root) =>
      var r :- Normalize(router);
      var resolved :- Resolve(root, r);
      Some(Composite(owner, resolved))
    case _ => Some(c)
  }

  function ResolveModules(c: Config, router: string): (s: seq<Option<Artifact>>)
    requires c.Aggregation?
    ensures |s| == |c.modules|
    decreases c, 0
  {
    seq(|c.modules|, i requires 0 <= i < |c.modules| => ResolveArtifact(c.modules[i], router))
  }

  function ResolveDomains(c: Config, router: string): (m: map<nat, Option<Artifact>>)
    requires c.Routing?
    ensures m.Keys == c.domains.Keys
    decreases c, 0
  {
    map d | d in c.domains :: ResolveArtifact(c.domains[d], router)
  }

  /** There is nothing to resolve behind a bare address. */
  function ResolveArtifact(a: Artifact, router: string): Option<Artifact>
    decreases a
  {
    if a.Underived? then Some(a)
    else
      var config :- ResolveConfig(a.config, router);
      Some(a.(config := config))
  }

  /** What resolution promises for a configuration. */
  ghost predicate GoodConfig(c: Config, router: string, r: string) {
    var result := ResolveConfig(c, router);
    && (result.Some? <==> !SomeIn(c, Foreign(r)))
    && (result.Some? ==>
          && BlankConfig(result.value) == BlankConfig(c)
          && ResolveConfig(result.value, router) == result
          && ConfigMatches(result.value, router))
    && (ConfigMatches(c, router) <==> result.Some? && !SomeIn(c, Missing()))
  }

  ghost predicate GoodArtifact(a: Artifact, router: string, r: string) {
    var result := ResolveArtifact(a, router);
    && (result.Some? <==> !SomeUnder(a, Foreign(r)))
    && (result.Some? ==>
          && BlankArtifact(result.value) == BlankArtifact(a)
          && ResolveArtifact(result.value, router) == result
          && ArtifactMatches(result.value, router))
    && (ArtifactMatches(a, router) <==> result.Some? && !SomeUnder(a, Missing()))
  }

  /** For a well-formed router, resolution of a whole configuration is as good as of a single node. */
  lemma {:induction false} ResolutionOfConfig(c: Config, router: string, r: string)
    requires Normalize(router) == Some(r)
    ensures GoodConfig(c, router, r)
    decreases c
  {
    hide Normalize, Resolve, SomeNode, Matches, Blank, ResolveModules, ResolveDomains;
    match c
    case Aggregation(modules, _) =>
      forall i | 0 <= i < |modules| ensures GoodArtifact(modules[i], router, r) {
        ResolutionOfArtifact(modules[i], router, r);
      }
      GoodModules(c, router, r);
    case Routing(_, domains) =>
      forall d | d in domains ensures GoodArtifact(domains[d], router, r) {
        ResolutionOfArtifact(domains[d], router, r);
      }
      GoodDomains(c, router, r);
    case Composite(_, root) =>
      ResolveNode(root, router, r);
      assert Good(root, router, r);
    case _ =>
  }

  lemma {:induction false} ResolutionOfArtifact(a: Artifact, router: string, r: string)
    requires Normalize(router) == Some(r)
    ensures GoodArtifact(a, router, r)
    decreases a
  {
    hide ResolveConfig, SomeIn, ConfigMatches, BlankConfig;
    if !a.Underived? {
      ResolutionOfConfig(a.config, router, r);
      assert GoodConfig(a.config, router, r);
    }
  }

  lemma ModuleAt(c: Config, router: string, i: nat)
    requires c.Aggregation? && i < |c.modules|
    ensures ResolveModules(c, router)[i] == ResolveArtifact(c.modules[i], router)
  {
    hide ResolveArtifact;
  }

  lemma DomainAt(c: Config, router: string, d: nat)
    requires c.Routing? && d in c.domains
    ensures ResolveDomains(c, router)[d] == ResolveArtifact(c.domains[d], router)
  {
    hide ResolveArtifact;
  }

  lemma GoodModules(c: Config, router: string, r: string)
    requires c.Aggregation? && forall i :: 0 <= i < |c.modules| ==> GoodArtifact(c.modules[i], router, r)
    ensures GoodConfig(c, router, r)
  {
    hide Normalize, ResolveModules, ResolveArtifact, BlankArtifact, BlankConfig, ArtifactMatches, SomeUnder;
    var n := |c.modules|;
    forall i | 0 <= i < n ensures ResolveModules(c, router)[i] == ResolveArtifact(c.modules[i], router) {
      ModuleAt(c, router, i);
    }
    if ResolveConfig(c, router).Some? {
      var c' := ResolveConfig(c, router).value;
      forall i | 0 <= i < n ensures ResolveModules(c', router)[i] == Some(c'.modules[i]) {
        assert GoodArtifact(c.modules[i], router, r);
        ModuleAt(c', router, i);
      }
      CollectSeqAll(ResolveModules(c', router), c'.modules);
      BlankModules(c', c);
    } else {
      var i :| 0 <= i < n && ResolveModules(c, router)[i].None?;
      assert SomeUnder(c.modules[i], Foreign(r));
    }
  }

  lemma GoodDomains(c: Config, router: string, r: string)
    requires c.Routing? && forall d :: d in c.domains ==> GoodArtifact(c.domains[d], router, r)
    ensures GoodConfig(c, router, r)
  {
    hide Normalize, ResolveDomains, ResolveArtifact, BlankArtifact, BlankConfig, ArtifactMatches, SomeUnder;
    forall d | d in c.domains ensures ResolveDomains(c, router)[d] == ResolveArtifact(c.domains[d], router) {
      DomainAt(c, router, d);
    }
    if ResolveConfig(c, router).Some? {
      var c' := ResolveConfig(c, router).value;
      forall d | d in c.domains ensures ResolveDomains(c', router)[d] == Some(c'.domains[d]) {
        assert GoodArtifact(c.domains[d], router, r);
        DomainAt(c', router, d);
      }
      CollectAll(ResolveDomains(c', router), c'.domains);
      BlankRoutes(c', c);
    }
  }

  lemma BlankModules(c: Config, e: Config)
    requires c.Aggregation? && e.Aggregation? && c.threshold == e.threshold && |c.modules| == |e.modules|
    requires forall i :: 0 <= i < |c.modules| ==> BlankArtifact(c.modules[i]) == BlankArtifact(e.modules[i])
    ensures BlankConfig(c) == BlankConfig(e)
  {
    hide BlankArtifact;
    assert BlankConfig(c).modules == BlankConfig(e).modules;
  }

  lemma BlankRoutes(c: Config, e: Config)
    requires c.Routing? && e.Routing? && c.owner == e.owner && c.domains.Keys == e.domains.Keys
    requires forall d :: d in c.domains ==> BlankArtifact(c.domains[d]) == BlankArtifact(e.domains[d])
    ensures BlankConfig(c) == BlankConfig(e)
  {
    hide BlankArtifact;
    assert BlankConfig(c).domains == BlankConfig(e).domains;
  }

  /** The loop over the domains of a routing ISM, in any order. */
  method ResolveRoutes(c: Config, router: string) returns (r: Option<Config>)
    requires c.Routing?
    ensures r == ResolveConfig(c, router)
  {
    hide ResolveArtifact, ResolveDomains, Collect;
    var domains: map<nat, Artifact> := map[];
    var todo := c.domains.Keys;
    while todo != {}
      invariant todo <= c.domains.Keys && domains.Keys == c.domains.Keys - todo
      invariant forall d :: d in domains ==> ResolveDomains(c, router)[d] == Some(domains[d])
      decreases |todo|
    {
      var d :| d in todo;
      DomainAt(c, router, d);
      var resolved := ResolveArtifact(c.domains[d], router);
      if resolved.None? {
        CollectNone(ResolveDomains(c, router), d);
        return None;
      }
      domains := domains[d := resolved.value];
      todo := todo - {d};
    }
    CollectAll(ResolveDomains(c, router), domains);
    r := Some(Routing(c.owner, domains));
  }

  // ---------------------------------------------------------------------------
  // New artifacts: deployed descendants on routing paths are references
  // ---------------------------------------------------------------------------

  function ResolveNew(c: Config, router: string): Option<Config>
    decreases c, 1
  {
    if !c.Routing? then ResolveConfig(c, router)
    else
      var domains :- Collect(ResolveNewDomains(c, router));
      Some(Routing(c.owner, domains))
  }

  function ResolveNewDomains(c: Config, router: string): (m: map<nat, Option<Artifact>>)
    requires c.Routing?
    ensures m.Keys == c.domains.Keys
    decreases c, 0
  {
    map d | d in c.domains :: ResolveReference(c.domains[d], router)
  }

  /** A deployed descendant is checked and kept, a new one is resolved. */
  function ResolveReference(a: Artifact, router: string): Option<Artifact>
    decreases a
  {
    match a
    case Underived(_) => Some(a)
    case Deployed(config, _) => if ConfigMatches(config, router) then Some(a) else None
    case New(config) =>
      var resolved :- ResolveNew(config, router);
      Some(New(resolved))
  }

  /** Whether `p` holds of some composite node below a deployed descendant on a routing path. */
  predicate SomeReferenced(c: Config, p: Node<nat> -> bool)
    decreases c
  {
    c.Routing? && exists d :: d in c.domains && SomeBehind(c.domains[d], p)
  }

  predicate SomeBehind(a: Artifact, p: Node<nat> -> bool)
    decreases a
  {
    match a
    case Underived(_) => false
    case Deployed(config, _) => SomeIn(config, p)
    case New(config) => SomeReferenced(config, p)
  }

  ghost predicate GoodNew(c: Config, router: string, r: string) {
    var result := ResolveNew(c, router);
    && (result.Some? <==> !SomeIn(c, Foreign(r)) && !SomeReferenced(c, Missing()))
    && (result.Some? ==>
          && BlankConfig(result.value) == BlankConfig(c)
          && ResolveNew(result.value, router) == result
          && ConfigMatches(result.value, router))
  }

  ghost predicate GoodReference(a: Artifact, router: string, r: string) {
    var result := ResolveReference(a, router);
    && (result.Some? <==> !SomeUnder(a, Foreign(r)) && !SomeBehind(a, Missing()))
    && (result.Some? ==>
          && BlankArtifact(result.value) == BlankArtifact(a)
          && ResolveReference(result.value, router) == result
          && ArtifactMatches(result.value, router))
  }

  /** A new artifact resolves iff no recipient is foreign and none is missing behind a reference. */
  lemma {:induction false} ResolutionOfNew(c: Config, router: string, r: string)
    requires Normalize(router) == Some(r)
    ensures GoodNew(c, router, r)
    decreases c
  {
    hide Normalize, ResolveConfig, BlankConfig, ConfigMatches, SomeIn, ResolveNewDomains;
    if c.Routing? {
      forall d | d in c.domains ensures GoodReference(c.domains[d], router, r) {
        ResolutionOfReference(c.domains[d], router, r);
      }
      GoodReferences(c, router, r);
    } else {
      ResolutionOfConfig(c, router, r);
      assert GoodConfig(c, router, r);
      SameKind(c, router, r);
    }
  }

  lemma SameKind(c: Config, router: string, r: string)
    requires !c.Routing?
    ensures ResolveConfig(c, router).Some? ==> !ResolveConfig(c, router).value.Routing?
  {
  }

  lemma {:induction false} ResolutionOfReference(a: Artifact, router: string, r: string)
    requires Normalize(router) == Some(r)
    ensures GoodReference(a, router, r)
    decreases a
  {
    hide Normalize, ResolveConfig, BlankConfig, ConfigMatches, SomeIn, ResolveNew, SomeReferenced;
    match a
    case Underived(_) =>
    case New(config) =>
      ResolutionOfNew(config, router, r);
      assert GoodNew(config, router, r);
    case Deployed(config, _) =>
      ResolutionOfConfig(config, router, r);
      assert GoodConfig(config, router, r);
  }

  lemma ReferenceAt(c: Config, router: string, d: nat)
    requires c.Routing? && d in c.domains
    ensures ResolveNewDomains(c, router)[d] == ResolveReference(c.domains[d], router)
  {
    hide ResolveReference;
  }

  lemma GoodReferences(c: Config, router: string, r: string)
    requires c.Routing? && forall d :: d in c.domains ==> GoodReference(c.domains[d], router, r)
    ensures GoodNew(c, router, r)
  {
    hide Normalize, ResolveNewDomains, ResolveReference, BlankArtifact, ArtifactMatches, SomeUnder,
        SomeBehind, BlankConfig;
    forall d | d in c.domains ensures ResolveNewDomains(c, router)[d] == ResolveReference(c.domains[d], router) {
      ReferenceAt(c, router, d);
    }
    if ResolveNew(c, router).Some? {
      var c' := ResolveNew(c, router).value;
      forall d | d in c.domains ensures ResolveNewDomains(c', router)[d] == Some(c'.domains[d]) {
        assert GoodReference(c.domains[d], router, r);
        ReferenceAt(c', router, d);
      }
      CollectAll(ResolveNewDomains(c', router), c'.domains);
      BlankRoutes(c', c);
    }
  }

  /** The loop over the domains of a new routing ISM, in any order. */
  method ResolveNewRoutes(c: Config, router: string) returns (r: Option<Config>)
    requires c.Routing?
    ensures r == ResolveNew(c, router)
  {
    hide ResolveReference, ResolveNewDomains, Collect;
    var domains: map<nat, Artifact> := map[];
    var todo := c.domains.Keys;
    while todo != {}
      invariant todo <= c.domains.Keys && domains.Keys == c.domains.Keys - todo
      invariant forall d :: d in domains ==> ResolveNewDomains(c, router)[d] == Some(domains[d])
      decreases |todo|
    {
      var d :| d in todo;
      ReferenceAt(c, router, d);
      var resolved := ResolveReference(c.domains[d], router);
      if resolved.None? {
        CollectNone(ResolveNewDomains(c, router), d);
        return None;
      }
      domains := domains[d := resolved.value];
      todo := todo - {d};
    }
    CollectAll(ResolveNewDomains(c, router), domains);
    r := Some(Routing(c.owner, domains));
  }

  // ---------------------------------------------------------------------------
  // In context
  // ---------------------------------------------------------------------------

  datatype Operation = Create | Update

  function ResolveIsmArtifact(a: Artifact, operation: Operation, router: string): Option<Artifact>
    requires !a.Underived?
  {
    if a.New? then
      var config :- ResolveNew(a.config, router);
      Some(New(config))
    else if operation.Create? then
      if NoNewIn(a.config) && ConfigMatches(a.config, router) then Some(a) else None
    else
      var config :- ResolveConfig(a.config, router);
      Some(a.(config := config))
  }

  /**
  Whatever the operation, a resolved artifact has the state and the address it had, differs in
  recipients only, matches the router, and is not changed by resolving it again.
   */
  lemma ResolvedArtifact(a: Artifact, operation: Operation, router: string, r: string)
    requires Normalize(router) == Some(r) && !a.Underived? && ResolveIsmArtifact(a, operation, router).Some?
    ensures var a' := ResolveIsmArtifact(a, operation, router).value;
            && !a'.Underived? && a' == a.(config := a'.config)
            && BlankConfig(a'.config) == BlankConfig(a.config)
            && ArtifactMatches(a', router)
            && ResolveIsmArtifact(a', operation, router) == Some(a')
    ensures a.Deployed? && operation.Create? ==> ResolveIsmArtifact(a, operation, router).value == a
  {
    hide Normalize, ResolveConfig, ResolveNew, BlankConfig, ConfigMatches, NoNewIn;
    ResolutionOfNew(a.config, router, r);
    ResolutionOfConfig(a.config, router, r);
    assert GoodNew(a.config, router, r) && GoodConfig(a.config, router, r);
  }

  /**
  When an artifact resolves at all: a new one if no recipient is foreign and none is missing behind
  a reference; a deployed one on update if none is foreign, on create if moreover none is missing
  and no descendant is new.
   */
  lemma ResolvesIff(a: Artifact, operation: Operation, router: string, r: string)
    requires Normalize(router) == Some(r) && !a.Underived?
    ensures ResolveIsmArtifact(a, operation, router).Some?
            <==> !SomeIn(a.config, Foreign(r))
                 && (a.New? ==> !SomeReferenced(a.config, Missing()))
                 && (a.Deployed? && operation.Create? ==>
                       NoNewIn(a.config) && !SomeIn(a.config, Missing()))
  {
    hide Normalize, ResolveConfig, ResolveNew, ConfigMatches, NoNewIn, SomeIn, SomeReferenced;
    ResolutionOfNew(a.config, router, r);
    ResolutionOfConfig(a.config, router, r);
    assert GoodNew(a.config, router, r) && GoodConfig(a.config, router, r);
  }

  /** All nodes above the end of the path are new routing ISMs. */
  ghost predicate NewRoutes(a: Artifact, path: seq<Step>)
    decreases |path|
  {
    path != [] ==>
      && a.New? && a.config.Routing? && path[0].Domain? && path[0].id in a.config.domains
      && NewRoutes(a.config.domains[path[0].id], path[1..])
  }

  /** Deployed descendants that routing paths of new ISMs lead to are preserved as they are. */
  lemma {:induction false} ReferencesArePreserved(a: Artifact, operation: Operation, router: string, path: seq<Step>)
    requires a.New? && ResolveIsmArtifact(a, operation, router).Some? && NewRoutes(a, path)
    requires At(a, path).Some? && !At(a, path).value.New?
    ensures At(ResolveIsmArtifact(a, operation, router).value, path) == At(a, path)
    decreases |path|
  {
    hide ResolveConfig, ConfigMatches;
    if path != [] {
      var c, d := a.config, path[0].id;
      ReferenceAt(c, router, d);
      assert ResolveNewDomains(c, router)[d].Some?;
      assert ResolveIsmArtifact(a, operation, router).value.config.domains[d] == ResolveReference(c.domains[d],
                                                                                                  router).value;
      if c.domains[d].New? {
        ReferencesArePreserved(c.domains[d], operation, router, path[1..]);
      }
    }
  }
}
