/**
Merging the ISM that is on chain with the ISM that is wanted. `equal` is the comparison of
normalized static configurations.
 */
module IsmMerge {
  import opened Prelude
  import opened IsmArtifacts

  type Equal = (Config, Config) -> bool

  /** Aggregation and pausable ISMs can be read only. */
  predicate Writable(c: Config) {
    !c.Aggregation? && !c.Pausable?
  }

  function ShouldDeployNew(equal: Equal, actual: Config, expected: Config): Option<bool> {
    if !Writable(expected) then None
    else if !SameType(actual, expected) then Some(true)
    else if IsStatic(expected) then Some(!equal(actual, expected))
    else Some(false)
  }

  /** The address that a reused node keeps: its own if it has one. */
  function KeptAddress(current: Artifact, expected: Artifact): string
    requires current.Deployed? && !expected.Underived?
  {
    if expected.Deployed? then expected.address else current.address
  }

  /** The deployed artifact for domain `d` on chain, if there is one. */
  function CurrentDomain(domains: map<nat, Artifact>, d: nat): (r: Option<Artifact>)
    ensures r.Some? ==> r.value.Deployed?
  {
    if d in domains && domains[d].Deployed? then Some(domains[d]) else None
  }

  function Merge(equal: Equal, current: Option<Artifact>, expected: Artifact): (r: Option<Artifact>)
    requires (current.Some? ==> current.value.Deployed?) && !expected.Underived?
    decreases expected, 1
  {
    if !Writable(expected.config) then None
    else if current.None? then Some(expected)
    else
      var actual, wanted := current.value.config, expected.config;
      if !SameType(actual, wanted) || (IsStatic(wanted) && !equal(actual, wanted)) then Some(New(wanted))
      else if !wanted.Routing? then Some(Deployed(wanted, KeptAddress(current.value, expected)))
      else
        var merged :- Collect(map d | d in wanted.domains ::
          MergeDomain(equal, CurrentDomain(actual.domains, d), wanted.domains[d]));
        Some(Deployed(Routing(wanted.owner, merged), KeptAddress(current.value, expected)))
  }

  /** A bare address stays as it is. */
  function MergeDomain(equal: Equal, current: Option<Artifact>, expected: Artifact): Option<Artifact>
    requires current.Some? ==> current.value.Deployed?
    decreases expected, 2
  {
    if expected.Underived? then Some(expected) else Merge(equal, current, expected)
  }

  /** The merge as it is carried out: domain by domain, in any order, into a fresh record. */
  method MergeIsmArtifacts(equal: Equal, current: Option<Artifact>, expected: Artifact) returns (r: Option<Artifact>)
    requires (current.Some? ==> current.value.Deployed?) && !expected.Underived?
    ensures r == Merge(equal, current, expected)
    decreases expected, 1
  {
    hide MergeDomain, Collect;
    var wanted := expected.config;
    if !Writable(wanted) {
      return None;
    }
    if current.None? {
      return Some(expected);
    }
    var actual := current.value.config;
    if !SameType(actual, wanted) {
      return Some(New(wanted));
    }
    if IsStatic(wanted) {
      var renew := ShouldDeployNew(equal, actual, wanted);
      if renew == Some(true) {
        return Some(New(wanted));
      }
      return Some(Deployed(wanted, KeptAddress(current.value, expected)));
    }
    if wanted.Composite? {
      return Some(Deployed(wanted, KeptAddress(current.value, expected)));
    }
    r := MergeRoutes(equal, current.value, expected);
  }

  method MergeRoutes(equal: Equal, current: Artifact, expected: Artifact) returns (r: Option<Artifact>)
    requires current.Deployed? && !expected.Underived? && current.config.Routing? && expected.config.Routing?
    ensures r == Merge(equal, Some(current), expected)
    decreases expected, 0
  {
    hide Merge, MergeDomain, Collect;
    var actual, wanted := current.config.domains, expected.config.domains;
    var merged: map<nat, Artifact> := map[];
    var todo := wanted.Keys;
    while todo != {}
      invariant todo <= wanted.Keys && merged.Keys == wanted.Keys - todo
      invariant forall d :: d in merged ==> MergeDomain(equal, CurrentDomain(actual, d), wanted[d]) == Some(merged[d])
      decreases |todo|
    {
      var d :| d in todo;
      DomainIsMerge(equal, CurrentDomain(actual, d), wanted[d]);
      if wanted[d].Underived? {
        merged := merged[d := wanted[d]];
      } else {
        var m := MergeIsmArtifacts(equal, CurrentDomain(actual, d), wanted[d]);
        if m.None? {
          FailedDomain(equal, current, expected, d);
          return None;
        }
        merged := merged[d := m.value];
      }
      todo := todo - {d};
    }
    MergedRecord(equal, current, expected, merged);
    r := Some(Deployed(Routing(expected.config.owner, merged), KeptAddress(current, expected)));
  }

  lemma DomainIsMerge(equal: Equal, current: Option<Artifact>, expected: Artifact)
    requires current.Some? ==> current.value.Deployed?
    ensures MergeDomain(equal, current, expected) == if expected.Underived? then Some(expected)
            else Merge(equal, current, expected)
  {
    hide Merge;
  }

  lemma FailedDomain(equal: Equal, current: Artifact, expected: Artifact, d: nat)
    requires current.Deployed? && !expected.Underived? && current.config.Routing? && expected.config.Routing?
    requires d in expected.config.domains
    requires MergeDomain(equal, CurrentDomain(current.config.domains, d), expected.config.domains[d]).None?
    ensures Merge(equal, Some(current), expected).None?
  {
    hide MergeDomain, Collect;
    CollectNone(map k | k in expected.config.domains :: MergeDomain(equal, CurrentDomain(current.config.domains, k),
                                                                    expected.config.domains[k]), d);
  }

  lemma MergedRecord(equal: Equal, current: Artifact, expected: Artifact, merged: map<nat, Artifact>)
    requires current.Deployed? && !expected.Underived? && current.config.Routing? && expected.config.Routing?
    requires merged.Keys == expected.config.domains.Keys
    requires forall d :: d in merged ==>
               MergeDomain(equal, CurrentDomain(current.config.domains, d), expected.config.domains[d])
                 == Some(merged[d])
    ensures Merge(equal, Some(current), expected)
            == Some(Deployed(Routing(expected.config.owner, merged), KeptAddress(current, expected)))
  {
    hide MergeDomain, Collect;
    CollectAll(map d | d in expected.config.domains :: MergeDomain(equal, CurrentDomain(current.config.domains, d),
                                                                   expected.config.domains[d]),
               merged);
  }

  // ---------------------------------------------------------------------------
  // Meaning
  // ---------------------------------------------------------------------------

  /** A merge of routing ISMs that succeeds succeeds in every domain. */
  lemma MergedDomains(equal: Equal, current: Artifact, expected: Artifact)
    requires current.Deployed? && !expected.Underived? && expected.config.Routing? && current.config.Routing?
    requires Merge(equal, Some(current), expected).Some?
    ensures var m := Merge(equal, Some(current), expected).value;
            var actual, wanted := current.config.domains, expected.config.domains;
            && m.Deployed? && m.config.Routing? && m.config.owner == expected.config.owner
            && m.address == KeptAddress(current, expected)
            && m.config.domains.Keys == wanted.Keys
            && forall d :: d in wanted ==>
              MergeDomain(equal, CurrentDomain(actual, d), wanted[d]) == Some(m.config.domains[d])
  {
  }

  lemma EraseRouting(a: Artifact, b: Artifact)
    requires !a.Underived? && !b.Underived? && a.config.Routing? && b.config.Routing?
    requires a.config.owner == b.config.owner && a.config.domains.Keys == b.config.domains.Keys
    requires forall d :: d in a.config.domains ==> Erase(a.config.domains[d]) == Erase(b.config.domains[d])
    ensures Erase(a) == Erase(b)
  {
    EraseRoutes(a.config);
    EraseRoutes(b.config);
    assert EraseConfig(a.config).domains == EraseConfig(b.config).domains;
  }

  /** Merging decides where things are deployed, never what they mean. */
  lemma {:induction false} MergePreservesMeaning(equal: Equal, current: Option<Artifact>, expected: Artifact)
    requires (current.Some? ==> current.value.Deployed?) && !expected.Underived?
    requires Merge(equal, current, expected).Some?
    ensures Erase(Merge(equal, current, expected).value) == Erase(expected)
    decreases expected
  {
    if current.Some? && current.value.config.Routing? && expected.config.Routing? {
      MergedDomains(equal, current.value, expected);
      var m, wanted := Merge(equal, current, expected).value.config.domains, expected.config.domains;
      forall d | d in wanted ensures Erase(m[d]) == Erase(wanted[d]) {
        if !wanted[d].Underived? {
          MergePreservesMeaning(equal, CurrentDomain(current.value.config.domains, d), wanted[d]);
        }
      }
      EraseRouting(Merge(equal, current, expected).value, expected);
    }
  }

  /** Merging again changes nothing. */
  lemma {:induction false} MergeIdempotent(equal: Equal, current: Option<Artifact>, expected: Artifact)
    requires (current.Some? ==> current.value.Deployed?) && !expected.Underived?
    requires Merge(equal, current, expected).Some?
    ensures var m := Merge(equal, current, expected).value;
            !m.Underived? && Merge(equal, current, m) == Some(m)
    decreases expected
  {
    if current.Some? && current.value.config.Routing? && expected.config.Routing? {
      MergedDomains(equal, current.value, expected);
      var r := Merge(equal, current, expected).value;
      var m, wanted := r.config.domains, expected.config.domains;
      forall d | d in m ensures MergeDomain(equal, CurrentDomain(current.value.config.domains, d), m[d]) == Some(m[d]) {
        if !wanted[d].Underived? {
          MergeIdempotent(equal, CurrentDomain(current.value.config.domains, d), wanted[d]);
        }
      }
      MergedRecord(equal, current.value, r, m);
    }
  }

  // ---------------------------------------------------------------------------
  // Addresses
  // ---------------------------------------------------------------------------

  /** A deployed node that can serve for a wanted one: same type and, if static, an equal configuration. */
  ghost predicate Serves(equal: Equal, current: Option<Artifact>, expected: Artifact) {
    && current.Some? && current.value.Deployed? && !expected.Underived?
      && SameType(current.value.config, expected.config)
    && (IsStatic(expected.config) ==> equal(current.value.config, expected.config))
  }

  /** Along the whole path both trees have nodes, and each deployed one serves for the wanted one. */
  ghost predicate Reusable(equal: Equal, current: Option<Artifact>, expected: Artifact, path: seq<Step>)
    decreases |path|
  {
    && Serves(equal, current, expected)
    && (path != [] ==>
          && current.value.config.Routing? && path[0].Domain? && path[0].id in expected.config.domains
          && Reusable(equal, CurrentDomain(current.value.config.domains, path[0].id),
                      expected.config.domains[path[0].id], path[1..]))
  }

  lemma {:induction false} ReusableIsThere(equal: Equal, current: Artifact, expected: Artifact, path: seq<Step>)
    requires Reusable(equal, Some(current), expected, path)
    ensures At(current, path).Some? && At(current, path).value.Deployed?
    ensures At(expected, path).Some? && Serves(equal, At(current, path), At(expected, path).value)
    decreases |path|
  {
    if path != [] {
      var next := CurrentDomain(current.config.domains, path[0].id);
      ReusableIsThere(equal, next.value, expected.config.domains[path[0].id], path[1..]);
    }
  }

  /**
  Where a new node was wanted, the merge has a deployed one exactly when the deployed nodes along
  the path serve for the wanted ones; its address is the one at the same path on chain.
   */
  lemma {:induction false} AddressProvenance(equal: Equal, current: Option<Artifact>, expected: Artifact,
                                             path: seq<Step>)
    requires (current.Some? ==> current.value.Deployed?) && !expected.Underived?
    requires Merge(equal, current, expected).Some? && At(expected, path).Some? && At(expected, path).value.New?
    ensures var m := At(Merge(equal, current, expected).value, path);
            && m.Some? && !m.value.Underived?
            && (m.value.Deployed? <==> Reusable(equal, current, expected, path))
            && (m.value.Deployed? ==>
                  && current.Some? && Serves(equal, At(current.value, path), At(expected, path).value)
                  && m.value.address == At(current.value, path).value.address)
    decreases |path|
  {
    if Reusable(equal, current, expected, path) {
      ReusableIsThere(equal, current.value, expected, path);
    }
    if current.Some? && Serves(equal, current, expected) && expected.config.Routing? {
      MergedDomains(equal, current.value, expected);
      if path != [] {
        AddressProvenance(equal, CurrentDomain(current.value.config.domains, path[0].id),
                          expected.config.domains[path[0].id], path[1..]);
      }
    }
  }

  /** The merge comes to the node at `path`: every node above it is reused. */
  ghost predicate Reaches(equal: Equal, current: Option<Artifact>, expected: Artifact, path: seq<Step>)
    decreases |path|
  {
    && !expected.Underived?
    && (path != [] ==>
          && Serves(equal, current, expected) && expected.config.Routing?
          && path[0].Domain? && path[0].id in expected.config.domains
          && Reaches(equal, CurrentDomain(current.value.config.domains, path[0].id),
                     expected.config.domains[path[0].id], path[1..]))
  }

  /** The deployed node that the merge compares at `path`: it and all nodes above it are deployed. */
  function CurrentAt(current: Option<Artifact>, path: seq<Step>): Option<Artifact>
    decreases |path|
  {
    if path == [] then current
    else if current.Some? && !current.value.Underived? && current.value.config.Routing? && path[0].Domain?
    then CurrentAt(CurrentDomain(current.value.config.domains, path[0].id), path[1..])
    else None
  }

  /**
  A node that is wanted deployed becomes new exactly when the merge comes to it, finds a deployed
  node there, and that one does not serve: its type or its static configuration differs. In all
  other cases it stays deployed at its own address. Bare addresses, and nodes that the merge does
  not come to, stay as they are.
   */
  lemma {:induction false} DeployedKeepTheirAddress(equal: Equal, current: Option<Artifact>, expected: Artifact,
                                                    path: seq<Step>)
    requires (current.Some? ==> current.value.Deployed?) && !expected.Underived?
    requires Merge(equal, current, expected).Some? && At(expected, path).Some? && !At(expected, path).value.New?
    ensures var m, e, c := At(Merge(equal, current, expected).value, path), At(expected, path).value,
        CurrentAt(current, path);
            && m.Some?
            && (e.Underived? ==> m.value == e)
            && (e.Deployed? ==>
                  if Reaches(equal, current, expected, path) && c.Some? && !Serves(equal, c, e)
                  then m.value == New(e.config)
                  else m.value.Deployed? && m.value.address == e.address)
            && (!Reaches(equal, current, expected, path) || c.None? ==> m.value == e)
    decreases |path|
  {
    if current.Some? && Serves(equal, current, expected) && expected.config.Routing? {
      MergedDomains(equal, current.value, expected);
      if path != [] && !expected.config.domains[path[0].id].Underived? {
        DeployedKeepTheirAddress(equal, CurrentDomain(current.value.config.domains, path[0].id),
                                 expected.config.domains[path[0].id], path[1..]);
      }
    }
  }

  // ---------------------------------------------------------------------------
  // Nothing is redeployed without need
  // ---------------------------------------------------------------------------

  /** Every expanded node of the tree can be written. */
  ghost predicate Supported(a: Artifact) {
    a.Underived? || (Writable(a.config)
                     && (a.config.Routing? ==> forall d :: d in a.config.domains ==> Supported(a.config.domains[d])))
  }

  /** A supported tree without new nodes, merged with a new copy of itself, is left exactly as it is. */
  lemma {:induction false} MergeWithOwnCopy(equal: Equal, current: Artifact)
    requires current.Deployed? && NoNew(current) && Supported(current)
    requires forall c :: equal(c, c)
    ensures Merge(equal, Some(current), Erase(current)) == Some(current)
    decreases current
  {
    if current.config.Routing? {
      var ds := current.config.domains;
      EraseRoutes(current.config);
      var copy := Erase(current).config.domains;
      forall d | d in ds ensures MergeDomain(equal, CurrentDomain(ds, d), copy[d]) == Some(ds[d]) {
        if !ds[d].Underived? {
          assert NoNewIn(current.config) && NoNew(ds[d]);
          MergeWithOwnCopy(equal, ds[d]);
        }
      }
      MergedRecord(equal, current, Erase(current), ds);
    }
  }

  /** The merge comes to a node that can only be read. */
  ghost predicate Blocked(equal: Equal, current: Option<Artifact>, expected: Artifact, path: seq<Step>) {
    && Reaches(equal, current, expected, path)
    && At(expected, path).Some? && !At(expected, path).value.Underived? && !Writable(At(expected, path).value.config)
  }

  /** The merge fails exactly if it comes to a node that can only be read; such nodes elsewhere do not matter. */
  lemma {:induction false} MergeFailsIff(equal: Equal, current: Option<Artifact>, expected: Artifact)
    requires (current.Some? ==> current.value.Deployed?) && !expected.Underived?
    ensures Merge(equal, current, expected).None? <==> exists path :: Blocked(equal, current, expected, path)
    decreases expected
  {
    if Merge(equal, current, expected).None? {
      var path := FindBlocked(equal, current, expected);
    }
    if path :| Blocked(equal, current, expected, path) {
      BlockedFails(equal, current, expected, path);
    }
  }

  lemma {:induction false} BlockedFails(equal: Equal, current: Option<Artifact>, expected: Artifact, path: seq<Step>)
    requires (current.Some? ==> current.value.Deployed?) && Blocked(equal, current, expected, path)
    ensures Merge(equal, current, expected).None?
    decreases |path|
  {
    if path != [] && Writable(expected.config) {
      var d := path[0].id;
      BlockedFails(equal, CurrentDomain(current.value.config.domains, d), expected.config.domains[d], path[1..]);
      DomainIsMerge(equal, CurrentDomain(current.value.config.domains, d), expected.config.domains[d]);
      FailedDomain(equal, current.value, expected, d);
    }
  }

  lemma {:induction false} FindBlocked(equal: Equal, current: Option<Artifact>,
                                       expected: Artifact) returns (path: seq<Step>)
    requires (current.Some? ==> current.value.Deployed?) && !expected.Underived?
    requires Merge(equal, current, expected).None?
    ensures Blocked(equal, current, expected, path)
    decreases expected
  {
    path := [];
    if Writable(expected.config) {
      var d := FindFailed(equal, current, expected);
      DomainIsMerge(equal, CurrentDomain(current.value.config.domains, d), expected.config.domains[d]);
      var rest := FindBlocked(equal, CurrentDomain(current.value.config.domains, d), expected.config.domains[d]);
      path := [Domain(d)] + rest;
      assert path[1..] == rest;
    }
  }

  lemma FindFailed(equal: Equal, current: Option<Artifact>, expected: Artifact) returns (d: nat)
    requires (current.Some? ==> current.value.Deployed?) && !expected.Underived?
    requires Merge(equal, current, expected).None? && Writable(expected.config)
    ensures Serves(equal, current, expected) && expected.config.Routing? && d in expected.config.domains
    ensures MergeDomain(equal, CurrentDomain(current.value.config.domains, d), expected.config.domains[d]).None?
  {
    hide MergeDomain;
    var all := map k | k in expected.config.domains ::
      MergeDomain(equal, CurrentDomain(current.value.config.domains, k), expected.config.domains[k]);
    assert Collect(all).None?;
    d :| d in all && all[d].None?;
  }

  /** In particular a supported tree can be merged with anything. */
  lemma SupportedMerges(equal: Equal, current: Option<Artifact>, expected: Artifact)
    requires (current.Some? ==> current.value.Deployed?) && !expected.Underived? && Supported(expected)
    ensures Merge(equal, current, expected).Some?
  {
    MergeFailsIff(equal, current, expected);
    if path :| Blocked(equal, current, expected, path) {
      SupportedBelow(equal, current, expected, path);
    }
  }

  lemma {:induction false} SupportedBelow(equal: Equal, current: Option<Artifact>, expected: Artifact, path: seq<Step>)
    requires Supported(expected) && Reaches(equal, current, expected, path)
    ensures At(expected, path).Some? && !At(expected, path).value.Underived?
            && Writable(At(expected, path).value.config)
    decreases |path|
  {
    if path != [] {
      var d := path[0].id;
      SupportedBelow(equal, CurrentDomain(current.value.config.domains, d), expected.config.domains[d], path[1..]);
    }
  }

  /** Aggregation and pausable ISMs are the types that cannot be merged. */
  lemma WritableTypes(c: Config)
    ensures Writable(c) <==> TypeName(c) !in {"staticAggregationIsm", "pausableIsm"}
  {
    TypeInitials(c);
  }
}
