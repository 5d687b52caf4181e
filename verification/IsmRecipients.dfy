/**
Recipients of rate-limited nodes: unset ones are filled in with the warp router that the ISM
protects, and set ones must already name it.
 */
module IsmRecipients {
  import opened Prelude
  import opened IsmArtifacts

  // ---------------------------------------------------------------------------
  // 32-byte addresses
  // ---------------------------------------------------------------------------

  predicate IsHex(c: char) {
    '0' <= c <= '9' || 'a' <= c <= 'f' || 'A' <= c <= 'F'
  }

  function Lower(c: char): char {
    if 'A' <= c <= 'Z' then (c as int + 32) as char else c
  }

  predicate IsBytes32(s: string) {
    |s| == 66 && s[0] == '0' && s[1] == 'x' && forall i :: 2 <= i < 66 ==> IsHex(s[i])
  }

  function Normalize(s: string): Option<string> {
    if IsBytes32(s) then Some(seq(|s|, i requires 0 <= i < |s| => Lower(s[i]))) else None
  }

  lemma NormalizeTwice(s: string)
    requires Normalize(s).Some?
    ensures Normalize(Normalize(s).value) == Normalize(s)
  {
    var t := Normalize(s).value;
    assert forall i :: 0 <= i < 66 ==> t[i] == Lower(s[i]);
    assert IsBytes32(t);
    assert Normalize(t).value == t;
  }

  /** The value of a hexadecimal digit in either case. */
  function HexValue(c: char): int {
    if '0' <= c <= '9' then c as int - '0' as int
    else if 'a' <= c <= 'f' then c as int - 'a' as int + 10
    else if 'A' <= c <= 'F' then c as int - 'A' as int + 10
    else -1
  }

  /** Exactly the 32-byte values after `0x` have a normal form; it has the same value and no capital letter. */
  lemma NormalForm(s: string)
    ensures Normalize(s).Some?
            <==> |s| == 66 && s[..2] == "0x" && forall i :: 2 <= i < 66 ==> HexValue(s[i]) >= 0
    ensures Normalize(s).Some? ==>
              var n := Normalize(s).value;
              && |n| == 66 && n[..2] == "0x"
              && forall i :: 2 <= i < 66 ==> HexValue(n[i]) == HexValue(s[i]) && !('A' <= n[i] <= 'Z')
  {
    assert forall i :: 0 <= i < |s| ==> (HexValue(s[i]) >= 0 <==> IsHex(s[i]));
  }

  /** Two addresses have the same normal form iff they have the same value. */
  lemma NormalizeIsValue(s: string, t: string)
    requires Normalize(s).Some? && Normalize(t).Some?
    ensures Normalize(s) == Normalize(t) <==> forall i :: 2 <= i < 66 ==> HexValue(s[i]) == HexValue(t[i])
  {
    var m, n := Normalize(s).value, Normalize(t).value;
    NormalForm(s);
    NormalForm(t);
    forall i | 2 <= i < 66 ensures m[i] == n[i] <==> HexValue(s[i]) == HexValue(t[i]) {
      LowerDigit(m[i], n[i]);
    }
    assert m == m[..2] + m[2..] && n == n[..2] + n[2..];
    if forall i :: 2 <= i < 66 ==> HexValue(s[i]) == HexValue(t[i]) {
      assert m[2..] == n[2..];
    }
  }

  lemma LowerDigit(a: char, b: char)
    requires HexValue(a) >= 0 && HexValue(b) >= 0 && !('A' <= a <= 'Z') && !('A' <= b <= 'Z')
    ensures a == b <==> HexValue(a) == HexValue(b)
  {
  }

  // ---------------------------------------------------------------------------
  // Composite trees
  // ---------------------------------------------------------------------------

  /** Whether `p` holds of some node of the tree. */
  predicate SomeNode(node: Node<nat>, p: Node<nat> -> bool)
    decreases node
  {
    p(node) ||
    match node
    case AggregationNode(_, subs) => exists i :: 0 <= i < |subs| && SomeNode(subs[i], p)
    case AmountRouting(_, lower, upper) => SomeNode(lower, p) || SomeNode(upper, p)
    case RoutingNode(domains) => SomeEntry(domains, p)
    case FallbackRouting(_, domains) => SomeEntry(domains, p)
    case _ => false
  }

  predicate SomeEntry(t: Table<nat>, p: Node<nat> -> bool)
    decreases t
  {
    t.Table? && exists d :: d in t.entries && SomeNode(t.entries[d], p)
  }

  /** A recipient was written down that is not `r`. */
  function Foreign(r: string): Node<nat> -> bool {
    (n: Node<nat>) => n.RateLimited? && n.recipient.Some? && Normalize(n.recipient.value) != Some(r)
  }

  /** A recipient is missing. */
  function Missing(): Node<nat> -> bool {
    (n: Node<nat>) => n.RateLimited? && n.recipient.None?
  }

  /** The deployed tree protects the router: every recipient is there and names it. */
  predicate Matches(node: Node<nat>, router: string)
    decreases node
  {
    match node
    case AggregationNode(_, subs) => forall i :: 0 <= i < |subs| ==> Matches(subs[i], router)
    case AmountRouting(_, lower, upper) => Matches(lower, router) && Matches(upper, router)
    case RoutingNode(domains) => EntriesMatch(domains, router)
    case FallbackRouting(_, domains) => EntriesMatch(domains, router)
    case RateLimited(_, _, recipient) =>
      Normalize(router).Some? && recipient.Some? && Normalize(recipient.value) == Normalize(router)
    case _ => true
  }

  predicate EntriesMatch(t: Table<nat>, router: string)
    decreases t
  {
    t.Table? ==> forall d :: d in t.entries ==> Matches(t.entries[d], router)
  }

  function Resolve(node: Node<nat>, r: string): Option<Node<nat>>
    decreases node, 1
  {
    match node
    case AggregationNode(quorum, _) =>
      var resolved :- CollectSeq(ResolveSubs(node, r));
      Some(AggregationNode(quorum, resolved))
    case AmountRouting(limit, lower, upper) =>
      var lower' :- Resolve(lower, r);
      var upper' :- Resolve(upper, r);
      Some(AmountRouting(limit, lower', upper'))
    case RateLimited(maxCapacity, mailbox, recipient) =>
      if recipient.Some? && Normalize(recipient.value) != Some(r) then None
      else Some(RateLimited(maxCapacity, mailbox, Some(r)))
    case RoutingNode(domains) =>
      var resolved :- ResolveTable(domains, r);
      Some(RoutingNode(resolved))
    case FallbackRouting(fallback, domains) =>
      var resolved :- ResolveTable(domains, r);
      Some(FallbackRouting(fallback, resolved))
    case _ => Some(node)
  }

  function ResolveSubs(node: Node<nat>, r: string): (s: seq<Option<Node<nat>>>)
    requires node.AggregationNode?
    ensures |s| == |node.subIsms|
    decreases node, 0
  {
    seq(|node.subIsms|, i requires 0 <= i < |node.subIsms| => Resolve(node.subIsms[i], r))
  }

  function ResolveTable(t: Table<nat>, r: string): Option<Table<nat>>
    decreases t, 1
  {
    if t.Unset? then Some(Unset)
    else
      var resolved :- Collect(ResolveEntries(t, r));
      Some(Table(resolved))
  }

  function ResolveEntries(t: Table<nat>, r: string): (m: map<nat, Option<Node<nat>>>)
    requires t.Table?
    ensures m.Keys == t.entries.Keys
    decreases t, 0
  {
    map d | d in t.entries :: Resolve(t.entries[d], r)
  }

  /** The tree with every recipient struck out. */
  function Blank(node: Node<nat>): Node<nat>
    decreases node
  {
    match node
    case AggregationNode(quorum, subs) =>
      AggregationNode(quorum, seq(|subs|, i requires 0 <= i < |subs| => Blank(subs[i])))
    case AmountRouting(limit, lower, upper) => AmountRouting(limit, Blank(lower), Blank(upper))
    case RateLimited(maxCapacity, mailbox, _) => RateLimited(maxCapacity, mailbox, None)
    case RoutingNode(domains) => RoutingNode(BlankTable(domains))
    case FallbackRouting(fallback, domains) => FallbackRouting(fallback, BlankTable(domains))
    case _ => node
  }

  function BlankTable(t: Table<nat>): Table<nat>
    decreases t
  {
    if t.Unset? then Unset else Table(map d | d in t.entries :: Blank(t.entries[d]))
  }

  /** What resolution promises for a node. */
  ghost predicate Good(node: Node<nat>, router: string, r: string) {
    var result := Resolve(node, r);
    && (result.Some? <==> !SomeNode(node, Foreign(r)))
    && (result.Some? ==>
          && Blank(result.value) == Blank(node)
          && Resolve(result.value, r) == result
          && Matches(result.value, router))
    && (Matches(node, router) <==> result.Some? && !SomeNode(node, Missing()))
  }

  ghost predicate GoodTable(t: Table<nat>, router: string, r: string) {
    var result := ResolveTable(t, r);
    && (result.Some? <==> !SomeEntry(t, Foreign(r)))
    && (result.Some? ==>
          && BlankTable(result.value) == BlankTable(t)
          && ResolveTable(result.value, r) == result
          && EntriesMatch(result.value, router))
    && (EntriesMatch(t, router) <==> result.Some? && !SomeEntry(t, Missing()))
  }

  /**
  Resolution succeeds iff every recipient that was written down normalizes to the router; it
  changes recipients only, doing it again changes nothing, and the result matches the router.
  A tree matches iff it can be resolved and misses no recipient.
   */
  lemma {:induction false} ResolveNode(node: Node<nat>, router: string, r: string)
    requires Normalize(router) == Some(r)
    ensures Good(node, router, r)
    decreases node
  {
    hide SomeEntry, EntriesMatch, ResolveTable, BlankTable, Normalize;
    match node
    case AggregationNode(_, subs) =>
      forall i | 0 <= i < |subs| ensures Good(subs[i], router, r) {
        ResolveNode(subs[i], router, r);
      }
      GoodAggregation(node, router, r);
    case AmountRouting(_, lower, upper) =>
      ResolveNode(lower, router, r);
      ResolveNode(upper, router, r);
      GoodAmountRouting(node, router, r);
    case RoutingNode(domains) =>
      ResolveNodes(domains, router, r);
      assert GoodTable(domains, router, r);
    case FallbackRouting(_, domains) =>
      ResolveNodes(domains, router, r);
      assert GoodTable(domains, router, r);
    case RateLimited(_, _, _) =>
      NormalizeTwice(router);
    case _ =>
  }

  lemma {:induction false} ResolveNodes(t: Table<nat>, router: string, r: string)
    requires Normalize(router) == Some(r)
    ensures GoodTable(t, router, r)
    decreases t
  {
    if t.Table? {
      forall d | d in t.entries ensures Good(t.entries[d], router, r) {
        ResolveNode(t.entries[d], router, r);
      }
      GoodEntries(t, router, r);
    }
  }

  lemma GoodAmountRouting(node: Node<nat>, router: string, r: string)
    requires node.AmountRouting? && Good(node.lower, router, r) && Good(node.upper, router, r)
    ensures Good(node, router, r)
  {
    hide Normalize;
  }

  lemma SubAt(node: Node<nat>, r: string, i: nat)
    requires node.AggregationNode? && i < |node.subIsms|
    ensures ResolveSubs(node, r)[i] == Resolve(node.subIsms[i], r)
  {
    hide Resolve;
  }

  lemma EntryAt(t: Table<nat>, r: string, d: nat)
    requires t.Table? && d in t.entries
    ensures ResolveEntries(t, r)[d] == Resolve(t.entries[d], r)
  {
    hide Resolve;
  }

  lemma GoodAggregation(node: Node<nat>, router: string, r: string)
    requires node.AggregationNode? && forall i :: 0 <= i < |node.subIsms| ==> Good(node.subIsms[i], router, r)
    ensures Good(node, router, r)
  {
    hide Normalize, ResolveSubs;
    var n := |node.subIsms|;
    forall i | 0 <= i < n ensures ResolveSubs(node, r)[i] == Resolve(node.subIsms[i], r) {
      SubAt(node, r, i);
    }
    if Resolve(node, r).Some? {
      var node' := Resolve(node, r).value;
      forall i | 0 <= i < n ensures ResolveSubs(node', r)[i] == Some(node'.subIsms[i]) {
        assert Good(node.subIsms[i], router, r);
        SubAt(node', r, i);
      }
      CollectSeqAll(ResolveSubs(node', r), node'.subIsms);
      forall i | 0 <= i < n
        ensures Blank(node'.subIsms[i]) == Blank(node.subIsms[i]) && !SomeNode(node.subIsms[i], Foreign(r))
      {
        assert Good(node.subIsms[i], router, r);
      }
    } else {
      var i :| 0 <= i < n && ResolveSubs(node, r)[i].None?;
      assert Good(node.subIsms[i], router, r);
      assert SomeNode(node.subIsms[i], Foreign(r));
    }
  }

  lemma GoodEntries(t: Table<nat>, router: string, r: string)
    requires t.Table? && forall d :: d in t.entries ==> Good(t.entries[d], router, r)
    ensures GoodTable(t, router, r)
  {
    hide Normalize, ResolveEntries, Resolve, Blank, Matches, SomeNode;
    forall d | d in t.entries ensures ResolveEntries(t, r)[d] == Resolve(t.entries[d], r) {
      EntryAt(t, r, d);
    }
    if ResolveTable(t, r).Some? {
      var t' := ResolveTable(t, r).value;
      forall d | d in t.entries ensures ResolveEntries(t', r)[d] == Some(t'.entries[d]) {
        assert Good(t.entries[d], router, r);
        EntryAt(t', r, d);
      }
      CollectAll(ResolveEntries(t', r), t'.entries);
      BlankEntries(t', t);
    }
  }

  lemma BlankEntries(t: Table<nat>, u: Table<nat>)
    requires t.Table? && u.Table? && t.entries.Keys == u.entries.Keys
    requires forall d :: d in t.entries ==> Blank(t.entries[d]) == Blank(u.entries[d])
    ensures BlankTable(t) == BlankTable(u)
  {
    hide Blank;
    assert BlankTable(t).entries == BlankTable(u).entries;
  }

  /** The loop over the domains of a composite node, in any order. */
  method ResolveDomainRecipients(t: Table<nat>, r: string) returns (result: Option<Table<nat>>)
    ensures result == ResolveTable(t, r)
  {
    hide Resolve, ResolveEntries, Collect;
    if t.Unset? {
      return Some(Unset);
    }
    var resolved: map<nat, Node<nat>> := map[];
    var todo := t.entries.Keys;
    while todo != {}
      invariant todo <= t.entries.Keys && resolved.Keys == t.entries.Keys - todo
      invariant forall d :: d in resolved ==> ResolveEntries(t, r)[d] == Some(resolved[d])
      decreases |todo|
    {
      var d :| d in todo;
      EntryAt(t, r, d);
      var node := Resolve(t.entries[d], r);
      if node.None? {
        CollectNone(ResolveEntries(t, r), d);
        return None;
      }
      resolved := resolved[d := node.value];
      todo := todo - {d};
    }
    CollectAll(ResolveEntries(t, r), resolved);
    result := Some(Table(resolved));
  }
}
