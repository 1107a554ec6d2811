/**
 * The data preparation of the political linkages hypergraph view
 * (app/components/political-linkages.tsx): the set of valid node ids, the entity nodes,
 * the hyperedge nodes and member connectors handed to the rendering engine, the colour
 * and width rules, and the connection counts shown beside the graph.
 */
module PoliticalLinkages {
  import opened Wrappers
  import opened Seqs

  datatype Associate = Associate(id: string, name: string, position: string, photo: string)

  datatype Politician = Politician(id: string, name: string, position: string)

  /** A named relationship among several entities; `kind` is the TypeScript `type` field and `caption` its `label` (a Dafny keyword). */
  datatype HyperEdge = HyperEdge(
    id: string, caption: string, kind: string, members: seq<string>, strength: real, description: string)

  /** The `type` of an entity node: `"main"` or `"associate"`. */
  datatype EntityKind = Main | Associated

  datatype EntityNode = EntityNode(id: string, caption: string, kind: EntityKind, position: string)

  /** A node of type `"hyperedge"`; `edgeType` carries the hyperedge's own type. */
  datatype HyperNode = HyperNode(id: string, caption: string, edgeType: string, strength: real, description: string)

  /** An edge from a member to its hyperedge node. */
  datatype Connector = Connector(id: string, source: string, target: string, strength: real)

  /** The elements given to the rendering engine: `[...nodes, ...hyperNodes, ...edges]`. */
  datatype Graph = Graph(nodes: seq<EntityNode>, hyperNodes: seq<HyperNode>, edges: seq<Connector>)

  const EdgeTypes: set<string> := {"committee", "event", "funding", "family", "business", "party"}

  // ---------------------------------------------------------------------------------------
  // Node universe
  // ---------------------------------------------------------------------------------------

  /** JavaScript's `x || d` on an optional string: `undefined` and `""` are falsy. */
  function OrElse(x: Option<string>, d: string): string {
    if x.Some? && x.value != "" then x.value else d
  }

  function MainId(politician: Option<Politician>): string {
    OrElse(if politician.Some? then Some(politician.value.id) else None, "main")
  }

  /** `new Set([politician?.id || "main", ...associates.map((a) => a.id)])` */
  function ValidIds(politician: Option<Politician>, associates: seq<Associate>): (ids: set<string>)
    ensures MainId(politician) in ids
    ensures forall i :: 0 <= i < |associates| ==> associates[i].id in ids
    ensures forall x :: x in ids ==> x == MainId(politician) || exists i :: 0 <= i < |associates| && associates[i].id == x
  {
    {MainId(politician)} + set a | a in associates :: a.id
  }

  function MainNode(politician: Option<Politician>): EntityNode {
    var p := politician;
    EntityNode(
      MainId(p),
      OrElse(if p.Some? then Some(p.value.name) else None, "Main Politician"),
      Main,
      OrElse(if p.Some? then Some(p.value.position) else None, "Position"))
  }

  function AssociateNode(a: Associate): EntityNode {
    EntityNode(a.id, a.name, Associated, a.position)
  }

  /** The main node followed by one node per associate, in input order. */
  function EntityNodes(politician: Option<Politician>, associates: seq<Associate>): (nodes: seq<EntityNode>)
    ensures |nodes| == |associates| + 1
    ensures nodes[0] == MainNode(politician) && nodes[0].kind == Main
    ensures forall i :: 0 <= i < |associates| ==>
      nodes[i + 1].id == associates[i].id && nodes[i + 1].caption == associates[i].name &&
      nodes[i + 1].position == associates[i].position && nodes[i + 1].kind == Associated
  {
    var rest := Map(AssociateNode, associates);
    assert forall i :: 0 <= i < |associates| ==> ([MainNode(politician)] + rest)[i + 1] == rest[i];
    [MainNode(politician)] + rest
  }

  /** The ids carried by the entity nodes are exactly the valid node ids. */
  lemma EntityNodeIdsAreValidIds(politician: Option<Politician>, associates: seq<Associate>)
    ensures (set n | n in EntityNodes(politician, associates) :: n.id) == ValidIds(politician, associates)
  {
    var nodes := EntityNodes(politician, associates);
    var ids := set n | n in nodes :: n.id;
    forall x | x in ValidIds(politician, associates) ensures x in ids {
      if x != MainId(politician) {
        var i :| 0 <= i < |associates| && associates[i].id == x;
        assert nodes[i + 1] in nodes;
      } else {
        assert nodes[0] in nodes;
      }
    }
    forall x | x in ids ensures x in ValidIds(politician, associates) {
      var n :| n in nodes && n.id == x;
      var k :| 0 <= k < |nodes| && nodes[k] == n;
      if k > 0 {
        assert associates[k - 1].id == x;
      }
    }
  }

  // ---------------------------------------------------------------------------------------
  // Relationship resolver
  // ---------------------------------------------------------------------------------------

  /** The type filter: `filterType === "all" || filterType === hyperEdge.type`. */
  predicate PassesFilter(filterType: string, he: HyperEdge) {
    filterType == "all" || filterType == he.kind
  }

  function InSet(valid: set<string>): string -> bool {
    (m: string) => m in valid
  }

  /** `hyperEdge.members.filter((memberId) => validNodeIds.has(memberId))` */
  function ValidMembers(members: seq<string>, valid: set<string>): seq<string> {
    Filter(members, InSet(valid))
  }

  function IsEmitted(valid: set<string>, filterType: string): HyperEdge -> bool {
    (he: HyperEdge) => PassesFilter(filterType, he) && |ValidMembers(he.members, valid)| >= 2
  }

  /** The hyperedges that the graph build materialises, in input order. */
  function Surviving(hes: seq<HyperEdge>, valid: set<string>, filterType: string): seq<HyperEdge> {
    Filter(hes, IsEmitted(valid, filterType))
  }

  function HyperNodeOf(he: HyperEdge): HyperNode {
    HyperNode(he.id, he.caption, he.kind, he.strength, he.description)
  }

  function HyperNodes(survivors: seq<HyperEdge>): seq<HyperNode> {
    Map(HyperNodeOf, survivors)
  }

  /** The connector `${he.id}-${memberId}` from a member to its hyperedge node. */
  function ConnectorFor(he: HyperEdge, memberId: string): Connector {
    Connector(he.id + "-" + memberId, memberId, he.id, he.strength)
  }

  /** One connector per member, in member order. */
  function Links(he: HyperEdge, members: seq<string>): seq<Connector> {
    Map((m: string) => ConnectorFor(he, m), members)
  }

  /** One more member adds its connector at the end. */
  lemma LinksStep(he: HyperEdge, members: seq<string>, j: nat)
    requires j < |members|
    ensures Links(he, members[..j + 1]) == Links(he, members[..j]) + [ConnectorFor(he, members[j])]
  {
    assert members[..j + 1] == members[..j] + [members[j]];
    MapAppend((m: string) => ConnectorFor(he, m), members[..j], [members[j]]);
  }

  /** The connectors of all survivors, hyperedge by hyperedge. */
  function Connectors(survivors: seq<HyperEdge>, valid: set<string>): seq<Connector> {
    if survivors == [] then []
    else Links(survivors[0], ValidMembers(survivors[0].members, valid)) + Connectors(survivors[1..], valid)
  }

  /** The graph description the effect at political-linkages.tsx:108-167 produces. */
  function GraphOf(politician: Option<Politician>, associates: seq<Associate>, hes: seq<HyperEdge>, filterType: string): Graph {
    var valid := ValidIds(politician, associates);
    var survivors := Surviving(hes, valid, filterType);
    Graph(EntityNodes(politician, associates), HyperNodes(survivors), Connectors(survivors, valid))
  }

  lemma {:induction false} ConnectorsAppend(a: seq<HyperEdge>, b: seq<HyperEdge>, valid: set<string>)
    ensures Connectors(a + b, valid) == Connectors(a, valid) + Connectors(b, valid)
  {
    if a == [] {
      assert a + b == b;
    } else {
      assert (a + b)[1..] == a[1..] + b;
      ConnectorsAppend(a[1..], b, valid);
    }
  }

  /** One more hyperedge extends the survivors by that hyperedge exactly when it is emitted. */
  lemma SurvivingStep(hes: seq<HyperEdge>, i: nat, valid: set<string>, filterType: string)
    requires i < |hes|
    ensures Surviving(hes[..i + 1], valid, filterType) ==
      Surviving(hes[..i], valid, filterType) + (if IsEmitted(valid, filterType)(hes[i]) then [hes[i]] else [])
  {
    assert hes[..i + 1] == hes[..i] + [hes[i]];
    FilterAppend(hes[..i], [hes[i]], IsEmitted(valid, filterType));
  }

  /** Emitting one more hyperedge appends its node and its connectors. */
  lemma EmitStep(done: seq<HyperEdge>, he: HyperEdge, valid: set<string>)
    ensures HyperNodes(done + [he]) == HyperNodes(done) + [HyperNodeOf(he)]
    ensures Connectors(done + [he], valid) == Connectors(done, valid) + Links(he, ValidMembers(he.members, valid))
  {
    MapAppend(HyperNodeOf, done, [he]);
    ConnectorsAppend(done, [he], valid);
    assert [he][1..] == [];
  }

  /**
   * The graph build: the entity nodes, then for each hyperedge that passes the type filter
   * and keeps at least two valid members, one hyperedge node and one connector per valid
   * member, pushed in order into `hyperNodes` and `edges`.
   */
  method BuildGraph(politician: Option<Politician>, associates: seq<Associate>, hyperEdges: seq<HyperEdge>, filterType: string)
    returns (g: Graph)
    ensures g == GraphOf(politician, associates, hyperEdges, filterType)
  {
    var validNodeIds := ValidIds(politician, associates);
    var nodes := EntityNodes(politician, associates);
    var hyperNodes: seq<HyperNode> := [];
    var edges: seq<Connector> := [];
    var i := 0;
    while i < |hyperEdges|
      invariant 0 <= i <= |hyperEdges|
      invariant hyperNodes == HyperNodes(Surviving(hyperEdges[..i], validNodeIds, filterType))
      invariant edges == Connectors(Surviving(hyperEdges[..i], validNodeIds, filterType), validNodeIds)
    {
      var hyperEdge := hyperEdges[i];
      ghost var done := Surviving(hyperEdges[..i], validNodeIds, filterType);
      SurvivingStep(hyperEdges, i, validNodeIds, filterType);
      if filterType == "all" || filterType == hyperEdge.kind {
        var validMembers := ValidMembers(hyperEdge.members, validNodeIds);
        if |validMembers| >= 2 {
          EmitStep(done, hyperEdge, validNodeIds);
          hyperNodes := hyperNodes + [HyperNodeOf(hyperEdge)];
          var j := 0;
          while j < |validMembers|
            invariant 0 <= j <= |validMembers|
            invariant edges == Connectors(done, validNodeIds) + Links(hyperEdge, validMembers[..j])
          {
            LinksStep(hyperEdge, validMembers, j);
            edges := edges + [ConnectorFor(hyperEdge, validMembers[j])];
            j := j + 1;
          }
          assert validMembers[..j] == validMembers;
          assert Surviving(hyperEdges[..i + 1], validNodeIds, filterType) == done + [hyperEdge];
        } else {
          assert Surviving(hyperEdges[..i + 1], validNodeIds, filterType) == done;
        }
      } else {
        assert Surviving(hyperEdges[..i + 1], validNodeIds, filterType) == done;
      }
      i := i + 1;
    }
    assert hyperEdges[..i] == hyperEdges;
    g := Graph(nodes, hyperNodes, edges);
  }

  // ---------------------------------------------------------------------------------------
  // Properties of the graph description
  // ---------------------------------------------------------------------------------------

  /** The valid members of a hyperedge are its members that are valid ids, in member order. */
  lemma ValidMembersSpec(members: seq<string>, valid: set<string>)
    ensures IsSubsequence(ValidMembers(members, valid), members)
    ensures forall m :: m in ValidMembers(members, valid) <==> m in members && m in valid
    ensures forall m :: multiset(ValidMembers(members, valid))[m] ==
                        if m in valid then multiset(members)[m] else 0
  {
    FilterIsSubsequence(members, InSet(valid));
    FilterMembers(members, InSet(valid));
    forall m ensures multiset(ValidMembers(members, valid))[m] == if m in valid then multiset(members)[m] else 0 {
      FilterMultiplicity(members, InSet(valid), m);
    }
  }

  /**
   * A hyperedge is materialised iff it passes the type filter and at least two of its
   * members are valid; the survivors keep the input order.
   */
  lemma SurvivingSpec(hes: seq<HyperEdge>, valid: set<string>, filterType: string)
    ensures IsSubsequence(Surviving(hes, valid, filterType), hes)
    ensures forall i :: 0 <= i < |hes| ==>
      (hes[i] in Surviving(hes, valid, filterType) <==>
        PassesFilter(filterType, hes[i]) && |ValidMembers(hes[i].members, valid)| >= 2)
  {
    FilterIsSubsequence(hes, IsEmitted(valid, filterType));
    FilterMembers(hes, IsEmitted(valid, filterType));
  }

  /** Hyperedge nodes copy id, label, type, strength and description of the survivors, in order. */
  lemma HyperNodesCopy(survivors: seq<HyperEdge>)
    ensures |HyperNodes(survivors)| == |survivors|
    ensures forall k :: 0 <= k < |survivors| ==>
      var n := HyperNodes(survivors)[k];
      n.id == survivors[k].id && n.caption == survivors[k].caption && n.edgeType == survivors[k].kind &&
      n.strength == survivors[k].strength && n.description == survivors[k].description
  {
  }

  /** Duplicated hyperedges survive with all their copies, or with none. */
  lemma SurvivingMultiplicity(hes: seq<HyperEdge>, valid: set<string>, filterType: string)
    ensures forall he :: multiset(Surviving(hes, valid, filterType))[he] ==
                         if PassesFilter(filterType, he) && |ValidMembers(he.members, valid)| >= 2
                         then multiset(hes)[he] else 0
  {
    forall he ensures multiset(Surviving(hes, valid, filterType))[he] ==
      if PassesFilter(filterType, he) && |ValidMembers(he.members, valid)| >= 2 then multiset(hes)[he] else 0
    {
      FilterMultiplicity(hes, IsEmitted(valid, filterType), he);
    }
  }

  /** A specific type filter shows a subsequence of what `"all"` shows. */
  lemma FilterNarrows(hes: seq<HyperEdge>, valid: set<string>, filterType: string)
    ensures IsSubsequence(Surviving(hes, valid, filterType), Surviving(hes, valid, "all"))
    ensures |Surviving(hes, valid, filterType)| <= |Surviving(hes, valid, "all")|
    ensures forall he :: he in Surviving(hes, valid, filterType) ==> he in Surviving(hes, valid, "all")
  {
    FilterStronger(hes, IsEmitted(valid, filterType), IsEmitted(valid, "all"));
    FilterMembers(hes, IsEmitted(valid, filterType));
    FilterMembers(hes, IsEmitted(valid, "all"));
    var f, a := Surviving(hes, valid, filterType), Surviving(hes, valid, "all");
    forall he | he in f ensures he in a {
      var k :| 0 <= k < |f| && f[k] == he;
      assert IsEmitted(valid, "all")(f[k]);
    }
  }

  /** Each connector of a hyperedge goes from one of the given members to the hyperedge node. */
  lemma LinksSpec(he: HyperEdge, members: seq<string>)
    ensures |Links(he, members)| == |members|
    ensures forall k :: 0 <= k < |members| ==>
      Links(he, members)[k] == Connector(he.id + "-" + members[k], members[k], he.id, he.strength)
  {
  }

  /** `c` is the connector of one of the valid members of `he`. */
  predicate IsMemberConnector(c: Connector, he: HyperEdge, valid: set<string>) {
    && c.target == he.id && c.strength == he.strength
    && c.source in ValidMembers(he.members, valid) && c.id == he.id + "-" + c.source
  }

  /** Every connector belongs to a survivor and one of its valid members. */
  lemma {:induction false} ConnectorsFromSurvivors(survivors: seq<HyperEdge>, valid: set<string>)
    ensures forall c :: c in Connectors(survivors, valid) ==>
      exists k :: 0 <= k < |survivors| && IsMemberConnector(c, survivors[k], valid)
  {
    if survivors != [] {
      ConnectorsFromSurvivors(survivors[1..], valid);
      var s := survivors[0];
      var ms := ValidMembers(s.members, valid);
      forall c | c in Connectors(survivors, valid)
        ensures exists k :: 0 <= k < |survivors| && IsMemberConnector(c, survivors[k], valid)
      {
        if c in Links(s, ms) {
          var j :| 0 <= j < |ms| && Links(s, ms)[j] == c;
          assert c == ConnectorFor(s, ms[j]);
          assert IsMemberConnector(c, survivors[0], valid);
        } else {
          assert c in Connectors(survivors[1..], valid);
          var k :| 0 <= k < |survivors[1..]| && IsMemberConnector(c, survivors[1..][k], valid);
          assert survivors[k + 1] == survivors[1..][k];
        }
      }
    }
  }

  /** A survivor with at least two valid members contributes at least two connectors. */
  lemma {:induction false} ConnectorCount(survivors: seq<HyperEdge>, valid: set<string>)
    requires forall k :: 0 <= k < |survivors| ==> |ValidMembers(survivors[k].members, valid)| >= 2
    ensures |Connectors(survivors, valid)| >= 2 * |survivors|
  {
    if survivors != [] {
      ConnectorCount(survivors[1..], valid);
    }
  }

  /**
   * No connector of the graph dangles: its source is an entity node and its target a
   * hyperedge node of the same graph. This is what validating the members buys.
   */
  lemma GraphHasNoDanglingConnectors(politician: Option<Politician>, associates: seq<Associate>, hes: seq<HyperEdge>, filterType: string)
    ensures var g := GraphOf(politician, associates, hes, filterType);
      forall c :: c in g.edges ==>
        (exists n :: n in g.nodes && n.id == c.source) && (exists h :: h in g.hyperNodes && h.id == c.target)
    ensures var g := GraphOf(politician, associates, hes, filterType);
      |g.edges| >= 2 * |g.hyperNodes|
  {
    var g := GraphOf(politician, associates, hes, filterType);
    var valid := ValidIds(politician, associates);
    var survivors := Surviving(hes, valid, filterType);
    ConnectorsFromSurvivors(survivors, valid);
    EntityNodeIdsAreValidIds(politician, associates);
    forall c | c in g.edges
      ensures (exists n :: n in g.nodes && n.id == c.source) && (exists h :: h in g.hyperNodes && h.id == c.target)
    {
      var k :| 0 <= k < |survivors| && IsMemberConnector(c, survivors[k], valid);
      FilterMembers(survivors[k].members, InSet(valid));
      assert c.source in valid;
      assert c.source in (set n | n in g.nodes :: n.id);
      assert g.hyperNodes[k] in g.hyperNodes && g.hyperNodes[k].id == c.target;
    }
    FilterMembers(hes, IsEmitted(valid, filterType));
    ConnectorCount(survivors, valid);
  }

  // ---------------------------------------------------------------------------------------
  // Styling rules
  // ---------------------------------------------------------------------------------------

  const FallbackColor := "#6B7280"

  /** `getTypeColor`: the fixed colour of each of the six hyperedge types, grey for anything else. */
  function TypeColor(t: string): (c: string)
    ensures t == "committee" ==> c == "#3B82F6"
    ensures t == "event" ==> c == "#10B981"
    ensures t == "funding" ==> c == "#F59E0B"
    ensures t == "family" ==> c == "#EF4444"
    ensures t == "business" ==> c == "#8B5CF6"
    ensures t == "party" ==> c == "#06B6D4"
    ensures c == FallbackColor <==> t !in EdgeTypes
  {
    if t == "committee" then "#3B82F6"
    else if t == "event" then "#10B981"
    else if t == "funding" then "#F59E0B"
    else if t == "family" then "#EF4444"
    else if t == "business" then "#8B5CF6"
    else if t == "party" then "#06B6D4"
    else FallbackColor
  }

  /** Distinct types get distinct colours, so the legend is unambiguous. */
  lemma TypeColorInjective(t1: string, t2: string)
    requires t1 in EdgeTypes && t2 in EdgeTypes && t1 != t2
    ensures TypeColor(t1) != TypeColor(t2)
  {
  }

  /** The connector width `Math.max(1, strength * 4)`. */
  function EdgeWidth(strength: real): (w: real)
    ensures w >= 1.0 && w >= strength * 4.0
    ensures w == 1.0 || w == strength * 4.0
  {
    if 1.0 >= strength * 4.0 then 1.0 else strength * 4.0
  }

  lemma EdgeWidthMonotone(s1: real, s2: real)
    requires s1 <= s2
    ensures EdgeWidth(s1) <= EdgeWidth(s2)
  {
  }

  // ---------------------------------------------------------------------------------------
  // Connection analysis and associate badges
  // ---------------------------------------------------------------------------------------

  function HasTwoValidMembers(valid: set<string>): HyperEdge -> bool {
    (he: HyperEdge) => |ValidMembers(he.members, valid)| >= 2
  }

  function IsStrong(valid: set<string>): HyperEdge -> bool {
    (he: HyperEdge) => he.strength > 0.8 && |ValidMembers(he.members, valid)| >= 2
  }

  /** "Active Connections": hyperedges with at least two valid members, whatever the type filter. */
  function ActiveConnections(hes: seq<HyperEdge>, valid: set<string>): nat {
    |Filter(hes, HasTwoValidMembers(valid))|
  }

  /** "Strong Connections": active hyperedges whose strength exceeds 0.8. */
  function StrongConnections(hes: seq<HyperEdge>, valid: set<string>): nat {
    |Filter(hes, IsStrong(valid))|
  }

  /**
   * Strong connections are among the active ones; the active count is the number of
   * hyperedges the graph shows under `"all"`, and no type filter shows more.
   */
  lemma ConnectionCounts(hes: seq<HyperEdge>, valid: set<string>, filterType: string)
    ensures StrongConnections(hes, valid) <= ActiveConnections(hes, valid)
    ensures ActiveConnections(hes, valid) == |Surviving(hes, valid, "all")|
    ensures |Surviving(hes, valid, filterType)| <= ActiveConnections(hes, valid)
  {
    FilterStronger(hes, IsStrong(valid), HasTwoValidMembers(valid));
    FilterCongruent(hes, HasTwoValidMembers(valid), IsEmitted(valid, "all"));
    FilterNarrows(hes, valid, filterType);
  }

  /** "Connected Politicians": the associates plus the politician the view is about. */
  function ConnectedPoliticians(associates: seq<Associate>): nat {
    |associates| + 1
  }

  /** The "Connected Politicians" figure is the number of entity nodes in the graph, whatever the filter. */
  lemma ConnectedPoliticiansAreEntityNodes(politician: Option<Politician>, associates: seq<Associate>, hes: seq<HyperEdge>, filterType: string)
    ensures ConnectedPoliticians(associates) == |GraphOf(politician, associates, hes, filterType).nodes|
  {
  }

  /** The badges under an associate card: at most three hyperedges, then "+N more". */
  datatype Badges = Badges(shown: seq<HyperEdge>, more: Option<nat>)

  function HasMember(id: string): HyperEdge -> bool {
    (he: HyperEdge) => id in he.members
  }

  /**
   * `hyperEdges.filter((he) => he.members.includes(associate.id))` sliced to three, with
   * a "+count-3 more" badge when the count exceeds three.
   */
  function AssociateBadges(hes: seq<HyperEdge>, associateId: string): (b: Badges)
    ensures var all := Filter(hes, HasMember(associateId));
      && |b.shown| == (if |all| < 3 then |all| else 3)
      && b.shown == all[..|b.shown|]
      && (b.more.Some? <==> |all| > 3)
      && |b.shown| + b.more.GetOr(0) == |all|
    ensures forall k :: 0 <= k < |b.shown| ==> associateId in b.shown[k].members
  {
    var all := Filter(hes, HasMember(associateId));
    FilterMembers(hes, HasMember(associateId));
    Badges(all[..if |all| < 3 then |all| else 3], if |all| > 3 then Some(|all| - 3) else None)
  }

  // ---------------------------------------------------------------------------------------
  // The component's own data
  // ---------------------------------------------------------------------------------------

  /**
   * Members `["main", "1", "2"]` resolve unchanged against the main id and associates
   * "1", "2", "3"; members `["4", "5"]` resolve to nothing, so such a hyperedge is dropped.
   */
  lemma ResolverExamples(a1: Associate, a2: Associate, a3: Associate)
    requires a1.id == "1" && a2.id == "2" && a3.id == "3"
    ensures ValidMembers(["main", "1", "2"], ValidIds(None, [a1, a2, a3])) == ["main", "1", "2"]
    ensures ValidMembers(["4", "5"], ValidIds(None, [a1, a2, a3])) == []
  {
    var valid := ValidIds(None, [a1, a2, a3]);
    assert "main" in valid && "1" in valid && "2" in valid;
    assert "4" !in valid && "5" !in valid by {
      assert forall x :: x in valid ==> x == "main" || x == "1" || x == "2" || x == "3";
    }
    FilterKeepsAll(["main", "1", "2"], InSet(valid));
    assert ["4", "5"][1..] == ["5"];
  }
}
