/**
 * `convertToChartData`: turns an entity-relationship record (a main entity,
 * related entities grouped by relation type, relationships between them and
 * a property bag) into the record a graph chart draws (numbered nodes, links
 * between node numbers, de-duplicated categories and merged attributes).
 */
module DataTransformer {
  import opened Wrappers
  import opened FirstOccurrences
  import Decimal

  /** An original entity id: a JavaScript number (integral) or string. */
  datatype Id = Num(n: int) | Str(s: string)
  {
    /** `id.toString()` */
    function ToString(): string
    {
      match this
      case Num(n) => Decimal.IntToString(n)
      case Str(s) => s
    }
  }

  /** An entity: its `id`, `properties.name` and its optional `type`. */
  datatype Entity = Entity(id: Id, name: string, entityType: Option<string>)

  /** One entry of `relatedEntities`: a relation type and its entities. */
  datatype RelationGroup = RelationGroup(relationType: string, entities: seq<Entity>)

  /** A relationship: `sourceNodeId`, `targetNodeId` and `type`. */
  datatype Relationship = Relationship(sourceNodeId: Id, targetNodeId: Id, relationType: string)

  /**
   * The input record. `relatedEntities` lists the groups in the order
   * `Object.keys` enumerates them; `properties` is the top-level property bag.
   */
  datatype OriginalData = OriginalData(
    entity: Entity,
    relatedEntities: seq<RelationGroup>,
    relationships: seq<Relationship>,
    properties: map<string, string>)

  datatype Node = Node(id: nat, name: string, symbolSize: nat, category: string)
  datatype Link = Link(source: string, target: string, linkLabel: string)
  datatype Category = Category(name: string)

  /** One chart; an attribute that is `None` is present with value `undefined`. */
  datatype Chart = Chart(
    id: int,
    nodes: seq<Node>,
    links: seq<Link>,
    categories: seq<Category>,
    attributes: map<string, Option<string>>)

  datatype ChartResult = ChartResult(chartData: seq<Chart>)

  const MainNodeId: nat := 0
  const MainSymbolSize: nat := 100
  const RelatedSymbolSize: nat := 75
  const MainCategory: string := "主节点"
  const DefaultCategory: string := "默认分类"
  const ChartId: int := 1

  function IdOf(e: Entity): Id { e.id }

  /** `entity.type || "默认分类"`: a missing or empty type falls back to the default. */
  function CategoryOf(e: Entity): (c: string)
    ensures |c| > 0
    ensures e.entityType.Some? && e.entityType.value != "" ==> c == e.entityType.value
    ensures e.entityType == None || e.entityType == Some("") ==> c == DefaultCategory
  {
    match e.entityType
    case Some(t) => if t != "" then t else DefaultCategory
    case None => DefaultCategory
  }

  function MainNode(e: Entity): Node
  {
    Node(MainNodeId, e.name, MainSymbolSize, MainCategory)
  }

  function RelatedNode(e: Entity, index: nat): Node
  {
    Node(index, e.name, RelatedSymbolSize, CategoryOf(e))
  }

  /** The related entities in visiting order: group by group, each in array order. */
  function Flatten(groups: seq<RelationGroup>): seq<Entity>
  {
    if |groups| == 0 then []
    else Flatten(groups[..|groups| - 1]) + groups[|groups| - 1].entities
  }

  /** Every entity the conversion looks at, in order: the main one first. */
  function Visited(data: OriginalData): seq<Entity>
  {
    [data.entity] + Flatten(data.relatedEntities)
  }

  /** The entities that get a node: the first one seen for every id. */
  function Unique(data: OriginalData): seq<Entity>
  {
    Dedup(Visited(data), IdOf)
  }

  /** The nodes of a sequence of entities: the first is the main node, the rest are numbered by position. */
  function NodesOf(u: seq<Entity>): seq<Node>
  {
    seq(|u|, i requires 0 <= i < |u| => if i == 0 then MainNode(u[0]) else RelatedNode(u[i], i))
  }

  /** `nodeMap` after the entities of `u` have been given numbers 0, 1, ... in order. */
  function IdMap(u: seq<Entity>): map<Id, nat>
  {
    if |u| == 0 then map[] else IdMap(u[..|u| - 1])[u[|u| - 1].id := |u| - 1]
  }

  function CategoryNames(nodes: seq<Node>): seq<string>
  {
    seq(|nodes|, i requires 0 <= i < |nodes| => nodes[i].category)
  }

  /** `Array.from(categoriesSet).map(categoryName => ({ name: categoryName }))` */
  function ToCategories(names: seq<string>): seq<Category>
  {
    seq(|names|, i requires 0 <= i < |names| => Category(names[i]))
  }

  /**
   * The link for one relationship, if both ends are numbered. The source is
   * looked up by its raw id, the target by the string form of its id.
   */
  function LinkFor(nodeMap: map<Id, nat>, relation: Relationship): Option<Link>
  {
    var sourceNewId := Get(nodeMap, relation.sourceNodeId);
    var targetNewId := Get(nodeMap, Str(relation.targetNodeId.ToString()));
    if sourceNewId.Some? && targetNewId.Some? then
      Some(Link(Decimal.NatToString(sourceNewId.value), Decimal.NatToString(targetNewId.value), relation.relationType))
    else
      None
  }

  /** The links of a sequence of relationships, in their order. */
  function LinksOf(nodeMap: map<Id, nat>, relationships: seq<Relationship>): seq<Link>
  {
    if |relationships| == 0 then []
    else
      var links := LinksOf(nodeMap, relationships[..|relationships| - 1]);
      match LinkFor(nodeMap, relationships[|relationships| - 1])
      case Some(link) => links + [link]
      case None => links
  }

  /**
   * `{ name: p.name, description: p.description, ...p }`: both explicit keys
   * are always present, and every key of `p` is copied over them.
   */
  function MergeAttributes(p: map<string, string>): (r: map<string, Option<string>>)
    ensures r.Keys == p.Keys + {"name", "description"}
    ensures forall k :: k in p ==> r[k] == Some(p[k])
    ensures forall k :: k in r && k !in p ==> r[k] == None
  {
    map["name" := Get(p, "name"), "description" := Get(p, "description")]
      + map k | k in p :: Some(p[k])
  }

  /** The whole conversion, as a function of its input. */
  function Convert(data: OriginalData): ChartResult
  {
    var u := Unique(data);
    var nodes := NodesOf(u);
    var links := LinksOf(IdMap(u), data.relationships);
    var categories := ToCategories(Dedup(CategoryNames(nodes), Self));
    ChartResult([Chart(ChartId, nodes, links, categories, MergeAttributes(data.properties))])
  }

  /** What the main-entity setup and the related-entity loop have built after visiting the entities `visited`. */
  ghost predicate Built(visited: seq<Entity>, b: Builder)
  {
    var u := Dedup(visited, IdOf);
    && b.nodes == NodesOf(u)
    && b.nodeMap == IdMap(u)
    && b.categoriesSet == Dedup(CategoryNames(b.nodes), Self)
  }

  lemma {:induction false} IdMapKeys(u: seq<Entity>)
    ensures IdMap(u).Keys == KeysOf(u, IdOf)
    decreases |u|
  {
    if |u| > 0 {
      var init, x := u[..|u| - 1], u[|u| - 1];
      assert u == init + [x];
      IdMapKeys(init);
      KeysOfSnoc(init, x, IdOf);
    }
  }

  /** Every number in the map is below the length of `u`, and every element of `u` maps to its position. */
  lemma {:induction false} IdMapIndices(u: seq<Entity>)
    requires DistinctKeys(u, IdOf)
    ensures forall k :: k in IdMap(u) ==> IdMap(u)[k] < |u|
    ensures forall i :: 0 <= i < |u| ==> u[i].id in IdMap(u) && IdMap(u)[u[i].id] == i
    decreases |u|
  {
    if |u| > 0 {
      var init, x := u[..|u| - 1], u[|u| - 1];
      assert DistinctKeys(init, IdOf) by {
        forall i, j | 0 <= i < j < |init| ensures IdOf(init[i]) != IdOf(init[j]) {
          assert init[i] == u[i] && init[j] == u[j];
        }
      }
      IdMapIndices(init);
      forall i | 0 <= i < |u| - 1 ensures u[i].id != x.id {
        assert IdOf(u[i]) != IdOf(u[|u| - 1]);
      }
    }
  }

  /** Distinct ids get distinct numbers. */
  lemma IdMapInjective(u: seq<Entity>)
    requires DistinctKeys(u, IdOf)
    ensures forall k :: k in IdMap(u) ==> IdMap(u)[k] < |u| && u[IdMap(u)[k]].id == k
    ensures forall k, k' :: k in IdMap(u) && k' in IdMap(u) && k != k' ==> IdMap(u)[k] != IdMap(u)[k']
  {
    IdMapKeys(u);
    IdMapIndices(u);
    forall k | k in IdMap(u) ensures u[IdMap(u)[k]].id == k {
      var i :| 0 <= i < |u| && IdOf(u[i]) == k;
      assert u[i].id == k;
    }
  }

  lemma KeysOfSelf(names: seq<string>, c: string)
    ensures c in KeysOf(names, Self) <==> c in names
  {
    if c in names {
      var i :| 0 <= i < |names| && names[i] == c;
      assert Self(names[i]) in KeysOf(names, Self);
    }
  }

  /** Adding a name to `categoriesSet`, as `Set.prototype.add` does. */
  lemma AddCategory(names: seq<string>, c: string)
    ensures Dedup(names + [c], Self) ==
            if c in Dedup(names, Self) then Dedup(names, Self) else Dedup(names, Self) + [c]
  {
    DedupSnoc(names, c, Self);
    KeysOfSelf(names, c);
    KeysOfSelf(Dedup(names, Self), c);
  }

  lemma NodesOfSnoc(u: seq<Entity>, e: Entity)
    requires |u| > 0
    ensures NodesOf(u + [e]) == NodesOf(u) + [RelatedNode(e, |u|)]
  {
  }

  lemma CategoryNamesSnoc(nodes: seq<Node>, node: Node)
    ensures CategoryNames(nodes + [node]) == CategoryNames(nodes) + [node.category]
  {
  }

  /** The main-entity setup, with no related entity visited yet. */
  lemma VisitMainEntity(main: Entity)
    ensures Built([main], Start(main))
  {
    assert [main][..0] == [];
    assert [MainCategory][..0] == [];
    assert CategoryNames([MainNode(main)]) == [MainCategory];
  }

  lemma FlattenSnoc(groups: seq<RelationGroup>, g: nat)
    requires g < |groups|
    ensures Flatten(groups[..g + 1]) == Flatten(groups[..g]) + groups[g].entities
  {
    assert groups[..g + 1][..g] == groups[..g];
  }

  /** One entity visited by the inner related-entity loop. */
  lemma VisitEntity(visited: seq<Entity>, b: Builder, e: Entity)
    requires |visited| > 0
    requires Built(visited, b)
    ensures Built(visited + [e], Visit(b, e))
  {
    var u := Dedup(visited, IdOf);
    IdMapKeys(u);
    DedupSnoc(visited, e, IdOf);
    if e.id !in b.nodeMap {
      VisitNewEntity(u, b, e);
    }
  }

  /** An entity with a new id becomes the next node and may bring a new category. */
  lemma VisitNewEntity(u: seq<Entity>, b: Builder, e: Entity)
    requires |u| > 0
    requires b.nodes == NodesOf(u) && b.nodeMap == IdMap(u)
    requires b.categoriesSet == Dedup(CategoryNames(b.nodes), Self)
    ensures var b' := Visit(b, e);
            e.id !in b.nodeMap ==>
              b'.nodes == NodesOf(u + [e]) && b'.nodeMap == IdMap(u + [e]) &&
              b'.categoriesSet == Dedup(CategoryNames(b'.nodes), Self)
  {
    if e.id !in b.nodeMap {
      var node := RelatedNode(e, |b.nodes|);
      NodesOfSnoc(u, e);
      CategoryNamesSnoc(b.nodes, node);
      AddCategory(CategoryNames(b.nodes), node.category);
    }
  }

  /** The three things the node-building code updates: `nodeMap`, `nodes` and `categoriesSet`. */
  datatype Builder = Builder(nodeMap: map<Id, nat>, nodes: seq<Node>, categoriesSet: seq<string>)

  /** The main-entity setup: the main entity is node 0, of the main category. */
  function Start(main: Entity): Builder
  {
    Builder(map[main.id := MainNodeId], [MainNode(main)], [MainCategory])
  }

  /** One pass of the inner related-entity loop. */
  function Visit(b: Builder, e: Entity): Builder
  {
    if e.id in b.nodeMap then b
    else
      var node := RelatedNode(e, |b.nodes|);
      Builder(b.nodeMap[e.id := |b.nodes|], b.nodes + [node],
              if node.category in b.categoriesSet then b.categoriesSet else b.categoriesSet + [node.category])
  }

  function VisitAll(b: Builder, es: seq<Entity>): Builder
  {
    if |es| == 0 then b else Visit(VisitAll(b, es[..|es| - 1]), es[|es| - 1])
  }

  lemma {:induction false} VisitAllAppend(b: Builder, s: seq<Entity>, t: seq<Entity>)
    ensures VisitAll(VisitAll(b, s), t) == VisitAll(b, s + t)
    decreases |t|
  {
    if |t| == 0 {
      assert s + t == s;
    } else {
      assert (s + t)[..|s + t| - 1] == s + t[..|t| - 1];
      assert (s + t)[|s + t| - 1] == t[|t| - 1];
      VisitAllAppend(b, s, t[..|t| - 1]);
    }
  }

  /** Visiting entities one by one builds the nodes of their first occurrences. */
  lemma {:induction false} VisitAllBuilds(main: Entity, s: seq<Entity>)
    ensures Built([main] + s, VisitAll(Start(main), s))
    decreases |s|
  {
    if |s| == 0 {
      VisitMainEntity(main);
    } else {
      var init, e := s[..|s| - 1], s[|s| - 1];
      assert s == init + [e];
      assert [main] + s == [main] + init + [e];
      VisitAllBuilds(main, init);
      VisitEntity([main] + init, VisitAll(Start(main), init), e);
    }
  }

  /**
   * The inner related-entity loop, over the entities of one relation type: each
   * entity whose id is not yet in `nodeMap` gets the number `relatedNodeIndex`,
   * which then moves on. The counter is shared by all relation types, so it
   * comes in and goes out with the rest of the state.
   */
  method AddGroupNodes(entities: seq<Entity>, nodeMap0: map<Id, nat>, nodes0: seq<Node>, categoriesSet0: seq<string>,
                       relatedNodeIndex0: nat)
    returns (nodeMap: map<Id, nat>, nodes: seq<Node>, categoriesSet: seq<string>, relatedNodeIndex: nat)
    requires relatedNodeIndex0 == |nodes0|
    ensures Builder(nodeMap, nodes, categoriesSet) == VisitAll(Builder(nodeMap0, nodes0, categoriesSet0), entities)
    ensures relatedNodeIndex == |nodes|
  {
    nodeMap, nodes, categoriesSet, relatedNodeIndex := nodeMap0, nodes0, categoriesSet0, relatedNodeIndex0;
    var k := 0;
    while k < |entities|
      invariant 0 <= k <= |entities|
      invariant Builder(nodeMap, nodes, categoriesSet) == VisitAll(Builder(nodeMap0, nodes0, categoriesSet0), entities[..k])
      invariant relatedNodeIndex == |nodes|
    {
      var entity := entities[k];
      if entity.id !in nodeMap {
        var node := RelatedNode(entity, relatedNodeIndex);
        nodes := nodes + [node];
        nodeMap := nodeMap[entity.id := relatedNodeIndex];
        if node.category !in categoriesSet {
          categoriesSet := categoriesSet + [node.category];
        }
        relatedNodeIndex := relatedNodeIndex + 1;
      }
      assert entities[..k + 1][..k] == entities[..k];
      k := k + 1;
    }
    assert entities[..k] == entities;
  }

  /**
   * The main-entity setup and the related-entity loop: number the main entity 0 and every related entity whose
   * id is new 1, 2, ... in visiting order, recording each category once.
   */
  method AddNodes(mainEntity: Entity, relatedEntities: seq<RelationGroup>)
    returns (nodeMap: map<Id, nat>, nodes: seq<Node>, categoriesSet: seq<string>)
    ensures Built([mainEntity] + Flatten(relatedEntities), Builder(nodeMap, nodes, categoriesSet))
    ensures forall k :: k in nodeMap ==> nodeMap[k] < |nodes|
  {
    nodes := [MainNode(mainEntity)];
    nodeMap := map[mainEntity.id := MainNodeId];
    categoriesSet := [MainCategory];
    var relatedNodeIndex: nat := 1;
    assert relatedEntities[..0] == [];
    var g := 0;
    while g < |relatedEntities|
      invariant 0 <= g <= |relatedEntities|
      invariant Builder(nodeMap, nodes, categoriesSet) == VisitAll(Start(mainEntity), Flatten(relatedEntities[..g]))
      invariant relatedNodeIndex == |nodes|
    {
      FlattenSnoc(relatedEntities, g);
      VisitAllAppend(Start(mainEntity), Flatten(relatedEntities[..g]), relatedEntities[g].entities);
      nodeMap, nodes, categoriesSet, relatedNodeIndex :=
        AddGroupNodes(relatedEntities[g].entities, nodeMap, nodes, categoriesSet, relatedNodeIndex);
      g := g + 1;
    }
    assert relatedEntities[..g] == relatedEntities;
    VisitAllBuilds(mainEntity, Flatten(relatedEntities));
    IdMapIndices(Dedup([mainEntity] + Flatten(relatedEntities), IdOf));
  }

  /** The link loop: one link per relationship whose two ends are numbered, in order. */
  method AddLinks(nodeMap: map<Id, nat>, relationships: seq<Relationship>) returns (links: seq<Link>)
    ensures links == LinksOf(nodeMap, relationships)
  {
    links := [];
    var i := 0;
    while i < |relationships|
      invariant 0 <= i <= |relationships|
      invariant links == LinksOf(nodeMap, relationships[..i])
    {
      var relation := relationships[i];
      var sourceNewId := Get(nodeMap, relation.sourceNodeId);
      var targetNewId := Get(nodeMap, Str(relation.targetNodeId.ToString()));
      if sourceNewId.Some? && targetNewId.Some? {
        links := links + [Link(Decimal.NatToString(sourceNewId.value),
                               Decimal.NatToString(targetNewId.value),
                               relation.relationType)];
      }
      assert relationships[..i + 1][..i] == relationships[..i];
      i := i + 1;
    }
    assert relationships[..i] == relationships;
  }

  /** `convertToChartData(originalData)` */
  method ConvertToChartData(originalData: OriginalData) returns (result: ChartResult)
    ensures result == Convert(originalData)
    ensures |result.chartData| == 1 && result.chartData[0].id == ChartId
    ensures result.chartData[0].attributes == MergeAttributes(originalData.properties)
  {
    var nodeMap, nodes, categoriesSet := AddNodes(originalData.entity, originalData.relatedEntities);
    var links := AddLinks(nodeMap, originalData.relationships);
    var categories := ToCategories(categoriesSet);
    var attributes := MergeAttributes(originalData.properties);
    result := ChartResult([Chart(ChartId, nodes, links, categories, attributes)]);
  }
}
