/**
 * What `convertToChartData` promises about its result: node numbering,
 * the id map, which links survive, the categories and the attributes.
 */
module ChartProperties {
  import opened Wrappers
  import opened FirstOccurrences
  import opened Decimal
  import opened DataTransformer

  /** The one chart of the result. */
  function ChartOf(data: OriginalData): Chart
  {
    Convert(data).chartData[0]
  }

  /** `nodeMap` once the main entity and the related-entity loop are done. */
  function NodeMapOf(data: OriginalData): map<Id, nat>
  {
    IdMap(Unique(data))
  }

  // ---------------------------------------------------------------- nodes

  /** The first node is the main entity: number 0, size 100, the main category; its id maps to 0. */
  lemma MainNodeFirst(data: OriginalData)
    ensures |ChartOf(data).nodes| >= 1
    ensures ChartOf(data).nodes[0] == Node(0, data.entity.name, 100, "主节点")
    ensures data.entity.id in NodeMapOf(data) && NodeMapOf(data)[data.entity.id] == 0
  {
    IdMapIndices(Unique(data));
  }

  /** Every node's number is its position in `nodes`. */
  lemma NodeIdsArePositions(data: OriginalData)
    ensures forall i :: 0 <= i < |ChartOf(data).nodes| ==> ChartOf(data).nodes[i].id == i
  {
  }

  /**
   * Related nodes 1, 2, ... are the related entities whose id is seen for
   * the first time (and is not the main id), in visiting order: `pos` says
   * where in the flattened `relatedEntities` each comes from.
   */
  lemma RelatedNodesFirstSeen(data: OriginalData) returns (pos: seq<nat>)
    ensures |pos| == |ChartOf(data).nodes| - 1
    ensures forall i :: 0 <= i < |pos| ==>
              var rel := Flatten(data.relatedEntities);
              && pos[i] < |rel|
              && ChartOf(data).nodes[i + 1] == RelatedNode(rel[pos[i]], i + 1)
              && rel[pos[i]].id != data.entity.id
              && forall j :: 0 <= j < pos[i] ==> rel[j].id != rel[pos[i]].id
    ensures forall i, i' :: 0 <= i < i' < |pos| ==> pos[i] < pos[i']
    ensures forall j :: 0 <= j < |Flatten(data.relatedEntities)| ==>
              var rel := Flatten(data.relatedEntities);
              rel[j].id != data.entity.id && (forall j' :: 0 <= j' < j ==> rel[j'].id != rel[j].id)
              ==> j in pos
  {
    var rel := Flatten(data.relatedEntities);
    var u := Unique(data);
    assert ChartOf(data).nodes == NodesOf(u);
    assert u == Dedup([data.entity] + rel, IdOf);
    pos := FirstSeenAfterMain(data.entity, rel);
    RelatedNodesAt(u, rel, pos);
  }

  /** Node `i + 1` is the related node made from the entity at `pos[i]`. */
  lemma RelatedNodesAt(u: seq<Entity>, rel: seq<Entity>, pos: seq<nat>)
    requires |pos| == |u| - 1
    requires forall i :: 0 <= i < |pos| ==> pos[i] < |rel| && u[i + 1] == rel[pos[i]]
    ensures forall i :: 0 <= i < |pos| ==> NodesOf(u)[i + 1] == RelatedNode(rel[pos[i]], i + 1)
  {
  }

  /** `RelatedNodesFirstSeen` for any main entity and any related entities. */
  lemma FirstSeenAfterMain(main: Entity, rel: seq<Entity>) returns (pos: seq<nat>)
    ensures |pos| == |Dedup([main] + rel, IdOf)| - 1
    ensures forall i :: 0 <= i < |pos| ==>
              && pos[i] < |rel|
              && Dedup([main] + rel, IdOf)[i + 1] == rel[pos[i]]
              && rel[pos[i]].id != main.id
              && forall j :: 0 <= j < pos[i] ==> rel[j].id != rel[pos[i]].id
    ensures forall i, i' :: 0 <= i < i' < |pos| ==> pos[i] < pos[i']
    ensures forall j :: 0 <= j < |rel| ==>
              rel[j].id != main.id && (forall j' :: 0 <= j' < j ==> rel[j'].id != rel[j].id)
              ==> j in pos
  {
    var p := DedupPositions([main] + rel, IdOf);
    pos := ShiftPositions(main, rel, Dedup([main] + rel, IdOf), p);
  }

  lemma ShiftPositions(main: Entity, rel: seq<Entity>, u: seq<Entity>, p: seq<nat>) returns (pos: seq<nat>)
    requires FirstOccurrencesAt([main] + rel, IdOf, u, p)
    ensures |pos| == |u| - 1
    ensures forall i :: 0 <= i < |pos| ==>
              && pos[i] < |rel|
              && u[i + 1] == rel[pos[i]]
              && rel[pos[i]].id != main.id
              && forall j :: 0 <= j < pos[i] ==> rel[j].id != rel[pos[i]].id
    ensures forall i, i' :: 0 <= i < i' < |pos| ==> pos[i] < pos[i']
    ensures forall j :: 0 <= j < |rel| ==>
              rel[j].id != main.id && (forall j' :: 0 <= j' < j ==> rel[j'].id != rel[j].id)
              ==> j in pos
  {
    ShiftedFirsts(main, rel, u, p);
    ShiftedComplete(main, rel, u, p);
    pos := seq(|p| - 1, i requires 0 <= i < |p| - 1 => p[i + 1] - 1);
    ShiftedEntries(main, rel, u, p, pos);
    ShiftedOrder(p, pos);
    ShiftedCover(main, rel, p, pos);
  }

  /** `pos` is `p` without its first element, every position one lower. */
  ghost predicate ShiftedBy(p: seq<nat>, pos: seq<nat>)
  {
    |pos| + 1 == |p| && forall i :: 0 <= i < |pos| ==> pos[i] + 1 == p[i + 1]
  }

  lemma ShiftedEntries(main: Entity, rel: seq<Entity>, u: seq<Entity>, p: seq<nat>, pos: seq<nat>)
    requires |u| == |p| && ShiftedBy(p, pos)
    requires forall i :: 1 <= i < |p| ==>
               && 0 < p[i] <= |rel|
               && u[i] == rel[p[i] - 1]
               && rel[p[i] - 1].id != main.id
               && forall j :: 0 <= j < p[i] - 1 ==> rel[j].id != rel[p[i] - 1].id
    ensures forall i :: 0 <= i < |pos| ==>
              && pos[i] < |rel|
              && u[i + 1] == rel[pos[i]]
              && rel[pos[i]].id != main.id
              && forall j :: 0 <= j < pos[i] ==> rel[j].id != rel[pos[i]].id
  {
    forall i | 0 <= i < |pos|
      ensures pos[i] < |rel| && u[i + 1] == rel[pos[i]] && rel[pos[i]].id != main.id
      ensures forall j :: 0 <= j < pos[i] ==> rel[j].id != rel[pos[i]].id
    {
      assert pos[i] == p[i + 1] - 1;
    }
  }

  lemma ShiftedOrder(p: seq<nat>, pos: seq<nat>)
    requires ShiftedBy(p, pos)
    requires forall i, i' :: 0 <= i < i' < |p| ==> p[i] < p[i']
    ensures forall i, i' :: 0 <= i < i' < |pos| ==> pos[i] < pos[i']
  {
    forall i, i' | 0 <= i < i' < |pos| ensures pos[i] < pos[i'] {
      assert p[i + 1] < p[i' + 1];
    }
  }

  lemma ShiftedCover(main: Entity, rel: seq<Entity>, p: seq<nat>, pos: seq<nat>)
    requires ShiftedBy(p, pos) && p[0] == 0
    requires forall j :: 0 <= j < |rel| && rel[j].id != main.id && (forall j' :: 0 <= j' < j ==> rel[j'].id != rel[j].id)
               ==> j + 1 in p
    ensures forall j :: 0 <= j < |rel| ==>
              rel[j].id != main.id && (forall j' :: 0 <= j' < j ==> rel[j'].id != rel[j].id)
              ==> j in pos
  {
    forall j | 0 <= j < |rel| && rel[j].id != main.id && (forall j' :: 0 <= j' < j ==> rel[j'].id != rel[j].id)
      ensures j in pos
    {
      var i :| 0 <= i < |p| && p[i] == j + 1;
      assert pos[i - 1] == j;
    }
  }

  /** Past the main entity, each first occurrence is a related entity with a new, non-main id. */
  lemma ShiftedFirsts(main: Entity, rel: seq<Entity>, u: seq<Entity>, p: seq<nat>)
    requires FirstOccurrencesAt([main] + rel, IdOf, u, p)
    ensures |p| > 0 && p[0] == 0
    ensures forall i :: 1 <= i < |p| ==>
              && 0 < p[i] <= |rel|
              && u[i] == rel[p[i] - 1]
              && rel[p[i] - 1].id != main.id
              && forall j :: 0 <= j < p[i] - 1 ==> rel[j].id != rel[p[i] - 1].id
  {
    var s := [main] + rel;
    assert FirstAt(s, 0, IdOf);
    assert 0 in p;
    forall i | 1 <= i < |p|
      ensures 0 < p[i] <= |rel| && u[i] == rel[p[i] - 1] && rel[p[i] - 1].id != main.id
      ensures forall j :: 0 <= j < p[i] - 1 ==> rel[j].id != rel[p[i] - 1].id
    {
      var q := p[i];
      assert p[0] < q;
      assert s[q] == rel[q - 1];
      assert IdOf(s[0]) != IdOf(s[q]);
      forall j | 0 <= j < q - 1 ensures rel[j].id != rel[q - 1].id {
        assert s[j + 1] == rel[j];
        assert IdOf(s[j + 1]) != IdOf(s[q]);
      }
    }
  }

  /** A related entity whose id is new and not the main id is a first occurrence. */
  lemma ShiftedComplete(main: Entity, rel: seq<Entity>, u: seq<Entity>, p: seq<nat>)
    requires FirstOccurrencesAt([main] + rel, IdOf, u, p)
    ensures forall j :: 0 <= j < |rel| && rel[j].id != main.id && (forall j' :: 0 <= j' < j ==> rel[j'].id != rel[j].id)
              ==> j + 1 in p
  {
    var s := [main] + rel;
    forall j | 0 <= j < |rel| && rel[j].id != main.id && (forall j' :: 0 <= j' < j ==> rel[j'].id != rel[j].id)
      ensures j + 1 in p
    {
      assert s[j + 1] == rel[j];
      forall j' | 0 <= j' < j + 1 ensures IdOf(s[j']) != IdOf(s[j + 1]) {
        if j' > 0 { assert s[j'] == rel[j' - 1]; }
      }
      assert FirstAt(s, j + 1, IdOf);
    }
  }

  /** One node per distinct id: the main one plus one per new related id. */
  lemma NodeCount(data: OriginalData)
    ensures |ChartOf(data).nodes| == 1 + |KeysOf(Flatten(data.relatedEntities), IdOf) - {data.entity.id}|
  {
    var rel := Flatten(data.relatedEntities);
    DedupCardinality(Visited(data), IdOf);
    KeysOfPrepend(data.entity, rel);
    var ks := KeysOf(rel, IdOf) - {data.entity.id};
    assert KeysOf(Visited(data), IdOf) == {data.entity.id} + ks;
    assert |{data.entity.id} + ks| == 1 + |ks|;
  }

  lemma KeysOfPrepend(e: Entity, s: seq<Entity>)
    ensures KeysOf([e] + s, IdOf) == {e.id} + KeysOf(s, IdOf)
  {
    var t := [e] + s;
    assert IdOf(t[0]) == e.id;
    forall k | k in KeysOf(s, IdOf) ensures k in KeysOf(t, IdOf) {
      var i :| 0 <= i < |s| && IdOf(s[i]) == k;
      assert t[i + 1] == s[i];
    }
  }

  /**
   * The id map: its keys are exactly the ids seen, every number is a valid
   * index into `nodes`, and it is a one-to-one correspondence.
   */
  lemma NodeMapValid(data: OriginalData)
    ensures NodeMapOf(data).Keys == KeysOf(Visited(data), IdOf)
    ensures forall k :: k in NodeMapOf(data) ==> NodeMapOf(data)[k] < |ChartOf(data).nodes|
    ensures forall k, k' :: k in NodeMapOf(data) && k' in NodeMapOf(data) && k != k' ==>
              NodeMapOf(data)[k] != NodeMapOf(data)[k']
    ensures forall i :: 0 <= i < |ChartOf(data).nodes| ==>
              Unique(data)[i].id in NodeMapOf(data) && NodeMapOf(data)[Unique(data)[i].id] == i
  {
    var u := Unique(data);
    assert |ChartOf(data).nodes| == |u|;
    IdMapKeys(u);
    IdMapIndices(u);
    IdMapInjective(u);
  }

  // ---------------------------------------------------------------- links

  /** A relationship yields a link exactly when both lookups succeed; the ends are the numbers as strings. */
  lemma LinkForSpec(m: map<Id, nat>, r: Relationship)
    ensures LinkFor(m, r).Some? <==> r.sourceNodeId in m && Str(r.targetNodeId.ToString()) in m
    ensures LinkFor(m, r).Some? ==>
              LinkFor(m, r).value ==
              Link(NatToString(m[r.sourceNodeId]), NatToString(m[Str(r.targetNodeId.ToString())]), r.relationType)
  {
  }

  /** Links of consecutive runs of relationships are concatenated: dropping keeps the order. */
  lemma {:induction false} LinksOfAppend(m: map<Id, nat>, a: seq<Relationship>, b: seq<Relationship>)
    ensures LinksOf(m, a + b) == LinksOf(m, a) + LinksOf(m, b)
    decreases |b|
  {
    if |b| == 0 {
      assert a + b == a;
    } else {
      var init := b[..|b| - 1];
      assert (a + b)[..|a + b| - 1] == a + init;
      assert (a + b)[|a + b| - 1] == b[|b| - 1];
      LinksOfAppend(m, a, init);
    }
  }

  /**
   * `links` are the links of the relationships at positions `pos` of `rels`,
   * and those positions are, in increasing order, every relationship of
   * `rels` that yields a link.
   */
  ghost predicate LinksAt(m: map<Id, nat>, rels: seq<Relationship>, links: seq<Link>, pos: seq<nat>)
  {
    && |pos| == |links|
    && (forall i :: 0 <= i < |pos| ==> pos[i] < |rels| && LinkFor(m, rels[pos[i]]) == Some(links[i]))
    && (forall i, i' :: 0 <= i < i' < |pos| ==> pos[i] < pos[i'])
    && (forall j :: 0 <= j < |rels| && LinkFor(m, rels[j]).Some? ==> j in pos)
  }

  /**
   * The links are the relationships with both ends numbered, in input
   * order: `pos` gives the relationship each link comes from.
   */
  lemma {:induction false} LinksPositions(m: map<Id, nat>, rels: seq<Relationship>) returns (pos: seq<nat>)
    ensures |LinksOf(m, rels)| <= |rels|
    ensures LinksAt(m, rels, LinksOf(m, rels), pos)
    decreases |rels|
  {
    if |rels| == 0 {
      pos := [];
    } else {
      var init, r := rels[..|rels| - 1], rels[|rels| - 1];
      assert rels == init + [r];
      var p := LinksPositions(m, init);
      if LinkFor(m, r).Some? {
        LinkKept(m, init, r, LinksOf(m, init), p);
        pos := p + [|init|];
      } else {
        LinkDropped(m, init, r, LinksOf(m, init), p);
        pos := p;
      }
    }
  }

  /** A relationship that yields a link adds it, and its position, at the end. */
  lemma LinkKept(m: map<Id, nat>, rels: seq<Relationship>, r: Relationship, links: seq<Link>, p: seq<nat>)
    requires LinksAt(m, rels, links, p)
    requires LinkFor(m, r).Some?
    ensures LinksAt(m, rels + [r], links + [LinkFor(m, r).value], p + [|rels|])
  {
    LinkKeptEntries(m, rels, r, links, p);
    LinkKeptCover(m, rels, r, p);
  }

  lemma LinkKeptEntries(m: map<Id, nat>, rels: seq<Relationship>, r: Relationship, links: seq<Link>, p: seq<nat>)
    requires |p| == |links|
    requires forall i :: 0 <= i < |p| ==> p[i] < |rels| && LinkFor(m, rels[p[i]]) == Some(links[i])
    requires LinkFor(m, r).Some?
    ensures var t, l, q := rels + [r], links + [LinkFor(m, r).value], p + [|rels|];
            forall i :: 0 <= i < |q| ==> q[i] < |t| && LinkFor(m, t[q[i]]) == Some(l[i])
  {
    var t, l, q := rels + [r], links + [LinkFor(m, r).value], p + [|rels|];
    forall i | 0 <= i < |q| ensures q[i] < |t| && LinkFor(m, t[q[i]]) == Some(l[i]) {
      if i < |p| {
        assert q[i] == p[i] && t[p[i]] == rels[p[i]] && l[i] == links[i];
      }
    }
  }

  lemma LinkKeptCover(m: map<Id, nat>, rels: seq<Relationship>, r: Relationship, p: seq<nat>)
    requires forall j :: 0 <= j < |rels| && LinkFor(m, rels[j]).Some? ==> j in p
    ensures var t, q := rels + [r], p + [|rels|];
            forall j :: 0 <= j < |t| && LinkFor(m, t[j]).Some? ==> j in q
  {
    var t, q := rels + [r], p + [|rels|];
    forall j | 0 <= j < |t| && LinkFor(m, t[j]).Some? ensures j in q {
      if j < |rels| {
        assert t[j] == rels[j];
      }
    }
  }

  /** A relationship that yields no link leaves links and positions alone. */
  lemma LinkDropped(m: map<Id, nat>, rels: seq<Relationship>, r: Relationship, links: seq<Link>, p: seq<nat>)
    requires LinksAt(m, rels, links, p)
    requires LinkFor(m, r).None?
    ensures LinksAt(m, rels + [r], links, p)
  {
    var t := rels + [r];
    forall i | 0 <= i < |p| ensures t[p[i]] == rels[p[i]] { }
    forall j | 0 <= j < |t| && LinkFor(m, t[j]).Some? ensures j in p {
      if j < |rels| {
        assert t[j] == rels[j];
      }
    }
  }

  /** No link is lost when every relationship has both ends numbered. */
  lemma {:induction false} LinksComplete(m: map<Id, nat>, rels: seq<Relationship>)
    requires forall j :: 0 <= j < |rels| ==> LinkFor(m, rels[j]).Some?
    ensures |LinksOf(m, rels)| == |rels|
    ensures forall j :: 0 <= j < |rels| ==> LinksOf(m, rels)[j] == LinkFor(m, rels[j]).value
    decreases |rels|
  {
    if |rels| > 0 {
      var init := rels[..|rels| - 1];
      LinksComplete(m, init);
      forall j | 0 <= j < |init| ensures LinksOf(m, rels)[j] == LinkFor(m, rels[j]).value {
        assert rels[j] == init[j];
      }
    }
  }

  /** `l` joins two of the nodes numbered below `n`, named in decimal. */
  ghost predicate JoinsNodes(l: Link, n: nat)
  {
    exists i, j :: 0 <= i < n && 0 <= j < n && l.source == NatToString(i) && l.target == NatToString(j)
  }

  /** Every link names, in decimal, two numbers that the map hands out. */
  lemma {:induction false} LinksBetween(m: map<Id, nat>, rels: seq<Relationship>, n: nat)
    requires forall k :: k in m ==> m[k] < n
    ensures forall l :: l in LinksOf(m, rels) ==> JoinsNodes(l, n)
    decreases |rels|
  {
    if |rels| > 0 {
      var init, r := rels[..|rels| - 1], rels[|rels| - 1];
      LinksBetween(m, init, n);
      if LinkFor(m, r).Some? {
        var i, j := m[r.sourceNodeId], m[Str(r.targetNodeId.ToString())];
        assert JoinsNodes(LinkFor(m, r).value, n) by {
          assert LinkFor(m, r).value.source == NatToString(i) && LinkFor(m, r).value.target == NatToString(j);
        }
        assert LinksOf(m, rels) == LinksOf(m, init) + [LinkFor(m, r).value];
      }
    }
  }

  /** Every link of the chart joins two existing nodes, named by their numbers in decimal. */
  lemma LinksJoinNodes(data: OriginalData)
    ensures forall l :: l in ChartOf(data).links ==> JoinsNodes(l, |ChartOf(data).nodes|)
  {
    var m := NodeMapOf(data);
    assert ChartOf(data).links == LinksOf(m, data.relationships);
    assert |ChartOf(data).nodes| == |Unique(data)|;
    NodeMapValid(data);
    LinksBetween(m, data.relationships, |Unique(data)|);
  }

  /** A map whose keys are all numbers matches no target, so it yields no link. */
  lemma {:induction false} NumericKeysNoLinks(m: map<Id, nat>, rels: seq<Relationship>)
    requires forall k :: k in m ==> k.Num?
    ensures LinksOf(m, rels) == []
    decreases |rels|
  {
    if |rels| > 0 {
      NumericKeysNoLinks(m, rels[..|rels| - 1]);
      assert Str(rels[|rels| - 1].targetNodeId.ToString()) !in m;
    }
  }

  /**
   * The source is looked up by its raw id but the target by its string form:
   * when every entity id is a number, no relationship ever yields a link.
   */
  lemma NumericIdsYieldNoLinks(data: OriginalData)
    requires forall i :: 0 <= i < |Visited(data)| ==> Visited(data)[i].id.Num?
    ensures ChartOf(data).links == []
  {
    var m := NodeMapOf(data);
    assert ChartOf(data).links == LinksOf(m, data.relationships);
    NodeMapValid(data);
    forall k | k in m ensures k.Num? {
      var i :| 0 <= i < |Visited(data)| && IdOf(Visited(data)[i]) == k;
    }
    NumericKeysNoLinks(m, data.relationships);
  }

  /**
   * A numeric target behaves exactly like the string of its digits, while a
   * numeric source only ever matches a numeric id.
   */
  lemma EndpointLookups(m: map<Id, nat>, r: Relationship, n: int)
    ensures r.targetNodeId == Num(n) ==>
              LinkFor(m, r) == LinkFor(m, r.(targetNodeId := Str(IntToString(n))))
    ensures r.sourceNodeId == Num(n) && Num(n) !in m ==> LinkFor(m, r) == None
  {
  }

  /** A record whose main id is the string "1" and whose one related id is the number 2. */
  function MixedIdsData(): OriginalData
  {
    OriginalData(
      Entity(Str("1"), "main", None),
      [RelationGroup("contains", [Entity(Num(2), "child", Some("part"))])],
      [Relationship(Num(2), Num(1), "in"), Relationship(Str("1"), Num(2), "has")],
      map[])
  }

  lemma MixedIdsUnique()
    ensures Unique(MixedIdsData()) == [MixedIdsData().entity, MixedIdsData().relatedEntities[0].entities[0]]
  {
    var data := MixedIdsData();
    var main, child := data.entity, data.relatedEntities[0].entities[0];
    assert data.relatedEntities[..0] == [];
    assert Visited(data) == [main] + [child];
    DedupPair(main, child, IdOf);
  }

  lemma MixedIdsNodeMap()
    ensures NodeMapOf(MixedIdsData()) == map[Str("1") := 0, Num(2) := 1]
  {
    var data := MixedIdsData();
    var main, child := data.entity, data.relatedEntities[0].entities[0];
    MixedIdsUnique();
    assert [main, child][..1] == [main] && [main][..0] == [];
    assert IdMap([main]) == map[Str("1") := 0];
  }

  /** 2 -> 1: the source 2 is found as a number, the target as the string "1". */
  lemma MixedIdsFirstLink(m: map<Id, nat>)
    requires m == map[Str("1") := 0, Num(2) := 1]
    ensures LinkFor(m, Relationship(Num(2), Num(1), "in")) == Some(Link("1", "0", "in"))
  {
    assert Num(1).ToString() == "1";
    assert NatToString(0) == "0" && NatToString(1) == "1";
  }

  /** "1" -> 2: the target is looked up as the string "2", which is not a key. */
  lemma MixedIdsSecondLink(m: map<Id, nat>)
    requires m == map[Str("1") := 0, Num(2) := 1]
    ensures LinkFor(m, Relationship(Str("1"), Num(2), "has")) == None
  {
    assert Num(2).ToString() == "2";
  }

  lemma MixedIdsLinks(m: map<Id, nat>)
    requires m == map[Str("1") := 0, Num(2) := 1]
    ensures LinksOf(m, MixedIdsData().relationships) == [Link("1", "0", "in")]
  {
    var rels := MixedIdsData().relationships;
    var r1, r2 := rels[0], rels[1];
    MixedIdsFirstLink(m);
    MixedIdsSecondLink(m);
    assert rels[..1] == [r1] && [r1][..0] == [];
    assert LinksOf(m, [r1]) == [Link("1", "0", "in")];
  }

  /**
   * The relationship 2 -> "1" (a numeric target) is kept, but "1" -> 2 is
   * dropped although entity 2 exists, because the target is looked up as "2".
   */
  lemma MixedIdsExample()
    ensures ChartOf(MixedIdsData()).links == [Link("1", "0", "in")]
  {
    var data := MixedIdsData();
    assert ChartOf(data).links == LinksOf(NodeMapOf(data), data.relationships);
    MixedIdsNodeMap();
    MixedIdsLinks(NodeMapOf(data));
  }

  // ----------------------------------------------------------- categories

  /**
   * `categories` starts with the main category, has no duplicates and lists
   * the categories of `nodes` in order of first appearance: `pos` gives the
   * node where each first appears.
   */
  lemma CategoriesOfNodes(data: OriginalData) returns (pos: seq<nat>)
    ensures |ChartOf(data).categories| >= 1 && ChartOf(data).categories[0] == Category("主节点")
    ensures forall i, j :: 0 <= i < j < |ChartOf(data).categories| ==>
              ChartOf(data).categories[i] != ChartOf(data).categories[j]
    ensures |pos| == |ChartOf(data).categories|
    ensures forall i :: 0 <= i < |pos| ==>
              pos[i] < |ChartOf(data).nodes| &&
              ChartOf(data).categories[i].name == ChartOf(data).nodes[pos[i]].category &&
              forall j :: 0 <= j < pos[i] ==> ChartOf(data).nodes[j].category != ChartOf(data).nodes[pos[i]].category
    ensures forall i, i' :: 0 <= i < i' < |pos| ==> pos[i] < pos[i']
    ensures forall j :: 0 <= j < |ChartOf(data).nodes| ==>
              Category(ChartOf(data).nodes[j].category) in ChartOf(data).categories
  {
    var nodes := ChartOf(data).nodes;
    var names := CategoryNames(nodes);
    var d := Dedup(names, Self);
    assert ChartOf(data).categories == ToCategories(d);
    assert nodes[0].category == MainCategory;
    pos := DedupPositions(names, Self);
    CategoriesAt(nodes, d, pos);
  }

  /**
   * The categories built from the first occurrences `d` of the node
   * categories: distinct, each at the node that first has it, covering all.
   */
  lemma CategoriesAt(nodes: seq<Node>, d: seq<string>, pos: seq<nat>)
    requires |nodes| >= 1
    requires FirstOccurrencesAt(CategoryNames(nodes), Self, d, pos)
    requires DistinctKeys(d, Self) && KeysOf(d, Self) == KeysOf(CategoryNames(nodes), Self)
    requires |d| >= 1 && d[0] == nodes[0].category
    ensures var cats := ToCategories(d);
            && |cats| >= 1 && cats[0] == Category(nodes[0].category)
            && (forall i, j :: 0 <= i < j < |cats| ==> cats[i] != cats[j])
            && |pos| == |cats|
            && (forall i :: 0 <= i < |pos| ==>
                  pos[i] < |nodes| &&
                  cats[i].name == nodes[pos[i]].category &&
                  forall j :: 0 <= j < pos[i] ==> nodes[j].category != nodes[pos[i]].category)
            && (forall i, i' :: 0 <= i < i' < |pos| ==> pos[i] < pos[i'])
            && (forall j :: 0 <= j < |nodes| ==> Category(nodes[j].category) in cats)
  {
    var names := CategoryNames(nodes);
    var cats := ToCategories(d);
    forall i | 0 <= i < |pos|
      ensures forall j :: 0 <= j < pos[i] ==> nodes[j].category != nodes[pos[i]].category
    {
      assert FirstAt(names, pos[i], Self);
      forall j | 0 <= j < pos[i] ensures nodes[j].category != nodes[pos[i]].category {
        assert Self(names[j]) != Self(names[pos[i]]);
      }
    }
    forall i, j | 0 <= i < j < |cats| ensures cats[i] != cats[j] {
      assert Self(d[i]) != Self(d[j]);
    }
    forall j | 0 <= j < |nodes| ensures Category(nodes[j].category) in cats {
      assert Self(names[j]) in KeysOf(names, Self);
      var i :| 0 <= i < |d| && Self(d[i]) == names[j];
      assert cats[i] == Category(nodes[j].category);
    }
  }
}
