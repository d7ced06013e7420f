# convertToChartData, modelled in Dafny

This project models `convertToChartData` (src/utils/dataTransformer.js). The
function turns an entity-relationship record into the record a graph chart
draws. The record holds:

- a main entity;
- related entities grouped by relation type;
- relationships between entity ids;
- a property bag.

The result holds one chart with:

- numbered nodes: the main entity is node 0, size 100, category "主节点"; every related entity whose id is new gets the next number, size 75, and its type or "默认分类" as its category;
- links between node numbers, written in decimal;
- the distinct categories, in order of first appearance;
- the attributes, which are the property bag over explicit `name` and `description` keys.

Files:

- `wrappers.dfy`: an `Option` type and a map lookup that returns one, like `Map.prototype.get` returning `undefined`.
- `first_occurrences.dfy`: `Dedup`, which keeps the first element of every key. This is what the `nodeMap.has` guard and the `categoriesSet` do to their insertions. The module also proves which positions `Dedup` keeps and how many.
- `decimal.dfy`: `Number.prototype.toString` on integers of magnitude below 2^53, and injectivity for the non-negative ones.
- `data_transformer.dfy`: the data types and the conversion. It has two layers:
  - The imperative layer mirrors the source loops: `AddNodes` with its nested loops, `AddGroupNodes` for the inner loop, `AddLinks`, and `ConvertToChartData`.
  - The specification layer is a set of functions. `Convert` gives the whole result, `Visit`/`VisitAll` give the loop steps, and `NodesOf`, `IdMap` and `LinksOf` describe the result declaratively.

  Each method's `ensures` ties it to the specification functions. The lemmas `VisitEntity` and `VisitAllBuilds` show that the step-by-step loop builds the declarative result.
- `chart_properties.dfy`: the properties of the result, stated over `Convert`.

Ids are a datatype `Id = Num(int) | Str(string)`. `Map` keys compare the way JavaScript's `SameValueZero` compares integral numbers and strings: a number never equals a string.

The source looks up a relationship's ends in two different ways:

- the source end by its raw id;
- the target end by `targetNodeId.toString()`.

The model keeps this asymmetry as written. The comment on the target lookup says "兼容数字/字符串id" ("compatible with numeric/string ids"). The proved consequences are:

- When every entity id is a number, no relationship yields a link at all (`NumericIdsYieldNoLinks`): the map's keys are numbers, and every target is looked up as a string.
- A numeric source id never matches a string entity id, so such a relationship is dropped (`EndpointLookups`).
- A numeric target does match a string entity id with the same digits (`EndpointLookups`). `MixedIdsExample` shows one relationship kept and one dropped on a concrete record.

Links come out as expected only when every entity id and every source id is a string. Whether the authors meant the lookups to work this way cannot be told from the code, so no finding is claimed.

## Model

| member | source | states |
|---|---|---|
| DataTransformer.ConvertToChartData | src/utils/dataTransformer.js:6-94 | The result equals the declarative conversion `Convert`. It holds exactly one chart, with id 1, whose attributes are the merged property bag. |
| DataTransformer.AddNodes | src/utils/dataTransformer.js:14-48 | After the main-entity setup and the related-entity loop, `nodes`, `nodeMap` and `categoriesSet` are the nodes, id map and category list of the first occurrence of every id, visiting the main entity first and then every group in order. Every number in `nodeMap` indexes `nodes`. The outer loop keeps the shared counter `relatedNodeIndex`, started at 1, equal to the number of nodes as an invariant, before and after every relation type. |
| DataTransformer.AddGroupNodes | src/utils/dataTransformer.js:33-47 | The inner loop over one group's entities performs one `Visit` per entity. Given the shared counter equal to the number of nodes on entry, it returns the counter still equal to the number of nodes, having moved it on once per new node. |
| DataTransformer.AddLinks | src/utils/dataTransformer.js:51-64 | The links built are `LinksOf(nodeMap, relationships)`: one per relationship whose two lookups succeed, in order. |
| DataTransformer.MergeAttributes | src/utils/dataTransformer.js:73-79 | The keys are the property keys plus `name` and `description`. Every property's value wins over the explicit keys. An explicit key missing from the properties holds `undefined`. |
| DataTransformer.CategoryOf | src/utils/dataTransformer.js:40-44 | The category is the entity's type when that is a non-empty string, and "默认分类" when the type is missing or empty. The result is never empty. |
| DataTransformer.VisitMainEntity | src/utils/dataTransformer.js:14-25 | The main-entity setup builds exactly the state for the main entity alone: node 0, the map entry id -> 0, and the category "主节点". |
| DataTransformer.VisitEntity | src/utils/dataTransformer.js:33-46 | One pass of the inner loop preserves the invariant `Built`. An entity with a known id changes nothing. A new id becomes the next node, and its category is added if new. |
| DataTransformer.VisitAllBuilds | src/utils/dataTransformer.js:29-47 | Visiting the main entity and then any sequence of entities builds the nodes and map of their first occurrences, with the categories of those nodes de-duplicated. |
| DataTransformer.IdMapIndices | src/utils/dataTransformer.js:24-43 | For distinct ids, every entity maps to its own position, and every number in the map is below the node count. |
| DataTransformer.IdMapInjective | src/utils/dataTransformer.js:24-43 | Distinct ids get distinct numbers, and every number leads back to its id. |
| DataTransformer.AddCategory | src/utils/dataTransformer.js:44 | Adding a name to `categoriesSet` appends it when it is new and leaves the list alone when it is present, as `Set.prototype.add` does. |
| FirstOccurrences.Dedup | src/utils/dataTransformer.js:35-45 | Keeping the first element per key yields no more elements than the input, the same set of keys, no repeated key, and the same first element. |
| FirstOccurrences.DedupSnoc | src/utils/dataTransformer.js:35-45 | One more element either changes nothing (its key was seen) or is appended. |
| FirstOccurrences.DedupPositions | src/utils/dataTransformer.js:33-46 | `Dedup` consists of exactly the first occurrences, in increasing input position. No first occurrence is missing. |
| FirstOccurrences.DedupCardinality | src/utils/dataTransformer.js:33-46 | `Dedup` has exactly one element per distinct key. |
| Decimal.NatToString | src/utils/dataTransformer.js:59-60 | Decimal digits only, at least one. There is a leading zero only for 0, and a single digit exactly below 10. |
| Decimal.NatToStringInjective | src/utils/dataTransformer.js:59-60 | Distinct node numbers print as distinct strings, so a link names its nodes unambiguously. |
| ChartProperties.MainNodeFirst | src/utils/dataTransformer.js:14-25 | The first node is the main entity: number 0, size 100, category "主节点". The main id maps to 0. |
| ChartProperties.NodeIdsArePositions | src/utils/dataTransformer.js:29-45 | Every node's id equals its position in `nodes`. |
| ChartProperties.RelatedNodesFirstSeen | src/utils/dataTransformer.js:29-47 | Nodes 1, 2, ... are the related entities whose id is seen for the first time and is not the main id, in visiting order. Each has size 75 and its own category, and none of those entities is skipped. |
| ChartProperties.NodeCount | src/utils/dataTransformer.js:31-47 | The node count is one plus the number of distinct related ids other than the main id. |
| ChartProperties.NodeMapValid | src/utils/dataTransformer.js:8-45 | The map's keys are exactly the ids visited. Every value is a valid node index, distinct ids get distinct numbers, and node i's entity maps to i. |
| ChartProperties.LinkForSpec | src/utils/dataTransformer.js:54-63 | A relationship yields a link exactly when its raw source id and the string form of its target id are both in the map. The link's ends are those numbers in decimal, and its label is the relation type. |
| ChartProperties.LinksOfAppend | src/utils/dataTransformer.js:52-64 | The links of two consecutive runs of relationships are the concatenation of their links, so dropping a relationship keeps the order of the rest. |
| ChartProperties.LinksPositions | src/utils/dataTransformer.js:52-64 | There are no more links than relationships. The links are, in increasing input order, exactly the links of the relationships whose two lookups succeed. |
| ChartProperties.LinksComplete | src/utils/dataTransformer.js:52-64 | When every relationship resolves, there is one link per relationship, position by position. |
| ChartProperties.LinksJoinNodes | src/utils/dataTransformer.js:52-62 | Every link names, in decimal, two numbers of existing nodes. |
| ChartProperties.NumericIdsYieldNoLinks | src/utils/dataTransformer.js:54-55 | When every entity id is a number, no relationship yields a link, because the target is looked up by its string form. |
| ChartProperties.EndpointLookups | src/utils/dataTransformer.js:54-55 | A numeric target behaves exactly like the string of its digits. A numeric source that is not a key yields no link. |
| ChartProperties.MixedIdsExample | src/utils/dataTransformer.js:52-64 | With main id "1" and related id 2, the relationship 2 -> 1 gives the link "1" -> "0". The relationship "1" -> 2 is dropped, although entity 2 exists. |
| ChartProperties.CategoriesOfNodes | src/utils/dataTransformer.js:67-70 | The categories start with "主节点" and have no duplicates. They list every node's category, each at the node where it first appears, in order. |

## Left out

- src/three/Engine.js, src/utils/request.js, src/api/user.js and vite.config.js are not part of this model: rendering, HTTP and build configuration.
- Entity ids are modelled as integral numbers or strings. The model does not cover fractional or special numbers (`NaN`, `-0`, exponent notation in `toString`), nor `undefined`/`null` ids, whose `toString()` throws.
- Numeric ids of magnitude 2^53 or more are not modelled. JavaScript cannot hold every such integer, so two of them can be one `Map` key, and `toString` prints them as the shortest round-tripping digits padded with zeros. `Num(int)` keeps them distinct and prints every digit, so the target lookup may differ for such ids.
- `entity.properties.name` is modelled as a string. The model does not cover a missing `properties` object, which throws, or a missing name, which becomes `undefined` in the node.
- A relationship's `type` is modelled as a string. A relationship without a type gives a link whose label is `undefined`, which the model does not cover.
- `entity.type` is modelled as an optional string. Other falsy values (`0`, `false`, `null`) fall back to the default category like a missing type; values that are not strings are not modelled.
- The property bag is modelled as a map from strings to strings. Other value types and the key order of the `attributes` object are not modelled.
- The groups of `relatedEntities` are visited in the order `Object.keys` returns them. The model takes that order as given, as a sequence of groups.
- Exceptions from malformed input (a missing `relationships` array, a group that is not an array) are not modelled.
