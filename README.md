# nw-quest-map, modelled in Dafny

This project models the core of nw-quest-map, an interactive map of New World
quests. A quest list is turned into a graph of cards joined by prerequisite
edges. The graph is laid out by an external layered-layout solver (ELK), and
the solver's positions are then refined: children are aligned under their
parent, 1→1 chains are straightened, and the cards are re-stacked in
horizontal bands in priority order.

The model covers these parts of the program:

- The graph builder (`base` in `src/components/Graph.tsx`). It filters the quests by zone and fills in the effective level. It adds one synthetic `LEVEL_n` gate per required level and chains the gates in ascending order. It also builds the positive and the negative edges.
- The priority and band classifier. This covers `computePriority` and `bandFrom`, the successor map, and the two reachability sweeps from the main-story roots and from the level gates.
- The input to the solver, which the model does not lay out itself:
  - the estimated card height;
  - the ordering of children and edges;
  - the placement of the nodes at the positions the solver returns.
- The geometric refiner:
  - the child, in-degree and out-degree tables;
  - `alignFromParent` and its sweep;
  - the straightening of 1→1 chains;
  - the band re-stacking.

  A `Refiner` class mutates a position table in place. It is proved against value-level functions, and the band properties are stated on those functions.
- The viewport helpers: search-and-focus and the reset to the top-left corner.
- The zone classifier `getZoneByIdPrefix` (`src/utils/zones.ts`).
- The character store (`src/store.ts`). A `Store` class holds the character list and the active id.
- The task-text renderer and the type and reward logic of the node card (`src/components/NodeCard.tsx`):
  - the `{{ITEM::…}}` / `{{POI::…}}` token scanner;
  - the `key=value` table;
  - the rarity slug;
  - `normType` and `isMainStory`;
  - the rewards gate.
- The data converter `tools/convert_csv_to_json.py`:
  - the row exclusions;
  - the achievement index and `parse_logic`;
  - the per-row record and edge building;
  - the main-story priority and the stable sort;
  - the merge of the manual links;
  - the output counts.

Strings are `seq<char>`; the model's lower-casing and white space are ASCII.
Numbers from JSON are `int`, and layout coordinates are `real`. The modules
follow the program's pipeline:

- `Wrappers` and `Text`;
- `Zones`, `Priority`, `Builder`, `Reach`, `Sorting`, `ElkInput`;
- `Adjacency`, `Align`, `Chains`, `Restack`, `Refiner`, `Layout`, `Viewport`;
- `Store`;
- `ConvertRows`, `Logic`, `ConvertLinks`, `Convert`;
- `NodeCard`.

The effective required level is `required_level || manual || 0`
(`Graph.tsx:141`). A missing or zero CSV value falls through to the manual
override, and a negative CSV value is kept. Gates are created only for a
level `> 0` (line 160).

## Model

| member | source | states |
|---|---|---|
| Zones.GetZoneByIdPrefix | src/utils/zones.ts:4-23 | the answer is always one of the sixteen (name, color) entries of the classifier |
| Zones.ZoneOfTrimmed | src/utils/zones.ts:6-22 | the prefix chain on a trimmed id answers with a palette entry |
| Zones.RuleIndex | src/utils/zones.ts:6-22 | the first matching rule is a valid palette position |
| Zones.PaletteNamesDistinct | src/utils/zones.ts:6-22 | no two zones share a name |
| Zones.NameDeterminesColor | src/utils/zones.ts:6-22 | two ids that land in the same zone get the same color |
| Zones.SameNameSameEntry | src/utils/zones.ts:6-22 | two palette entries with one name are the same entry |
| Zones.TrimmedFirst | src/utils/zones.ts:5 | surrounding white space never changes the zone |
| Zones.BlankIsUnknown | src/utils/zones.ts:5-22 | an absent or blank id gives "Zone inconnue" / #ffffff |
| Zones.EmptyIsFallback | src/utils/zones.ts:22 | the empty id matches only the fallback rule |
| Zones.WindswardFirst | src/utils/zones.ts:6 | any id starting with 06 is Windsward |
| Zones.EverfallPrefixes | src/utils/zones.ts:8 | 99_, 99A_, 04A_ and EF_ are all Everfall |
| Zones.NinetyNineB | src/utils/zones.ts:9 | 99B is Brightwood even though 99 prefixes are tried for Everfall first |
| Zones.NinetyNineC | src/utils/zones.ts:10 | 99C is Weaver's Fen |
| Zones.NinetyNineD | src/utils/zones.ts:11 | 99D is Great Cleave |
| Zones.NinetyNineE | src/utils/zones.ts:12 | 99E is Edengrove |
| Zones.NinetyNineF | src/utils/zones.ts:13 | 99F is Ebonscale Reach |
| Zones.NinetyNineG | src/utils/zones.ts:14 | 99G is Shattered Mountain |
| Priority.ComputePriority | src/components/Graph.tsx:86-99 | the priority lies in 0..10, and it is 7 exactly when the id starts with LEVEL_ |
| Priority.PriorityIsFirstKeyword | src/components/Graph.tsx:87-98 | apart from LEVEL_ ids, the priority is that of the first keyword of the table that the lower-cased type contains |
| Priority.LevelPrefixWins | src/components/Graph.tsx:88 | a LEVEL_ id gets 7 whatever its type |
| Priority.BandFrom | src/components/Graph.tsx:103-116 | the band is 100 exactly when the type mentions "main story" |
| Priority.BandRange | src/components/Graph.tsx:103-116 | every band is one of twelve values (100, 95, 90, 89, 60, 40, 30, 20, 10, 0, -10 and 70 for an objective); 80 and 50 never occur |
| Priority.EventBand | src/components/Graph.tsx:97-115 | an event-only quest with no reachability gets band -10 |
| Builder.Filtered | src/components/Graph.tsx:134 | a quest is kept exactly when it is in the selected zone |
| Builder.FilteredSplit | src/components/Graph.tsx:134 | the zone filter keeps the order: filtering two halves gives the filtered halves |
| Builder.FilteredOne | src/components/Graph.tsx:134 | one quest is kept exactly when it is in the selected zone |
| Builder.Enriched | src/components/Graph.tsx:139-142 | the quests keep their order and every field but the required level, which is always set to EffectiveLevel |
| Builder.EffectiveLevel | src/components/Graph.tsx:141 | the CSV level when it is non-zero, negatives included; otherwise the manual level, and 0 when there is none |
| Builder.MembersNonEmpty | src/components/Graph.tsx:155-164 | a level has members exactly when it gets a gate |
| Builder.MembersAre | src/components/Graph.tsx:155-164 | the members of level n are exactly the ids of the quests without prerequisite links whose level is n |
| Builder.LevelParentsStep | src/components/Graph.tsx:156-163 | one loop step appends the quest's id under its level, or changes nothing |
| Builder.HasMinimum | src/components/Graph.tsx:238-240 | a finite non-empty level set has a least element (used to sort the levels) |
| Builder.Ascending | src/components/Graph.tsx:238-240 | the sorted level order is strictly ascending and holds exactly the levels |
| Builder.SortedLevels | src/components/Graph.tsx:166-240 | the level order the builder visits equals the ascending order |
| Builder.SortedUnique | src/components/Graph.tsx:238-240 | two strictly ascending sequences with the same elements are equal |
| Builder.GateIdInjective | src/components/Graph.tsx:168 | different levels give different LEVEL_ ids |
| Builder.CollectLevelParents | src/components/Graph.tsx:155-164 | the loop builds exactly the level-to-members table |
| Builder.CollectEdges | src/components/Graph.tsx:187-219 | the loop builds the positive and the negative quest edges |
| Builder.CollectGateEdges | src/components/Graph.tsx:221-235 | the loop builds the gate-to-member edges, gate by gate |
| Builder.CollectChainEdges | src/components/Graph.tsx:241-254 | the loop builds the LEVEL_a -> LEVEL_b edges between consecutive levels |
| Builder.BuildBase | src/components/Graph.tsx:132-261 | the builder returns what BaseOf specifies: nodes, positive edges, negative edges, level table |
| Builder.NodesAre | src/components/Graph.tsx:144-185 | the node list is one node per quest, in order, with the quest as its data and faded exactly when onlyTodo is set and the quest is done, followed by one undimmed LEVEL_n gate per level in order |
| Builder.GateNodesExact | src/components/Graph.tsx:166-185 | gate ids are pairwise distinct, and there is a gate for level n exactly when n is a gate level |
| Builder.GateLevelsAre | src/components/Graph.tsx:157-160 | a level is gated exactly when some filtered quest has no prerequisite links and that positive level |
| Builder.TargetsFromGate | src/components/Graph.tsx:223-233 | a gate's edges lead exactly to its members |
| Builder.GateEdgesPerMember | src/components/Graph.tsx:221-235 | each gate has one edge per member, in member order, and a level outside the order has none |
| Builder.ChainShape | src/components/Graph.tsx:241-254 | the chain has one edge fewer than there are levels, and edge i joins level i to level i+1 |
| Builder.ChainAscends | src/components/Graph.tsx:238-254 | whatever the quest order, each chain edge goes from a lower level to a higher one |
| Builder.LinkEdgesSound | src/components/Graph.tsx:191-218 | every link edge comes from a listed source that survived the filter and is not the quest itself |
| Builder.LinkEdgesComplete | src/components/Graph.tsx:191-218 | every kept source gives its edge |
| Builder.PrereqEdgesSound | src/components/Graph.tsx:190-204 | every positive quest edge stands for a kept prerequisite of some quest |
| Builder.PrereqEdgesComplete | src/components/Graph.tsx:190-204 | every kept prerequisite gives its positive edge |
| Builder.NotEdgesSound | src/components/Graph.tsx:205-218 | every negative edge stands for a kept not-prerequisite of some quest |
| Builder.NotEdgesComplete | src/components/Graph.tsx:205-218 | every kept not-prerequisite gives its negative edge |
| Builder.GateEdgesOfShape | src/components/Graph.tsx:223-233 | one gate's edges are one per member, in order |
| Builder.GateEdgesTargets | src/components/Graph.tsx:221-235 | gate edges leave a LEVEL_ node and enter a member of some level |
| Builder.ChainEdgesTargets | src/components/Graph.tsx:241-254 | chain edges join two LEVEL_ nodes |
| Builder.OrphanedByFilter | src/components/Graph.tsx:134-192 | a quest whose prerequisites all fall outside the zone gets no incoming positive edge and no gate either |
| Reach.SuccOfExact | src/components/Graph.tsx:283-286 | b is a successor of a exactly when some positive edge goes from a to b |
| Reach.BuildSucc | src/components/Graph.tsx:283-286 | the loop builds the successor table |
| Reach.ExtendReach | src/components/Graph.tsx:297-301 | a non-gate successor of a root or of a reached node is reached |
| Reach.Visit | src/components/Graph.tsx:297-302 | the inner loop enqueues exactly the new non-gate successors, and only appends to the queue |
| Reach.SweepStep | src/components/Graph.tsx:295-303 | one round of a sweep keeps the sweep invariant |
| Reach.Sweep | src/components/Graph.tsx:292-317 | a sweep's set is exactly the non-gate nodes reachable from the roots through non-gate nodes |
| Reach.WalkStaysInside | src/components/Graph.tsx:295-303 | a set closed under the sweep's step holds every node of a walk |
| Reach.MsqRoots | src/components/Graph.tsx:289-291 | the main-story roots are exactly the nodes whose lower-cased type contains "main story" |
| Reach.LevelRoots | src/components/Graph.tsx:308 | the gate roots are exactly the LEVEL_ nodes |
| Reach.StampAll | src/components/Graph.tsx:318-328 | every node gets its priority and band, in order |
| Reach.StampedKeeps | src/components/Graph.tsx:318-328 | stamping keeps the id and the data apart from priority and band |
| Reach.Classify | src/components/Graph.tsx:283-328 | the two reachable sets are exactly the reachability of their roots, contain no gate, and the nodes are stamped from them |
| Reach.GateBand | src/components/Graph.tsx:283-328 | a gate is never reached, so its band is 90 and its priority 7 |
| Sorting.Insert | src/components/Graph.tsx:333-338 | one insertion is a permutation of the input plus the new element |
| Sorting.InsertAt | src/components/Graph.tsx:333-338 | the element passes every element it does not strictly precede, so ties keep their order |
| Sorting.InsertSorted | src/components/Graph.tsx:333-338 | with a total preorder, inserting into a sorted list keeps it sorted |
| Sorting.SortBy | src/components/Graph.tsx:333-338 | the sort returns a permutation of its input |
| Sorting.SortBySorted | src/components/Graph.tsx:333-338 | with a total preorder, the result is sorted |
| ElkInput.EstimateNodeHeight | src/components/Graph.tsx:73-81 | the estimate, read on the UTF-16 lengths of title and description, lies between 160 and 360 |
| ElkInput.CeilDiv90Monotone | src/components/Graph.tsx:78 | ceil(n / 90) is monotone |
| ElkInput.HeightMonotone | src/components/Graph.tsx:73-81 | a title or description with more UTF-16 code units never gives a smaller card |
| ElkInput.HeightOfShortCard | src/components/Graph.tsx:73-81 | a title of up to 28 code units gives 160 with no description and 176 with up to 90 code units of description |
| ElkInput.AstralTitleHeight | src/components/Graph.tsx:77 | a title of 30 characters beyond U+FFFF counts as 60 code units and gives 179.2 |
| Text.Utf16LenBmp | src/components/Graph.tsx:77-78 | below U+10000, `.length` is the number of characters |
| Text.Utf16LenAstral | src/components/Graph.tsx:77-78 | beyond U+FFFF, `.length` is twice the number of characters |
| ElkInput.NodeOrderConsistent | src/components/Graph.tsx:333-338 | the node comparator (priority descending, then id in character order) is a total preorder |
| ElkInput.ElkChildren | src/components/Graph.tsx:366-370 | one solver child per node |
| ElkInput.ElkChildrenOrdered | src/components/Graph.tsx:333-370 | the children are the nodes permuted, by non-increasing priority, equal priorities in character (Unicode scalar) id order |
| ElkInput.FindNode | src/components/Graph.tsx:372-373 | find returns a node with that id, or None exactly when no node has it |
| ElkInput.FindNodeFirst | src/components/Graph.tsx:372-373 | find returns the earliest node with that id |
| ElkInput.EdgeOrderConsistent | src/components/Graph.tsx:371-375 | the edge comparator (source priority descending, then id in character order) is a total preorder |
| ElkInput.ElkEdges | src/components/Graph.tsx:371-380 | one solver edge per positive edge |
| ElkInput.ElkEdgesOrdered | src/components/Graph.tsx:371-380 | the solver edges are the positive edges permuted, by non-increasing source priority |
| ElkInput.ElkEdgesFromPositive | src/components/Graph.tsx:371-380 | every solver edge stands for a positive edge, so negative edges never reach the solver |
| Adjacency.KeptEdges | src/components/Graph.tsx:404-407 | the refiner's edges are exactly those whose source is not a LEVEL_ gate |
| Adjacency.DegreesCount | src/components/Graph.tsx:409-410 | the degree tables count the kept edges into and out of each node |
| Adjacency.BuildAdjacency | src/components/Graph.tsx:401-411 | the loop builds the child, in-degree and out-degree tables of the kept edges |
| Adjacency.OutdegIsChildCount | src/components/Graph.tsx:408-410 | a node's out-degree is the length of its child list |
| Adjacency.InCountPositive | src/components/Graph.tsx:409 | every edge target has in-degree at least 1 |
| Adjacency.InCountTwo | src/components/Graph.tsx:409 | two different edges into a node give it in-degree at least 2 |
| Adjacency.BuiltTablesHaveUniqueParents | src/components/Graph.tsx:408-409 | a node of in-degree 1 is the child of exactly one parent |
| Adjacency.BuildPrio | src/components/Graph.tsx:412-413 | the loop builds the priority table |
| Adjacency.PrioMapIsLast | src/components/Graph.tsx:413 | each id maps to the priority (default 1) of its last node |
| Adjacency.ChildOrderConsistent | src/components/Graph.tsx:415-419 | the child comparator (priority ascending, then id in character order) is a total preorder |
| Adjacency.SortedKids | src/components/Graph.tsx:415-419 | a sorted child list is a permutation of the list |
| Adjacency.SortedKidsOrdered | src/components/Graph.tsx:415-419 | a sorted child list has lower priorities first, with ties in character (Unicode scalar) id order |
| Adjacency.SortedChildren | src/components/Graph.tsx:414-420 | sorting keeps the keys of the child table |
| Adjacency.SortChildren | src/components/Graph.tsx:414-420 | the loop sorts every child list |
| Adjacency.SortedKeepsParents | src/components/Graph.tsx:414-420 | sorting keeps who is whose child, so parents stay unique |
| Adjacency.NodeMap | src/components/Graph.tsx:421-422 | each key of nodeMap maps to a node with that id |
| Adjacency.BuildNodeMap | src/components/Graph.tsx:421-422 | the loop builds nodeMap |
| Adjacency.NodeMapIsLast | src/components/Graph.tsx:422 | nodeMap holds exactly the laid ids, each mapped to its last node |
| Align.SameBand | src/components/Graph.tsx:435-436 | the kept children are exactly those in the parent's band, in order |
| Align.SameBandSnoc | src/components/Graph.tsx:435-436 | one more child is kept exactly when it is in the band, after the others |
| Align.SameBandSplit | src/components/Graph.tsx:435-436 | the band filter keeps the children's order: filtering two halves gives the filtered halves |
| Align.SameBandOne | src/components/Graph.tsx:435-436 | one child is kept exactly when it is in the band |
| Align.SameBandNoDup | src/components/Graph.tsx:436 | filtering keeps a duplicate-free list duplicate-free |
| Align.PlaceKids | src/components/Graph.tsx:438-445 | the column step keeps every node's x and the set of nodes |
| Align.PlaceKidsEffect | src/components/Graph.tsx:438-445 | child i sits at the parent's y + 180·i, and every other node is unchanged |
| Align.AlignFrom | src/components/Graph.tsx:427-447 | alignFromParent keeps every x, marks the id seen, and does nothing for an id already seen |
| Align.AlignAll | src/components/Graph.tsx:448 | the sweep keeps every x and leaves every swept id seen |
| Align.AlignAgainIsNoop | src/components/Graph.tsx:428-502 | after the sweep, calling alignFromParent on a swept id changes nothing |
| Align.GateParentMovesNothing | src/components/Graph.tsx:430-437 | a LEVEL_ parent, a missing one or one without same-band children moves nothing |
| Align.AlignFirstStep | src/components/Graph.tsx:438-446 | the same-band children are placed in a column below the parent before the recursion into the first child |
| Chains.NextOf | src/components/Graph.tsx:464-465 | the next link of a chain is a child of the current node |
| Chains.ExtendChain | src/components/Graph.tsx:466-469 | the walk never revisits a node |
| Chains.ChainFrom | src/components/Graph.tsx:461-470 | the walk ends where the loop breaks, and it extends its start |
| Chains.SharedNodeSharedHead | src/components/Graph.tsx:455-470 | two chains that share a node share their head, with the node at the same position |
| Chains.ChainsDisjoint | src/components/Graph.tsx:455-470 | chains from two different heads are disjoint |
| Chains.Flatten | src/components/Graph.tsx:471-477 | every chain member is put at the head's y, and nothing else moves |
| Chains.FlattenSnoc | src/components/Graph.tsx:473-476 | one more turn of the flattening loop sets one more y |
| Chains.ChainSet | src/components/Graph.tsx:474 | the visited set gets exactly the chain's members |
| Chains.StraightenStep | src/components/Graph.tsx:452-478 | one turn keeps every x and only grows the visited set |
| Chains.StraightenAll | src/components/Graph.tsx:451-478 | the whole loop keeps every x and only grows the visited set |
| Chains.StraightenStepEffect | src/components/Graph.tsx:455-477 | a head of out-degree 1 and in-degree other than 1, with a chain of two or more, puts every member at the head's y and moves nothing else |
| Restack.OrderBandsDistinct | src/components/Graph.tsx:480 | the band order lists each band once |
| Restack.BuildByBand | src/components/Graph.tsx:481-485 | the loop files the ordered ids under their band, in order |
| Restack.MinYIsLeast | src/components/Graph.tsx:493 | the top of a group is one of its cards' y and no card is higher |
| Restack.MaxBottomIsGreatest | src/components/Graph.tsx:494-503 | the bottom of a group is one card's bottom and no card reaches lower |
| Restack.MinYMoved | src/components/Graph.tsx:496-500 | moving every card by dy moves the top by dy |
| Restack.MaxBottomMoved | src/components/Graph.tsx:496-503 | moving every card by dy moves the bottom by dy |
| Restack.Shift | src/components/Graph.tsx:497-499 | the += dy loop keeps every x and moves no card outside the band |
| Restack.ShiftSnoc | src/components/Graph.tsx:497-499 | one more turn of the += dy loop moves one more card |
| Restack.ShiftOnce | src/components/Graph.tsx:497-499 | without repeated ids, every card moves by exactly dy |
| Restack.BandStep | src/components/Graph.tsx:493-504 | one band's step keeps x and every card outside the band |
| Restack.BandStepPlaces | src/components/Graph.tsx:495-504 | after its step, a band's top is within 0.5 of the cursor, and the next cursor is its bottom plus 100 |
| Restack.BandStepTop | src/components/Graph.tsx:495-500 | a band is moved only when its top is more than 0.5 away from the cursor |
| Restack.BandStepRigid | src/components/Graph.tsx:497-499 | a band's step moves all its cards by the same amount |
| Restack.RestackFrom | src/components/Graph.tsx:489-505 | the band loop keeps every x and the set of nodes |
| Restack.RestackFrame | src/components/Graph.tsx:490-492 | a node whose band is not listed, or that is not ordered, keeps its position |
| Restack.GroupKept | src/components/Graph.tsx:490-505 | a band outside the order keeps each of its cards' positions |
| Restack.EmptyBandSkipped | src/components/Graph.tsx:492 | an empty band is skipped |
| Restack.BandTaken | src/components/Graph.tsx:493-504 | a non-empty band takes its step and the loop goes on from the new cursor |
| Restack.FirstBandPlaced | src/components/Graph.tsx:489-505 | the first non-empty band keeps its placement through the rest of the loop |
| Restack.TopsBelowCursor | src/components/Graph.tsx:489-505 | every non-empty band ends with its top no more than 0.5 above the cursor it was given |
| Restack.FirstTopAtCursor | src/components/Graph.tsx:488-496 | the first non-empty band ends with its top within 0.5 of the start cursor |
| Restack.FirstBandSeparated | src/components/Graph.tsx:503-504 | the band after the first non-empty one starts at least 99.5 below its bottom |
| Restack.BandsSeparated | src/components/Graph.tsx:489-505 | of two non-empty listed bands, the later one's top is at least 99.5 below the earlier one's bottom |
| Restack.SeparatedInRest | src/components/Graph.tsx:489-505 | separation holds among the bands after the first |
| Restack.BandsRigid | src/components/Graph.tsx:496-500 | each band moves as one block: two of its cards keep their vertical distance |
| Refiner.HeightMap | src/components/Graph.tsx:494-503 | each id's height is its card's estimate, at least 160 |
| Refiner.XOrderConsistent | src/components/Graph.tsx:424 | the x comparator is a total preorder |
| Refiner.Ordered | src/components/Graph.tsx:424 | ordered is a permutation of the laid nodes by ascending x |
| Refiner.OrderedIdsInMap | src/components/Graph.tsx:421-424 | every ordered id is a key of nodeMap |
| Refiner.Refiner.constructor | src/components/Graph.tsx:421-451 | the refiner starts from the given positions with empty seen and visited sets |
| Refiner.Refiner.PlaceColumn | src/components/Graph.tsx:438-445 | the column step on the position table equals PlaceKids |
| Refiner.Refiner.AlignFromParent | src/components/Graph.tsx:427-447 | the in-place alignFromParent equals AlignFrom on the old state |
| Refiner.Refiner.AlignAllOf | src/components/Graph.tsx:448 | the in-place sweep equals AlignAll |
| Refiner.Refiner.WalkChain | src/components/Graph.tsx:461-470 | the while (true) walk returns ChainFrom of the head |
| Refiner.Refiner.FlattenChain | src/components/Graph.tsx:471-477 | flattening equals Flatten and adds the chain to visited |
| Refiner.Refiner.StraightenFrom | src/components/Graph.tsx:453-477 | one turn equals StraightenStep |
| Refiner.Refiner.StraightenChains | src/components/Graph.tsx:451-478 | the whole loop equals StraightenAll |
| Refiner.Refiner.ShiftBand | src/components/Graph.tsx:497-499 | the += dy loop equals Shift |
| Refiner.Refiner.PlaceBand | src/components/Graph.tsx:493-504 | one band equals BandStep, with the next cursor |
| Refiner.Refiner.StackBand | src/components/Graph.tsx:490-505 | one turn of the band loop leaves a state whose remaining restack equals the whole |
| Refiner.Refiner.RestackBands | src/components/Graph.tsx:486-505 | the band loop equals RestackFrom over the fixed band order, from the top of all cards |
| Refiner.TablesOf | src/components/Graph.tsx:401-423 | the tables have unique parents, the kept edges' children and degrees, and nodeMap's bands |
| Refiner.OrderedIds | src/components/Graph.tsx:424 | the ordered ids are all in the position table |
| Refiner.Aligned | src/components/Graph.tsx:448 | after the sweep every node keeps its x |
| Refiner.Straightened | src/components/Graph.tsx:450-478 | after the straightening every node keeps its x |
| Refiner.RefinedPositions | src/components/Graph.tsx:480-505 | after the re-stacking every node keeps its x |
| Refiner.Placed | src/components/Graph.tsx:388-508 | laidNodes keeps its nodes and order; each gets its nodeMap position |
| Refiner.Refine | src/components/Graph.tsx:400-505 | the post-processing returns the nodes placed at RefinedPositions |
| Refiner.TablesOfIs | src/components/Graph.tsx:401-420 | the tables are those of the kept edges |
| Refiner.OrderedIdsIs | src/components/Graph.tsx:424-487 | the ordered ids are the ids of ordered |
| Refiner.AlignedIs | src/components/Graph.tsx:448 | Aligned is the sweep over ordered from nodeMap's positions |
| Refiner.StraightenedIs | src/components/Graph.tsx:451-478 | Straightened is the chain loop over ordered from Aligned |
| Refiner.RefinedIs | src/components/Graph.tsx:480-505 | the refined positions are the band loop from the straightened positions |
| Layout.AtMostOnce | src/components/Graph.tsx:388-398 | with distinct ids no laid node occurs twice |
| Layout.SameIdSameNode | src/components/Graph.tsx:421-422 | with distinct ids two laid nodes with one id are the same node |
| Layout.OrderedIdsNoDup | src/components/Graph.tsx:424 | with distinct ids, ordered lists each id once |
| Layout.RefineKeepsX | src/components/Graph.tsx:400-505 | the post-processing changes y only: each node keeps its data and x |
| Layout.RefinedIsRestack | src/components/Graph.tsx:480-505 | the final positions are the re-stacking of the straightened ones |
| Layout.RefinedBandsSeparated | src/components/Graph.tsx:480-505 | on the final layout, of two non-empty bands the later starts at least 99.5 below the earlier's bottom |
| Layout.RefinedFirstBandAtTop | src/components/Graph.tsx:486-496 | the first non-empty band ends with its top within 0.5 of the highest card |
| Layout.RefinedBandsRigid | src/components/Graph.tsx:496-500 | two cards of one band keep, through the re-stacking, the distance they had after straightening |
| Layout.RefinedUnlistedKept | src/components/Graph.tsx:480-492 | a card whose band is not in the order (an event quest's -10) is not moved by the re-stacking |
| Layout.ReachedIsTarget | src/components/Graph.tsx:297-300 | a reached node is some edge's target |
| Layout.ReachSet | src/components/Graph.tsx:292-317 | the reachable set exists and is exactly the reachability relation |
| Layout.StampedNodes | src/components/Graph.tsx:318-328 | the classifier keeps one node per node |
| Layout.Layout | src/components/Graph.tsx:271-510 | with no nodes both outputs are empty and the solver is not asked; otherwise the request is the sorted children and edges, and the output is the refined placed nodes and all edges |
| Layout.LayoutKeepsNodes | src/components/Graph.tsx:318-398 | each output node is the built node, in order, with its stamped priority and band, its id, and its solver x (0 when the solver gave none) |
| Viewport.FindExact | src/components/Graph.tsx:521 | the first node whose lower-cased id is the query, or none when there is no such node |
| Viewport.FindLoose | src/components/Graph.tsx:523-526 | the first node whose lower-cased id or title contains the query, or none |
| Viewport.Focus | src/components/Graph.tsx:516-528 | an empty query focuses nothing |
| Viewport.ExactMatchWins | src/components/Graph.tsx:521-527 | an exact id match is always preferred to a partial one |
| Viewport.LooseMatchFirst | src/components/Graph.tsx:522-527 | without an exact match, the first partial match is focused |
| Viewport.FocusSound | src/components/Graph.tsx:516-528 | a node is focused exactly when some node matches, and the focused id belongs to a matching node |
| Viewport.MinX | src/components/Graph.tsx:584 | the least x of the cards |
| Viewport.MinYOf | src/components/Graph.tsx:585 | the least y of the cards |
| Viewport.Reset | src/components/Graph.tsx:582-587 | as written: no view with no nodes; otherwise the viewport (minX - 40, minY - 40) at zoom 1, in flow units, so the top-left card is 40 right of and below that point |
| Viewport.ResetMisplaces | src/components/Graph.tsx:582-587 | as written, the top-left card lands on screen at 2·minX - 40, 2·minY - 40, not at 40, 40 |
| Viewport.ResetMisplacesExample | src/components/Graph.tsx:582-587 | one card at (500, 0) lands at screen x 960; the corrected view puts it at 40 |
| Viewport.ResetIntended | src/components/Graph.tsx:582-587 | corrected: zoom 1, every card at least 40 from the screen's top and left edges, and some card exactly 40 from each |
| Store.Renamed | src/store.ts:40 | renaming keeps the length |
| Store.Without | src/store.ts:45 | no remaining character has the removed id, and each remaining one comes from the list |
| Store.Flip | src/store.ts:60 | the quest's flag becomes the negation of its old reading; other keys stay |
| Store.Toggled | src/store.ts:58-62 | toggling keeps the number of characters |
| Store.Store.constructor | src/store.ts:17-32 | the store starts with the loaded characters and active id |
| Store.Store.AddCharacter | src/store.ts:33-38 | a new character with nothing completed is appended and becomes active |
| Store.Store.RenameCharacter | src/store.ts:39-43 | the characters become Renamed; the active id stays |
| Store.Store.RemoveCharacter | src/store.ts:44-50 | the characters become Without, and an active id that was removed moves to the first remaining one or null |
| Store.Store.SetActive | src/store.ts:51-54 | only the active id changes |
| Store.Store.ToggleQuest | src/store.ts:55-65 | with no active id nothing changes, otherwise the characters become Toggled |
| Store.RenameKeepsRest | src/store.ts:40 | renaming touches names only, and only those with the id |
| Store.RenameTwice | src/store.ts:40 | a second rename of the same id overrides the first |
| Store.WithoutSplits | src/store.ts:45 | removal keeps the other characters in order |
| Store.WithoutMembers | src/store.ts:45 | the remaining characters are exactly those with another id |
| Store.RemovedActiveMoves | src/store.ts:46-47 | a moved active id names a remaining character, or is null when none remains |
| Store.WithoutAbsent | src/store.ts:45 | removing an absent id changes nothing |
| Store.ToggleOnlyActive | src/store.ts:58-62 | only the active character changes, and only at the toggled quest |
| Store.FlipTwice | src/store.ts:60 | toggling twice reads undone again but leaves the key set to false |
| Store.FindActive | src/components/Graph.tsx:122 | the character with the active id, if any |
| Store.DoneKeys | src/components/Graph.tsx:133 | as written: every key of completed counts as done, whatever its flag |
| Store.CompletedIds | src/components/Graph.tsx:133 | corrected: the quests whose flag is true |
| Store.ToggledTwiceStillDone | src/components/Graph.tsx:133 | as written, a quest checked and then unchecked still counts as done |
| Store.ToggleDoneSet | src/components/Graph.tsx:133 | corrected: a toggle adds or removes exactly that quest, and toggling twice gives back the done set |
| ConvertRows.KeptRows | tools/convert_csv_to_json.py:34-42 | the first pass never adds rows |
| ConvertRows.KeptRowsExact | tools/convert_csv_to_json.py:34-42 | a row is kept exactly when its trimmed id is non-empty and neither regular expression excludes it |
| ConvertRows.KeptRowsSplit | tools/convert_csv_to_json.py:34-42 | the pass keeps file order: filtering two halves gives the filtered halves |
| ConvertRows.KeepRows | tools/convert_csv_to_json.py:34-42 | the loop returns KeptRows |
| ConvertRows.MissionIsWholeWord | tools/convert_csv_to_json.py:17 | "Side Mission" is excluded, and "Missions" holds no whole-word "mission" |
| ConvertRows.AddTo | tools/convert_csv_to_json.py:50 | setdefault(k, set()).add(v) adds v under k and changes no other key |
| ConvertRows.AchIndexTagSnoc | tools/convert_csv_to_json.py:46-50 | indexing one more row adds its id under its non-empty achievement id |
| ConvertRows.AchIndexStep | tools/convert_csv_to_json.py:46-50 | one loop step extends the index by one row |
| ConvertRows.BuildAchIndex | tools/convert_csv_to_json.py:45-50 | the loop builds the index: each non-empty achievement id mapped to exactly the ids of the rows that carry it |
| Logic.RunLen | tools/convert_csv_to_json.py:59 | the longest run of token characters at the start (greedy +) |
| Logic.Scan | tools/convert_csv_to_json.py:59-62 | every token found is non-empty and made of token characters |
| Logic.ScanNoTokens | tools/convert_csv_to_json.py:59 | text without token characters yields no token |
| Logic.ParseLogicIsScan | tools/convert_csv_to_json.py:57-58 | the blank-expression guard changes nothing |
| Logic.RunLenStops | tools/convert_csv_to_json.py:59 | a run stops at the first other character |
| Logic.ScanPlain | tools/convert_csv_to_json.py:59-62 | a run followed by a space reads back as a plain token |
| Logic.ScanNegated | tools/convert_csv_to_json.py:59-62 | a run after "!" reads back as a negated token |
| Logic.ScanOne | tools/convert_csv_to_json.py:59-62 | one written-out token reads back as itself |
| Logic.ScanRender | tools/convert_csv_to_json.py:55-63 | round trip: scanning the written-out well-formed tokens gives them back |
| Logic.OperatorsSeparate | tools/convert_csv_to_json.py:54-59 | "!A&&B" gives !A and B: the operators only separate |
| Logic.BangBeforeSpace | tools/convert_csv_to_json.py:59-61 | a "!" counts only right before a token |
| ConvertLinks.EdgesConcat | tools/convert_csv_to_json.py:116-121 | the edges of two lists are the edges of each |
| ConvertLinks.SourcesExact | tools/convert_csv_to_json.py:108-110 | a source is named by some token of that polarity whose achievement id is indexed with it |
| ConvertLinks.SourcesSnoc | tools/convert_csv_to_json.py:108-110 | one more token adds its indexed quests |
| ConvertLinks.AppendFresh | tools/convert_csv_to_json.py:114-122 | appending an element not yet in a list keeps it duplicate-free |
| ConvertLinks.AddSources | tools/convert_csv_to_json.py:110-122 | the inner loop appends, once each, the quests not yet seen other than the quest itself |
| ConvertLinks.LinkRow | tools/convert_csv_to_json.py:105-122 | each list holds, once each, exactly the quests its polarity names, apart from the quest itself, and the edges are one per name |
| ConvertLinks.Rewards | tools/convert_csv_to_json.py:88-97 | one label per positive amount and one for a non-blank item name, at most four, and none exactly when no amount is positive and there is no item name |
| ConvertLinks.RewardsLabels | tools/convert_csv_to_json.py:88-97 | the labels read "XP +n", "Azoth +n", "Coin +n" and the item name with " xq" when more than one, in that order |
| ConvertLinks.AllEdgesSnoc | tools/convert_csv_to_json.py:124 | one more record adds its edges |
| ConvertLinks.AllEdgesCount | tools/convert_csv_to_json.py:116-121 | there is one edge per listed name |
| ConvertLinks.RecordLinked | tools/convert_csv_to_json.py:71-122 | a record built from correct lists holds the row's cells and those lists |
| ConvertLinks.BuildQuest | tools/convert_csv_to_json.py:68-122 | one row's record is linked correctly, and its edges stand for its lists |
| ConvertLinks.AllLinkedSnoc | tools/convert_csv_to_json.py:67-124 | one more linked record keeps every record linked to its row |
| ConvertLinks.BuildQuests | tools/convert_csv_to_json.py:65-124 | one record per kept row, each linked to its row, with the edges standing for all lists |
| Convert.SetPriorities | tools/convert_csv_to_json.py:126-128 | each record is promoted: priority 0 for a main story quest |
| Convert.WithPriority | tools/convert_csv_to_json.py:130 | the records of one priority |
| Convert.WithPriorityHas | tools/convert_csv_to_json.py:130 | they all have that priority |
| Convert.InsertZero | tools/convert_csv_to_json.py:130 | a priority-0 record goes after the other 0s and before the 1s |
| Convert.InsertOne | tools/convert_csv_to_json.py:130 | a priority-1 record goes last |
| Convert.SortTwoLevels | tools/convert_csv_to_json.py:130 | the stable sort gives the 0 records and then the 1 records, each group in its order |
| Convert.LastIndex | tools/convert_csv_to_json.py:132 | the last index of an id, or none when it is absent |
| Convert.IdIndex | tools/convert_csv_to_json.py:132 | id_to_q has exactly the ids, each mapped to its last record |
| Convert.TargetsUnique | tools/convert_csv_to_json.py:143-146 | a link aims at one record at most |
| Convert.CleanKinds | tools/convert_csv_to_json.py:140 | a link without a type is a plain requirement, and the kind is read whatever its case and surrounding white space |
| Convert.ApplyLinkShape | tools/convert_csv_to_json.py:141-157 | one link keeps the ids and order and touches only the target's lists |
| Convert.ApplyLinkLists | tools/convert_csv_to_json.py:150-157 | the source is added to the list the kind names, if absent |
| Convert.ApplyLinkWell | tools/convert_csv_to_json.py:141-157 | one link keeps every record free of duplicates and self-links |
| Convert.ApplyLinkTwice | tools/convert_csv_to_json.py:151-155 | merging a link twice changes nothing |
| Convert.MergedEffect | tools/convert_csv_to_json.py:137-157 | after every link the ids, order and other fields stay, and each list grows by exactly the manual sources |
| Convert.AllEdgesConcat | tools/convert_csv_to_json.py:116-121 | the edges of two record lists are those of each |
| Convert.AllEdgesAdd | tools/convert_csv_to_json.py:153-157 | appending a name to one list adds one edge |
| Convert.MergeLink | tools/convert_csv_to_json.py:138-157 | one link of the loop equals ApplyLink, and the edges stay in step with the lists |
| Convert.AddManualSource | tools/convert_csv_to_json.py:148-157 | the update of the target record equals AddSource, and the edges stay in step |
| Convert.MergedSnoc | tools/convert_csv_to_json.py:137 | the links are merged in file order |
| Convert.MergeManual | tools/convert_csv_to_json.py:132-157 | the loop equals Merged, and the edges stay the multiset of the lists |
| Convert.WithPriorityMembers | tools/convert_csv_to_json.py:130 | a record is in a group exactly when it has that priority |
| Convert.SplitEdges | tools/convert_csv_to_json.py:130 | grouping keeps every record's edges |
| Convert.RankedEdges | tools/convert_csv_to_json.py:130 | sorting keeps every edge |
| Convert.RankedSorted | tools/convert_csv_to_json.py:130 | the grouped records are sorted by priority |
| Convert.AllEdgesPromoted | tools/convert_csv_to_json.py:126-128 | the priority pass keeps the edges |
| Convert.PromotedLevels | tools/convert_csv_to_json.py:126-128 | after the pass, priority is 0 for main story and 1 otherwise |
| Convert.BuiltFacts | tools/convert_csv_to_json.py:86-122 | built records have priority 1 and no duplicate or self link |
| Convert.RankedKeeps | tools/convert_csv_to_json.py:130 | sorting keeps what holds of every record |
| Convert.ExtendsKeeps | tools/convert_csv_to_json.py:141-157 | the merge keeps priorities and types, so the order stays sorted |
| Convert.Convert | tools/convert_csv_to_json.py:33-167 | the whole script: one linked record per kept row; main story first and stably sorted; manual links merged; quest_count and edge_count are the record and edge numbers |
| NodeCard.FirstBrace | src/components/NodeCard.tsx:94 | the first } at or after a position |
| NodeCard.OpenLen | src/components/NodeCard.tsx:94 | the length of an opening {{ITEM:: or {{POI:: |
| NodeCard.MatchAt | src/components/NodeCard.tsx:94 | a match at i ends after the first }, and only when }} follows |
| NodeCard.MatchIsToken | src/components/NodeCard.tsx:94 | every match is a token |
| NodeCard.TokenMatches | src/components/NodeCard.tsx:94 | wherever a token stands, the expression matches exactly it |
| NodeCard.FindFrom | src/components/NodeCard.tsx:94-101 | exec's leftmost match from lastIndex, or none when no match starts later |
| NodeCard.NoOpenNoMatch | src/components/NodeCard.tsx:94 | no match starts where {{ does not |
| NodeCard.BareKindStaysPlain | src/components/NodeCard.tsx:94 | a kind without :: is no token |
| NodeCard.BraceInPayloadStaysPlain | src/components/NodeCard.tsx:94 | a } inside the payload ends the match too early |
| NodeCard.NoMatchAnywhere | src/components/NodeCard.tsx:94-101 | FindFrom is none exactly when no match starts later |
| NodeCard.FindSep | src/components/NodeCard.tsx:106 | the first :: at or after a position |
| NodeCard.SplitParts | src/components/NodeCard.tsx:106 | split returns at least one piece |
| NodeCard.SplitJoin | src/components/NodeCard.tsx:106 | split then join gives back the input, and no piece holds :: |
| NodeCard.SplitAfterKind | src/components/NodeCard.tsx:105-106 | dropping the kind keeps the pieces after it |
| NodeCard.IndexOfEq | src/components/NodeCard.tsx:109 | the first = of a part, or none |
| NodeCard.ReadKv | src/components/NodeCard.tsx:107-111 | the loop builds the key/value table |
| NodeCard.KvKeys | src/components/NodeCard.tsx:108-111 | the table's keys are exactly the keys of the parts that have an = |
| NodeCard.KvLastWins | src/components/NodeCard.tsx:108-111 | a key holds the value of the last part that names it |
| NodeCard.KvSkipsPlain | src/components/NodeCard.tsx:110 | a part without = changes nothing |
| NodeCard.SegmentOf | src/components/NodeCard.tsx:112-160 | an ITEM token gives an item badge and a POI token a POI badge, each with its defaults ("Item", "POI"); a POI links to its zone page exactly when tid is set |
| NodeCard.RenderTaskText | src/components/NodeCard.tsx:95-168 | the loop returns Segments: null for empty text, otherwise the plain stretches and badges in order |
| NodeCard.SegmentsJoin | src/components/NodeCard.tsx:101-166 | nothing is lost: the segments' texts put back together give the input |
| NodeCard.PlainHasNoToken | src/components/NodeCard.tsx:118-166 | a stretch where no match starts holds no token |
| NodeCard.SegmentsShape | src/components/NodeCard.tsx:101-166 | every plain segment is non-empty and holds no token, and every badge's text is a token |
| NodeCard.NormTypeSpacing | src/components/NodeCard.tsx:180-182 | the normalised type has single spaces and no space at either end |
| NodeCard.NormTypeKeeps | src/components/NodeCard.tsx:180-182 | normalising drops white space only |
| NodeCard.NormTypeIdempotent | src/components/NodeCard.tsx:180-182 | normalising twice is normalising once |
| NodeCard.MainStoryTextSingle | src/components/NodeCard.tsx:178 | the text isMainStory compares with, "main story quest", has no doubled space |
| NodeCard.MainStoryText | src/components/NodeCard.tsx:178 | "Main Story Quest" is a main story |
| NodeCard.DoubledSpaceNorm | src/components/NodeCard.tsx:180-182 | a doubled inner space is shown as one |
| NodeCard.DoubledSpaceNotMain | src/components/NodeCard.tsx:178 | isMainStory does not collapse inner spaces: a doubled one makes it false |
| NodeCard.MainStoryDoubledExample | src/components/NodeCard.tsx:178-182 | "Main  Story Quest" shows as "Main Story Quest" but is not a main story |
| NodeCard.RaritySlugShape | src/components/NodeCard.tsx:115-285 | the slug holds no white space and no capitals, and is empty exactly when the rarity is |
| NodeCard.Positive | src/components/NodeCard.tsx:298-339 | an amount line is kept exactly when its amount is positive |
| NodeCard.PositiveSplit | src/components/NodeCard.tsx:298-339 | the shown amount lines keep the input order: the lines of two halves are those of each half, in turn |
| NodeCard.PositiveOne | src/components/NodeCard.tsx:298-339 | one amount is shown exactly when it is positive |
| NodeCard.ItemLineOf | src/components/NodeCard.tsx:340-352 | one item line exactly when an item name is set, none otherwise; its name is the resolved name, else the name id, else the item id, and it is non-empty; quantity and icon are read from the record |
| NodeCard.RewardLinesShape | src/components/NodeCard.tsx:296-352 | each amount line is shown exactly when its amount is positive, and an item line is present exactly when an item id or name is set |
| NodeCard.PositiveNone | src/components/NodeCard.tsx:298-339 | no amount line exactly when no amount is positive |
| NodeCard.AmountsNone | src/components/NodeCard.tsx:270-276 | no amount line is shown exactly when all seven amounts are at most 0 |
| NodeCard.FactionOnlyHidden | src/components/NodeCard.tsx:287-294 | as written, the gate hides a faction-only reward that the block would list |
| NodeCard.ResolvedOnlyHidden | src/components/NodeCard.tsx:287-294 | as written, the gate hides an item known only by its resolved name |
| NodeCard.ResolvedOnlyShown | src/components/NodeCard.tsx:340-349 | an item known only by its resolved name is listed as "Iron Sword", with quantity 0 and no icon or rarity |
| NodeCard.HasAnyExact | src/components/NodeCard.tsx:287-294 | the corrected gate opens exactly when some line would be shown, and it opens whenever the written gate does |
| NodeCard.RewardsBlock | src/components/NodeCard.tsx:287-294 | as written: the block is shown exactly when hasAny holds, and then lists RewardLines, which is non-empty |
| NodeCard.RewardsBlockIntended | src/components/NodeCard.tsx:268-355 | corrected: the block is shown exactly when it has lines, it lists them, and it agrees with the written block whenever that one is shown |
| NodeCard.FactionOnlyBlockHidden | src/components/NodeCard.tsx:268-355 | a faction-only reward: the written block is hidden, the corrected one lists the influence line |

## Left out

- The layout solver itself (ELK's `layout` call) is external and asynchronous. It is a parameter: a map from id to position. The effect's cancellation flag, React state and re-rendering are not modelled.
- Rendering is not modelled: JSX, styles, icons (`iconMap`, `Icon`), MiniMap colors, `fmt`/`toLocaleString` number formatting, and the clipboard copy in NodeCard. The rewards block is modelled as the list of lines it shows.
- `renderEntries` and the other task and reward lists of NodeCard beyond `renderTaskText` are display code and are not modelled.
- `zoneColor` (Graph.tsx:28-38) is never called and is not modelled. Neither is the `zones` selector list (lines 264-267).
- The first `maxBottom` of each band (line 494) is computed but never used, so it is not modelled.
- `localStorage` loading and persistence in store.ts are I/O. The constructor takes the loaded state. `crypto.randomUUID()` is a parameter of `AddCharacter`.
- Converter file I/O is not modelled: the CSV read, the JSON write, the missing-file check (a missing manual file behaves as an empty link list), exceptions inside the links loop, the printed messages, and `generated_at`. The `str(...)` of a manual link's `source`, `target` and `type` is not modelled: the fields are given as strings, so a JSON `null` read as the id "None" or a number read as its decimal text is not captured.
- `to_int_safe` is not modelled. Numeric cells are given already parsed (`Option<int>`).
- The `if not qid` guard of the third pass (line 69) cannot fire after the first pass, and it is not modelled.
- Python set iteration order in `ach_to_q[tok]` is unspecified. The inner loop picks elements nondeterministically, and its contracts are order-free.
- Strings are sequences of Unicode scalar values. Where the program reads `.length` (estimateNodeHeight, src/components/Graph.tsx:77-78) the model counts UTF-16 code units with `Text.Utf16Len`. Elsewhere string positions only cut strings into pieces, and the pieces are the same in either count.
- The ASCII-only model of `toLowerCase`, `lower()`, `\s`, `\w` and `trim` means Unicode case folding and Unicode white space are not captured. Python's `strip()` and `\s` on `str` also count the ASCII separators `\x1c`-`\x1f` as white space; `Text.IsSpace` does not.
- `Object.keys` order: gate keys are canonical decimal strings of positive integers. JavaScript enumerates such keys in ascending numeric order only while they are array indices, that is below 2^32 - 1. The model visits the gates in ascending order everywhere, so a level of 2^32 - 1 or more, which JavaScript would visit in insertion order, is not modelled.
- NodeBefore, EdgeBefore and ChildBefore: equal priorities are broken by `Text.StrLe`, the order of Unicode scalar values, which equals UTF-16 code-unit order below U+10000, where the program calls `localeCompare` (src/components/Graph.tsx:337, 375 and 418), which collates by locale. The two orders disagree on case and punctuation: in locale order "a" comes before "B" and "A_" before "AB", and scalar order puts both the other way. For two tied children such as "99_X" and "99AX", the model may therefore place a different child at the top of a column or follow a different child along a chain.
- ElkChildrenOrdered: ties are stated in Unicode scalar id order, not in the locale order of `localeCompare` (Graph.tsx:337); see the line above.
- SortedKidsOrdered: ties are stated in Unicode scalar id order, not in the locale order of `localeCompare` (Graph.tsx:418); see the line above.
- Duplicate node ids are not excluded by the program. The refiner is keyed by id like its `nodeMap`. The band properties assume distinct ids (`NoDup`).
- A chain member missing from `nodeMap` would throw at line 475. The model skips it.
- `Sorting.SortBy`: stability is not stated as a separate lemma. `Sorting.InsertAt` shows that each element is placed after the elements equal to it.
- Refiner.TopOfAll: with no node at all no band moves, so the start cursor is 0.0 and is never read.
- Refiner.RestackBands: band and height are precomputed maps from nodeMap (`Refiner.BandMap`, `Refiner.HeightMap`), which hold constant during the pass because only positions change.
- Logic token class: the character class `[A-Za-z0-9_\\-]` of `parse_logic` (tools/convert_csv_to_json.py:59) also admits the backslash, and `Logic.IsTokChar` keeps it as written.
- NodeCard.ReadKv: keys such as `__proto__` behave specially in a JavaScript object. The model treats every key as an ordinary map key.
- JSON numbers are modelled as `int` in the converter and NodeCard. Layout coordinates are `real`.
- `TOKEN_RE` is a global regular expression whose `lastIndex` persists between calls. The model starts each call at 0, which is what the loop leaves behind after running to the end.
- The converter writes none of the reward keys that NodeCard reads. Lines 80-97 of tools/convert_csv_to_json.py write only the `rewards` list of strings, which `ConvertLinks.Rewards` models and which NodeCard does not read. None of `experience_reward`, `universal_exp_amount`, `currency_reward`, `azoth_reward`, `faction_influence`, `faction_reputation`, `faction_tokens`, `territory_standing`, `item_reward`, `item_reward_name`, `item_reward_qty`, `item_reward_icon`, `item_reward_rarity` and `item_reward_resolved_name` comes from it. The model reads every one of them as an optional field of the node data (`NodeCard.RewardData`).

## Findings

| source | as written | input that shows it | evidently intended | confidence | as-written member | corrected member |
|---|---|---|---|---|---|---|
| src/components/Graph.tsx:133 | `done` is the set of keys of `completed`, but `toggleQuest` (store.ts:60) writes `false` rather than deleting the key | check a quest, then uncheck it: `completed = {q: false}` and q still counts as done | done means the flag is true | not executed | Store.ToggledTwiceStillDone | Store.ToggleDoneSet |
| src/components/NodeCard.tsx:287-294 | `hasAny` tests xp, coin, azoth, standing, the item id and the item name id, but not the three faction amounts or the resolved item name, which the block itself lists | `faction_influence: 100` and nothing else, or only `item_reward_resolved_name: "Iron Sword"` | the block is shown whenever it has a line to show (the corrected gate HasAny, characterised by NodeCard.HasAnyExact) | not executed | NodeCard.FactionOnlyBlockHidden | NodeCard.RewardsBlockIntended |
| src/components/Graph.tsx:587 | `setViewport({ x: minX - 40, y: minY - 40, zoom: 1 })` passes the top-left corner of the cards as the viewport, but React Flow's x and y are the translation of the pane, so a card at flow position x is drawn at screen position x + minX - 40 | one card at (500, 0): it is drawn at screen x 960 instead of 40 | the top-left card 40 from the screen's top and left edges, that is x = 40 - minX and y = 40 - minY | not executed | Viewport.ResetMisplacesExample | Viewport.ResetIntended |
