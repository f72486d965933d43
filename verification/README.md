# The spatial index library, verified

The repository bundles a spatial index library as the plug-in of a small socket server. This project models the
library's hard parts and proves what they are for. It has five parts (`Lists` holds what they all say about lists):

- **The R-tree** (`Geometry`, `Pages`, `IndexLists`, `Node`, `TreeSteps`, `RTree`, `Subtrees`, `Deletion`, `Validity`,
  `Runs`, `Victims`, `Queries`, `Neighbors`, `SelfJoin`). The tree is a class that holds pages in a store; a node is a
  class with its entry list and box, read from a page, changed, and written back. The invariant says that the pages form a forest:
  every page but the root is pointed to exactly once, from one level above, stored boxes are the children's own, and the
  node counts are right. Between two steps of an operation, some pages may be parentless, one stored box may be out of
  date, and some pages may be nearly empty, and the invariant names which. Insertion (with splits, forced reinsertion
  and root growth) and deletion (with condensing, reinsertion and root shrink) keep it, and change the multiset of
  stored entries by exactly one. Runs and all four queries are proved equal to a linear scan over that multiset, which
  entry a deletion takes is stated exactly, and the library's own consistency check is proved to decide the invariant on
  any pages that form a tree. The invariant comes in four strengths: `Working` (no page but a root leaf is empty, and
  the level counters lag in one of four known ways), `Ragged` (and above the leaves at most one page of each level has
  a single entry, as on the right edge of a loaded tree), `Full` (no page but a root leaf has fewer than two entries)
  and `Valid` (and the counters are exact).
- **The bulk loader** (`ExternalSorter`, `TileLayout`, `BulkLoader`, `LoadedTrees`). The sorter is a class that keeps
  sorted runs and merges them in passes; the loader packs level after level. Every level is laid out in slabs by one
  dimension after the other, in the order of the entries' centres wherever the sorter's buffer holds them; the number and
  sizes of nodes are exact, the data are exactly the stream, and loading terminates. A loaded tree is a ragged tree: searches, insertions and deletions
  treat it as they treat any other, in whole runs, and the effect of its extra counter on the consistency check is
  stated exactly.
- **Moving boxes** (`Moving`, `TprNode`, `TprTree`, `TprQueries`, `TprRuns`, `VersionBorrow`). Statements about every
  real instant of a period are decided from finitely many comparisons: containment and intersection of moving boxes,
  the boxes of the time-parameterized tree through whole timed runs, and the borrow rule of the multiversion tree.
- **Storage** (`DiskStorage`, `MemoryStorage`, `BufferRuns`). The page allocator with its chunked byte arrays, closing
  and reopening, the slot store, and the randomly evicting buffer are proved against plain maps, the buffer also over whole runs.
- **Pool pointers** (`PoolPointers`, `PointerRuns`). Ownership by circular doubly linked rings, as an object structure
  on the heap, with an invariant over whole programs that copy, assign, destroy and relinquish pointers, and the exact condition under
  which such a program never dereferences null.

## Conventions

- The main results do not rest on the functions that the code itself computes with. What a distance, an area, a sorting
  key, a stored region or an intersection means is stated over points, sides and positions, and proved of the code's own
  arithmetic.
- Coordinates, velocities and times are exact reals. Distances are squared. Region equality is exact.
- Whatever the library decides by comparing areas, overlaps, margins or distances between boxes (seeds, preferred group,
  sort order, split point, subtree, entries to reinsert) is an arbitrary choice here, so every result holds for every
  such heuristic. A random eviction and the order of ties in a heap are arbitrary choices too.
- Stored regions and queries are not inverted where a query result depends on it (containment, nearest neighbour,
  self join). Range queries by intersection, insertion and deletion do not need it.
- `Params.Sane` collects what the tree needs of its parameters: capacities of four or more, at least two entries as
  minimum load, at least three for the smallest first group of the R* split, a fill factor of at most one half for the
  other two splits, and between one and capacity - 1 entries to reinsert. The library's defaults satisfy it.
- `RTreeRuns.Run` asks that an insertion use an id that is not stored; `RTreeDeletion.Delete` itself does not, and says
  what happens otherwise.

## Where the code and its comments differ

- The touch test of regions compares a number with two bounds that exclude each other, so over exact numbers it always
  holds (`Geometry.TouchesAlways`), and a tight tree recomputes every box it adjusts. The model has the comparisons as
  they are written.
- Forced reinsertion sorts by increasing distance from the centre and takes from the front, so it reinserts the closest
  entries. No property here depends on which.
- The merge of the external sorter is meant to be ascending, but its comparator puts the largest head on top.
  `ExternalSorting.SortsExactly` says exactly when that can show, through any number of passes, and `SmallestAlways`
  what the intended comparator would give.
- The intersection test of moving regions answers the containment shortcut with the whole period asked about, which is
  the set of meeting instants only when both regions live through it (`Moving.ShortcutExact`).
- A containment query on the time-parameterized tree hands out nothing (`TPRQueries.NeverContained`): stored regions
  live to the largest double, and the test asks about the rest of their lives.
- A deletion on the time-parameterized tree may set the clock back, which the comment forbids and the code does not
  check. `TPRRuns.ClockSetBack` gives, for every such time, a query that then misses a stored region, and
  `TPRRuns.DeleteAndQuery` the condition under which a query misses nothing.
- The bulk loader leaves one per-level counter too many. A loaded tree that insertions have raised by one level fails
  its own consistency check; one that they have not raised, or raised further, does not (`LoadedTrees.InsertIntoLoaded`,
  `LoadFourInsertOne`), and a deletion that lowers the tree makes the counters right (`DeleteAndCatchUp`).
- Deleting picks the entry on the leaf by its id alone, so it can take an entry with another box
  (`RTreeVictims.WrongBoxTaken`): whatever the tree looks like it takes one with the box asked for, exactly if all
  entries with the id have that box (`RTreeVictims.TakenExactly`).
- A pool pointer that relinquishes a shared object is left without links, and copying it or assigning from it then
  dereferences null (`PointerRuns.CopyOfRelinquished`). `PointerRuns.Run` says exactly which programs do that.
- A write-back buffer accepts a store to an id that the backing store would refuse (`MemoryStorage.AnswersAgree`).

## Model

| member | source | states |
|---|---|---|
| `Geometry.Combine` | plugins/gis-service/spatialindex-src-1.7.1/src/spatialindex/Region.cc:454-466 | the combined region contains both operands |
| `Geometry.IntersectsPoints` | plugins/gis-service/spatialindex-src-1.7.1/src/spatialindex/Region.cc:257-269 | the comparisons of the sides decide whether two boxes that are not inverted have a point in common |
| `Geometry.ContainsPoints` | plugins/gis-service/spatialindex-src-1.7.1/src/spatialindex/Region.cc:271-283 | and whether every point of one is a point of the other |
| `Geometry.IntersectionPoints` | plugins/gis-service/spatialindex-src-1.7.1/src/spatialindex/Region.cc:389-413 | the intersecting region has exactly the points that both have |
| `Geometry.CombineLeast` | plugins/gis-service/spatialindex-src-1.7.1/src/spatialindex/Region.cc:454-466 | the combined region is inside every region that contains both operands |
| `Geometry.MinimumDistance2` | plugins/gis-service/spatialindex-src-1.7.1/src/spatialindex/Region.cc:304-330 | the loop over the dimensions, without the final square root, computes for boxes that are not inverted the least sum of squared coordinate differences of a point of the one and a point of the other: no pair of points is closer, and some pair is that close |
| `Geometry.DistanceBetween` | plugins/gis-service/spatialindex-src-1.7.1/src/spatialindex/Region.cc:304-330 | the gaps of all dimensions, squared and summed, are that least distance: a lower bound for every pair of points, attained by one |
| `Geometry.DistanceMonotone` | plugins/gis-service/spatialindex-src-1.7.1/src/rtree/RTree.cc:535-548 | a box is at most as far from the query as any box inside it, which is what lets the nearest-neighbour search queue nodes by their box |
| `Geometry.ContainmentIntersects` | plugins/gis-service/spatialindex-src-1.7.1/src/rtree/RTree.cc:1445-1467 | a query that contains a box that is not inverted meets it, so a containment query may prune by intersection |
| `Geometry.Helly` | plugins/gis-service/spatialindex-src-1.7.1/src/spatialindex/Region.cc:389-413 | three boxes that meet pairwise have a common box, so the intersecting region of the self join is never the "no intersection" value |
| `Geometry.NarrowingExact` | plugins/gis-service/spatialindex-src-1.7.1/src/rtree/RTree.cc:1514-1518 | narrowing the join region to the intersection with two boxes neither loses nor adds a pair of boxes inside them |
| `Geometry.TouchesAlways` | plugins/gis-service/spatialindex-src-1.7.1/src/spatialindex/Region.cc:285-302 | over exact numbers the touch test, as its comparisons are written, never fails |
| `RTreeNode.PickSeeds` | plugins/gis-service/spatialindex-src-1.7.1/src/rtree/Node.cc:929-1004 | the two seeds are different positions, whatever the scan found |
| `RTreeNode.RtreeSplit` | plugins/gis-service/spatialindex-src-1.7.1/src/rtree/Node.cc:601-753 | the linear and quadratic split divides the cap+1 positions into two groups, both with at least the minimum load |
| `RTreeNode.RstarSplit` | plugins/gis-service/spatialindex-src-1.7.1/src/rtree/Node.cc:755-927 | the R* split divides the cap+1 positions into a group of at least m and one of at least m-1 |
| `RTreeNode.Node.ReinsertData` | plugins/gis-service/spatialindex-src-1.7.1/src/rtree/Node.cc:542-599 | forced reinsertion divides the cap+1 positions into those to reinsert, the reinsertion factor's part of them rounded down, and those to keep, at most the capacity |
| `RTreeNode.Node.InsertEntry` | plugins/gis-service/spatialindex-src-1.7.1/src/rtree/Node.cc:291-305 | the entry is appended and the box combined with its box |
| `RTreeNode.Node.Recompute` | plugins/gis-service/spatialindex-src-1.7.1/src/rtree/Node.cc:335-345 | the nested loops leave exactly the fold of combineRegion over all entries in the box |
| `RTreeNode.Node.DeleteEntry` | plugins/gis-service/spatialindex-src-1.7.1/src/rtree/Node.cc:307-347 | the last entry takes the place of the deleted one; an emptied node gets the infinite box, a tight one the exact cover of the rest |
| `RTreeNode.Node.TakeOut` | plugins/gis-service/spatialindex-src-1.7.1/src/rtree/Node.cc:374-458 | the entries kept and those taken out are together the old ones and the new one, as many are taken out as the reinsertion factor says, and the node is left with the exact cover of what it keeps |
| `RTreeNode.Node.Split` | plugins/gis-service/spatialindex-src-1.7.1/src/rtree/Index.cc:99-138 | both halves hold two entries or more and fit the capacity, reach the shares that the fill factor or the split factor asks for, together hold the node's entries and the new one, and have exact covers |
| `Pages.CoverLeast` | plugins/gis-service/spatialindex-src-1.7.1/src/rtree/Node.cc:335-345 | each side of the cover of some entries is a side of one of them, and none of theirs lies beyond it |
| `Pages.Rewrite` | plugins/gis-service/spatialindex-src-1.7.1/src/rtree/RTree.cc:1296-1345 | overwriting one page of a forest of pages keeps it a forest: every page pointed to once and from one level above, stored boxes equal to the children's own except for those named stale |
| `Pages.AddPage` | plugins/gis-service/spatialindex-src-1.7.1/src/rtree/RTree.cc:1296-1345 | a new page over parentless pages keeps the forest |
| `Pages.RemovePage` | plugins/gis-service/spatialindex-src-1.7.1/src/rtree/RTree.cc:1400-1419 | removing a parentless page leaves its children parentless and the rest a forest |
| `Pages.CountAdd` | plugins/gis-service/spatialindex-src-1.7.1/src/rtree/RTree.cc:1318-1335 | the total and the per-level node counts stay right when a page is added |
| `Pages.CountRemove` | plugins/gis-service/spatialindex-src-1.7.1/src/rtree/RTree.cc:1412-1413 | the counts stay right when a page is deleted |
| `RTreeModel.RTree.constructor` | plugins/gis-service/spatialindex-src-1.7.1/src/rtree/RTree.cc:998-1007 | a new tree is an empty leaf root with right statistics |
| `RTreeModel.RTree.WriteNewNode` | plugins/gis-service/spatialindex-src-1.7.1/src/rtree/RTree.cc:1296-1345 | a node without a page gets an unused one and is counted in total and on its level |
| `RTreeModel.RTree.TakeBox` | plugins/gis-service/spatialindex-src-1.7.1/src/rtree/Index.cc:281-310 | the parent takes over its child's box; afterwards at most the parent's own box is out of date one level up, and nothing is when it was not recomputed |
| `RTreeModel.RTree.AdjustTree` | plugins/gis-service/spatialindex-src-1.7.1/src/rtree/Index.cc:277-321 | after the walk towards the root no stored box is out of date, and only boxes have changed |
| `RTreeModel.RTree.AdjustTreeSplit` | plugins/gis-service/spatialindex-src-1.7.1/src/rtree/Index.cc:323-373 | takes over one box and a new sibling, which may split or reinsert in turn; the tree is whole again afterwards and no data entry was lost or added |
| `RTreeModel.RTree.InsertRoom` | plugins/gis-service/spatialindex-src-1.7.1/src/rtree/Node.cc:351-371 | the room branch stores the entry, and no box is out of date unless the node's own box had contained the entry |
| `RTreeModel.RTree.InsertReinsert` | plugins/gis-service/spatialindex-src-1.7.1/src/rtree/Node.cc:372-484 | forced reinsertion ends with the tree whole and exactly the new entry gained; this level is the first one logged and is marked, and the levels marked are exactly the levels that reinserted, each once |
| `RTreeModel.RTree.GrowRoot` | plugins/gis-service/spatialindex-src-1.7.1/src/rtree/Node.cc:491-521 | a split of the root keeps the root page and raises the tree by one level; the numbers of nodes on the levels stay known, and the counters keep whatever lag they had |
| `RTreeModel.CountersRaised` | plugins/gis-service/spatialindex-src-1.7.1/src/rtree/Node.cc:513-521 | growing the root writes 2 over the last counter used and appends 1: what that does to counters with one spare entry, for each of the four ways they can stand |
| `RTreeModel.CountersLowered` | plugins/gis-service/spatialindex-src-1.7.1/src/rtree/Node.cc:1010-1024 | shrinking the root drops the last counter and writes 2 over the one before: afterwards counters that were behind are right again |
| `RTreeModel.RTree.InsertSplit` | plugins/gis-service/spatialindex-src-1.7.1/src/rtree/Node.cc:485-539 | a split below the root ends with the tree whole and exactly the new entry gained |
| `RTreeModel.RTree.InsertData` | plugins/gis-service/spatialindex-src-1.7.1/src/rtree/Node.cc:349-540 | whichever branch is taken, the tree gains the entry and nothing else; with room nothing is reinserted; a full R* node below the root, on a level in the table and not marked yet, is the next to reinsert and its level is marked; the recursion through adjustTree and insertData_impl decreases the unmarked levels, then the path left |
| `RTreeModel.RTree.InsertAt` | plugins/gis-service/spatialindex-src-1.7.1/src/rtree/RTree.cc:1254-1270 | inserting on any level, data or a whole parentless subtree, keeps the invariant and gains exactly that entry |
| `RTreeModel.RTree.Insert` | plugins/gis-service/spatialindex-src-1.7.1/src/rtree/RTree.cc:407-446 | on any working tree, bulk loaded or not: refused only for the wrong dimension; the invariant (levels, boxes, counts) stays in the strength it had, exactly its entry is added, the root page is kept, each level below the root is force-reinserted at most once; a root leaf with room is extended by exactly this entry; the counters are raised as often as the tree grew |
| `RTreeModel.RTree.WithinCapacity` | plugins/gis-service/spatialindex-src-1.7.1/src/rtree/Node.cc:351-371 | on every working tree no leaf holds more entries than the capacity of leaves and no index page more than that of index nodes, and no page but the root is empty |
| `RTreeModel.UnmarkedMonotone` | plugins/gis-service/spatialindex-src-1.7.1/src/rtree/Node.cc:372-374 | marking levels never raises, and marking a new one lowers, the number of unmarked levels: the measure behind the termination of insertion |
| `Subtrees.UnderInside` | plugins/gis-service/spatialindex-src-1.7.1/src/rtree/RTree.cc:740-830 | whatever lies below a page lies inside the page's box |
| `Subtrees.UnderRootIsAll` | plugins/gis-service/spatialindex-src-1.7.1/src/rtree/RTree.cc:740-830 | the descent from the root meets every stored entry exactly as often as it is stored |
| `RTreeDeletion.FindLeaf` | plugins/gis-service/spatialindex-src-1.7.1/src/rtree/Index.cc:79-97 | a leaf is found exactly if an entry with this id and box lies below the node, it is the first such leaf in the order of the entries, and the path leads to it |
| `RTreeDeletion.CondenseParent` | plugins/gis-service/spatialindex-src-1.7.1/src/rtree/Node.cc:1025-1075 | one step of the walk: the node goes on the stack exactly if it has fewer entries than the fill factor's part of its capacity, rounded down; otherwise its parent takes over its box |
| `RTreeDeletion.CondenseTree` | plugins/gis-service/spatialindex-src-1.7.1/src/rtree/Node.cc:1006-1076 | the walk to the root keeps the remaining tree sound while dissolved nodes wait on the stack with all their entries; nothing is lost, all nodes put on the stack are underfull, and the first node is among them if it is |
| `RTreeDeletion.EliminateRoot` | plugins/gis-service/spatialindex-src-1.7.1/src/rtree/Node.cc:1010-1024 | a root with one child gives way to it under the root's page number, and the counter written as 2 becomes right once the pending child page is deleted |
| `RTreeDeletion.ShrinkEdge` | plugins/gis-service/spatialindex-src-1.7.1/src/rtree/Node.cc:1010-1024 | if the page that becomes the root has a single child, then its dissolved sibling holds something to put back: the reason why no deletion leaves an index root without children |
| `RTreeDeletion.ReinsertHeld` | plugins/gis-service/spatialindex-src-1.7.1/src/rtree/Leaf.cc:123-139 | all dissolved nodes, from several levels and over a root that may have shrunk, are put back on their own levels |
| `RTreeDeletion.DeleteData` | plugins/gis-service/spatialindex-src-1.7.1/src/rtree/Leaf.cc:106-140 | the first entry of the leaf with the id leaves the stored data and no other, although condensing and reinsertion move others |
| `RTreeDeletion.Delete` | plugins/gis-service/spatialindex-src-1.7.1/src/rtree/RTree.cc:448-478 | on any ragged tree, bulk loaded or not: true exactly if an entry with this id and box is stored; then the first entry with this id on the first leaf that stores both leaves the data, and no other; otherwise no page changes; the invariant holds afterwards in the strength it had, and a tree that gets lower has right counters |
| `RTreeDeletion.DeleteImpl` | plugins/gis-service/spatialindex-src-1.7.1/src/rtree/RTree.cc:1272-1294 | the same for the inner call, without the size counter |
| `RTreeVictims.TakenExactly` | plugins/gis-service/spatialindex-src-1.7.1/src/rtree/Leaf.cc:106-115 | for any data that hold the id with the box asked for: every tree with these data gives up an entry with this box exactly if all stored entries with the id have it |
| `RTreeVictims.OtherTaken` | plugins/gis-service/spatialindex-src-1.7.1/src/rtree/Leaf.cc:106-115 | otherwise a tree with the same data, packed level by level, on which the deletion takes an entry with another box |
| `RTreeVictims.WrongBoxTaken` | plugins/gis-service/spatialindex-src-1.7.1/src/rtree/RTree.cc:407-478 | two insertions under one id and the deletion of the second entry: it answers true, and what is left is the entry that was to be deleted |
| `RTreeRuns.Run` | plugins/gis-service/spatialindex-src-1.7.1/src/rtree/RTree.cc:407-478 | any run of insertions under unused ids and of deletions, from an empty tree: the data always equal a linear scan, every answer is the scan's, and isIndexValid says yes at the end of a tight run |
| `RTreeRuns.RunOn` | plugins/gis-service/spatialindex-src-1.7.1/src/rtree/RTree.cc:407-478 | the same for a run on any ragged tree that already holds entries with unique ids: data and answers are the scan's, and the tree stays ragged |
| `RTreeRuns.DeleteAgrees` | plugins/gis-service/spatialindex-src-1.7.1/src/rtree/RTree.cc:1272-1294 | with unique ids, whichever entry with the id leaves is the one the scan takes |
| `RTreeValidity.CheckNodes` | plugins/gis-service/spatialindex-src-1.7.1/src/rtree/RTree.cc:752-809 | on any pages that form a tree, the stack loop looks at every page once, tallies the pages of each level, and answers whether every box is the exact cover of its entries and every copy of a box up to date |
| `RTreeValidity.CheckCounters` | plugins/gis-service/spatialindex-src-1.7.1/src/rtree/RTree.cc:811-826 | the comparison of the tallies with the statistics succeeds exactly if the counters of all levels and the total are right |
| `RTreeValidity.IsIndexValid` | plugins/gis-service/spatialindex-src-1.7.1/src/rtree/RTree.cc:740-830 | on any pages that form a tree, whatever their boxes, the height and the counters say, the answer is yes exactly if the height is right, every box is the exact cover of its page's entries, every copy of a box is up to date, and all counters are right |
| `RTreeValidity.ValidPasses` | plugins/gis-service/spatialindex-src-1.7.1/src/rtree/RTree.cc:740-830 | a tree that was not bulk loaded passes the check between any two operations exactly if its boxes are exact, which they are in a tight tree |
| `RTreeValidity.WorkingPasses` | plugins/gis-service/spatialindex-src-1.7.1/src/rtree/RTree.cc:740-830 | any working tree meets the conditions of the check on shape, height and copies of boxes; its counters are right exactly unless they lag behind by one growth |
| `RTreeQueries.RangeQuery` | plugins/gis-service/spatialindex-src-1.7.1/src/rtree/RTree.cc:1421-1481 | reports exactly the stored entries that meet the query, or are contained in it, each as often as it is stored (any tree whose boxes are up to date and whose pages below the root are not empty, bulk loaded or not) |
| `RTreeQueries.PointLocationQuery` | plugins/gis-service/spatialindex-src-1.7.1/src/rtree/RTree.cc:492-497 | reports exactly the entries whose boxes contain the point, on the same trees |
| `RTreeQueries.Pruned` | plugins/gis-service/spatialindex-src-1.7.1/src/rtree/RTree.cc:1463-1466 | nothing below a box that the query misses is a result of either kind of query |
| `RTreeNeighbors.FoundExact` | plugins/gis-service/spatialindex-src-1.7.1/src/rtree/RTree.cc:516-560 | a search that stops this way has reported an entry exactly if fewer than k entries are nearer (for k = 0: if it touches the query), all ties included |
| `RTreeNeighbors.NearestNeighborQuery` | plugins/gis-service/spatialindex-src-1.7.1/src/rtree/RTree.cc:499-580 | reports exactly the entries that have fewer than k entries closer to the query, each as often as it is stored, and none before a closer one; closer means that some pair of points of entry and query is closer together than every such pair of the other (any tree whose boxes are up to date and whose pages below the root are not empty, bulk loaded or not) |
| `RTreeNeighbors.ClosestFar` | plugins/gis-service/spatialindex-src-1.7.1/src/rtree/RTree.cc:516-560 | the entries that the computed distances put among the nearest are those that the points put there |
| `RTreeNeighbors.BoxProper` | plugins/gis-service/spatialindex-src-1.7.1/src/rtree/RTree.cc:535-548 | a node that holds entries has a box that is not inverted, so its distance bounds theirs |
| `RTreeSelfJoin.JoinNodes` | plugins/gis-service/spatialindex-src-1.7.1/src/rtree/RTree.cc:1483-1523 | the recursive join of two nodes of one level reports the cross product of what lies below them, restricted to pairs that join |
| `RTreeSelfJoin.Narrowed` | plugins/gis-service/spatialindex-src-1.7.1/src/rtree/RTree.cc:1514-1518 | descending with the narrowed region reports the same pairs as with the region itself |
| `RTreeSelfJoin.SelfJoinQuery` | plugins/gis-service/spatialindex-src-1.7.1/src/rtree/RTree.cc:590-619 | reports an ordered pair exactly if the ids differ and both boxes meet the query and each other, as often as the two are stored together (any tree whose boxes are up to date and whose pages below the root are not empty, bulk loaded or not) |
| `RTreeSelfJoin.JoinedOnce` | plugins/gis-service/spatialindex-src-1.7.1/src/rtree/RTree.cc:1500-1513 | with unique ids that is once for each ordered pair |
| `LoadedTrees.LoadAndSearch` | plugins/gis-service/spatialindex-src-1.7.1/src/rtree/BulkLoader.cc:316-375 | bulk loading a stream, then inserting any further entries, then all four searches: each answers as a scan over the streamed and inserted entries does |
| `LoadedTrees.LoadAndRun` | plugins/gis-service/spatialindex-src-1.7.1/src/rtree/BulkLoader.cc:316-375 | bulk loading, then any run of insertions and deletions with unique ids, then the consistency check and all four searches: every answer is that of a linear scan, and a tight tree passes the check exactly if its counters are right |
| `LoadedTrees.InsertIntoLoaded` | plugins/gis-service/spatialindex-src-1.7.1/src/rtree/BulkLoader.cc:363-373 | after any insertions into a freshly loaded tree its level counters are right exactly if the tree is not one level higher than it was loaded |
| `LoadedTrees.DeleteAndCatchUp` | plugins/gis-service/spatialindex-src-1.7.1/src/rtree/Node.cc:1010-1024 | a deletion that lowers the tree leaves right counters, whether or not they were behind |
| `LoadedTrees.LoadFourInsertOne` | plugins/gis-service/spatialindex-src-1.7.1/src/rtree/RTree.cc:740-830 | four points are loaded into one leaf and a fifth is inserted: isIndexValid then answers no |
| `LoadedTrees.FullHolds` | plugins/gis-service/spatialindex-src-1.7.1/src/rtree/Node.cc:485-539 | a full tree holds at most one leaf's worth of entries or at least two for each of its levels, so its height is at most half its size |
| `Moving.ContainsRegionInTime` | plugins/gis-service/spatialindex-src-1.7.1/src/spatialindex/MovingRegion.cc:438-485 | true exactly if the common period is proper, lies within this region's life, and the other box is inside this one at every real instant of it |
| `Moving.InsideBetween` | plugins/gis-service/spatialindex-src-1.7.1/src/spatialindex/MovingRegion.cc:460-482 | containment at both ends of a period is containment throughout |
| `Moving.UpperStays` | plugins/gis-service/spatialindex-src-1.7.1/src/spatialindex/MovingRegion.cc:466-473 | the test of the crossing time of two upper sides decides their order at the end of the period |
| `Moving.ContainsPointInTime` | plugins/gis-service/spatialindex-src-1.7.1/src/spatialindex/MovingRegion.cc:757-800 | the same statement for a moving point |
| `Moving.NarrowDim` | plugins/gis-service/spatialindex-src-1.7.1/src/spatialindex/MovingRegion.cc:382-413 | one dimension narrows the period to exactly the instants at which the boxes, not inverted in it, meet in it, or leaves at most its last instant; on inverted boxes it still answers |
| `Moving.NarrowExact` | plugins/gis-service/spatialindex-src-1.7.1/src/spatialindex/MovingRegion.cc:395-412 | the crossing times computed are the ends of the meeting period |
| `Moving.IntersectsRegionInTime` | plugins/gis-service/spatialindex-src-1.7.1/src/spatialindex/MovingRegion.cc:340-426 | for boxes that are not inverted during the common window: past the containment shortcut a true answer comes with exactly the instants of the window at which they meet in all dimensions; false leaves at most one such instant; under the shortcut they meet throughout and the interval is the period asked about, for any boxes |
| `Moving.ShortcutExact` | plugins/gis-service/spatialindex-src-1.7.1/src/spatialindex/MovingRegion.cc:349-355 | under the shortcut the interval handed back is the set of meeting instants exactly if both regions live through the whole period |
| `Moving.CombineRegionAfterTime` | plugins/gis-service/spatialindex-src-1.7.1/src/spatialindex/MovingRegion.cc:828-845 | the result has the given reference time and contains both regions at every later instant; its sides, velocities and end are the extreme ones |
| `Moving.Course` | plugins/gis-service/spatialindex-src-1.7.1/src/spatialindex/MovingRegion.cc:268-286 | a moving region is where it was given at its start, moves at its velocities while it lives, and stands still before and after |
| `Moving.LineSign` | plugins/gis-service/spatialindex-src-1.7.1/src/spatialindex/MovingRegion.cc:466-482 | the sign of a line on either side of its root, the fact behind every crossing test |
| `TPRNodes.TPRNode.Recompute` | plugins/gis-service/spatialindex-src-1.7.1/src/tprtree/Node.cc:339-362 | the box recomputed at the current time has the extreme sides at that time, two epsilons further out, and the extreme velocities, and encloses all entries from the latest time on |
| `TPRNodes.TPRNode.InsertEntry` | plugins/gis-service/spatialindex-src-1.7.1/src/tprtree/Node.cc:324-398 | an older box is recomputed tightly, a box of the current time is kept exactly if it contains the new entry from now on and stretched otherwise; in each case it encloses the old entries and the new one from the latest time of the clock on, even when the clock has been set back |
| `TPRNodes.TPRNode.Extend` | plugins/gis-service/spatialindex-src-1.7.1/src/tprtree/Node.cc:367-385 | the stretched box, whose sides and velocities are given exactly, covers the new region and the old box from the latest time of the clock on |
| `TPRNodes.TPRNode.DeleteEntry` | plugins/gis-service/spatialindex-src-1.7.1/src/tprtree/Node.cc:400-455 | the rest is enclosed, from the latest time on, by a box recomputed tightly at the current time, or the node is empty and its box infinite |
| `TPRNodes.TightEncloses` | plugins/gis-service/spatialindex-src-1.7.1/src/tprtree/Index.cc:295-325 | a box tight at one time contains all entries at every instant from then to the largest double |
| `TPRNodes.InsideCovers` | plugins/gis-service/spatialindex-src-1.7.1/src/spatialindex/MovingRegion.cc:487-491 | a positive containsRegionAfterTime at the reference time means containment at every instant from then on |
| `TPRNodes.CoversTransitive` | plugins/gis-service/spatialindex-src-1.7.1/src/tprtree/Index.cc:295-325 | covering from a younger box over an older one over an entry adds up from the younger reference time on |
| `TPRTrees.ItemCovered` | plugins/gis-service/spatialindex-src-1.7.1/src/tprtree/Index.cc:295-325 | every item below a node of a sound tree is covered by the node's box from the latest time of the clock on |
| `TPRTrees.AdjustTree` | plugins/gis-service/spatialindex-src-1.7.1/src/tprtree/Index.cc:275-335 | the walk to the root takes over every changed box, keeps the tree sound and no item is lost or added |
| `TPRTrees.Split` | plugins/gis-service/spatialindex-src-1.7.1/src/tprtree/Index.cc:96-131 | both halves are sound nodes of two entries or more that together hold everything |
| `TPRTrees.InsertData` | plugins/gis-service/spatialindex-src-1.7.1/src/tprtree/Node.cc:457-473 | storing with room, or splitting up to a new root, keeps the tree sound and gains exactly what lies under the entry |
| `TPRTrees.InsertAt` | plugins/gis-service/spatialindex-src-1.7.1/src/tprtree/TPRTree.cc:1082-1098 | the insertion on any level: sound afterwards, exactly that entry gained |
| `TPRTrees.FindLeaf` | plugins/gis-service/spatialindex-src-1.7.1/src/tprtree/Index.cc:76-94 | a leaf with the id is found whenever this region is stored under it: boxes that do not contain the region from the current time on do not hide it, and the path to a leaf that is found leads through boxes only that contain it |
| `TPRTrees.CondenseTree` | plugins/gis-service/spatialindex-src-1.7.1/src/tprtree/Node.cc:1176-1255 | the remaining tree is sound, the dissolved nodes wait below its level, all of them with fewer entries than the fill factor's part of their capacity and the first node among them if it has, and together they hold everything |
| `TPRTrees.DeleteData` | plugins/gis-service/spatialindex-src-1.7.1/src/tprtree/Leaf.cc:103-137 | exactly one item with the id leaves, although condensing and reinsertion move others, and the tree is sound |
| `TPRQueries.TPRTree.InsertData` | plugins/gis-service/spatialindex-src-1.7.1/src/tprtree/TPRTree.cc:256-314 | refused for the wrong dimension or a start before the clock; otherwise the clock is the start, the tree is sound, and exactly one item is added: it has this id and data, lives from the start to the largest double, and at every instant of that its sides are where the sides and velocities of the shape put them |
| `TPRQueries.EndlessOnly` | plugins/gis-service/spatialindex-src-1.7.1/src/tprtree/TPRTree.cc:281-286 | one region only moves like that, so what is stored for a shape is fixed by where the shape is |
| `TPRQueries.TPRTree.DeleteData` | plugins/gis-service/spatialindex-src-1.7.1/src/tprtree/TPRTree.cc:316-367 | the clock becomes the end of the shape, even when that sets it back; one item with the id leaves, or none does and, unless the clock was set back, this shape is not stored under the id; the tree is sound |
| `TPRQueries.TPRTree.RangeQuery` | plugins/gis-service/spatialindex-src-1.7.1/src/tprtree/TPRTree.cc:1253-1318 | refused outside the horizon; otherwise every item is handed out or passed over as often as it is stored; an intersection query hands out only items it meets at some instant and, if it starts at the latest time of the clock or later, passes over only items it meets at one instant at most; a query that ends before the root's box hands out nothing |
| `TPRQueries.MissDescends` | plugins/gis-service/spatialindex-src-1.7.1/src/tprtree/TPRTree.cc:1272-1303 | a query that meets a box at one instant at most, and starts when the box covers an item, meets the item at one instant at most |
| `TPRQueries.NeverContained` | plugins/gis-service/spatialindex-src-1.7.1/src/tprtree/TPRTree.cc:1284-1286 | a containment query that ends before the largest double contains no stored region, since those live to the end of time |
| `TPRRuns.Run` | plugins/gis-service/spatialindex-src-1.7.1/src/tprtree/TPRTree.cc:256-367 | after any orderly timed run from an empty tree, every answer was the scan's, the tree is sound and holds exactly the objects that a linear scan over the shapes themselves holds, at the scan's clock, and a range query sorts these objects into those whose course shares a point with the query's at some instant and those whose course does so at one instant at most |
| `TPRRuns.ShareStored` | plugins/gis-service/spatialindex-src-1.7.1/src/tprtree/TPRTree.cc:1284-1286 | an object shares a point with a query at an instant exactly if the item stored for it meets the query's box then |
| `TPRRuns.DeleteAndQuery` | plugins/gis-service/spatialindex-src-1.7.1/src/tprtree/TPRTree.cc:316-367 | a deletion and then an accepted query: complete if the shape ends at the clock or later; if it ends before, takes nothing out and the root's box is as new as the old clock, every query that ends before the old clock hands out nothing |
| `TPRRuns.ClockSetBack` | plugins/gis-service/spatialindex-src-1.7.1/src/tprtree/TPRTree.cc:316-317 | for every clock and every earlier end of a shape whose horizon reaches past the start of time: two insertions and a deletion of nothing, after which an accepted query hands out nothing although a stored region is inside it throughout; the comment forbids such a deletion, the code does not check |
| `TPRRuns.CoveredOnTheWay` | plugins/gis-service/spatialindex-src-1.7.1/src/tprtree/Node.cc:390-395 | whatever was done to the clock, every box on the way down to an item encloses it from the latest time of the clock on, and no box is newer than that |
| `VersionBorrowing.Endpoints` | plugins/gis-service/spatialindex-src-1.7.1/src/mvrtree/Node.cc:809-814 | the set of starts and ends comes out strictly ascending and complete |
| `VersionBorrowing.CountIntervals` | plugins/gis-service/spatialindex-src-1.7.1/src/mvrtree/Node.cc:815-832 | each counter is the number of entries that live through its interval |
| `VersionBorrowing.CountersExact` | plugins/gis-service/spatialindex-src-1.7.1/src/mvrtree/Node.cc:815-832 | at every real instant of an interval the number of live entries is its counter |
| `VersionBorrowing.CheckCandidate` | plugins/gis-service/spatialindex-src-1.7.1/src/mvrtree/Node.cc:836-857 | the check over finitely many counters succeeds exactly if more than the limit live at every instant of the candidate's life |
| `VersionBorrowing.AreaUnit` | plugins/gis-service/spatialindex-src-1.7.1/src/spatialindex/Region.cc:232-242 | a box of unit sides has area one |
| `VersionBorrowing.AreaCut` | plugins/gis-service/spatialindex-src-1.7.1/src/spatialindex/Region.cc:232-242 | cutting a box in two across any dimension adds the areas: with the box of unit sides this leaves one area only |
| `VersionBorrowing.AreaSide` | plugins/gis-service/spatialindex-src-1.7.1/src/spatialindex/Region.cc:232-242 | the area is the length of one side times the area of the box in which that side has length one |
| `VersionBorrowing.ChooseEntry` | plugins/gis-service/spatialindex-src-1.7.1/src/mvrtree/Node.cc:769-867 | an entry is chosen exactly if the sibling fits and some live entry, not older than the node and enlarging the area of its box by a tenth at most, can be spared; the one chosen makes the area least |
| `VersionBorrowing.FindLender` | plugins/gis-service/spatialindex-src-1.7.1/src/mvrtree/Node.cc:760-769 | the first sibling that can lend is found, exactly if there is one |
| `VersionBorrowing.Borrow` | plugins/gis-service/spatialindex-src-1.7.1/src/mvrtree/Node.cc:871-876 | the entry moves from the sibling to the node, and both boxes still contain their entries |
| `VersionBorrowing.BorrowFromSibling` | plugins/gis-service/spatialindex-src-1.7.1/src/mvrtree/Node.cc:743-885 | something is borrowed exactly if some sibling can lend; then the first such sibling gives up an entry that can be spared and makes the area of the combined box least, and no other node changes |
| `VersionBorrowing.LenderKeepsOne` | plugins/gis-service/spatialindex-src-1.7.1/src/mvrtree/Node.cc:874-875 | with a limit of one or more the sibling keeps another entry, as the code asserts |
| `VersionBorrowing.MovedExact` | plugins/gis-service/spatialindex-src-1.7.1/src/mvrtree/Node.cc:776-876 | after the move the sibling keeps at least the floor of the limit alive at every instant of the entry's life and as many as before at all others, and no instant gains or loses a live entry overall |
| `ExternalSorting.SortRun` | plugins/gis-service/spatialindex-src-1.7.1/src/rtree/BulkLoader.cc:125-148 | a run is a rearrangement of the buffer in which no record has its centre, in the sorting dimension, to the right of a later one's |
| `ExternalSorting.KeyCentre` | plugins/gis-service/spatialindex-src-1.7.1/src/rtree/BulkLoader.cc:58-67 | of two records with the same sorting dimension one goes before the other exactly if its centre there lies to the left |
| `ExternalSorting.MergeRuns` | plugins/gis-service/spatialindex-src-1.7.1/src/rtree/BulkLoader.cc:194-257 | one pass over the first runs hands out their records largest head first, through page-wise buffers, until all are exhausted |
| `ExternalSorting.MergingKeeps` | plugins/gis-service/spatialindex-src-1.7.1/src/rtree/BulkLoader.cc:194-257 | merging loses and invents nothing |
| `ExternalSorting.ExternalSorter.Insert` | plugins/gis-service/spatialindex-src-1.7.1/src/rtree/BulkLoader.cc:125-148 | refused once sorted; otherwise exactly this record is added |
| `ExternalSorting.ExternalSorter.Sort` | plugins/gis-service/spatialindex-src-1.7.1/src/rtree/BulkLoader.cc:150-279 | refused the second time; otherwise what will be handed out is one of the outcomes of merging all runs pass by pass, largest head first, hence a permutation of what was inserted; when the input fits the buffer, no record has its centre to the right of a later one's; terminates with two buffer pages or more |
| `ExternalSorting.ExternalSorter.GetNextRecord` | plugins/gis-service/spatialindex-src-1.7.1/src/rtree/BulkLoader.cc:281-306 | hands out the records in order, refuses before sorting and at the end |
| `ExternalSorting.SortsExactly` | plugins/gis-service/spatialindex-src-1.7.1/src/rtree/BulkLoader.cc:150-279 | for any number of runs and passes: every outcome of sort, whatever is chosen among ties, is ascending exactly if no more records were inserted than the buffer holds, or all keys are equal |
| `ExternalSorting.PassesDisorder` | plugins/gis-service/spatialindex-src-1.7.1/src/rtree/BulkLoader.cc:171-268 | two runs or more with some two keys different: the passes can end out of order, since the comparator puts the largest head on top |
| `ExternalSorting.DisorderStays` | plugins/gis-service/spatialindex-src-1.7.1/src/rtree/BulkLoader.cc:194-257 | a run that is out of order stays so through a merge, so no later pass repairs it |
| `ExternalSorting.SmallestAlways` | plugins/gis-service/spatialindex-src-1.7.1/src/rtree/BulkLoader.h:75-82 | with a smallest-first queue every outcome of sort, through all passes, would be ascending |
| `ExternalSorting.SmallestFirstAscends` | plugins/gis-service/spatialindex-src-1.7.1/src/rtree/BulkLoader.h:75-82 | with a smallest-first queue the passes over sorted runs would always end in a sorted file |
| `BulkLoading.CreateNode` | plugins/gis-service/spatialindex-src-1.7.1/src/rtree/BulkLoader.cc:445-460 | the node holds the given entries under their exact cover |
| `BulkLoading.PackStep` | plugins/gis-service/spatialindex-src-1.7.1/src/rtree/BulkLoader.cc:402-410 | packing some waiting entries into a page keeps the forest, the data and the counts |
| `BulkLoading.SizesExact` | plugins/gis-service/spatialindex-src-1.7.1/src/rtree/BulkLoader.cc:388-422 | n entries in nodes of b make exactly the quotient rounded up, all full but the last |
| `BulkLoading.SizesMore` | plugins/gis-service/spatialindex-src-1.7.1/src/rtree/BulkLoader.cc:425-441 | full slabs and then the rest make the same nodes as one long packing |
| `BulkLoading.PackNodes` | plugins/gis-service/spatialindex-src-1.7.1/src/rtree/BulkLoader.cc:393-422 | the packing loop makes those nodes, and the last one written is the root for the time being |
| `BulkLoading.CreateLevel` | plugins/gis-service/spatialindex-src-1.7.1/src/rtree/BulkLoader.cc:377-443 | the entries are laid out as sort-tile-recursive packing says: when one slab would do, in the last dimension, or when the slab is everything, nodes of b consecutive entries; otherwise slabs of S * b consecutive entries, each sorted by the next dimension and laid out in the same way; in number and size the nodes are those of one long packing, and every record reaches one of them |
| `TileLayout.SlabsMore` | plugins/gis-service/spatialindex-src-1.7.1/src/rtree/BulkLoader.cc:423-442 | after full slabs, one more slab, sorted by the next dimension and laid out, makes a longer layout |
| `TileLayout.RootOfNodes` | plugins/gis-service/spatialindex-src-1.7.1/src/rtree/BulkLoader.cc:388-390 | the slab count is the least S for which S * S nodes of b hold all entries |
| `TileLayout.LaidKeeps` | plugins/gis-service/spatialindex-src-1.7.1/src/rtree/BulkLoader.cc:377-443 | a layout holds each entry as often as it was given |
| `TileLayout.FirstSlabLeft` | plugins/gis-service/spatialindex-src-1.7.1/src/rtree/BulkLoader.cc:423-442 | when the entries fit the buffer, the nodes of the first slab hold the S * b entries furthest to the left: none has its centre to the right of one in a later node |
| `BulkLoading.BulkLoadUsingSTR` | plugins/gis-service/spatialindex-src-1.7.1/src/rtree/BulkLoader.cc:316-375 | an empty stream is refused; otherwise the loading ends with a balanced tree of exact boxes and no empty page that holds exactly the streamed entries, each level laid out in slabs by one dimension after the other, its entries in order of their centres wherever the sorter's buffer holds them, the number of nodes exact, the counters right with one to spare, and the one node of the last level as its root: a ragged tree, ready for searches, insertions and deletions |
| `BulkLoading.ArrangedNext` | plugins/gis-service/spatialindex-src-1.7.1/src/rtree/BulkLoader.cc:355-371 | making a level leaves the levels below it laid out as they were |
| `BulkLoading.TiledCount` | plugins/gis-service/spatialindex-src-1.7.1/src/rtree/BulkLoader.cc:388-390 | a tiled level has exactly the quotient rounded up many nodes, all full but the last |
| `BulkLoading.LevelShrinks` | plugins/gis-service/spatialindex-src-1.7.1/src/rtree/BulkLoader.cc:349-369 | above the leaves the number of records falls from level to level when index nodes take two or more, so loading terminates |
| `BulkLoading.LoadedWorking` | plugins/gis-service/spatialindex-src-1.7.1/src/rtree/BulkLoader.cc:363-373 | a freshly loaded tree meets the invariant that insertion and deletion keep, except that its counters have one entry, a zero, too many |
| `BulkLoading.LoadedApart` | plugins/gis-service/spatialindex-src-1.7.1/src/rtree/BulkLoader.cc:388-422 | above the leaves, at most one page of each level of a loaded tree has a single entry |
| `BulkLoading.LoadedPasses` | plugins/gis-service/spatialindex-src-1.7.1/src/rtree/RTree.cc:740-830 | a tree fresh from the loader meets every condition under which isIndexValid says yes |
| `DiskStorage.DiskStorageManager.Load` | plugins/gis-service/spatialindex-src-1.7.1/src/storagemanager/DiskStorageManager.cc:341-377 | exactly the stored ids load, and load gives the bytes stored last, for any page size |
| `DiskStorage.DiskStorageManager.Store` | plugins/gis-service/spatialindex-src-1.7.1/src/storagemanager/DiskStorageManager.cc:379-485 | a new entry gets an unused id, the lowest free page or, when none is free, the next page of the file; an update keeps its id, any other page is refused; exactly that entry of the map changes, and the file grows only when no page is left free |
| `DiskStorage.DiskStorageManager.StoreNew` | plugins/gis-service/spatialindex-src-1.7.1/src/storagemanager/DiskStorageManager.cc:381-421 | the chunking loop stores all pieces, on the lowest free pages first and on new ones when none is left, and the first page is the id |
| `DiskStorage.DiskStorageManager.StoreOld` | plugins/gis-service/spatialindex-src-1.7.1/src/storagemanager/DiskStorageManager.cc:422-484 | the update reuses the old pages in order, extends them by the lowest free pages and then by new ones or frees the rest, and the id stays the first page |
| `DiskStorage.DrawnOn` | plugins/gis-service/spatialindex-src-1.7.1/src/storagemanager/DiskStorageManager.cc:389-410 | taking pages one after the other keeps to it: free ones first, the lowest ones |
| `DiskStorage.DiskStorageManager.Delete` | plugins/gis-service/spatialindex-src-1.7.1/src/storagemanager/DiskStorageManager.cc:487-501 | exactly the stored ids are deleted, and their pages are free again |
| `DiskStorage.DiskStorageManager.Flush` | plugins/gis-service/spatialindex-src-1.7.1/src/storagemanager/DiskStorageManager.cc:274-339 | the index file starts with the page size, the next page, the free pages in some order and the table, each entry once |
| `DiskStorage.Reopen` | plugins/gis-service/spatialindex-src-1.7.1/src/storagemanager/DiskStorageManager.cc:196-261 | reading any such file back gives the same map, the same free pages and a sound store |
| `DiskStorage.CloseAndReopen` | plugins/gis-service/spatialindex-src-1.7.1/src/storagemanager/DiskStorageManager.cc:263-272 | closing and reopening a store restores the map, the next page and the set of free pages |
| `DiskStorage.TakeFree` | plugins/gis-service/spatialindex-src-1.7.1/src/storagemanager/DiskStorageManager.cc:393-396 | taking a page from the free queue keeps every page in exactly one place |
| `DiskStorage.TakeNew` | plugins/gis-service/spatialindex-src-1.7.1/src/storagemanager/DiskStorageManager.cc:397-401 | taking the next page keeps every page in exactly one place |
| `DiskStorage.GiveBack` | plugins/gis-service/spatialindex-src-1.7.1/src/storagemanager/DiskStorageManager.cc:476-480 | giving back the tail of an entry keeps every page in exactly one place |
| `DiskStorage.DropEntry` | plugins/gis-service/spatialindex-src-1.7.1/src/storagemanager/DiskStorageManager.cc:494-500 | dropping an entry keeps every page in exactly one place |
| `DiskStorage.JoinedChunks` | plugins/gis-service/spatialindex-src-1.7.1/src/storagemanager/DiskStorageManager.cc:355-376 | the pieces of a byte array, joined, are the byte array |
| `DiskStorage.EmptyUpdateFreesId` | plugins/gis-service/spatialindex-src-1.7.1/src/storagemanager/DiskStorageManager.cc:443-483 | giving back all pages of an entry, as an update to length zero does, frees the page that is still the entry's id |
| `MemoryStorage.MemoryStorageManager.Load` | plugins/gis-service/spatialindex-src-1.7.1/src/storagemanager/MemoryStorageManager.cc:52-69 | exactly the stored ids load, with the bytes stored last |
| `MemoryStorage.MemoryStorageManager.StoreBytes` | plugins/gis-service/spatialindex-src-1.7.1/src/storagemanager/MemoryStorageManager.cc:71-106 | a new entry takes the top empty slot or a new one, an update its own slot, anything else is refused; exactly that entry changes |
| `MemoryStorage.MemoryStorageManager.Delete` | plugins/gis-service/spatialindex-src-1.7.1/src/storagemanager/MemoryStorageManager.cc:108-125 | exactly the stored ids are deleted, and the slot is empty again |
| `MemoryStorage.Store.AddedValid` | plugins/gis-service/spatialindex-src-1.7.1/src/storagemanager/MemoryStorageManager.cc:73-87 | the slots and the stack of empty slots keep agreeing, and the id given out was not in use |
| `MemoryStorage.RandomEvictionsBuffer.Load` | plugins/gis-service/spatialindex-src-1.7.1/src/storagemanager/Buffer.cc:61-77 | what is loaded through the buffer is what the backing store alone would give, whatever was evicted, and is cached afterwards; a hit or a refusal changes nothing |
| `MemoryStorage.RandomEvictionsBuffer.StoreBytes` | plugins/gis-service/spatialindex-src-1.7.1/src/storagemanager/Buffer.cc:79-109 | what the buffer and its store hold together changes as the store alone would change, under both write policies; the bytes are cached, dirty exactly for an update under write-back, which leaves the store alone when the entry was cached |
| `MemoryStorage.RandomEvictionsBuffer.Delete` | plugins/gis-service/spatialindex-src-1.7.1/src/storagemanager/Buffer.cc:111-121 | deleting through the buffer answers and acts as the store alone would |
| `MemoryStorage.RandomEvictionsBuffer.Clear` | plugins/gis-service/spatialindex-src-1.7.1/src/storagemanager/Buffer.cc:123-138 | after clearing, or destruction, the store itself holds all that was stored through the buffer |
| `MemoryStorage.RandomEvictionsBuffer.AddEntry` | plugins/gis-service/spatialindex-src-1.7.1/src/storagemanager/RandomEvictionsBuffer.cc:67-74 | the entry is cached; with room nothing else happens, and a full buffer gives up exactly one other entry; when the store takes the entry, what the buffer shows changes as the store alone would |
| `MemoryStorage.RandomEvictionsBuffer.RemoveEntry` | plugins/gis-service/spatialindex-src-1.7.1/src/storagemanager/RandomEvictionsBuffer.cc:76-97 | one entry, any one, leaves the buffer, is written to the store exactly if it is dirty, and what the buffer shows stays the same |
| `MemoryStorage.AnswersAgree` | plugins/gis-service/spatialindex-src-1.7.1/src/storagemanager/Buffer.cc:79-109 | a store through the buffer is accepted exactly when the store alone would accept it, unless the buffer is write-back and the id unknown, which it accepts |
| `BufferRuns.Run` | plugins/gis-service/spatialindex-src-1.7.1/src/storagemanager/Buffer.cc:61-138 | any sequence of loads, stores and deletions through a buffer of any capacity, either write-through or with writes the store alone would take: all answers are those of the store alone, whatever is evicted, and after clearing the store holds what it alone would hold |
| `PoolPointers.PointerPool.Acquire` | plugins/gis-service/spatialindex-src-1.7.1/include/spatialindex/tools/PointerPool.h:58-79 | the object on top of the stack, or a new one |
| `PoolPointers.PointerPool.Release` | plugins/gis-service/spatialindex-src-1.7.1/include/spatialindex/tools/PointerPool.h:81-96 | the object goes on the stack, or is deleted when the stack is full |
| `PoolPointers.PoolPointer.Acquire` | plugins/gis-service/spatialindex-src-1.7.1/include/spatialindex/tools/PoolPointer.h:64-76 | the four links written splice the pointer into the ring behind the other one, and the ring is a ring again; from a pointer without links it fails, exactly then |
| `PoolPointers.PoolPointer.Unlink` | plugins/gis-service/spatialindex-src-1.7.1/include/spatialindex/tools/PoolPointer.h:85-93 | the links rewritten take the pointer out, and the rest is a ring |
| `PoolPointers.PoolPointer.Unique` | plugins/gis-service/spatialindex-src-1.7.1/include/spatialindex/tools/PoolPointer.h:50-50 | the link test answers whether the ring has one member or none |
| `PoolPointers.Program.Leave` | plugins/gis-service/spatialindex-src-1.7.1/include/spatialindex/tools/PoolPointer.h:78-93 | while others refer to the object it stays held by them; when the last one leaves, it goes to its pool's stack once, or is deleted |
| `PoolPointers.Program.Copy` | plugins/gis-service/spatialindex-src-1.7.1/include/spatialindex/tools/PoolPointer.h:36-36 | a copy joins the ring of the original; it fails exactly if the original is detached |
| `PoolPointers.Program.Assign` | plugins/gis-service/spatialindex-src-1.7.1/include/spatialindex/tools/PoolPointer.h:37-45 | assigning to itself does nothing; otherwise the old ring is left and the new one joined, each as above; it fails exactly if the source is another pointer that is detached |
| `PoolPointers.Program.Destroy` | plugins/gis-service/spatialindex-src-1.7.1/include/spatialindex/tools/PoolPointer.h:35-35 | a destroyed pointer leaves its ring, and its object is where that leaves it |
| `PoolPointers.Program.Relinquish` | plugins/gis-service/spatialindex-src-1.7.1/include/spatialindex/tools/PoolPointer.h:51-56 | a relinquishing pointer leaves its ring; if it was the last one, it keeps its ring of one and the object returns to no pool; it is detached exactly if others shared the object |
| `PoolPointers.Program.AcquireFrom` | plugins/gis-service/spatialindex-src-1.7.1/include/spatialindex/tools/PointerPool.h:58-79 | an object handed out was on the stack, hence referred to by no live pointer, or is new |
| `PoolPointers.Program.NeverShared` | plugins/gis-service/spatialindex-src-1.7.1/include/spatialindex/tools/PointerPool.h:81-96 | an object that is pooled, deleted or let go is referred to by no live pointer, in every reachable program state |
| `PoolPointers.Program.Default` | plugins/gis-service/spatialindex-src-1.7.1/include/spatialindex/tools/PoolPointer.h:33-33 | a default pointer is a ring of its own without an object |
| `PointerRuns.Run` | plugins/gis-service/spatialindex-src-1.7.1/include/spatialindex/tools/PoolPointer.h:33-93 | any sequence of constructions, copies, assignments, destructions and relinquishments runs without a null dereference exactly if it never copies or assigns, to another pointer, from one that relinquished a shared object and was not assigned to since |
| `PointerRuns.DetachedExactly` | plugins/gis-service/spatialindex-src-1.7.1/include/spatialindex/tools/PoolPointer.h:78-83 | a live pointer is detached exactly if it relinquished a shared object and was not assigned to since |
| `PointerRuns.SafeExactly` | plugins/gis-service/spatialindex-src-1.7.1/include/spatialindex/tools/PoolPointer.h:64-76 | no operation of the sequence reads a detached pointer exactly if the text of the sequence has no such misuse |
| `PointerRuns.CopyOfRelinquished` | plugins/gis-service/spatialindex-src-1.7.1/include/spatialindex/tools/PoolPointer.h:51-76 | acquiring, copying, relinquishing the copy and copying from it: the last step fails |

## Left out

- RTreeModel.RTree.Insert: the overflow table of the outermost call has one entry for each level below the root; levels at or above its end count as already marked, so reading past its end is not modelled.
- RTreeDeletion.CondenseTree: dissolved nodes wait as page contents rather than as pooled node objects; that the node object of the leaf itself is on the stack is not modelled.
- RTreeModel.RTree.NewPage: page numbers are any unused non-negative numbers; which one the storage manager picks is the subject of the storage modules.
- BulkLoading.BulkLoadUsingSTR: where a stream or a slab does not fit the sorter's buffer, its order is one of the outcomes of the merge (ExternalSorting.SortsExactly), and the layout says nothing more about it.
- ExternalSorting.ExternalSorter.Sort: comparing records with different sorting dimensions, which throws, is not modelled; the loader gives all records of one sorter the same.
- RTreeDeletion.Delete: above the leaves at most one page of each level has a single entry, which holds of every tree made by loading (index nodes of two or more), inserting and deleting; trees read from files that say otherwise are not modelled.
- DiskStorage.DiskStorageManager.Store: lengths are positive, in StoreNew and StoreOld as well.
- DiskStorage.DiskStorageManager.StoreNew: a new entry of length zero, for which the code takes the first of no pages as the id (DiskStorageManager.cc:419), is not modelled.
- DiskStorage.DiskStorageManager.StoreOld: an update to length zero is not modelled as an operation; what giving back all pages does to the ownership of pages is stated in EmptyUpdateFreesId.
- DiskStorage.Reopen: page numbers and ids read from a file that no store wrote are refused when negative, where the library would go on with them.
- DiskStorage.DiskStorageManager.Flush: it empties the free queue, so it is the last step before closing.
- MemoryStorage.RandomEvictionsBuffer.StoreBytes: nothing is said after a write-back buffer accepted an unknown id; the hit counter is not modelled.
- BufferRuns.Run: the backing store is the slot store; the disk store, which is proved against the same kind of map, is not put behind the buffer.
- PoolPointers.PointerPool.Release: changing the capacity of a pool, and destroying a pool while objects are out, are not modelled.
- ExternalSorting.MergeRuns: a temporary file is a sequence of records.
- TPRTrees.InsertData: nodes are values and the path is a stack of the ancestors themselves, so pages, page numbers and node counters of the time-parameterized tree are not modelled (they are handled as in the R-tree, where they are); the node box itself is recomputed in place on an object.
- TPRTrees.AdjustTree: the same, so writing the changed nodes back to their pages is not modelled.
- TPRTrees.CondenseTree: the same, so deleting the dissolved nodes' pages and lowering the counters is not modelled.
- TPRTrees.DeleteData: the same.
- TPRQueries.TPRTree.DeleteData: the end of the shape, which becomes the clock, is strictly between the largest negative and the largest positive double.
- TPRQueries.TPRTree.RangeQuery: the query is a moving region that does not shrink and has a proper period, which the code asserts.
- VersionBorrowing.BorrowFromSibling: the start that the parent stores for the leaf is given, and adjusting the parent afterwards is not modelled.
- The rest of the multiversion tree: version copies, the list of roots, reuse of ids over time, its queries.
- Header pages, property parsing, `Statistics`, command hooks and visitors; results are sequences instead of visitor calls.
- `queryStrategy`, `getMargin`, areas in time, `getCenterDistanceInTime`, `combineRegionInTime` and `getIntersectingAreaInTime`.
- Rounding, tolerance in comparisons, integer widths of counters, allocation failures, locks.
- The socket server, the demo plug-ins and the C wrapper, which would add easy members only.
