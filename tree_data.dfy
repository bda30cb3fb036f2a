/**
 * The tree-data utilities the component calls (`removeNode`, `insertNode`,
 * `changeNodeAtPath`, `find`, `toggleExpandedForAll`, flattening to rows,
 * `getDescendantCount`, `slideRows` and the deep equality `isEqual`). Their code is not part
 * of this model: the component receives them as a record of functions, already
 * bound to the host's `getNodeKey`, and nothing is assumed about what they compute.
 */
module TreeData {
  import opened Wrappers
  import opened DefaultHandlers

  /** The ordered root items. */
  type Tree = seq<TreeItem>

  /** A tree-data value that may be missing: None stands for `undefined` or `null`. */
  type MaybeTree = Option<Tree>

  /** One visible row of the flattened tree. */
  datatype Row = Row(node: TreeItem, path: Path, treeIndex: int)

  datatype SearchMatch = SearchMatch(node: TreeItem, path: Path, treeIndex: int)

  /** What `removeNode` returns: the tree without the node, the node, and the tree index it had. */
  datatype Removed = Removed(treeData: Tree, node: TreeItem, treeIndex: int)

  /** What `insertNode` returns. */
  datatype Inserted = Inserted(treeData: Tree, treeIndex: int, path: Path, parentNode: Option<TreeItem>)

  /** The arguments a custom `searchMethod` receives; the query is passed as the host gave it. */
  datatype QueryParams = QueryParams(node: TreeItem, path: Path, treeIndex: int, searchQuery: Option<string>)

  /** `searchMethod || defaultSearchMethod`. */
  datatype SearchMethodChoice = DefaultSearch | CustomSearch(f: QueryParams -> bool)

  /** The arguments passed to `find`. */
  datatype FindRequest = FindRequest(
    treeData: MaybeTree,
    searchQuery: Option<string>,
    searchMethod: SearchMethodChoice,
    searchFocusOffset: Option<nat>,
    expandAllMatchPaths: bool,
    expandFocusMatchPaths: bool)

  /** What `find` returns: the tree with match paths expanded, and the matches in order. */
  datatype Found = Found(treeData: Tree, matches: seq<SearchMatch>)

  /** The utilities receive the tree argument the component passes, missing or not. */
  datatype TreeOps = TreeOps(
    isEqual: (Tree, Tree) -> bool,
    removeNode: (MaybeTree, Path) -> Removed,
    /** (tree, new node, depth, minimum tree index, expand parent) */
    insertNode: (MaybeTree, TreeItem, int, int, bool) -> Inserted,
    changeNodeAtPath: (MaybeTree, Path, TreeItem -> TreeItem) -> Tree,
    find: FindRequest -> Found,
    toggleExpandedForAll: (MaybeTree, bool) -> Tree,
    /** flattening with collapsed nodes' children left out */
    getRows: MaybeTree -> seq<Row>,
    descendantCount: TreeItem -> nat,
    /** `slideRows(rows, fromIndex, toIndex, count)` */
    slideRows: (seq<Row>, int, int, int) -> seq<Row>)

  /**
   * `isEqual(previous, next)` where `next` is the host's tree: a missing previous
   * tree is never deep-equal to an array, and two arrays are compared by `isEqual`.
   */
  predicate TreeDataEqual(previous: MaybeTree, next: Tree, ops: TreeOps) {
    previous.Some? && ops.isEqual(previous.value, next)
  }
}
