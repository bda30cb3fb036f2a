/**
 * The values the sortable-tree component exchanges with its host: the props it
 * reads, the `instanceProps` it keeps from the previous props, and the host
 * callbacks it calls (`onChange`, `onMoveNode`, `onVisibilityToggle`,
 * `searchFinishCallback`, `onDragStateChanged`), recorded in call order.
 */
module SortableTreeProps {
  import opened Wrappers
  import opened DefaultHandlers
  import opened TreeData

  /** The arguments of a `shouldCopyOnOutsideDrop` callback. */
  datatype CopyParams = CopyParams(node: TreeItem, prevPath: Path, prevTreeIndex: int)

  /** `shouldCopyOnOutsideDrop`: a flag, or a callback that decides per node. */
  datatype CopyPolicy = CopyFlag(copy: bool) | CopyWhen(decide: CopyParams -> bool)

  /** The props the component's logic reads; rendering props are left out. */
  datatype TreeProps = TreeProps(
    treeData: Tree,
    /** None for null or undefined */
    searchQuery: Option<string>,
    searchMethod: Option<QueryParams -> bool>,
    searchFocusOffset: Option<nat>,
    hasSearchFinishCallback: bool,
    hasDragStateChangedCallback: bool,
    onlyExpandSearchedNodes: bool,
    shouldCopyOnOutsideDrop: CopyPolicy,
    canNodeHaveChildren: Option<TreeItem -> bool>,
    dndType: Option<string>)

  /** The props remembered between updates; a field that `setState` dropped reads as None. */
  datatype InstanceProps = InstanceProps(
    treeData: MaybeTree,
    ignoreOneTreeUpdate: bool,
    searchQuery: Option<string>,
    searchFocusOffset: Option<nat>)

  /** The argument of `onMoveNode`; None stands for null or a missing field. */
  datatype MoveNodeParams = MoveNodeParams(
    treeData: MaybeTree,
    node: TreeItem,
    treeIndex: Option<int>,
    path: Option<Path>,
    nextPath: Option<Path>,
    nextTreeIndex: Option<int>,
    prevPath: Path,
    prevTreeIndex: int,
    nextParentNode: Option<TreeItem>)

  datatype VisibilityToggleParams = VisibilityToggleParams(treeData: Tree, node: TreeItem, expanded: bool, path: Path)

  /** One call of a host callback. */
  datatype HostCall =
    | OnChange(treeData: MaybeTree)
    | SearchFinished(matches: seq<SearchMatch>)
    | OnMoveNode(move: MoveNodeParams)
    | OnVisibilityToggle(toggle: VisibilityToggleParams)
    | OnDragStateChanged(isDragging: bool, draggedNode: Option<TreeItem>)
}
