/**
 * The `ReactSortableTree` component's state machine: tree-id allocation, the
 * drag fields driven by `startDrag`, `dragHover`, `endDrag`, the drag monitor
 * and `drop`, the props-to-state derivation that reruns the search, and what
 * `render` computes before it draws (the swap window, the rows, the match keys).
 */
module SortableTree {
  import opened Wrappers
  import opened JsText
  import opened DefaultHandlers
  import opened TreeData
  import opened SortableTreeProps
  import opened TreeSearch

  /** The id of the `n`th tree created: `rst__` followed by `n`. */
  function TreeIdOf(n: nat): string {
    "rst__" + NatToDecimal(n)
  }

  /** Trees created at different counter values have different ids. */
  lemma TreeIdInjective(a: nat, b: nat)
    requires TreeIdOf(a) == TreeIdOf(b)
    ensures a == b
  {
    assert NatToDecimal(a) == TreeIdOf(a)[5..];
    assert NatToDecimal(b) == TreeIdOf(b)[5..];
    NatToDecimalInjective(a, b);
  }

  /** The module-level `treeIdCounter`, shared by every tree. */
  class TreeIdCounter {
    var next: nat

    constructor ()
      ensures next == 1
    {
      next := 1;
    }

    method Allocate() returns (treeId: string)
      modifies this
      ensures treeId == TreeIdOf(old(next))
      ensures next == old(next) + 1
    {
      treeId := TreeIdOf(next);
      next := next + 1;
    }
  }

  /** The five drag fields of the component state. */
  datatype DragFields = DragFields(
    draggingTreeData: Option<Tree>,
    draggedNode: Option<TreeItem>,
    draggedDepth: Option<int>,
    draggedMinimumTreeIndex: Option<int>,
    dragging: bool)

  /** The drag fields with no drag in progress: the initial state, and what `resetTree` sets. */
  const NoDrag := DragFields(None, None, None, None, false)

  /** The drag fields are all cleared, or all set with `dragging` true. */
  predicate Coherent(drag: DragFields) {
    || (&& drag.draggingTreeData.None?
        && drag.draggedNode.None?
        && drag.draggedDepth.None?
        && drag.draggedMinimumTreeIndex.None?
        && !drag.dragging)
    || (&& drag.draggingTreeData.Some?
        && drag.draggedNode.Some?
        && drag.draggedDepth.Some?
        && drag.draggedMinimumTreeIndex.Some?
        && drag.dragging)
  }

  /** `expandedParentPath.slice(0, -1)`: the path without its last key. */
  function ParentPath(path: Path): (parent: Path)
    ensures |path| > 0 ==> parent + [path[|path| - 1]] == path
    ensures |path| == 0 ==> parent == []
  {
    if |path| == 0 then [] else path[..|path| - 1]
  }

  /** `{ ...node, expanded: true }`. */
  function ExpandNode(node: TreeItem): (expandedNode: TreeItem)
    ensures expandedNode.expanded
    ensures expandedNode.(expanded := node.expanded) == node
  {
    node.(expanded := true)
  }

  /** `{ ...node, expanded: !node.expanded }`. */
  function ToggleNode(node: TreeItem): (toggled: TreeItem)
    ensures toggled.expanded == !node.expanded
    ensures toggled.(expanded := node.expanded) == node
  {
    node.(expanded := !node.expanded)
  }

  /** `{ ...node }`: a shallow copy, equal as a value to the node. */
  function ShallowCopy(node: TreeItem): TreeItem {
    node
  }

  /** What a drag source receives when a drag ends over a drop target. */
  datatype DropResult = DropResult(treeId: string, node: TreeItem, path: Path, treeIndex: int)

  /** What a drop target passes to `drop`. */
  datatype DropTarget = DropTarget(node: TreeItem, path: Path, treeIndex: int, depth: int, minimumTreeIndex: int)

  /** The resolved `shouldCopyOnOutsideDrop` for a drop. */
  function ShouldCopy(policy: CopyPolicy, drop: DropResult): (copy: bool)
    ensures policy.CopyFlag? ==> copy == policy.copy
    ensures policy.CopyWhen? ==> copy == policy.decide(CopyParams(drop.node, drop.path, drop.treeIndex))
  {
    match policy
    case CopyFlag(b) => b
    case CopyWhen(decide) => decide(CopyParams(drop.node, drop.path, drop.treeIndex))
  }

  /** `canNodeHaveChildren`: the host's predicate when given, otherwise every node may. */
  function CanNodeHaveChildren(props: TreeProps, node: TreeItem): (can: bool)
    ensures props.canNodeHaveChildren.None? ==> can
    ensures props.canNodeHaveChildren.Some? ==> can == props.canNodeHaveChildren.value(node)
  {
    if props.canNodeHaveChildren.Some? then props.canNodeHaveChildren.value(node) else true
  }

  /** What `dragHover` did. `NoRowAtIndex` is where the source throws on `rows[treeIndex].path`. */
  datatype HoverOutcome = SamePosition | Moved | NoRowAtIndex

  /** The branches of `getDerivedStateFromProps`, in the order they are tested. */
  datatype DeriveBranch = TreeChangedIgnored | TreeChangedSearch | QueryChanged | OffsetChanged | NothingChanged

  function DeriveBranchOf(prev: InstanceProps, next: TreeProps, ops: TreeOps): DeriveBranch {
    if !TreeDataEqual(prev.treeData, next.treeData, ops) then
      if prev.ignoreOneTreeUpdate then TreeChangedIgnored else TreeChangedSearch
    else if prev.searchQuery != next.searchQuery then QueryChanged
    else if prev.searchFocusOffset != next.searchFocusOffset then OffsetChanged
    else NothingChanged
  }

  /** The slide `render` previews while a node is dragged. */
  datatype SwapWindow = SwapWindow(swapFrom: int, swapTo: int, swapLength: int)

  /** What `render` computes: the rows to draw, the swap, the match keys and the row to scroll to. */
  datatype RenderPlan = RenderPlan(rows: seq<Row>, swap: Option<SwapWindow>, matchKeys: map<string, nat>, scrollTo: Option<int>)

  class ReactSortableTree {
    const treeId: string
    const dndType: string
    /** the tree utilities and `isEqual` */
    const ops: TreeOps

    var draggingTreeData: Option<Tree>
    var draggedNode: Option<TreeItem>
    var draggedDepth: Option<int>
    var draggedMinimumTreeIndex: Option<int>
    var dragging: bool
    var searchMatches: seq<SearchMatch>
    var searchFocusTreeIndex: Option<int>
    var instanceProps: InstanceProps
    /** The host callbacks called so far, in order. */
    var hostCalls: seq<HostCall>

    function Drag(): DragFields
      reads this
    {
      DragFields(draggingTreeData, draggedNode, draggedDepth, draggedMinimumTreeIndex, dragging)
    }

    predicate Valid()
      reads this
    {
      Coherent(Drag())
    }

    /** The state after a `search` outcome is merged in, given the fields' previous values. */
    ghost predicate Searched(outcome: SearchOutcome, prevFocus: Option<int>, prevIgnore: bool, prevCalls: seq<HostCall>)
      reads this
    {
      && searchMatches == outcome.matches
      && searchFocusTreeIndex == (if outcome.focus.SetFocus? then outcome.focus.treeIndex else prevFocus)
      && instanceProps.ignoreOneTreeUpdate == (outcome.setIgnoreOneTreeUpdate || prevIgnore)
      && hostCalls == prevCalls + outcome.calls
    }

    constructor (props: TreeProps, ops: TreeOps, counter: TreeIdCounter)
      modifies counter
      ensures treeId == TreeIdOf(old(counter.next)) && counter.next == old(counter.next) + 1
      ensures dndType == if props.dndType.Some? && props.dndType.value != "" then props.dndType.value else treeId
      ensures this.ops == ops
      ensures Drag() == NoDrag && Valid()
      ensures searchMatches == [] && searchFocusTreeIndex == None
      ensures instanceProps == InstanceProps(Some([]), false, None, None)
      ensures hostCalls == []
    {
      var id := counter.Allocate();
      treeId := id;
      dndType := if props.dndType.Some? && props.dndType.value != "" then props.dndType.value else id;
      this.ops := ops;
      draggingTreeData := None;
      draggedNode := None;
      draggedDepth := None;
      draggedMinimumTreeIndex := None;
      dragging := false;
      searchMatches := [];
      searchFocusTreeIndex := None;
      instanceProps := InstanceProps(Some([]), false, None, None);
      hostCalls := [];
    }

    /**
     * Merges a `search` outcome into the state inside `getDerivedStateFromProps`:
     * `Object.assign(newState, search(...))`, then `{ ...instanceProps, ...newState.instanceProps }`.
     */
    method ApplySearch(outcome: SearchOutcome)
      modifies this
      ensures Searched(outcome, old(searchFocusTreeIndex), old(instanceProps.ignoreOneTreeUpdate), old(hostCalls))
      ensures instanceProps == old(instanceProps).(ignoreOneTreeUpdate := instanceProps.ignoreOneTreeUpdate)
      ensures Drag() == old(Drag())
    {
      searchMatches := outcome.matches;
      if outcome.focus.SetFocus? {
        searchFocusTreeIndex := outcome.focus.treeIndex;
      }
      if outcome.setIgnoreOneTreeUpdate {
        instanceProps := instanceProps.(ignoreOneTreeUpdate := true);
      }
      hostCalls := hostCalls + outcome.calls;
    }

    method ResetDrag()
      modifies this
      ensures Drag() == NoDrag
      ensures searchMatches == old(searchMatches) && searchFocusTreeIndex == old(searchFocusTreeIndex)
      ensures instanceProps == old(instanceProps) && hostCalls == old(hostCalls)
    {
      draggingTreeData := None;
      draggedNode := None;
      draggedMinimumTreeIndex := None;
      draggedDepth := None;
      dragging := false;
    }

    /**
     * `componentDidMount`: search with seeking and expansion, then `setState` with the outcome.
     * `setState` merges top-level keys only, so a search that ran replaces the whole of
     * `instanceProps` by `{ ignoreOneTreeUpdate: true }`: the tree, query and offset are dropped.
     */
    method DidMount(props: TreeProps)
      modifies this
      ensures var outcome := Search(props, old(instanceProps.treeData), true, true, false, ops);
        && searchMatches == outcome.matches
        && searchFocusTreeIndex == (if outcome.focus.SetFocus? then outcome.focus.treeIndex else old(searchFocusTreeIndex))
        && hostCalls == old(hostCalls) + outcome.calls
      ensures SearchSkipped(props) ==> instanceProps == old(instanceProps)
      ensures !SearchSkipped(props) ==> instanceProps == InstanceProps(None, true, None, None)
      ensures Drag() == old(Drag())
    {
      var stateUpdate := Search(props, instanceProps.treeData, true, true, false, ops);
      searchMatches := stateUpdate.matches;
      if stateUpdate.focus.SetFocus? {
        searchFocusTreeIndex := stateUpdate.focus.treeIndex;
      }
      if !SearchSkipped(props) {
        instanceProps := InstanceProps(None, stateUpdate.setIgnoreOneTreeUpdate, None, None);
      }
      hostCalls := hostCalls + stateUpdate.calls;
    }

    /** `getDerivedStateFromProps(nextProps, state)`, merged into the state. */
    method GetDerivedStateFromProps(next: TreeProps)
      modifies this
      ensures instanceProps.treeData == Some(next.treeData)
      ensures instanceProps.searchQuery == next.searchQuery
      ensures instanceProps.searchFocusOffset == next.searchFocusOffset
      ensures var branch := DeriveBranchOf(old(instanceProps), next, ops);
        match branch
        case TreeChangedIgnored =>
          && Drag() == NoDrag
          && !instanceProps.ignoreOneTreeUpdate
          && searchMatches == old(searchMatches)
          && searchFocusTreeIndex == old(searchFocusTreeIndex)
          && hostCalls == old(hostCalls)
        case TreeChangedSearch =>
          && Drag() == NoDrag
          && Searched(Search(next, Some(next.treeData), false, false, false, ops), None, false, old(hostCalls))
        case QueryChanged =>
          && Drag() == old(Drag())
          && Searched(Search(next, Some(next.treeData), true, true, false, ops),
                      old(searchFocusTreeIndex), old(instanceProps.ignoreOneTreeUpdate), old(hostCalls))
        case OffsetChanged =>
          && Drag() == old(Drag())
          && Searched(Search(next, Some(next.treeData), true, true, true, ops),
                      old(searchFocusTreeIndex), old(instanceProps.ignoreOneTreeUpdate), old(hostCalls))
        case NothingChanged =>
          && Drag() == old(Drag())
          && instanceProps.ignoreOneTreeUpdate == old(instanceProps.ignoreOneTreeUpdate)
          && searchMatches == old(searchMatches)
          && searchFocusTreeIndex == old(searchFocusTreeIndex)
          && hostCalls == old(hostCalls)
      ensures !TreeDataEqual(old(instanceProps.treeData), next.treeData, ops) ==>
        Drag() == NoDrag && !instanceProps.ignoreOneTreeUpdate
      ensures DeriveBranchOf(old(instanceProps), next, ops).TreeChangedSearch? ==> searchFocusTreeIndex == None
      ensures old(Valid()) ==> Valid()
    {
      var isTreeDataEqual := TreeDataEqual(instanceProps.treeData, next.treeData, ops);
      instanceProps := instanceProps.(treeData := Some(next.treeData));
      if !isTreeDataEqual {
        if instanceProps.ignoreOneTreeUpdate {
          instanceProps := instanceProps.(ignoreOneTreeUpdate := false);
        } else {
          searchFocusTreeIndex := None;
          ApplySearch(Search(next, instanceProps.treeData, false, false, false, ops));
        }
        ResetDrag();
      } else if instanceProps.searchQuery != next.searchQuery {
        ApplySearch(Search(next, instanceProps.treeData, true, true, false, ops));
      } else if instanceProps.searchFocusOffset != next.searchFocusOffset {
        ApplySearch(Search(next, instanceProps.treeData, true, true, true, ops));
      }
      instanceProps := instanceProps.(searchQuery := next.searchQuery, searchFocusOffset := next.searchFocusOffset);
    }

    /** `componentDidUpdate`: report a change of `dragging` to `onDragStateChanged`. */
    method DidUpdate(props: TreeProps, prevDragging: bool)
      modifies this`hostCalls
      ensures hostCalls == old(hostCalls) +
        if dragging != prevDragging && props.hasDragStateChangedCallback then [OnDragStateChanged(dragging, draggedNode)] else []
    {
      if dragging != prevDragging && props.hasDragStateChangedCallback {
        hostCalls := hostCalls + [OnDragStateChanged(dragging, draggedNode)];
      }
    }

    /** `startDrag({ path })`: take the node out of the tree and start dragging it. */
    method StartDrag(path: Path)
      modifies this
      ensures var removed := ops.removeNode(old(instanceProps.treeData), path);
        Drag() == DragFields(Some(removed.treeData), Some(removed.node), Some(|path| - 1), Some(removed.treeIndex), true)
      ensures Valid()
      ensures searchMatches == old(searchMatches) && searchFocusTreeIndex == old(searchFocusTreeIndex)
      ensures instanceProps == old(instanceProps) && hostCalls == old(hostCalls)
    {
      var removed := ops.removeNode(instanceProps.treeData, path);
      draggingTreeData := Some(removed.treeData);
      draggedNode := Some(removed.node);
      draggedDepth := Some(|path| - 1);
      draggedMinimumTreeIndex := Some(removed.treeIndex);
      dragging := true;
    }

    /** `dragHover({ node, depth, minimumTreeIndex })`. */
    method DragHover(node: TreeItem, depth: int, minimumTreeIndex: int) returns (outcome: HoverOutcome)
      modifies this
      ensures outcome.SamePosition? <==>
        old(draggedDepth) == Some(depth) && old(draggedMinimumTreeIndex) == Some(minimumTreeIndex)
      ensures !outcome.Moved? ==> unchanged(this)
      ensures !outcome.SamePosition? ==>
        var base := old(draggingTreeData).OrElse(old(instanceProps.treeData));
        var added := ops.insertNode(base, node, depth, minimumTreeIndex, true);
        var rows := ops.getRows(Some(added.treeData));
        && (outcome.Moved? <==> 0 <= added.treeIndex < |rows|)
        && (outcome.Moved? ==>
              Drag() == DragFields(Some(ops.changeNodeAtPath(base, ParentPath(rows[added.treeIndex].path), ExpandNode)),
                                   Some(node), Some(depth), Some(minimumTreeIndex), true))
      ensures outcome.Moved? ==>
        && Valid()
        && searchFocusTreeIndex == None
        && searchMatches == old(searchMatches)
        && instanceProps == old(instanceProps)
        && hostCalls == old(hostCalls)
    {
      if draggedDepth == Some(depth) && draggedMinimumTreeIndex == Some(minimumTreeIndex) {
        return SamePosition;
      }
      var base := draggingTreeData.OrElse(instanceProps.treeData);
      var added := ops.insertNode(base, node, depth, minimumTreeIndex, true);
      var rows := ops.getRows(Some(added.treeData));
      if !(0 <= added.treeIndex < |rows|) {
        return NoRowAtIndex;
      }
      var expandedParentPath := rows[added.treeIndex].path;
      draggedNode := Some(node);
      draggedDepth := Some(depth);
      draggedMinimumTreeIndex := Some(minimumTreeIndex);
      draggingTreeData := Some(ops.changeNodeAtPath(base, ParentPath(expandedParentPath), ExpandNode));
      searchFocusTreeIndex := None;
      dragging := true;
      outcome := Moved;
    }

    /** `endDrag(dropResult)`; None is a cancelled drag. */
    method EndDrag(dropResult: Option<DropResult>, shouldCopyOnOutsideDrop: CopyPolicy)
      modifies this
      ensures dropResult.None? ==>
        && Drag() == NoDrag
        && searchMatches == old(searchMatches) && searchFocusTreeIndex == old(searchFocusTreeIndex)
        && instanceProps == old(instanceProps) && hostCalls == old(hostCalls)
      ensures dropResult.Some? && dropResult.value.treeId == treeId ==> unchanged(this)
      ensures dropResult.Some? && dropResult.value.treeId != treeId ==>
        var drop := dropResult.value;
        var treeData := if ShouldCopy(shouldCopyOnOutsideDrop, drop)
                        then Some(ops.changeNodeAtPath(old(instanceProps.treeData), drop.path, ShallowCopy))
                        else old(draggingTreeData).OrElse(old(instanceProps.treeData));
        && Drag() == old(Drag())
        && searchMatches == old(searchMatches) && searchFocusTreeIndex == old(searchFocusTreeIndex)
        && instanceProps == old(instanceProps)
        && hostCalls == old(hostCalls) + [OnChange(treeData),
             OnMoveNode(MoveNodeParams(treeData, drop.node, None, None, None, None, drop.path, drop.treeIndex, None))]
      ensures old(Valid()) || dropResult.None? ==> Valid()
    {
      if dropResult.None? {
        ResetDrag();
      } else if dropResult.value.treeId != treeId {
        var drop := dropResult.value;
        var shouldCopy := ShouldCopy(shouldCopyOnOutsideDrop, drop);
        var treeData := draggingTreeData.OrElse(instanceProps.treeData);
        if shouldCopy {
          treeData := Some(ops.changeNodeAtPath(instanceProps.treeData, drop.path, ShallowCopy));
        }
        hostCalls := hostCalls + [OnChange(treeData)];
        hostCalls := hostCalls + [OnMoveNode(MoveNodeParams(treeData, drop.node, None, None, None, None, drop.path, drop.treeIndex, None))];
      }
    }

    /** `handleDndMonitorChange`: a drag that ended while this tree is mid-drag resets it (deferred in the source). */
    method HandleDndMonitorChange(monitorIsDragging: bool)
      modifies this
      ensures !monitorIsDragging && old(draggingTreeData).Some? ==>
        && Drag() == NoDrag
        && searchMatches == old(searchMatches) && searchFocusTreeIndex == old(searchFocusTreeIndex)
        && instanceProps == old(instanceProps) && hostCalls == old(hostCalls)
      ensures monitorIsDragging || old(draggingTreeData).None? ==> unchanged(this)
      ensures old(Valid()) ==> Valid()
    {
      if !monitorIsDragging && draggingTreeData.Some? {
        EndDrag(None, CopyFlag(false));
      }
    }

    /** `drop(dropResult)`, that is `moveNode`: insert into the drag tree and report the move. */
    method Drop(target: DropTarget)
      modifies this`hostCalls
      ensures var inserted := ops.insertNode(draggingTreeData, target.node, target.depth, target.minimumTreeIndex, true);
        hostCalls == old(hostCalls) + [OnChange(Some(inserted.treeData)),
          OnMoveNode(MoveNodeParams(Some(inserted.treeData), target.node, Some(inserted.treeIndex), Some(inserted.path),
                                    Some(inserted.path), Some(inserted.treeIndex), target.path, target.treeIndex,
                                    inserted.parentNode))]
    {
      var inserted := ops.insertNode(draggingTreeData, target.node, target.depth, target.minimumTreeIndex, true);
      hostCalls := hostCalls + [OnChange(Some(inserted.treeData))];
      hostCalls := hostCalls + [OnMoveNode(MoveNodeParams(Some(inserted.treeData), target.node, Some(inserted.treeIndex),
                                                          Some(inserted.path), Some(inserted.path), Some(inserted.treeIndex),
                                                          target.path, target.treeIndex, inserted.parentNode))];
    }

    /** `toggleChildrenVisibility({ node, path })`: report the tree with the node's `expanded` flipped. */
    method ToggleChildrenVisibility(node: TreeItem, path: Path)
      modifies this`hostCalls
      ensures var treeData := ops.changeNodeAtPath(instanceProps.treeData, path, ToggleNode);
        hostCalls == old(hostCalls) + [OnChange(Some(treeData)),
          OnVisibilityToggle(VisibilityToggleParams(treeData, node, !node.expanded, path))]
    {
      var treeData := ops.changeNodeAtPath(instanceProps.treeData, path, ToggleNode);
      hostCalls := hostCalls + [OnChange(Some(treeData))];
      hostCalls := hostCalls + [OnVisibilityToggle(VisibilityToggleParams(treeData, node, !node.expanded, path))];
    }

    /** What `render` computes before drawing: a swap preview exactly while a node is dragged. */
    method Render() returns (plan: RenderPlan)
      requires Valid()
      ensures plan.swap.Some? <==> dragging
      ensures plan.swap.Some? ==>
        var added := ops.insertNode(draggingTreeData, draggedNode.value, draggedDepth.value, draggedMinimumTreeIndex.value, true);
        var swapLength := 1 + ops.descendantCount(draggedNode.value);
        && plan.swap.value == SwapWindow(added.treeIndex, draggedMinimumTreeIndex.value, swapLength)
        && plan.rows == ops.slideRows(ops.getRows(Some(added.treeData)), added.treeIndex, draggedMinimumTreeIndex.value, swapLength)
      ensures plan.swap.Some? ==> plan.swap.value.swapLength >= 1 && plan.swap.value.swapTo == draggedMinimumTreeIndex.value
      ensures plan.swap.None? ==> plan.rows == ops.getRows(instanceProps.treeData)
      ensures plan.matchKeys == MatchKeysOf(searchMatches)
      ensures plan.scrollTo == searchFocusTreeIndex
    {
      var treeData := draggingTreeData.OrElse(instanceProps.treeData);
      var rows: seq<Row>;
      var swap: Option<SwapWindow> := None;
      if draggedNode.Some? && draggedMinimumTreeIndex.Some? {
        var added := ops.insertNode(treeData, draggedNode.value, draggedDepth.value, draggedMinimumTreeIndex.value, true);
        var swapTo := draggedMinimumTreeIndex.value;
        var swapFrom := added.treeIndex;
        var swapLength := 1 + ops.descendantCount(draggedNode.value);
        rows := ops.slideRows(ops.getRows(Some(added.treeData)), swapFrom, swapTo, swapLength);
        swap := Some(SwapWindow(swapFrom, swapTo, swapLength));
      } else {
        rows := ops.getRows(treeData);
      }
      var matchKeys := BuildMatchKeys(searchMatches);
      plan := RenderPlan(rows, swap, matchKeys, searchFocusTreeIndex);
    }
  }

  /**
   * React derives the state again before the render that `componentDidMount`'s
   * `setState` causes. The tree was dropped from `instanceProps`, so that pass sees
   * a tree change: it consumes the ignore flag, runs no search and clears the drag.
   */
  method MountThenRederive(tree: ReactSortableTree, props: TreeProps)
    requires !SearchSkipped(props)
    modifies tree
    ensures var mounted := Search(props, old(tree.instanceProps.treeData), true, true, false, tree.ops);
      && tree.instanceProps == InstanceProps(Some(props.treeData), false, props.searchQuery, props.searchFocusOffset)
      && tree.Drag() == NoDrag
      && tree.searchMatches == mounted.matches
      && tree.hostCalls == old(tree.hostCalls) + mounted.calls
  {
    tree.DidMount(props);
    tree.GetDerivedStateFromProps(props);
  }

  /**
   * The host's `onChange` runs inside `componentDidMount`, before its `setState`; when the
   * host applies the echoed tree in the same batch, the one re-derivation sees the echoed
   * props. The dropped tree makes it a tree change, so the flag swallows the echo: no search.
   */
  method MountWithBatchedEcho(tree: ReactSortableTree, props: TreeProps, echoed: TreeProps)
    requires !SearchSkipped(props)
    modifies tree
    ensures var mounted := Search(props, old(tree.instanceProps.treeData), true, true, false, tree.ops);
      && tree.instanceProps == InstanceProps(Some(echoed.treeData), false, echoed.searchQuery, echoed.searchFocusOffset)
      && tree.Drag() == NoDrag
      && tree.searchMatches == mounted.matches
      && tree.hostCalls == old(tree.hostCalls) + mounted.calls
  {
    tree.DidMount(props);
    tree.GetDerivedStateFromProps(echoed);
  }

  /**
   * The loop `ignoreOneTreeUpdate` breaks: a query change runs an expanding search
   * that calls `onChange`; when the host echoes back a tree that `isEqual` tells apart
   * from the current one, that update runs no search (matches, focus and host calls
   * stay as the first update left them) and leaves the flag cleared.
   */
  method EchoedTreeIsIgnoredOnce(tree: ReactSortableTree, props: TreeProps, echoed: TreeProps)
    requires tree.instanceProps.searchQuery != props.searchQuery
    requires TreeDataEqual(tree.instanceProps.treeData, props.treeData, tree.ops)
    requires !tree.instanceProps.ignoreOneTreeUpdate
    requires !SearchSkipped(props)
    requires !tree.ops.isEqual(props.treeData, echoed.treeData)
    modifies tree
    ensures var first := Search(props, Some(props.treeData), true, true, false, tree.ops);
      && first.calls[0] == OnChange(Some(tree.ops.find(SearchRequest(props, Some(props.treeData), true, false, tree.ops)).treeData))
      && tree.searchMatches == first.matches
      && tree.searchFocusTreeIndex == FocusTreeIndex(true, props.searchFocusOffset, first.matches)
      && tree.hostCalls == old(tree.hostCalls) + first.calls
      && tree.instanceProps.treeData == Some(echoed.treeData)
      && !tree.instanceProps.ignoreOneTreeUpdate
      && tree.Drag() == NoDrag
  {
    tree.GetDerivedStateFromProps(props);
    tree.GetDerivedStateFromProps(echoed);
  }

  /**
   * When the echoed tree is `isEqual` to the current one, the echo is no tree change:
   * the flag stays set, and the next real tree change is the one that runs no search.
   */
  method EqualEchoKeepsFlag(tree: ReactSortableTree, props: TreeProps, echoed: TreeProps, later: TreeProps)
    requires tree.instanceProps.searchQuery != props.searchQuery
    requires TreeDataEqual(tree.instanceProps.treeData, props.treeData, tree.ops)
    requires !tree.instanceProps.ignoreOneTreeUpdate
    requires !SearchSkipped(props)
    requires tree.ops.isEqual(props.treeData, echoed.treeData)
    requires echoed.searchQuery == props.searchQuery && echoed.searchFocusOffset == props.searchFocusOffset
    requires !tree.ops.isEqual(echoed.treeData, later.treeData)
    modifies tree
    ensures var first := Search(props, Some(props.treeData), true, true, false, tree.ops);
      && tree.searchMatches == first.matches
      && tree.hostCalls == old(tree.hostCalls) + first.calls
      && tree.instanceProps.treeData == Some(later.treeData)
      && !tree.instanceProps.ignoreOneTreeUpdate
  {
    tree.GetDerivedStateFromProps(props);
    tree.GetDerivedStateFromProps(echoed);
    assert tree.instanceProps.ignoreOneTreeUpdate;
    tree.GetDerivedStateFromProps(later);
  }
}
