# react-sortable-tree: search handlers and component state, in Dafny

This project models the logic core of react-sortable-tree, a React component
that draws a tree of nodes, lets the user drag nodes around it, and highlights
the nodes that match a search. Two parts are modelled.

**The default handlers.** These are `defaultGetNodeKey`, `getReactElementText`,
`stringSearch` and `defaultSearchMethod`, in `DefaultHandlers`. A node title is
a value: a string or other scalar, an element whose children are a string or a
list of elements, or a function of the row. Text extraction is a structural
recursion. `getReactElementText` over list children is proved equal to an
independent in-order concatenation. Search is an exact, case-sensitive substring
test, written with JavaScript's `indexOf` (`JsText.IndexOfFrom`). It is proved
equal to "there is an offset where the query occurs".

**The component.** The component is modelled in `Theme`, `TreeSearch` and
`SortableTree`:
- `mergeTheme` is a loop proved against a key-by-key specification.
- The static `search` is a function. Its outcome holds the matches, the focus
  update, the one-shot `ignoreOneTreeUpdate` flag and the host callbacks, in the
  order they are called.
- `getDerivedStateFromProps`, `startDrag`, `dragHover`, `endDrag`, `drop`,
  `handleDndMonitorChange`, `toggleChildrenVisibility`, `componentDidMount` and
  `componentDidUpdate` are methods of the class `ReactSortableTree`. The class
  has the component state as fields: the five drag fields, `searchMatches`,
  `searchFocusTreeIndex` and `instanceProps`.
- Host callbacks (`onChange`, `onMoveNode`, `onVisibilityToggle`,
  `searchFinishCallback`, `onDragStateChanged`) are appended to the field
  `hostCalls`.
- The class invariant `Valid()` says the five drag fields are either all cleared
  or all set with `dragging` true. `render` uses this invariant: it computes a
  swap preview exactly while a drag is in progress.
- The module-level tree-id counter is the class `TreeIdCounter`.

The tree-data utilities (`removeNode`, `insertNode`, `changeNodeAtPath`, `find`,
`toggleExpandedForAll`, flattening to rows, `getDescendantCount`, `slideRows`)
and lodash `isEqual` belong to files outside this model. The component receives
them as the record `TreeData.TreeOps`, whose function values carry no contracts.
So every property about the component holds whatever those functions compute.

File layout:
- `wrappers.dfy`: `Option`.
- `js_text.dfy`: decimal `String(n)` and `indexOf`.
- `default_handlers.dfy`: node values and the default handlers.
- `tree_data.dfy`: trees, rows, matches and the utility record.
- `theme.dfy`: `mergeTheme`.
- `props.dfy`: props, `instanceProps` and host calls.
- `search.dfy`: `search` and the highlighting.
- `sortable_tree.dfy`: ids, drag state and the component class.

### Source behaviours worth knowing

These follow from the code, and the model keeps them:
- A `null` title is searched as an object (`typeof null === 'object'`). Its text
  is empty, so it matches the empty query only (`DefaultHandlers.StringSearchNullField`).
- `search` sets `ignoreOneTreeUpdate` exactly when it calls `onChange`. The host
  echoes the expanded tree back, and that one tree change runs no search
  (`SortableTree.EchoedTreeIsIgnoredOnce`). When the echoed tree is deep-equal to
  the current one, the echo is no tree change: the flag stays set and the next
  real tree change is the one that runs no search (`SortableTree.EqualEchoKeepsFlag`).
- `componentDidMount` passes the search outcome to `setState`, which merges
  top-level keys only. A search that ran therefore replaces the whole of
  `instanceProps` by `{ ignoreOneTreeUpdate: true }`, dropping the remembered
  tree, query and offset. The state is derived again before the next render; that
  pass sees a tree change (no tree is deep-equal to `undefined`), consumes the flag
  and runs no search (`SortableTree.MountThenRederive`). The mount's `onChange` is
  called before that `setState`, so a host that applies the echoed tree in the
  same batch has its echo swallowed by the flag, with no search
  (`SortableTree.MountWithBatchedEcho`). Only a host that applies the echo in a
  later update than the mount's `setState` has it arrive with the flag cleared,
  and then it is searched.
- Suppose the query is cleared while the tree is unchanged and there is no
  `searchMethod`. Then the skipped search leaves `searchFocusTreeIndex` as it
  was (`TreeSearch.FocusUpdate.KeepFocus`), and `render` goes on scrolling to it.
- `matchKeys` is keyed by JavaScript property names, so the number key `1` and
  the string key `"1"` collide (`TreeSearch.KeyName`). Among matches whose last
  key has the same name, the last one wins (`TreeSearch.MatchKeysLastWins`).
- `matchKeys` is a plain object, so `in` also finds the names it inherits from
  `Object.prototype` (`constructor`, `toString`, `__proto__`, ...): a row whose key
  has such a name is always highlighted as a match
  (`TreeSearch.InheritedNameAlwaysMatches`). It is never the focus unless a match
  stored that name, which makes it an own key. Storing an index under `__proto__`
  stores nothing, so a row keyed `__proto__` is never the focus. Numeric keys, as `defaultGetNodeKey` gives, never have such a
  name (`TreeSearch.NumericNameNotInherited`).

## Model

| member | source | states |
|---|---|---|
| DefaultHandlers.DefaultGetNodeKey | src/utils/default-handlers.ts:229 | the key is numeric and equals the tree index |
| DefaultHandlers.DefaultGetNodeKeyPositional | src/utils/default-handlers.ts:229 | the key ignores the node; two keys are equal iff the tree indices are |
| DefaultHandlers.ElementText | src/utils/default-handlers.ts:232-255 | no contract of its own; characterised by `ElementTextOfString`, `ElementTextFallThrough`, `ElementTextOfTextChildren` and `ElementTextOfList` |
| DefaultHandlers.ElementTextOfString | src/utils/default-handlers.ts:233-235 | the text of a string is the string itself |
| DefaultHandlers.ElementTextFallThrough | src/utils/default-handlers.ts:237-246 | for null, a non-object, missing props, falsy children, or children that are neither string nor object, the text is empty |
| DefaultHandlers.ElementTextOfTextChildren | src/utils/default-handlers.ts:248-250 | string children are the text exactly |
| DefaultHandlers.JoinOfTexts | src/utils/default-handlers.ts:252-254 | `map` then `join('')` over children equals the recursive in-order concatenation `ChildrenText` |
| DefaultHandlers.ElementTextOfList | src/utils/default-handlers.ts:248-254 | the text of an element with list children is its children's texts concatenated in order |
| DefaultHandlers.ChildrenTextAround | src/utils/default-handlers.ts:252-254 | the children's text splits as the text before a child, that child's text, and the text after it |
| DefaultHandlers.ChildMatchLiftsToParent | src/utils/default-handlers.ts:252-273 | a query found in one child's text is found in the parent element's text |
| DefaultHandlers.SearchedText | src/utils/default-handlers.ts:265-277 | there is no text to search exactly when the field is a falsy primitive other than null |
| DefaultHandlers.StringSearch | src/utils/default-handlers.ts:258-278 | no contract of its own; characterised by `StringSearchMeaning`, `StringSearchFalsyField`, `StringSearchNullField` and `StringSearchQueryPart` |
| DefaultHandlers.StringSearchMeaning | src/utils/default-handlers.ts:258-278 | a field matches iff it has a searched text (the function result, the element text, or the truthy scalar's string) and the query occurs in it at some offset |
| DefaultHandlers.StringSearchFalsyField | src/utils/default-handlers.ts:277 | an absent or falsy plain field never matches |
| DefaultHandlers.StringSearchNullField | src/utils/default-handlers.ts:271-273 | a null field matches iff the query is empty |
| DefaultHandlers.DefaultSearchMethod | src/utils/default-handlers.ts:280-290 | no contract of its own; characterised by `DefaultSearchMethodMeaning`, `DefaultSearchQueryPart` and `DefaultSearchEmptyQuery` |
| DefaultHandlers.DefaultSearchMethodMeaning | src/utils/default-handlers.ts:280-290 | the default search holds iff the query occurs in the title's searched text or in the subtitle's |
| DefaultHandlers.StringSearchQueryPart | src/utils/default-handlers.ts:258-278 | a field that matches a query also matches every substring of that query |
| DefaultHandlers.DefaultSearchQueryPart | src/utils/default-handlers.ts:280-290 | a node the default search finds for a query is found for every substring of it |
| DefaultHandlers.DefaultSearchEmptyQuery | src/utils/default-handlers.ts:280-290 | the empty query matches exactly the nodes whose title or subtitle has a searched text |
| JsText.IndexOfFrom | src/utils/default-handlers.ts:268 | `indexOf` gives the first offset at or after `from` where the query occurs, or -1 iff there is none |
| JsText.ContainsIff | src/utils/default-handlers.ts:273 | `indexOf(q) > -1` iff the query occurs at some offset |
| JsText.ContainsIsCaseSensitive | src/utils/default-handlers.ts:277 | matching does not fold case: "Title" contains "Title" but not "title" |
| JsText.NatToDecimal | src/react-sortable-tree.tsx:82 | the string form of a counter value is a non-empty run of digits |
| JsText.DecimalRoundTrip | src/react-sortable-tree.tsx:82 | reading back the digits of `String(n)` gives `n` |
| JsText.NatToDecimalInjective | src/react-sortable-tree.tsx:82 | different naturals have different string forms |
| JsText.IntToDecimal | src/react-sortable-tree.tsx:676 | the property name of a numeric key is non-empty and starts with '-' iff the key is negative |
| JsText.IntToDecimalInjective | src/react-sortable-tree.tsx:676 | different numeric keys have different property names |
| Theme.MergeTheme | src/react-sortable-tree.tsx:43-70 | the loop over the overridable keys produces exactly the key-by-key merge `Merged` |
| Theme.MergePrecedence | src/react-sortable-tree.tsx:57-67 | a null overridable prop takes the theme's value when it is defined, else the built-in default; a non-null one is kept |
| Theme.MergeKeepsOtherProps | src/react-sortable-tree.tsx:44-48 | props outside the overridable set pass through unchanged |
| Theme.MergeStyle | src/react-sortable-tree.tsx:46-47 | `style` and `innerStyle` entries come from the props where given, else from the theme |
| Theme.MergeBuiltInDefaults | src/react-sortable-tree.tsx:50-56 | with an empty theme, null widths become 44 and 100 |
| Theme.MergeIdempotent | src/react-sortable-tree.tsx:43-70 | merging merged props changes nothing |
| TreeSearch.SearchSkipped | src/react-sortable-tree.tsx:323 | no contract of its own; characterised by `Search` (a skipped search's outcome) and `DefaultSearchHasQuery` |
| TreeSearch.SearchRequest | src/react-sortable-tree.tsx:334-347 | no contract of its own; characterised by `SearchRequestExpansion` and `SearchRequestTree` |
| TreeSearch.FocusTreeIndex | src/react-sortable-tree.tsx:359-366 | a focus index exists iff seeking, the offset is set and it is below the match count; it is then the tree index of the match at the offset |
| TreeSearch.SearchRequestExpansion | src/react-sortable-tree.tsx:345-346 | `find` expands the focused path iff expanding; it expands all match paths iff expanding and not a single search |
| TreeSearch.SearchRequestTree | src/react-sortable-tree.tsx:336-341 | the searched tree is the fully collapsed tree iff only searched nodes are to stay expanded |
| TreeSearch.DefaultSearchHasQuery | src/react-sortable-tree.tsx:323-343 | when the built-in search method runs, the query is a non-empty string |
| TreeSearch.Search | src/react-sortable-tree.tsx:309-372 | a skipped search returns no matches, keeps the focus, sets no flag and calls the finish callback with the empty list at most; otherwise the matches are `find`'s, the focus is `FocusTreeIndex`, and `onChange` with the expanded tree comes before the finish callback; the ignore flag is set iff the search runs and expands |
| TreeSearch.SearchChangeSetsIgnore | src/react-sortable-tree.tsx:350-353 | `onChange` is among the calls iff the ignore flag is set |
| TreeSearch.SearchWithoutSeekHasNoFocus | src/react-sortable-tree.tsx:359-366 | a search that does not seek leaves the focus or clears it, never sets one |
| TreeSearch.BuildMatchKeys | src/react-sortable-tree.tsx:674-677 | the `forEach` loop builds exactly the fold `MatchKeysOf`, in which an assignment to `__proto__` stores nothing |
| TreeSearch.MatchKeysDomain | src/react-sortable-tree.tsx:674-677 | a name is an own key of `matchKeys` iff it is not `__proto__` and some match's path ends in a key of that name |
| TreeSearch.MatchKeysLastWins | src/react-sortable-tree.tsx:675-677 | the index stored for a name belongs to a match ending in that name, and no later match ends in it |
| TreeSearch.IsSearchMatch | src/react-sortable-tree.tsx:574 | no contract of its own; characterised by `SearchMatchMeaning`, `InheritedNameAlwaysMatches` and `NumericKeysMatchExactly` |
| TreeSearch.IsSearchFocus | src/react-sortable-tree.tsx:575-576 | no contract of its own; characterised by `SearchFocusMeaning` and `FocusIsMatch` |
| TreeSearch.SearchMatchMeaning | src/react-sortable-tree.tsx:573-574 | a row is a search match iff its last key's name is inherited from `Object.prototype` or some match's last key has that name |
| TreeSearch.InheritedNameAlwaysMatches | src/react-sortable-tree.tsx:573-576 | a row keyed `constructor` is a search match even with no matches, and is never the focus |
| TreeSearch.SearchFocusMeaning | src/react-sortable-tree.tsx:573-576 | a row is the focus iff its last key's name is not `__proto__` and the match at the offset is the last match sharing that name |
| TreeSearch.FocusIsMatch | src/react-sortable-tree.tsx:574-576 | the focused row is always highlighted as a match |
| TreeSearch.NumericNameNotInherited | src/react-sortable-tree.tsx:573-576 | the property name of a numeric key is never an `Object.prototype` name |
| TreeSearch.NumericKeysMatchExactly | src/react-sortable-tree.tsx:573-576 | with numeric keys, a row is a match iff some match ends in exactly the row's key |
| SortableTree.TreeIdInjective | src/react-sortable-tree.tsx:82-83 | trees created at different counter values get different ids |
| SortableTree.TreeIdCounter.constructor | src/react-sortable-tree.tsx:41 | the counter starts at 1 |
| SortableTree.TreeIdCounter.Allocate | src/react-sortable-tree.tsx:82-83 | the id is `rst__` and the counter value, and the counter increases by one |
| SortableTree.ReactSortableTree.constructor | src/react-sortable-tree.tsx:82-124 | allocates the tree id; `dndType` is the prop when truthy, else the tree id; the state starts with no drag, no matches and empty `instanceProps` |
| SortableTree.ParentPath | src/react-sortable-tree.tsx:432 | the parent path followed by the last key is the path |
| SortableTree.ExpandNode | src/react-sortable-tree.tsx:433 | the node is expanded and nothing else about it changes |
| SortableTree.ToggleNode | src/react-sortable-tree.tsx:258 | `expanded` is flipped and nothing else about the node changes |
| SortableTree.ShouldCopy | src/react-sortable-tree.tsx:462-469 | a flag is used as given; a callback is asked with the node, path and tree index |
| SortableTree.CanNodeHaveChildren | src/react-sortable-tree.tsx:503-509 | the host's predicate decides when there is one; otherwise every node may have children |
| SortableTree.ReactSortableTree.ResetDrag | src/react-sortable-tree.tsx:447-454 | all five drag fields are cleared and nothing else changes |
| SortableTree.ReactSortableTree.ApplySearch | src/react-sortable-tree.tsx:183-186 | the matches are the outcome's, the focus index is set or kept as the outcome says, the ignore flag is raised when the outcome sets it and kept otherwise, the rest of `instanceProps` and the drag fields are kept, and the host calls are appended |
| SortableTree.ReactSortableTree.DidMount | src/react-sortable-tree.tsx:149-158 | the matches, focus and host calls come from the seeking, expanding, non-single search; a search that ran replaces `instanceProps` by the ignore flag alone, a skipped one keeps it; drag fields are kept |
| SortableTree.DeriveBranchOf | src/react-sortable-tree.tsx:172-206 | no contract of its own; characterised by `ReactSortableTree.GetDerivedStateFromProps`, whose ensures are stated per branch |
| SortableTree.ReactSortableTree.GetDerivedStateFromProps | src/react-sortable-tree.tsx:168-213 | the tree, query and offset are always recorded. A tree change under the ignore flag clears the flag and runs no search. Any other tree change clears the focus and runs a non-expanding search. Both tree-change cases clear the drag fields. With the tree unchanged, a query change runs an expanding search, and only then an offset change runs a single search; otherwise nothing changes. A tree change never leaves the flag set. The invariant is preserved. |
| SortableTree.ReactSortableTree.DidUpdate | src/react-sortable-tree.tsx:216-226 | `onDragStateChanged` is called with the new `dragging` and dragged node iff `dragging` changed and the callback is given |
| SortableTree.ReactSortableTree.StartDrag | src/react-sortable-tree.tsx:374-394 | the drag tree, node and minimum index come from `removeNode`, the depth is the path length minus one, `dragging` is set; the invariant holds |
| SortableTree.ReactSortableTree.DragHover | src/react-sortable-tree.tsx:396-442 | a hover at the stored depth and index changes nothing. Otherwise the node is inserted into the drag tree, or into the tree when there is none, and the row at the new index gives the parent path to expand. The new node, depth and index are stored, `dragging` is set and the focus is cleared. |
| SortableTree.ReactSortableTree.EndDrag | src/react-sortable-tree.tsx:444-497 | a cancelled drag clears the drag fields; a drop on this tree changes nothing; an external drop reports the shallow-copied original tree when copying, else the drag tree (or the tree), via `onChange` then `onMoveNode` with null next fields |
| SortableTree.ReactSortableTree.HandleDndMonitorChange | src/react-sortable-tree.tsx:240-250 | when the monitor stops dragging while a drag tree is held, the drag is cancelled; otherwise nothing changes |
| SortableTree.ReactSortableTree.Drop | src/react-sortable-tree.tsx:272-306 | the node is inserted into the drag tree with its parent expanded, and `onChange` then `onMoveNode` report the result with the previous path and index |
| SortableTree.ReactSortableTree.ToggleChildrenVisibility | src/react-sortable-tree.tsx:252-270 | the tree with the node's `expanded` flipped goes to `onChange`, then to `onVisibilityToggle` with the negated flag |
| SortableTree.ReactSortableTree.Render | src/react-sortable-tree.tsx:644-685 | under the invariant there is a swap preview exactly while dragging, with `swapTo` the minimum index and `swapLength` one more than the descendant count; the rows are the slid rows of the inserted tree, or the plain rows; the match keys are `MatchKeysOf`; the scroll target is the focus index |
| SortableTree.MountThenRederive | src/react-sortable-tree.tsx:149-186 | mounting then deriving the state again leaves the tree, query and offset recorded, the flag cleared, no drag, and only the mount's search and calls |
| SortableTree.MountWithBatchedEcho | src/react-sortable-tree.tsx:149-186 | mounting then deriving the state from the echoed props records the echoed tree, query and offset, clears the flag and the drag, and leaves only the mount's search and calls |
| SortableTree.EchoedTreeIsIgnoredOnce | src/react-sortable-tree.tsx:168-213 | after a query change runs an expanding search that calls `onChange`, a changed echoed tree adds no matches, focus or host calls to the first update's, records the echoed tree and clears the flag |
| SortableTree.EqualEchoKeepsFlag | src/react-sortable-tree.tsx:168-213 | an echo deep-equal to the tree keeps the flag, so the next real tree change runs no search and only clears the flag |

## Left out

- Rendering is not modelled: JSX, Virtuoso, the scroll zones, the placeholder, `renderRow`'s node props, `canDrag`, `generateNodeProps` and the rtl class. Only the values `render` computes are modelled (`Render`).
- The react-dnd wiring is not modelled: `wrapSource`, `wrapTarget`, `wrapPlaceholder`, the providers, the monitor subscription and `componentWillUnmount`. Drag events arrive as method calls.
- SortableTree.ReactSortableTree.HandleDndMonitorChange: cancels the drag immediately. The source defers the `endDrag` call with `setTimeout`, and the model has no event loop.
- `loadLazyChildren` is not modelled. It calls function-valued children with a `done` continuation that replaces the children only when the node is the same object reference. Dafny values have no reference identity, and the continuation runs asynchronously. Lazy children are the opaque `LazyChildren`.
- The tree-data utilities, `slideRows`, the memoisation and lodash `isEqual` are in files that are not part of this model. They are uninterpreted members of `TreeOps`.
- DefaultHandlers.StringSearch: a function-valued title or subtitle is called with `(path, treeIndex)` only, not with the node. Dafny does not allow a datatype to recurse through a function's argument.
- The JavaScript conversion `String(...)` of an object returned by a function-valued field is not modelled. Computed fields return scalars, and floating-point numbers are integers.
- JsText.IntToDecimal: `String(n)` is modelled as the exact decimal digits, which JavaScript gives only for |n| < 2^53. Larger numbers print rounded digits padded with zeros, or in exponent form from 1e21 on (`"1e+21"`). So searches over such numeric titles and property names of such numeric keys (`DefaultHandlers.ToJsString`, `TreeSearch.KeyName`) differ from the source above that bound.
- JavaScript strings are sequences of UTF-16 code units, while a Dafny `char` is a Unicode scalar value. A title or query holding a lone surrogate cannot be represented; on well-formed strings containment agrees.
- Children that are a single object rather than a list are not modelled: the `.map` call throws on them.
- `expanded` is a boolean, so an absent flag reads as false. `!undefined` in `toggleChildrenVisibility` gives the same result as `!false`.
- `searchFocusOffset` is a natural number. A negative offset makes the source index the matches at a negative position and throw.
- `searchQuery` is `Option<string>`, so null and undefined are the same value. lodash `isEqual(null, undefined)` is false, so the source takes the query-changed branch for that change and the model does not.
- SortableTree.ReactSortableTree.DragHover: when the new tree index has no row, the source throws inside the `setState` updater. The model returns `NoRowAtIndex` and leaves the state unchanged.
- lodash `isEqual` is uninterpreted, except that a missing tree is taken as never deep-equal to a tree (`TreeData.TreeDataEqual`), as lodash compares `undefined` with an array.
- React derives the state again before every render; the model shows this only for the mount (`SortableTree.MountThenRederive`). Other methods leave that call to their caller.
- React batches `setState` calls, and the model does not; the caller chooses the order of updates, as `SortableTree.MountWithBatchedEcho` does for a batched echo after mount. Each method applies its update at once, and `getDerivedStateFromProps` updates the state directly instead of returning a partial state. `this.props` is passed to the methods that read it.
