/**
 * The component's search rules: the static `search` (when it is skipped, what
 * it asks `find` to expand, which tree index gets the focus, which host
 * callbacks it calls) and the render-time highlighting (`matchKeys`,
 * `isSearchMatch`, `isSearchFocus`).
 */
module TreeSearch {
  import opened Wrappers
  import opened JsText
  import opened DefaultHandlers
  import opened TreeData
  import opened SortableTreeProps

  /** A truthy `searchQuery`: neither null, undefined nor the empty string. */
  predicate QueryTruthy(q: Option<string>) {
    q.Some? && q.value != ""
  }

  /** `!searchQuery && !searchMethod`: there is nothing to search for. */
  predicate SearchSkipped(props: TreeProps) {
    !QueryTruthy(props.searchQuery) && props.searchMethod.None?
  }

  /** The tree index to scroll to: that of the match at the focus offset, when seeking and it exists. */
  function FocusTreeIndex(seekIndex: bool, searchFocusOffset: Option<nat>, matches: seq<SearchMatch>): (focus: Option<int>)
    ensures focus.Some? <==> seekIndex && searchFocusOffset.Some? && searchFocusOffset.value < |matches|
    ensures focus.Some? ==> focus.value == matches[searchFocusOffset.value].treeIndex
  {
    if seekIndex && searchFocusOffset.Some? && searchFocusOffset.value < |matches| then
      Some(matches[searchFocusOffset.value].treeIndex)
    else None
  }

  /** The arguments `search` passes to `find`. */
  function SearchRequest(props: TreeProps, treeData: MaybeTree, expand: bool, singleSearch: bool, ops: TreeOps): FindRequest {
    FindRequest(
      if props.onlyExpandSearchedNodes then Some(ops.toggleExpandedForAll(treeData, false)) else treeData,
      props.searchQuery,
      if props.searchMethod.Some? then CustomSearch(props.searchMethod.value) else DefaultSearch,
      props.searchFocusOffset,
      expand && !singleSearch,
      expand)
  }

  /**
   * What `find` is asked to expand: nothing unless expanding; the focused match's
   * path whenever expanding; every match path only when expanding and not a single search.
   */
  lemma SearchRequestExpansion(props: TreeProps, treeData: MaybeTree, expand: bool, singleSearch: bool, ops: TreeOps)
    ensures var request := SearchRequest(props, treeData, expand, singleSearch, ops);
      && (request.expandAllMatchPaths ==> request.expandFocusMatchPaths)
      && (request.expandFocusMatchPaths <==> expand)
      && (singleSearch ==> !request.expandAllMatchPaths)
      && (expand && !singleSearch ==> request.expandAllMatchPaths)
  {
  }

  /** The search runs on the collapsed tree exactly when only searched nodes are to stay expanded. */
  lemma SearchRequestTree(props: TreeProps, treeData: MaybeTree, expand: bool, singleSearch: bool, ops: TreeOps)
    ensures var request := SearchRequest(props, treeData, expand, singleSearch, ops);
      request.treeData == if props.onlyExpandSearchedNodes then Some(ops.toggleExpandedForAll(treeData, false)) else treeData
  {
  }

  /** The built-in search method is only ever run with a non-empty query string. */
  lemma DefaultSearchHasQuery(props: TreeProps, treeData: MaybeTree, expand: bool, singleSearch: bool, ops: TreeOps)
    requires !SearchSkipped(props)
    requires SearchRequest(props, treeData, expand, singleSearch, ops).searchMethod.DefaultSearch?
    ensures QueryTruthy(SearchRequest(props, treeData, expand, singleSearch, ops).searchQuery)
  {
  }

  /** What `search` does to the focus: leave it (when skipped) or set it. */
  datatype FocusUpdate = KeepFocus | SetFocus(treeIndex: Option<int>)

  /** The state update `search` returns, and the host callbacks it calls, in order. */
  datatype SearchOutcome = SearchOutcome(
    matches: seq<SearchMatch>,
    focus: FocusUpdate,
    setIgnoreOneTreeUpdate: bool,
    calls: seq<HostCall>)

  /** The static `search(props, state, seekIndex, expand, singleSearch)`; `treeData` is `state.instanceProps.treeData`. */
  function Search(props: TreeProps, treeData: MaybeTree, seekIndex: bool, expand: bool, singleSearch: bool, ops: TreeOps): (r: SearchOutcome)
    ensures SearchSkipped(props) ==>
      r == SearchOutcome([], KeepFocus, false, if props.hasSearchFinishCallback then [SearchFinished([])] else [])
    ensures !SearchSkipped(props) ==>
      var found := ops.find(SearchRequest(props, treeData, expand, singleSearch, ops));
      && r.matches == found.matches
      && r.focus == SetFocus(FocusTreeIndex(seekIndex, props.searchFocusOffset, found.matches))
      && r.calls == (if expand then [OnChange(Some(found.treeData))] else [])
                    + (if props.hasSearchFinishCallback then [SearchFinished(found.matches)] else [])
    ensures r.setIgnoreOneTreeUpdate <==> !SearchSkipped(props) && expand
  {
    if SearchSkipped(props) then
      SearchOutcome([], KeepFocus, false, if props.hasSearchFinishCallback then [SearchFinished([])] else [])
    else
      var found := ops.find(SearchRequest(props, treeData, expand, singleSearch, ops));
      var changeCalls := if expand then [OnChange(Some(found.treeData))] else [];
      var finishCalls := if props.hasSearchFinishCallback then [SearchFinished(found.matches)] else [];
      SearchOutcome(found.matches, SetFocus(FocusTreeIndex(seekIndex, props.searchFocusOffset, found.matches)),
                    expand, changeCalls + finishCalls)
  }

  /** `onChange` is called by a search exactly when it sets the one-shot ignore flag. */
  lemma SearchChangeSetsIgnore(props: TreeProps, treeData: MaybeTree, seekIndex: bool, expand: bool, singleSearch: bool, ops: TreeOps)
    ensures var r := Search(props, treeData, seekIndex, expand, singleSearch, ops);
      (exists i :: 0 <= i < |r.calls| && r.calls[i].OnChange?) <==> r.setIgnoreOneTreeUpdate
  {
    var r := Search(props, treeData, seekIndex, expand, singleSearch, ops);
    if r.setIgnoreOneTreeUpdate {
      assert r.calls[0].OnChange?;
    }
  }

  /** A search that does not seek never sets a focus tree index. */
  lemma SearchWithoutSeekHasNoFocus(props: TreeProps, treeData: MaybeTree, expand: bool, singleSearch: bool, ops: TreeOps)
    ensures var focus := Search(props, treeData, false, expand, singleSearch, ops).focus;
      focus == KeepFocus || focus == SetFocus(None)
  {
  }

  /** The property name a key becomes when used as a key of a JavaScript object. */
  function KeyName(key: Key): string {
    match key
    case NumKey(n) => IntToDecimal(n)
    case StrKey(s) => s
  }

  /** The property name of `path[path.length - 1]` (`"undefined"` for an empty path). */
  function LastKeyName(path: Path): string {
    if |path| == 0 then "undefined" else KeyName(path[|path| - 1])
  }

  /**
   * The names a plain object `{}` has by inheritance from `Object.prototype`:
   * `name in matchKeys` holds for each of them even when no match stored it.
   */
  const ObjectPrototypeNames: set<string> := {
    "constructor", "hasOwnProperty", "isPrototypeOf", "propertyIsEnumerable",
    "toLocaleString", "toString", "valueOf", "__proto__",
    "__defineGetter__", "__defineSetter__", "__lookupGetter__", "__lookupSetter__"}

  /** `matchKeys[name] = index`; assigning a number to `__proto__` stores nothing. */
  function StoreMatchKey(matchKeys: map<string, nat>, name: string, index: nat): map<string, nat> {
    if name == "__proto__" then matchKeys else matchKeys[name := index]
  }

  /** The own properties of `matchKeys` after the `forEach` over the matches. */
  function MatchKeysOf(matches: seq<SearchMatch>): map<string, nat>
  {
    if |matches| == 0 then map[]
    else StoreMatchKey(MatchKeysOf(matches[..|matches| - 1]), LastKeyName(matches[|matches| - 1].path), |matches| - 1)
  }

  /** The `forEach` loop in `render` that fills `matchKeys`. */
  method BuildMatchKeys(matches: seq<SearchMatch>) returns (matchKeys: map<string, nat>)
    ensures matchKeys == MatchKeysOf(matches)
  {
    matchKeys := map[];
    for i := 0 to |matches|
      invariant matchKeys == MatchKeysOf(matches[..i])
    {
      assert matches[..i + 1][..i] == matches[..i];
      var nodeKey := LastKeyName(matches[i].path);
      if nodeKey != "__proto__" {
        matchKeys := matchKeys[nodeKey := i];
      }
    }
    assert matches[..|matches|] == matches;
  }

  /** A name is an own match key iff it is not `__proto__` and some match's path ends in a key with that name. */
  lemma {:induction false} MatchKeysDomain(matches: seq<SearchMatch>, name: string)
    ensures name in MatchKeysOf(matches) <==>
      name != "__proto__" && exists i :: 0 <= i < |matches| && LastKeyName(matches[i].path) == name
  {
    if |matches| > 0 {
      var init := matches[..|matches| - 1];
      MatchKeysDomain(init, name);
      if exists i :: 0 <= i < |init| && LastKeyName(init[i].path) == name {
        var i :| 0 <= i < |init| && LastKeyName(init[i].path) == name;
        assert matches[i] == init[i];
      }
      if exists i :: 0 <= i < |matches| && LastKeyName(matches[i].path) == name {
        var i :| 0 <= i < |matches| && LastKeyName(matches[i].path) == name;
        if i < |init| {
          assert init[i] == matches[i];
        }
      }
    }
  }

  /** A later match with the same key name overwrites an earlier one: the index kept is the last. */
  lemma {:induction false} MatchKeysLastWins(matches: seq<SearchMatch>, name: string)
    requires name in MatchKeysOf(matches)
    ensures var i := MatchKeysOf(matches)[name];
      && i < |matches|
      && LastKeyName(matches[i].path) == name
      && forall j :: i < j < |matches| ==> LastKeyName(matches[j].path) != name
  {
    MatchKeysDomain(matches, name);
    var n := |matches|;
    var init := matches[..n - 1];
    var last := LastKeyName(matches[n - 1].path);
    assert MatchKeysOf(matches) == StoreMatchKey(MatchKeysOf(init), last, n - 1);
    if last == name {
      assert MatchKeysOf(matches)[name] == n - 1;
    } else {
      assert MatchKeysOf(matches)[name] == MatchKeysOf(init)[name];
      MatchKeysLastWins(init, name);
      var i := MatchKeysOf(init)[name];
      assert matches[i] == init[i];
      forall j | i < j < n
        ensures LastKeyName(matches[j].path) != name
      {
        if j < n - 1 {
          assert matches[j] == init[j];
        }
      }
    }
  }

  /** `isSearchMatch` of a row: `nodeKey in matchKeys`, which also finds inherited names. */
  predicate IsSearchMatch(path: Path, matchKeys: map<string, nat>) {
    LastKeyName(path) in matchKeys || LastKeyName(path) in ObjectPrototypeNames
  }

  /**
   * `isSearchFocus` of a row: it is a match and `matchKeys[nodeKey]` is the focus offset.
   * An inherited name that no match stored reads as a function or an object, never a
   * number, so only an own key can be the focus (and an own key is a match: `FocusIsMatch`).
   */
  predicate IsSearchFocus(path: Path, matchKeys: map<string, nat>, searchFocusOffset: Option<nat>) {
    && LastKeyName(path) in matchKeys
    && searchFocusOffset == Some(matchKeys[LastKeyName(path)])
  }

  /** The focus is always highlighted as a match too. */
  lemma FocusIsMatch(path: Path, matchKeys: map<string, nat>, searchFocusOffset: Option<nat>)
    ensures IsSearchFocus(path, matchKeys, searchFocusOffset) ==> IsSearchMatch(path, matchKeys)
  {
  }

  /** A row is highlighted iff its key name is inherited, or some match's path ends in a key with the same name. */
  lemma SearchMatchMeaning(matches: seq<SearchMatch>, path: Path)
    ensures IsSearchMatch(path, MatchKeysOf(matches)) <==>
      || LastKeyName(path) in ObjectPrototypeNames
      || exists i :: 0 <= i < |matches| && LastKeyName(matches[i].path) == LastKeyName(path)
  {
    MatchKeysDomain(matches, LastKeyName(path));
  }

  /** An inherited name marks the row as a match even when there are no matches. */
  lemma InheritedNameAlwaysMatches(path: Path)
    requires |path| > 0 && path[|path| - 1] == StrKey("constructor")
    ensures IsSearchMatch(path, MatchKeysOf([]))
    ensures forall offset :: !IsSearchFocus(path, MatchKeysOf([]), offset)
  {
    assert LastKeyName(path) == "constructor";
  }

  /**
   * A row is the focus iff its key name is not `__proto__` and the match at the
   * offset is the last match sharing the row's key name.
   */
  lemma SearchFocusMeaning(matches: seq<SearchMatch>, path: Path, searchFocusOffset: Option<nat>)
    ensures IsSearchFocus(path, MatchKeysOf(matches), searchFocusOffset) <==>
      && LastKeyName(path) != "__proto__"
      && searchFocusOffset.Some?
      && searchFocusOffset.value < |matches|
      && LastKeyName(matches[searchFocusOffset.value].path) == LastKeyName(path)
      && forall j :: searchFocusOffset.value < j < |matches| ==> LastKeyName(matches[j].path) != LastKeyName(path)
  {
    var name := LastKeyName(path);
    var keys := MatchKeysOf(matches);
    MatchKeysDomain(matches, name);
    if name in keys {
      MatchKeysLastWins(matches, name);
      var i := keys[name];
      if searchFocusOffset.Some? && searchFocusOffset.value < |matches| {
        var v := searchFocusOffset.value;
        if LastKeyName(matches[v].path) == name && forall j :: v < j < |matches| ==> LastKeyName(matches[j].path) != name {
          assert !(v < i) && !(i < v);
        }
      }
    } else if searchFocusOffset.Some? && searchFocusOffset.value < |matches| {
      var v := searchFocusOffset.value;
      assert name == "__proto__" || LastKeyName(matches[v].path) != name;
    }
  }

  /** The property name of a number starts with a digit or '-', so no number names an inherited property. */
  lemma NumericNameNotInherited(n: int)
    ensures IntToDecimal(n) !in ObjectPrototypeNames
  {
    var s := IntToDecimal(n);
    if n >= 0 {
      assert s == NatToDecimal(n);
      assert IsDigit(s[0]);
    } else {
      assert s[0] == '-';
    }
  }

  /** With numeric keys (as the default `getNodeKey` gives), a row is highlighted iff a match ends in the very same key. */
  lemma NumericKeysMatchExactly(matches: seq<SearchMatch>, path: Path)
    requires |path| > 0 && path[|path| - 1].NumKey?
    requires forall i :: 0 <= i < |matches| ==> |matches[i].path| > 0 && matches[i].path[|matches[i].path| - 1].NumKey?
    ensures IsSearchMatch(path, MatchKeysOf(matches)) <==>
      exists i :: 0 <= i < |matches| && matches[i].path[|matches[i].path| - 1] == path[|path| - 1]
  {
    SearchMatchMeaning(matches, path);
    NumericNameNotInherited(path[|path| - 1].n);
    forall i | 0 <= i < |matches| && LastKeyName(matches[i].path) == LastKeyName(path)
      ensures matches[i].path[|matches[i].path| - 1] == path[|path| - 1]
    {
      IntToDecimalInjective(matches[i].path[|matches[i].path| - 1].n, path[|path| - 1].n);
    }
  }
}
