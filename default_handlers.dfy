/**
 * The default key and search handlers of the tree: the positional node key,
 * the flattening of a rendered element to its text, the substring test on one
 * node field and the title-or-subtitle search method.
 *
 * Node fields are JavaScript values; `Value` distinguishes them the way the
 * handlers do, by `typeof`: primitives, objects (React elements; `null` is a
 * primitive here but `typeof null` is "object") and functions.
 */
module DefaultHandlers {
  import opened Wrappers
  import opened JsText

  /** A key returned by `getNodeKey`: a number or a string. */
  datatype Key = NumKey(n: int) | StrKey(s: string)

  /** The keys from the root to a node, one per level. */
  type Path = seq<Key>

  /** The primitive values a field can hold (numbers are modelled as integers). */
  datatype Scalar = Undefined | Null | Bool(b: bool) | Number(n: int) | Str(s: string)

  /** JavaScript truthiness of a primitive. */
  predicate Truthy(v: Scalar) {
    match v
    case Undefined => false
    case Null => false
    case Bool(b) => b
    case Number(n) => n != 0
    case Str(s) => s != ""
  }

  /** `String(v)` of a primitive; a number prints exactly as JavaScript does for a safe integer. */
  function ToJsString(v: Scalar): string {
    match v
    case Undefined => "undefined"
    case Null => "null"
    case Bool(b) => if b then "true" else "false"
    case Number(n) => IntToDecimal(n)
    case Str(s) => s
  }

  /** A node field (`title`, `subtitle`) or an element child. */
  datatype Value =
    | Primitive(p: Scalar)
      /** A non-null object; `props` is None when the object has no (or falsy) `props`. Arrays are objects without props. */
    | Element(props: Option<ElementProps>)
      /** A function that computes the text from the row's path and tree index. */
    | Computed(f: (Path, int) -> Scalar)

  datatype ElementProps = ElementProps(children: Children)

  /** `props.children` of an element. */
  datatype Children =
      /** undefined, null, false or 0 */
    | NoChildren
    | TextChildren(s: string)
    | ListChildren(items: seq<Value>)
      /** true, a non-zero number or a function: neither a string nor an object */
    | OtherChildren

  predicate ChildrenTruthy(c: Children) {
    match c
    case NoChildren => false
    case TextChildren(s) => s != ""
    case ListChildren(_) => true
    case OtherChildren => true
  }

  /** `typeof v === 'object'`, which holds for null too. */
  predicate IsObject(v: Value) {
    v.Element? || (v.Primitive? && v.p.Null?)
  }

  /** The children of a tree item: absent, a list, or a lazy provider (whose call is not modelled). */
  datatype ChildList = NoChildList | Items(nodes: seq<TreeItem>) | LazyChildren

  /** A tree item; `expanded` absent reads as false. */
  datatype TreeItem = TreeItem(title: Value, subtitle: Value, expanded: bool, children: ChildList)

  /** `defaultGetNodeKey`: the key of a row is its tree index. */
  function DefaultGetNodeKey(node: TreeItem, treeIndex: int): (key: Key)
    ensures key.NumKey? && key.n == treeIndex
  {
    NumKey(treeIndex)
  }

  /** The default key ignores the node and tells rows at different indices apart. */
  lemma DefaultGetNodeKeyPositional(a: TreeItem, b: TreeItem, i: int, j: int)
    ensures DefaultGetNodeKey(a, i) == DefaultGetNodeKey(b, i)
    ensures DefaultGetNodeKey(a, i) == DefaultGetNodeKey(b, j) <==> i == j
  {
  }

  /** `[...].join('')`. */
  function Join(texts: seq<string>): string {
    if |texts| == 0 then "" else texts[0] + Join(texts[1..])
  }

  /** `getReactElementText`: the text of a string, or of an element's string or list children. */
  function ElementText(parent: Value): string
  {
    if parent.Primitive? && parent.p.Str? then parent.p.s
    else if !parent.Element? || parent.props.None?
            || !ChildrenTruthy(parent.props.value.children)
            || parent.props.value.children.OtherChildren? then ""
    else match parent.props.value.children
      case TextChildren(s) => s
      case ListChildren(items) =>
        Join(seq(|items|, i requires 0 <= i < |items| => ElementText(items[i])))
  }

  /** The reference reading of a list of children: each child's text, in order. */
  function ChildrenText(items: seq<Value>): string {
    if |items| == 0 then "" else ElementText(items[0]) + ChildrenText(items[1..])
  }

  /** An element whose `props.children` is `items`. */
  function ElementWithChildren(items: seq<Value>): Value {
    Element(Some(ElementProps(ListChildren(items))))
  }

  lemma ElementTextOfString(s: string)
    ensures ElementText(Primitive(Str(s))) == s
  {
  }

  /** The fall-through cases: null, a non-object, no props, no children, or children of another type. */
  lemma ElementTextFallThrough(parent: Value)
    requires
      || (parent.Primitive? && !parent.p.Str?)
      || parent.Computed?
      || (parent.Element? && parent.props.None?)
      || (parent.Element? && parent.props.Some? && !ChildrenTruthy(parent.props.value.children))
      || (parent.Element? && parent.props.Some? && parent.props.value.children.OtherChildren?)
    ensures ElementText(parent) == ""
  {
  }

  lemma ElementTextOfTextChildren(s: string)
    ensures ElementText(Element(Some(ElementProps(TextChildren(s))))) == s
  {
  }

  lemma {:induction false} JoinOfTexts(items: seq<Value>)
    ensures Join(seq(|items|, i requires 0 <= i < |items| => ElementText(items[i]))) == ChildrenText(items)
  {
    var texts := seq(|items|, i requires 0 <= i < |items| => ElementText(items[i]));
    if |items| > 0 {
      assert texts[1..] == seq(|items[1..]|, i requires 0 <= i < |items[1..]| => ElementText(items[1..][i]));
      JoinOfTexts(items[1..]);
    }
  }

  /** List children: the text is the in-order concatenation of the children's texts. */
  lemma ElementTextOfList(items: seq<Value>)
    ensures ElementText(ElementWithChildren(items)) == ChildrenText(items)
  {
    JoinOfTexts(items);
  }

  lemma {:induction false} ChildrenTextAppend(a: seq<Value>, b: seq<Value>)
    ensures ChildrenText(a + b) == ChildrenText(a) + ChildrenText(b)
  {
    if |a| > 0 {
      assert (a + b)[1..] == a[1..] + b;
      ChildrenTextAppend(a[1..], b);
    } else {
      assert a + b == b;
    }
  }

  /** The text of the children splits around any one child. */
  lemma ChildrenTextAround(items: seq<Value>, k: nat)
    requires k < |items|
    ensures ChildrenText(items) == ChildrenText(items[..k]) + ElementText(items[k]) + ChildrenText(items[k + 1..])
  {
    assert items == items[..k] + items[k..];
    ChildrenTextAppend(items[..k], items[k..]);
    assert items[k..][1..] == items[k + 1..];
  }

  /** A query found in one child is found in the element that lists it. */
  lemma ChildMatchLiftsToParent(items: seq<Value>, k: nat, query: string)
    requires k < |items| && Contains(ElementText(items[k]), query)
    ensures Contains(ElementText(ElementWithChildren(items)), query)
  {
    ContainsIff(ElementText(items[k]), query);
    var i :| OccursAt(ElementText(items[k]), query, i);
    ElementTextOfList(items);
    ChildrenTextAround(items, k);
    OccursInContext(ChildrenText(items[..k]), ElementText(items[k]), ChildrenText(items[k + 1..]), query, i);
    ContainsIff(ElementText(ElementWithChildren(items)), query);
  }

  /** Which node field a search inspects. */
  datatype FieldKey = Title | Subtitle

  function FieldOf(node: TreeItem, key: FieldKey): Value {
    match key
    case Title => node.title
    case Subtitle => node.subtitle
  }

  /** `stringSearch`: does the query occur in the text of one field of the node? */
  function StringSearch(key: FieldKey, searchQuery: string, node: TreeItem, path: Path, treeIndex: int): bool
  {
    var field := FieldOf(node, key);
    if field.Computed? then Contains(ToJsString(field.f(path, treeIndex)), searchQuery)
    else if IsObject(field) then Contains(ElementText(field), searchQuery)
    else Truthy(field.p) && Contains(ToJsString(field.p), searchQuery)
  }

  /** The text `stringSearch` looks in, or None when the field is a falsy non-object primitive. */
  function SearchedText(field: Value, path: Path, treeIndex: int): (text: Option<string>)
    ensures text.None? <==> field.Primitive? && !field.p.Null? && !Truthy(field.p)
  {
    if field.Computed? then Some(ToJsString(field.f(path, treeIndex)))
    else if IsObject(field) then Some(ElementText(field))
    else if Truthy(field.p) then Some(ToJsString(field.p))
    else None
  }

  /** A field matches iff it has a searched text and the query occurs in that text. */
  lemma StringSearchMeaning(key: FieldKey, searchQuery: string, node: TreeItem, path: Path, treeIndex: int)
    ensures var text := SearchedText(FieldOf(node, key), path, treeIndex);
      StringSearch(key, searchQuery, node, path, treeIndex)
      <==> text.Some? && exists i :: OccursAt(text.value, searchQuery, i)
  {
    var text := SearchedText(FieldOf(node, key), path, treeIndex);
    if text.Some? {
      ContainsIff(text.value, searchQuery);
    }
  }

  /** An absent or falsy plain field never matches, whatever the query. */
  lemma StringSearchFalsyField(key: FieldKey, searchQuery: string, node: TreeItem, path: Path, treeIndex: int)
    requires FieldOf(node, key).Primitive? && !FieldOf(node, key).p.Null? && !Truthy(FieldOf(node, key).p)
    ensures !StringSearch(key, searchQuery, node, path, treeIndex)
  {
  }

  /** A null field is searched as an object with no text: only the empty query matches it. */
  lemma StringSearchNullField(key: FieldKey, searchQuery: string, node: TreeItem, path: Path, treeIndex: int)
    requires FieldOf(node, key) == Primitive(Null)
    ensures StringSearch(key, searchQuery, node, path, treeIndex) <==> searchQuery == ""
  {
    ContainsIff("", searchQuery);
    if searchQuery == "" {
      assert OccursAt("", searchQuery, 0);
    }
  }

  /** The arguments of the default search method. */
  datatype SearchData = SearchData(node: TreeItem, path: Path, treeIndex: int, searchQuery: string)

  /** `defaultSearchMethod`: the title matches, or else the subtitle matches. */
  function DefaultSearchMethod(data: SearchData): bool
  {
    StringSearch(Title, data.searchQuery, data.node, data.path, data.treeIndex)
    || StringSearch(Subtitle, data.searchQuery, data.node, data.path, data.treeIndex)
  }

  /** The default search holds iff the query occurs in the searched text of the title or of the subtitle. */
  lemma DefaultSearchMethodMeaning(data: SearchData)
    ensures DefaultSearchMethod(data) <==>
      (exists i :: SearchedText(data.node.title, data.path, data.treeIndex).Some?
                   && OccursAt(SearchedText(data.node.title, data.path, data.treeIndex).value, data.searchQuery, i))
      || (exists i :: SearchedText(data.node.subtitle, data.path, data.treeIndex).Some?
                   && OccursAt(SearchedText(data.node.subtitle, data.path, data.treeIndex).value, data.searchQuery, i))
  {
    StringSearchMeaning(Title, data.searchQuery, data.node, data.path, data.treeIndex);
    StringSearchMeaning(Subtitle, data.searchQuery, data.node, data.path, data.treeIndex);
  }

  /** Narrowing the query can only add matches: a node found for a query is found for any part of it. */
  lemma StringSearchQueryPart(key: FieldKey, query: string, part: string, j: int, node: TreeItem, path: Path, treeIndex: int)
    requires OccursAt(query, part, j)
    requires StringSearch(key, query, node, path, treeIndex)
    ensures StringSearch(key, part, node, path, treeIndex)
  {
    var text := SearchedText(FieldOf(node, key), path, treeIndex);
    StringSearchMeaning(key, query, node, path, treeIndex);
    var i :| OccursAt(text.value, query, i);
    OccursTransitive(text.value, query, part, i, j);
    StringSearchMeaning(key, part, node, path, treeIndex);
  }

  lemma DefaultSearchQueryPart(data: SearchData, part: string, j: int)
    requires OccursAt(data.searchQuery, part, j)
    requires DefaultSearchMethod(data)
    ensures DefaultSearchMethod(data.(searchQuery := part))
  {
    if StringSearch(Title, data.searchQuery, data.node, data.path, data.treeIndex) {
      StringSearchQueryPart(Title, data.searchQuery, part, j, data.node, data.path, data.treeIndex);
    } else {
      StringSearchQueryPart(Subtitle, data.searchQuery, part, j, data.node, data.path, data.treeIndex);
    }
  }

  /** The empty query matches every node with a title or subtitle that is an object, a function or truthy. */
  lemma DefaultSearchEmptyQuery(data: SearchData)
    requires data.searchQuery == ""
    ensures DefaultSearchMethod(data) <==>
      SearchedText(data.node.title, data.path, data.treeIndex).Some?
      || SearchedText(data.node.subtitle, data.path, data.treeIndex).Some?
  {
    StringSearchMeaning(Title, "", data.node, data.path, data.treeIndex);
    StringSearchMeaning(Subtitle, "", data.node, data.path, data.treeIndex);
    var t := SearchedText(data.node.title, data.path, data.treeIndex);
    var s := SearchedText(data.node.subtitle, data.path, data.treeIndex);
    if t.Some? { assert OccursAt(t.value, "", 0); }
    if s.Some? { assert OccursAt(s.value, "", 0); }
  }
}
