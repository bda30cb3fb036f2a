/**
 * `mergeTheme`: the props the component renders with. Style objects are the
 * theme's overlaid by the props'; each overridable setting whose prop is `null`
 * is taken from the theme when the theme defines it, and from the built-in
 * default otherwise.
 */
module Theme {

  /** A setting's value; renderers are named by their component. */
  datatype Setting = Undefined | Null | Number(n: int) | Renderer(name: string) | Other

  /** A JavaScript object of settings; a missing key reads as `undefined`. */
  type Bag = map<string, Setting>

  function Lookup(bag: Bag, key: string): Setting {
    if key in bag then bag[key] else Undefined
  }

  datatype ThemeBag = ThemeBag(settings: Bag, style: Bag, innerStyle: Bag)

  /** The component's props as far as theming goes: the other props are `settings`. */
  datatype ThemedProps = ThemedProps(settings: Bag, style: Bag, innerStyle: Bag, theme: ThemeBag)

  /** The keys of `overridableDefaults`, in their declaration order. */
  const OverridableKeys: seq<string> :=
    ["nodeContentRenderer", "placeholderRenderer", "scaffoldBlockPxWidth", "slideRegionSize", "treeNodeRenderer"]

  predicate IsOverridable(key: string) {
    key in OverridableKeys
  }

  /** The built-in value of `overridableDefaults[key]`. */
  function DefaultFor(key: string): Setting
    requires IsOverridable(key)
  {
    if key == "nodeContentRenderer" then Renderer("NodeRendererDefault")
    else if key == "placeholderRenderer" then Renderer("PlaceholderRendererDefault")
    else if key == "scaffoldBlockPxWidth" then Number(44)
    else if key == "slideRegionSize" then Number(100)
    else Renderer("TreeNode")
  }

  /** The value a null prop falls back to: the theme's when defined, else the default. */
  function Fallback(props: ThemedProps, key: string): Setting
    requires IsOverridable(key)
  {
    if Lookup(props.theme.settings, key) != Undefined then props.theme.settings[key]
    else DefaultFor(key)
  }

  /** Whether `mergeTheme` replaces the prop under `key`. */
  predicate Overridden(props: ThemedProps, key: string) {
    IsOverridable(key) && key in props.settings && props.settings[key] == Null
  }

  /** The merged props, stated key by key. */
  function Merged(props: ThemedProps): ThemedProps {
    ThemedProps(
      map key | key in props.settings ::
        if Overridden(props, key) then Fallback(props, key) else props.settings[key],
      props.theme.style + props.style,
      props.theme.innerStyle + props.innerStyle,
      props.theme)
  }

  /** The settings after the first `n` overridable keys have been visited. */
  function MergedUpTo(props: ThemedProps, n: nat): Bag
    requires n <= |OverridableKeys|
  {
    map key | key in props.settings ::
      if key in OverridableKeys[..n] && Overridden(props, key) then Fallback(props, key) else props.settings[key]
  }

  lemma MergedUpToStep(props: ThemedProps, i: nat)
    requires i < |OverridableKeys|
    ensures var key := OverridableKeys[i];
      MergedUpTo(props, i + 1) ==
        if Lookup(props.settings, key) == Null then MergedUpTo(props, i)[key := Fallback(props, key)]
        else MergedUpTo(props, i)
  {
    var key := OverridableKeys[i];
    assert OverridableKeys[..i + 1] == OverridableKeys[..i] + [key];
    assert key !in OverridableKeys[..i];
  }

  /** `mergeTheme`: spread the props, overlay the styles, then fill each null overridable prop. */
  method MergeTheme(props: ThemedProps) returns (merged: ThemedProps)
    ensures merged == Merged(props)
  {
    merged := props.(style := props.theme.style + props.style,
                     innerStyle := props.theme.innerStyle + props.innerStyle);
    assert merged.settings == MergedUpTo(props, 0);
    for i := 0 to |OverridableKeys|
      invariant merged == Merged(props).(settings := MergedUpTo(props, i))
    {
      var key := OverridableKeys[i];
      MergedUpToStep(props, i);
      if Lookup(props.settings, key) == Null {
        merged := merged.(settings := merged.settings[key := Fallback(props, key)]);
      }
    }
    assert OverridableKeys[..|OverridableKeys|] == OverridableKeys;
    assert MergedUpTo(props, |OverridableKeys|) == Merged(props).settings;
  }

  /** Precedence for an overridable setting: a non-null prop, else the theme's, else the default. */
  lemma MergePrecedence(props: ThemedProps, key: string)
    requires IsOverridable(key)
    ensures var merged := Lookup(Merged(props).settings, key);
      if Lookup(props.settings, key) == Null then
        merged == (if Lookup(props.theme.settings, key) != Undefined then Lookup(props.theme.settings, key)
                   else DefaultFor(key))
      else merged == Lookup(props.settings, key)
  {
  }

  /** Props outside the overridable set are passed through unchanged. */
  lemma MergeKeepsOtherProps(props: ThemedProps, key: string)
    requires !IsOverridable(key)
    ensures Lookup(Merged(props).settings, key) == Lookup(props.settings, key)
  {
  }

  /** Style entries come from the props where given, and from the theme otherwise. */
  lemma MergeStyle(props: ThemedProps, key: string)
    ensures Lookup(Merged(props).style, key) ==
      (if key in props.style then props.style[key] else Lookup(props.theme.style, key))
    ensures Lookup(Merged(props).innerStyle, key) ==
      (if key in props.innerStyle then props.innerStyle[key] else Lookup(props.theme.innerStyle, key))
  {
  }

  /** With an empty theme, null widths fall back to 44 and 100. */
  lemma MergeBuiltInDefaults(props: ThemedProps)
    requires props.theme.settings == map[]
    requires Lookup(props.settings, "scaffoldBlockPxWidth") == Null
    requires Lookup(props.settings, "slideRegionSize") == Null
    ensures Lookup(Merged(props).settings, "scaffoldBlockPxWidth") == Number(44)
    ensures Lookup(Merged(props).settings, "slideRegionSize") == Number(100)
  {
  }

  /** Merging already merged props changes nothing. */
  lemma MergeIdempotent(props: ThemedProps)
    ensures Merged(Merged(props)) == Merged(props)
  {
    var once := Merged(props);
    var twice := Merged(once);
    forall key | key in once.settings
      ensures twice.settings[key] == once.settings[key]
    {
      if Overridden(once, key) {
        assert Overridden(props, key);
        assert Lookup(props.theme.settings, key) == Null;
      }
    }
    assert twice.settings == once.settings;
    assert twice.style == once.style;
    assert twice.innerStyle == once.innerStyle;
  }
}
