/**
 * The settings helpers of the Vue 3 wrapper: turning a component's props into
 * a Handsontable settings object, and picking child nodes out of its slots.
 */
module VueHelpers {
  import opened Wrappers
  import opened JsValues
  import opened Sequences

  /** The keys `for…in` visits with `hasOwnProperty` true: an object's own properties (none for other values). */
  function OwnProps(v: JsValue): (r: map<string, JsValue>)
    ensures v.Obj? ==> r == v.own
  {
    if v.Obj? then v.own else map[]
  }

  /** Property read `v[key]`: own property first, then the prototype chain; `undefined` on non-objects. */
  function Lookup(v: JsValue, key: string): JsValue {
    match v
    case Obj(own, inherited) => if key in own then own[key] else Get(inherited, key)
    case _ => Undefined
  }

  /** `init` with every entry of `m` that passes `keep` written over it (a filtered `for…in` copy). */
  function CopiedOver(init: map<string, JsValue>, m: map<string, JsValue>, keep: (string, JsValue) -> bool): (r: map<string, JsValue>)
    ensures forall k :: k in r <==> k in init || (k in m && keep(k, m[k]))
    ensures forall k :: k in m && keep(k, m[k]) ==> r[k] == m[k]
    ensures forall k :: k in init && !(k in m && keep(k, m[k])) ==> r[k] == init[k]
  {
    init + map k | k in m && keep(k, m[k]) :: m[k]
  }

  /** One `for…in` loop with a guard: copy the entries of `m` that pass `keep` into `init`. */
  method CopyOwnWhere(init: map<string, JsValue>, m: map<string, JsValue>, keep: (string, JsValue) -> bool)
    returns (out: map<string, JsValue>)
    ensures out == CopiedOver(init, m, keep)
  {
    out := init;
    var keys := m.Keys;
    while keys != {}
      invariant keys <= m.Keys
      invariant forall k :: k in out <==> k in init || (k in m && k !in keys && keep(k, m[k]))
      invariant forall k :: k in m && k !in keys && keep(k, m[k]) ==> out[k] == m[k]
      invariant forall k :: k in init && !(k in m && k !in keys && keep(k, m[k])) ==> out[k] == init[k]
      decreases keys
    {
      var key :| key in keys;
      if keep(key, m[key]) {
        out := out[key := m[key]];
      }
      keys := keys - {key};
    }
    assert forall k :: k in out <==> k in CopiedOver(init, m, keep);
  }

  // ---------------------------------------------------------------------------
  // rewriteSettings

  /**
   * What `rewriteSettings` answers: an array or plain object becomes a fresh one
   * holding the same own entries (so nothing inherited); anything else is
   * returned as it is.
   */
  function Rewritten(v: JsValue): (r: JsValue)
    ensures v.Obj? ==> r.Obj? && r.own == v.own && r.inherited == map[]
    ensures v.Arr? ==> r == v
    ensures !v.Obj? && !v.Arr? ==> r == v
  {
    match v
    case Obj(own, _) => Obj(own, map[])
    case _ => v
  }

  /** Rewriting a rewritten value changes nothing, and own properties survive it. */
  lemma RewrittenIdempotent(v: JsValue)
    ensures Rewritten(Rewritten(v)) == Rewritten(v)
    ensures OwnProps(Rewritten(v)) == OwnProps(v)
  {
  }

  /** `rewriteSettings`: copy own entries of an array or plain object into a new one. */
  method RewriteSettings(observerSettings: JsValue) returns (settings: JsValue)
    ensures settings == Rewritten(observerSettings)
  {
    match observerSettings
    case Arr(elems) =>
      var copy: seq<JsValue> := [];
      for p := 0 to |elems|
        invariant copy == elems[..p]
      {
        copy := copy + [elems[p]];
      }
      assert copy == elems;
      settings := Arr(copy);
    case Obj(own, _) =>
      var copy := CopyOwnWhere(map[], own, (key, value) => true);
      assert copy == own;
      settings := Obj(copy, map[]);
    case _ =>
      settings := observerSettings;
  }

  // ---------------------------------------------------------------------------
  // filterPassedProps

  /** Entry guard of the first loop of `filterPassedProps`. */
  function AssignedEntry(key: string, value: JsValue): bool {
    value != Unassigned
  }

  /** Entry guard of the second loop of `filterPassedProps`. */
  function PassedTopLevel(key: string, value: JsValue): bool {
    key != "settings" && value != Unassigned
  }

  /** The own entries of the `settings` prop, unless that prop is itself unassigned. */
  function SettingsPropEntries(props: map<string, JsValue>): map<string, JsValue> {
    var settings := Get(props, "settings");
    if settings != Unassigned then OwnProps(settings) else map[]
  }

  /**
   * What `filterPassedProps` answers: the assigned entries of the `settings`
   * prop, then the assigned top-level props other than `settings` itself, the
   * latter winning on a shared key.
   */
  function PassedProps(props: map<string, JsValue>): (r: map<string, JsValue>)
    ensures forall k :: k in r ==> r[k] != Unassigned
    ensures forall k :: k in r <==>
      (k in SettingsPropEntries(props) && SettingsPropEntries(props)[k] != Unassigned)
      || (k in props && k != "settings" && props[k] != Unassigned)
    ensures forall k :: k in props && k != "settings" && props[k] != Unassigned ==> r[k] == props[k]
    ensures forall k :: k in r && !(k in props && k != "settings" && props[k] != Unassigned) ==>
      r[k] == SettingsPropEntries(props)[k]
  {
    CopiedOver(CopiedOver(map[], SettingsPropEntries(props), AssignedEntry), props, PassedTopLevel)
  }

  /** `filterPassedProps`: the two loops of the source. */
  method FilterPassedProps(props: map<string, JsValue>) returns (filteredProps: map<string, JsValue>)
    ensures filteredProps == PassedProps(props)
  {
    filteredProps := map[];
    var columnSettingsProp := Get(props, "settings");
    if columnSettingsProp != Unassigned {
      filteredProps := CopyOwnWhere(filteredProps, OwnProps(columnSettingsProp), AssignedEntry);
    }
    filteredProps := CopyOwnWhere(filteredProps, props, PassedTopLevel);
  }

  // ---------------------------------------------------------------------------
  // prepareSettings

  /**
   * The guard both loops of `prepareSettings` share: the value is defined and,
   * when there are current settings, differs from the current one by
   * `simpleEqual`, except for `data`, which is always taken.
   */
  function Changed(current: JsValue, simpleEqual: (JsValue, JsValue) -> bool, key: string, value: JsValue): (b: bool)
    ensures value == Undefined ==> !b
    ensures key == "data" || !Truthy(current) ==> (b <==> value != Undefined)
    ensures !current.Obj? && Truthy(current) && key != "data" ==> (b <==> value != Undefined && !simpleEqual(Undefined, value))
  {
    value != Undefined && (Truthy(current) && key != "data" ==> !simpleEqual(Lookup(current, key), value))
  }

  /** The wrapper's own props, never passed on from the additional props. */
  predicate WrapperOnly(key: string) {
    key == "id" || key == "settings" || key == "wrapperRendererCacheSize"
  }

  /** The object of the first loop: the `settings` prop when truthy, otherwise the assigned props. */
  function HotSettingsInProps(props: map<string, JsValue>): map<string, JsValue> {
    var settings := Get(props, "settings");
    if Truthy(settings) then OwnProps(settings) else PassedProps(props)
  }

  /** The object of the second loop: the assigned props when `settings` is truthy, otherwise `null`. */
  function AdditionalHotSettingsInProps(props: map<string, JsValue>): map<string, JsValue> {
    if Truthy(Get(props, "settings")) then PassedProps(props) else map[]
  }

  /**
   * What `prepareSettings` answers: the changed entries of the first object, then
   * the changed entries of the second except the wrapper's own props.
   */
  function PreparedSettings(props: map<string, JsValue>, current: JsValue, simpleEqual: (JsValue, JsValue) -> bool): (r: map<string, JsValue>)
    ensures forall k :: k in r ==> r[k] != Undefined && Changed(current, simpleEqual, k, r[k])
  {
    var first := CopiedOver(map[], HotSettingsInProps(props), (key, value) => Changed(current, simpleEqual, key, value));
    CopiedOver(first, AdditionalHotSettingsInProps(props),
      (key, value) => !WrapperOnly(key) && Changed(current, simpleEqual, key, value))
  }

  /**
   * The keys `prepareSettings` outputs: the changed ones of the first object and
   * the changed ones of the second other than the wrapper's own props; those
   * own props can only come from the first object.
   */
  lemma PreparedSettingsKeys(props: map<string, JsValue>, current: JsValue, simpleEqual: (JsValue, JsValue) -> bool)
    ensures var r, hot, extra := PreparedSettings(props, current, simpleEqual), HotSettingsInProps(props), AdditionalHotSettingsInProps(props);
      && (forall k :: k in r <==>
            (k in hot && Changed(current, simpleEqual, k, hot[k]))
            || (k in extra && !WrapperOnly(k) && Changed(current, simpleEqual, k, extra[k])))
      && (forall k :: k in r && WrapperOnly(k) ==> k in hot && r[k] == hot[k])
  {
    var hot, extra := HotSettingsInProps(props), AdditionalHotSettingsInProps(props);
    var keep1 := (key, value) => Changed(current, simpleEqual, key, value);
    var keep2 := (key, value) => !WrapperOnly(key) && Changed(current, simpleEqual, key, value);
    var first := CopiedOver(map[], hot, keep1);
    assert PreparedSettings(props, current, simpleEqual) == CopiedOver(first, extra, keep2);
  }

  /**
   * When the `settings` prop is left unassigned, the sentinel is truthy but has
   * no properties: everything comes from the assigned props, minus the
   * wrapper's own.
   */
  lemma UnassignedSettingsProp(props: map<string, JsValue>, current: JsValue, simpleEqual: (JsValue, JsValue) -> bool)
    requires Get(props, "settings") == Unassigned
    ensures var r := PreparedSettings(props, current, simpleEqual);
      && (forall k :: k in r <==> k in PassedProps(props) && !WrapperOnly(k) && Changed(current, simpleEqual, k, PassedProps(props)[k]))
      && (forall k :: k in r ==> r[k] == props[k])
  {
    assert HotSettingsInProps(props) == map[];
  }

  /** A defined `data` is always passed on, whatever the current settings hold. */
  lemma DataAlwaysPassed(props: map<string, JsValue>, current: JsValue, simpleEqual: (JsValue, JsValue) -> bool)
    requires "data" in props && props["data"] != Undefined && props["data"] != Unassigned
    ensures var r := PreparedSettings(props, current, simpleEqual);
      "data" in r && r["data"] == props["data"]
  {
    var hot, extra := HotSettingsInProps(props), AdditionalHotSettingsInProps(props);
    var keep1 := (key, value) => Changed(current, simpleEqual, key, value);
    var keep2 := (key, value) => !WrapperOnly(key) && Changed(current, simpleEqual, key, value);
    var first := CopiedOver(map[], hot, keep1);
    var r := CopiedOver(first, extra, keep2);
    assert PreparedSettings(props, current, simpleEqual) == r;
    var passed := PassedProps(props);
    assert "data" in passed && passed["data"] == props["data"];
    assert !WrapperOnly("data") && Changed(current, simpleEqual, "data", props["data"]);
    if Truthy(Get(props, "settings")) {
      assert extra == passed;
      assert keep2("data", extra["data"]);
    } else {
      assert hot == passed;
      assert keep1("data", hot["data"]);
      assert first["data"] == props["data"] && extra == map[];
    }
  }

  /** `prepareSettings`: the two loops of the source. */
  method PrepareSettings(props: map<string, JsValue>, currentSettings: JsValue, simpleEqual: (JsValue, JsValue) -> bool)
    returns (newSettings: map<string, JsValue>)
    ensures newSettings == PreparedSettings(props, currentSettings, simpleEqual)
  {
    var assignedProps := FilterPassedProps(props);
    var settings := Get(props, "settings");
    var hotSettingsInProps := if Truthy(settings) then OwnProps(settings) else assignedProps;
    var additionalHotSettingsInProps := if Truthy(settings) then assignedProps else map[];
    newSettings := CopyOwnWhere(map[], hotSettingsInProps,
      (key, value) => Changed(currentSettings, simpleEqual, key, value));
    newSettings := CopyOwnWhere(newSettings, additionalHotSettingsInProps,
      (key, value) => !WrapperOnly(key) && Changed(currentSettings, simpleEqual, key, value));
  }

  // ---------------------------------------------------------------------------
  // Slots and children

  /** A virtual node: its `props` and its `type` (the component it renders). */
  datatype VNode = VNode(props: JsValue, nodeType: JsValue)

  /** `slot.props && slot.props.attrs && slot.props.attrs[type] !== undefined`. */
  predicate HasAttr(slot: VNode, attrType: string): (b: bool)
    ensures b <==> (slot.props.Obj? && Lookup(slot.props, "attrs").Obj?
                    && Lookup(Lookup(slot.props, "attrs"), attrType) != Undefined)
  {
    var attrs := Lookup(slot.props, "attrs");
    Truthy(slot.props) && Truthy(attrs) && Lookup(attrs, attrType) != Undefined
  }

  /** `findVNodeByType`: the first slot carrying the attribute, `null` when none does. */
  method FindVNodeByType(componentSlots: seq<VNode>, attrType: string) returns (componentVNode: Option<VNode>)
    ensures componentVNode.None? <==> forall i :: 0 <= i < |componentSlots| ==> !HasAttr(componentSlots[i], attrType)
    ensures componentVNode.Some? ==>
      exists i :: 0 <= i < |componentSlots| && componentSlots[i] == componentVNode.value
        && HasAttr(componentSlots[i], attrType)
        && forall j :: 0 <= j < i ==> !HasAttr(componentSlots[j], attrType)
  {
    componentVNode := None;
    for index := 0 to |componentSlots|
      invariant forall j :: 0 <= j < index ==> !HasAttr(componentSlots[j], attrType)
    {
      if HasAttr(componentSlots[index], attrType) {
        componentVNode := Some(componentSlots[index]);
        return;
      }
    }
  }

  /** `child.type && child.type.name === 'HotColumn'`. */
  predicate IsHotColumn(child: VNode): (b: bool)
    ensures b <==> child.nodeType.Obj? && Lookup(child.nodeType, "name") == Str("HotColumn")
  {
    Truthy(child.nodeType) && Lookup(child.nodeType, "name") == Str("HotColumn")
  }

  /** `getHotColumnComponents`: the `hot-column` children, in order. */
  function HotColumnComponents(children: seq<VNode>): (r: seq<VNode>)
    ensures |r| <= |children|
    ensures forall j :: 0 <= j < |r| ==> IsHotColumn(r[j]) && r[j] in children
    ensures forall i :: 0 <= i < |children| && IsHotColumn(children[i]) ==> children[i] in r
  {
    if children == [] then []
    else if IsHotColumn(children[0]) then [children[0]] + HotColumnComponents(children[1..])
    else HotColumnComponents(children[1..])
  }

  /** The `HotColumn` children come back in their order among the children. */
  lemma {:induction false} HotColumnComponentsInOrder(children: seq<VNode>)
    ensures IsSubsequence(HotColumnComponents(children), children)
    decreases |children|
  {
    if children != [] {
      HotColumnComponentsInOrder(children[1..]);
      var r := HotColumnComponents(children);
      if IsHotColumn(children[0]) {
        assert r[0] == children[0] && r[1..] == HotColumnComponents(children[1..]);
      } else {
        assert r != [] ==> r[0] != children[0];
      }
    }
  }

  /** Without any `HotColumn` child there is nothing to return. */
  lemma HotColumnComponentsNone(children: seq<VNode>)
    requires forall i :: 0 <= i < |children| ==> !IsHotColumn(children[i])
    ensures HotColumnComponents(children) == []
  {
  }

  /** With only `HotColumn` children, all of them are returned as they are. */
  lemma {:induction false} HotColumnComponentsAll(children: seq<VNode>)
    requires forall i :: 0 <= i < |children| ==> IsHotColumn(children[i])
    ensures HotColumnComponents(children) == children
    decreases |children|
  {
    if children != [] {
      var tail := children[1..];
      assert forall i :: 0 <= i < |tail| ==> IsHotColumn(tail[i]) by {
        forall i | 0 <= i < |tail| ensures IsHotColumn(tail[i]) {
          assert tail[i] == children[i + 1];
        }
      }
      HotColumnComponentsAll(tail);
      assert IsHotColumn(children[0]);
    }
  }
}
