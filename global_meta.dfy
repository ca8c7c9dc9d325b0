/**
 * The global meta layer: the root object of all default table settings, kept
 * as the prototype of an otherwise empty `TableMeta` class so that the table,
 * column and cell layers inherit from it.
 */
module GlobalMetaLayer {
  import opened JsValues

  /** A JavaScript object whose own properties the code reads and writes. */
  class PropertyBag {
    var props: map<string, JsValue>

    constructor (props: map<string, JsValue>)
      ensures this.props == props
    {
      this.props := props;
    }
  }

  /** The `TableMeta` class made for one global meta: all it carries is its prototype object. */
  class TableMetaClass {
    const prototype: PropertyBag

    constructor ()
      ensures fresh(prototype) && prototype.props == map[]
    {
      prototype := new PropertyBag(map[]);
    }
  }

  /** `extend(target, source)`: the target with every own property of the source written over it. */
  function Extended(target: map<string, JsValue>, source: map<string, JsValue>): (r: map<string, JsValue>)
    ensures forall k :: k in r <==> k in target || k in source
    ensures forall k :: k in source ==> r[k] == source[k]
    ensures forall k :: k in target && k !in source ==> r[k] == target[k]
  {
    target + source
  }

  /**
   * The legacy alias of `updateMeta`: a truthy `fixedColumnsLeft` is copied to
   * `fixedColumnsStart` when that one is falsy.
   */
  function WithStartAlias(settings: map<string, JsValue>): (r: map<string, JsValue>)
    ensures forall k :: k != "fixedColumnsStart" ==> Get(r, k) == Get(settings, k)
    ensures Truthy(Get(settings, "fixedColumnsLeft")) ==> Truthy(Get(r, "fixedColumnsStart"))
  {
    if Truthy(Get(settings, "fixedColumnsLeft")) && !Truthy(Get(settings, "fixedColumnsStart")) then
      settings["fixedColumnsStart" := settings["fixedColumnsLeft"]]
    else settings
  }

  /** The alias changes the settings exactly when `fixedColumnsLeft` is truthy and `fixedColumnsStart` is not. */
  lemma StartAliasChanges(settings: map<string, JsValue>)
    ensures WithStartAlias(settings) != settings <==>
      Truthy(Get(settings, "fixedColumnsLeft")) && !Truthy(Get(settings, "fixedColumnsStart"))
    ensures WithStartAlias(settings) != settings ==>
      WithStartAlias(settings)["fixedColumnsStart"] == settings["fixedColumnsLeft"]
  {
    if Truthy(Get(settings, "fixedColumnsLeft")) && !Truthy(Get(settings, "fixedColumnsStart")) {
      assert Get(WithStartAlias(settings), "fixedColumnsStart") != Get(settings, "fixedColumnsStart");
    }
  }

  /** A truthy `fixedColumnsStart` is never overwritten, and applying the alias twice is applying it once. */
  lemma StartAliasStable(settings: map<string, JsValue>)
    ensures Truthy(Get(settings, "fixedColumnsStart")) ==> WithStartAlias(settings) == settings
    ensures WithStartAlias(WithStartAlias(settings)) == WithStartAlias(settings)
  {
  }

  class GlobalMeta {
    /** `metaCtor`: the `TableMeta` class of this layer. */
    const metaCtor: TableMetaClass
    /** `meta`: the prototype of `metaCtor`, holding every default setting. */
    const meta: PropertyBag

    /** The meta object is the prototype of the layer's class. */
    ghost predicate Valid() {
      meta == metaCtor.prototype
    }

    /**
     * A fresh `TableMeta` class whose prototype holds the settings schema
     * (`schema`, the result of `metaSchemaFactory`) and `instance`, the table.
     */
    constructor (hot: JsValue, schema: map<string, JsValue>)
      ensures fresh(metaCtor) && fresh(meta) && Valid()
      ensures meta.props == schema["instance" := hot]
    {
      var ctor := new TableMetaClass();
      metaCtor := ctor;
      meta := ctor.prototype;
      new;
      meta.props := Extended(meta.props, schema);
      meta.props := meta.props["instance" := hot];
    }

    /** `getMetaConstructor`: the stored class. */
    method GetMetaConstructor() returns (r: TableMetaClass)
      ensures r == metaCtor
    {
      r := metaCtor;
    }

    /** `getMeta`: the stored meta object itself, not a copy. */
    method GetMeta() returns (r: PropertyBag)
      requires Valid()
      ensures r == meta && r == metaCtor.prototype
    {
      r := meta;
    }

    /**
     * `updateMeta(settings)`: apply the `fixedColumnsStart` alias to the
     * caller's object, merge it into the meta, then merge what
     * `expandMetaType` derives from its `type` (`expandMetaType` is a parameter).
     */
    method UpdateMeta(settings: PropertyBag, expandMetaType: (JsValue, map<string, JsValue>) -> map<string, JsValue>)
      requires settings != meta
      modifies meta, settings
      ensures settings.props == WithStartAlias(old(settings.props))
      ensures var expanded := expandMetaType(Get(settings.props, "type"), settings.props);
        meta.props == Extended(Extended(old(meta.props), settings.props), expanded)
    {
      if Truthy(Get(settings.props, "fixedColumnsLeft")) && !Truthy(Get(settings.props, "fixedColumnsStart")) {
        settings.props := settings.props["fixedColumnsStart" := settings.props["fixedColumnsLeft"]];
      }
      meta.props := Extended(meta.props, settings.props);
      meta.props := Extended(meta.props, expandMetaType(Get(settings.props, "type"), settings.props));
    }
  }

  /**
   * After `updateMeta`, a key of the settings holds the settings' value unless
   * the expanded type also defines it, in which case the expansion wins; any
   * other key keeps its old value.
   */
  lemma UpdatedMetaValues(oldMeta: map<string, JsValue>, settings: map<string, JsValue>, expanded: map<string, JsValue>, k: string)
    ensures var r := Extended(Extended(oldMeta, settings), expanded);
      && (k in expanded ==> r[k] == expanded[k])
      && (k in settings && k !in expanded ==> r[k] == settings[k])
      && (k !in settings && k !in expanded ==> Get(r, k) == Get(oldMeta, k))
  {
  }
}
