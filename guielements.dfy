/** The plain widgets of unisi/guielements.py. A `Gui` keeps its attributes
    in its instance dictionary, and `mutate` makes two widgets share one
    dictionary, so the dictionary is an object of its own here. */
module Gui {
  import opened Values
  import Units

  type Attrs = map<string, Value>

  /** An instance dictionary `__dict__`. */
  class AttrDict {
    var attrs: Attrs

    constructor (attrs: Attrs)
      ensures this.attrs == attrs
    {
      this.attrs := attrs;
    }
  }

  /** `graph_default_value`. */
  const GraphDefaultValue: Value := Dict([Entry(Str("nodes"), List([])), Entry(Str("edges"), List([]))])

  /** The rule `Graph.__init__` applies: type `'graph'` always, the default
      value when the value is missing or falsy, `[]` for missing nodes or
      edges. */
  function GraphDefaults(b: Attrs): (r: Attrs)
    ensures r.Keys == b.Keys + {"type", "value", "nodes", "edges"}
    ensures forall k :: k in b && k != "type" && k != "value" ==> r[k] == b[k]
    ensures r["type"] == Str("graph")
    ensures "value" in b && Truthy(b["value"]) ==> r["value"] == b["value"]
    ensures ("value" !in b || !Truthy(b["value"])) ==> r["value"] == GraphDefaultValue
    ensures "nodes" !in b ==> r["nodes"] == List([])
    ensures "edges" !in b ==> r["edges"] == List([])
  {
    var t := b["type" := Str("graph")];
    var v := if "value" !in t || !Truthy(t["value"]) then t["value" := GraphDefaultValue] else t;
    Units.WithDefault(Units.WithDefault(v, "nodes", List([])), "edges", List([]))
  }

  /** The rule `Tree.__init__` of unisi/guielements.py applies: type
      `'tree'` always, options `{}` and value None when missing. */
  function TreeDefaults(b: Attrs): (r: Attrs)
    ensures r.Keys == b.Keys + {"type", "options", "value"}
    ensures forall k :: k in b && k != "type" ==> r[k] == b[k]
    ensures r["type"] == Str("tree")
    ensures "options" !in b ==> r["options"] == Dict([])
    ensures "value" !in b ==> r["value"] == Null
  {
    Units.WithDefault(Units.WithDefault(b["type" := Str("tree")], "options", Dict([])), "value", Null)
  }

  /** The rule `Text.__init__` applies: the value is the name (after the
      keywords, which may rename), type `'string'`, not editable. */
  function TextDefaults(b: Attrs): (r: Attrs)
    requires "name" in b
    ensures r.Keys == b.Keys + {"value", "type", "edit"}
    ensures forall k :: k in b && k != "value" && k != "type" && k != "edit" ==> r[k] == b[k]
    ensures r["value"] == b["name"] && r["type"] == Str("string") && r["edit"] == Bool(false)
  {
    b["value" := b["name"]]["type" := Str("string")]["edit" := Bool(false)]
  }

  /** The rule `Video.__init__` applies: type `'video'` always, the name
      as URL and no ratio when missing. */
  function VideoDefaults(b: Attrs): (r: Attrs)
    requires "name" in b
    ensures r.Keys == b.Keys + {"type", "url", "ratio"}
    ensures forall k :: k in b && k != "type" ==> r[k] == b[k]
    ensures r["type"] == Str("video")
    ensures "url" !in b ==> r["url"] == b["name"]
    ensures "ratio" !in b ==> r["ratio"] == Null
  {
    var t := b["type" := Str("video")];
    Units.WithDefault(Units.WithDefault(t, "url", t["name"]), "ratio", Null)
  }

  /** `Button(name, handler, **kwargs)`: the keywords after the name, type
      `'command'` when missing, and the handler as `changed` when truthy. */
  function ButtonAttrs(name: string, handler: Value, kwargs: Attrs): (r: Attrs)
    ensures r.Keys == {"name", "type"} + kwargs.Keys + (if Truthy(handler) then {"changed"} else {})
    ensures forall k :: k in kwargs && !(k == "changed" && Truthy(handler)) ==> r[k] == kwargs[k]
    ensures "name" !in kwargs ==> r["name"] == Str(name)
    ensures "type" !in kwargs ==> r["type"] == Str("command")
    ensures Truthy(handler) ==> r["changed"] == handler
  {
    var a := Units.WithDefault(map["name" := Str(name)] + kwargs, "type", Str("command"));
    if Truthy(handler) then a["changed" := handler] else a
  }

  /** The widget classes of unisi/guielements.py whose construction is
      modelled. */
  datatype Kind = PlainGui | EditGui | SelectGui | SwitchGui | TreeGui | GraphGui | TextGui | VideoGui | TextAreaGui

  /** The attributes a new widget starts with; None where construction
      raises (unsized options of a Select, TypeError). Unlike a unit, a
      widget takes any keyword name, the empty one included. */
  function Constructed(kind: Kind, name: string, args: seq<Value>, kwargs: Attrs): (r: Option<Attrs>)
    ensures r.Some? ==> "name" in r.value && Units.BaseAttrs(name, args, kwargs).Keys <= r.value.Keys
    ensures r.None? <==> kind == SelectGui && Units.SelectDefaults(Units.BaseAttrs(name, args, kwargs)).None?
  {
    var b := Units.BaseAttrs(name, args, kwargs);
    match kind
    case PlainGui => Some(b)
    case EditGui => Some(Units.EditDefaults(b, "type" in kwargs))
    case SelectGui => Units.SelectDefaults(b)
    case SwitchGui => Some(Units.SwitchDefaults(b))
    case TreeGui => Some(TreeDefaults(b))
    case GraphGui => Some(GraphDefaults(b))
    case TextGui => Some(TextDefaults(b))
    case VideoGui => Some(VideoDefaults(b))
    case TextAreaGui => Some(b["type" := Str("text")])
  }

  /** A widget. Its attributes live in `dict`, which `Mutate` may share
      with another widget. */
  class Widget {
    var dict: AttrDict

    /** `Gui.__init__(name, *args, **kwargs)`. */
    constructor (name: string, args: seq<Value>, kwargs: Attrs)
      ensures fresh(dict) && dict.attrs == Units.BaseAttrs(name, args, kwargs)
    {
      dict := new AttrDict(Units.BaseAttrs(name, args, kwargs));
    }

    /** The attributes, wherever they are held. */
    function Attrs(): Attrs
      reads this, dict
    {
      dict.attrs
    }

    /** `getattr(self, name)`; None is AttributeError. */
    function Get(name: string): (r: Option<Value>)
      reads this, dict
      ensures r.Some? <==> name in Attrs()
      ensures r.Some? ==> r.value == Attrs()[name]
    {
      if name in dict.attrs then Some(dict.attrs[name]) else None
    }

    /** `setattr(self, name, value)`: writes into the dictionary, which
        every widget sharing it sees. */
    method SetAttr(name: string, value: Value)
      modifies dict
      ensures Attrs() == old(Attrs())[name := value]
    {
      dict.attrs := dict.attrs[name := value];
    }

    /** `mutate(obj)`: from now on this widget holds `obj`'s dictionary
        itself, not a copy. */
    method Mutate(obj: Widget)
      modifies this
      ensures dict == obj.dict == old(obj.dict) && Attrs() == obj.Attrs()
    {
      dict := obj.dict;
    }

    /** `accept(value)`: a `changed` handler is called (its effect is not
        modelled); otherwise `value` is set. */
    method Accept(value: Value) returns (handled: bool)
      modifies dict
      ensures handled <==> "changed" in old(Attrs())
      ensures Attrs() == if handled then old(Attrs()) else old(Attrs())["value" := value]
    {
      if "changed" in dict.attrs {
        return true;
      }
      handled := false;
      SetAttr("value", value);
    }
  }

  /** `Kind(name, *args, **kwargs)`. */
  method Create(kind: Kind, name: string, args: seq<Value>, kwargs: Attrs) returns (r: Option<Widget>)
    ensures r.None? <==> Constructed(kind, name, args, kwargs).None?
    ensures r.Some? ==> fresh(r.value) && fresh(r.value.dict)
    ensures r.Some? ==> r.value.Attrs() == Constructed(kind, name, args, kwargs).value
  {
    var attrs := Constructed(kind, name, args, kwargs);
    if attrs.None? {
      return None;
    }
    var w := new Widget(name, args, kwargs);
    w.dict.attrs := attrs.value;
    return Some(w);
  }

  /** After `a.mutate(b)`, a write through `a` is read back through `b`,
      and a write through `b` through `a`. */
  method MutateShares(a: Widget, b: Widget, name: string, v: Value, w: Value)
    modifies a, b.dict
    ensures name != "value" ==> b.Get(name) == Some(v)
    ensures a.Get("value") == Some(w) && b.Get("value") == Some(w)
  {
    a.Mutate(b);
    a.SetAttr(name, v);
    assert b.Get(name) == Some(v);
    b.SetAttr("value", w);
  }
}
