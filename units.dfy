/** Change tracking of unisi/units.py: a `Unit` is an attribute map whose
    public writes are reported to the user through the callback that
    `set_reactivity` installs, and a `ChangedProxy` wraps a container held
    by a unit so that writes into it are reported too. Also the
    autocompletion rule `smart_complete` and the default rules of the
    widget constructors, which unisi/guielements.py shares. */
module Units {
  import opened Values
  import Common

  type Attrs = map<string, Value>

  /** `ChangedProxy.MODIFYING_METHODS`. */
  const ModifyingMethods: set<string> :=
    {"append", "extend", "insert", "remove", "pop", "clear", "sort", "reverse",
     "update", "popitem", "setdefault", "__setitem__", "__delitem__"}

  /** `Unit.action_list`: the handler attributes, sent as `True`. */
  const ActionList: set<string> := {"complete", "update", "changed", "delete", "append", "modify"}

  /** `isinstance(v, atomics)` for a plain value. */
  predicate IsAtomic(v: Value) {
    v.Null? || v.Bool? || v.Int? || v.Float? || v.Complex? || v.Str? || v.Bytes?
  }

  /** What a proxy read wraps: a value neither atomic nor callable. */
  predicate Wraps(v: Value) {
    !IsAtomic(v) && !v.Callable?
  }

  /** A name without the `_` prefix. */
  predicate Public(name: string) {
    name != "" && name[0] != '_'
  }

  /** `Unit.specific_changed_register(property, value)`: a change is
      reported unless it names a `_`-prefixed property. */
  predicate SpecificChangedRegister(property: Option<string>) {
    property.None? || property.value == "" || property.value[0] != '_'
  }

  /** Every public property, and a call without one, is reported; exactly
      the `_`-prefixed properties are not. */
  lemma RegisterExactlyUnprefixed(property: Option<string>)
    ensures SpecificChangedRegister(property) <==>
      !(property.Some? && |property.value| > 0 && property.value[0] == '_')
    ensures property.Some? && Public(property.value) ==> SpecificChangedRegister(property)
  {
  }

  // ---------------------------------------------------------------------
  // The user side

  /** One call the callback makes to `user.register_changed_unit(unit,
      property, value)`. */
  datatype Notice = Notice(unit: Unit, property: Option<string>, value: Option<Value>)

  /** The user as the callback sees it: the calls it receives, in order. */
  class ChangeLog {
    var calls: seq<Notice>

    constructor ()
      ensures calls == []
    {
      calls := [];
    }
  }

  /** The `changed_call` closure `set_reactivity` installs on `owner`: it
      reports changes of `owner` to `user`. */
  datatype Callback = Callback(owner: Unit, user: ChangeLog)

  /** The reports a sequence of attribute writes gives, one per name. */
  function Reports(owner: Unit, names: seq<string>, a: Attrs): seq<Notice>
    requires forall i :: 0 <= i < |names| ==> names[i] in a
  {
    if names == [] then []
    else
      var k := names[|names| - 1];
      Reports(owner, names[..|names| - 1], a) + [Notice(owner, Some(k), Some(a[k]))]
  }

  lemma ReportsSnoc(start: seq<Notice>, owner: Unit, names: seq<string>, k: string, a: Attrs)
    requires forall i :: 0 <= i < |names| ==> names[i] in a
    requires k in a
    ensures start + Reports(owner, names + [k], a) == start + Reports(owner, names, a) + [Notice(owner, Some(k), Some(a[k]))]
  {
    assert (names + [k])[..|names|] == names;
  }

  /** `names` lists the members of `s`, each once. */
  ghost predicate Enumerates(names: seq<string>, s: set<string>) {
    (forall i, j :: 0 <= i < j < |names| ==> names[i] != names[j]) &&
    (forall k :: k in names <==> k in s)
  }

  lemma EnumeratesSnoc(names: seq<string>, s: set<string>, k: string)
    requires Enumerates(names, s) && k !in s
    ensures Enumerates(names + [k], s + {k})
  {
    assert forall i :: 0 <= i < |names| ==> (names + [k])[i] == names[i];
  }

  function PublicKeys(a: Attrs): set<string> {
    set k | k in a && Public(k)
  }

  /** The public attributes a proxy is made for. */
  function WrappableKeys(a: Attrs): set<string> {
    set k | k in a && Public(k) && Wraps(a[k])
  }

  /** The condition under which `set_reactivity` installs a callback: no `id`
      attribute, and either `override` or no callback yet. */
  predicate Installs(a: Attrs, callback: Option<Callback>, override: bool) {
    "id" !in a && (override || callback.None?)
  }

  /** `Unit.__getstate__`: the public attributes, handlers as `True`. */
  function StateOf(a: Attrs): map<string, Value> {
    map n | n in a && Public(n) :: if n in ActionList then Bool(true) else a[n]
  }

  /** Writing a public attribute that is not a handler shows in the state as
      that write; writing a `_` attribute does not show at all. */
  lemma StateOfWrite(a: Attrs, name: string, v: Value)
    requires name != ""
    ensures Public(name) && name !in ActionList ==> StateOf(a[name := v]) == StateOf(a)[name := v]
    ensures Public(name) && name in ActionList ==> StateOf(a[name := v]) == StateOf(a)[name := Bool(true)]
    ensures !Public(name) ==> StateOf(a[name := v]) == StateOf(a)
  {
    var b := a[name := v];
    if !Public(name) {
      assert forall n :: n in b && Public(n) <==> n in a && Public(n);
    }
  }

  // ---------------------------------------------------------------------
  // Reads

  /** What reading an attribute or item can give. `BoundMethod` is a method
      of the wrapped container; `Internal` is one of the proxy's own
      `_unit`/`__getstate__`; `Failed` means the read raised. */
  datatype Read =
    | Plain(v: Value)
    | Proxied(p: ChangedProxy)
    | BoundMethod(name: string)
    | Internal(name: string)
    | Failed

  /** The methods a list, tuple or dict has (those the model knows of). */
  function MethodsOf(v: Value): set<string> {
    match v
    case List(_) =>
      {"append", "extend", "insert", "remove", "pop", "clear", "sort", "reverse",
       "index", "count", "copy", "__setitem__", "__delitem__", "__getitem__", "__len__", "__iter__"}
    case Dict(_) =>
      {"update", "popitem", "setdefault", "pop", "clear", "get", "keys", "values", "items",
       "copy", "__setitem__", "__delitem__", "__getitem__", "__len__", "__iter__"}
    case Tuple(_) => {"index", "count", "__getitem__", "__len__", "__iter__"}
    case _ => {}
  }

  datatype Found = FieldValue(v: Value) | MethodOf(name: string)

  /** `getattr(obj, name)`: a field of an instance or a container method;
      None for an AttributeError. */
  function LookupAttr(v: Value, name: string): Option<Found> {
    match v
    case Object(_, fields) => if name in fields then Some(FieldValue(fields[name])) else None
    case _ => if name in MethodsOf(v) then Some(MethodOf(name)) else None
  }

  /** The items iterating over `v` gives; None where Python raises TypeError. */
  function Iterated(v: Value): Option<seq<Value>> {
    match v
    case List(xs) => Some(xs)
    case Tuple(xs) => Some(xs)
    case Dict(_) => Some(Elements(v))
    case Str(s) => Some(seq(|s|, i requires 0 <= i < |s| => Str([s[i]])))
    case Bytes(bs) => Some(seq(|bs|, i requires 0 <= i < |bs| => Int(bs[i])))
    case _ => None
  }

  /** The attribute map after a change of the part at `path` of attribute
      `attr`; None where the change raises. */
  function Written(a: Attrs, attr: string, path: seq<Step>, c: Change): Option<Attrs> {
    if attr !in a then None
    else match UpdateAt(a[attr], path, c)
      case Some(w) => Some(a[attr := w])
      case None => None
  }

  /** Deleting an item of the part at `path` shortens that part by one. */
  lemma WrittenDropShortens(a: Attrs, attr: string, path: seq<Step>, key: Value)
    requires Written(a, attr, path, DropItem(key)).Some?
    ensures var a2 := Written(a, attr, path, DropItem(key)).value;
      attr in a && attr in a2 && At(a[attr], path).Some? && At(a2[attr], path).Some? &&
      Len(At(a2[attr], path).value).Some? && Len(At(a[attr], path).value).Some? &&
      Len(At(a2[attr], path).value).value + 1 == Len(At(a[attr], path).value).value
  {
    UpdateAtChanges(a[attr], path, DropItem(key));
    DelItemLength(At(a[attr], path).value, key);
  }

  // ---------------------------------------------------------------------
  // Unit

  class Unit {
    var attrs: Attrs
    var proxies: map<string, ChangedProxy>
    var callback: Option<Callback>

    /** No attribute has an empty name (`__setattr__` refuses one), and a
        proxy stands for an attribute the unit has. */
    predicate Valid()
      reads this
    {
      "" !in attrs && proxies.Keys <= attrs.Keys
    }

    /** A unit with the attributes its constructor sets, not yet reactive. */
    constructor (attrs: Attrs)
      requires "" !in attrs
      ensures this.attrs == attrs && proxies == map[] && callback.None?
      ensures Valid()
    {
      this.attrs := attrs;
      proxies := map[];
      callback := None;
    }

    function Log(): set<object>
      reads this
    {
      if callback.Some? then {callback.value.user} else {}
    }

    /** The calls the user behind the current callback has received. */
    function Calls(): seq<Notice>
      reads this, Log()
    {
      if callback.Some? then callback.value.user.calls else []
    }

    /** The report one change gives under the current callback. */
    function Marked(property: Option<string>, value: Option<Value>): seq<Notice>
      reads this
    {
      if callback.Some? && SpecificChangedRegister(property)
      then [Notice(callback.value.owner, property, value)] else []
    }

    /** `unit.name` as Python reads it: the proxy that stands for the
        attribute, else its value. */
    function Get(name: string): Read
      reads this
    {
      if name in proxies then Proxied(proxies[name])
      else if name in attrs then Plain(attrs[name])
      else Failed
    }

    /** `self._mark_changed(property, value)`: calling `None` raises
        TypeError; the installed callback reports unless the property is
        `_`-prefixed. */
    method MarkChanged(property: Option<string>, value: Option<Value>) returns (raised: bool)
      modifies Log()
      ensures raised <==> callback.None?
      ensures Calls() == old(Calls()) + Marked(property, value)
    {
      if callback.None? {
        return true;
      }
      raised := false;
      var cb := callback.value;
      if SpecificChangedRegister(property) {
        cb.user.calls := cb.user.calls + [Notice(cb.owner, property, value)];
      }
    }

    /** `setattr(unit, name, value)`: an empty name raises IndexError; a
        public name is reported, before the write, when a callback is
        installed; a proxy that stood for the name is replaced by the value. */
    method SetAttr(name: string, value: Value) returns (raised: bool)
      modifies this, Log()
      ensures raised <==> name == ""
      ensures callback == old(callback)
      ensures raised ==> attrs == old(attrs) && proxies == old(proxies)
      ensures !raised ==> attrs == old(attrs)[name := value] && proxies == old(proxies) - {name}
      ensures Calls() == old(Calls()) + (if Public(name) then old(Marked(Some(name), Some(value))) else [])
      ensures old(Valid()) ==> Valid()
    {
      if name == "" {
        return true;
      }
      raised := false;
      if name[0] != '_' && callback.Some? {
        var _ := MarkChanged(Some(name), Some(value));
      }
      attrs := attrs[name := value];
      proxies := proxies - {name};
    }

    /** `set_reactivity(user, override)`: when `Installs` holds, every
        public container attribute not yet wrapped gets a new proxy and the
        callback reporting to `user` is installed; otherwise the callback is
        removed. */
    method SetReactivity(user: ChangeLog, override: bool)
      modifies this
      ensures attrs == old(attrs)
      ensures Installs(old(attrs), old(callback), override) ==>
        callback == Some(Callback(this, user)) &&
        proxies.Keys == old(proxies).Keys + WrappableKeys(attrs) &&
        (forall k :: k in old(proxies) ==> proxies[k] == old(proxies)[k]) &&
        (forall k :: k in proxies && k !in old(proxies) ==> fresh(proxies[k]) && proxies[k].Roots(this, k))
      ensures !Installs(old(attrs), old(callback), override) ==> callback.None? && proxies == old(proxies)
      ensures old(Valid()) ==> Valid()
    {
      if "id" in attrs || !(override || callback.None?) {
        callback := None;
        return;
      }
      var todo := WrappableKeys(attrs) - proxies.Keys;
      while todo != {}
        invariant todo !! proxies.Keys
        invariant proxies.Keys + todo == old(proxies).Keys + WrappableKeys(attrs)
        invariant forall k :: k in old(proxies) ==> k in proxies && proxies[k] == old(proxies)[k]
        invariant forall k :: k in proxies && k !in old(proxies) ==> fresh(proxies[k]) && proxies[k].Roots(this, k)
        invariant attrs == old(attrs) && callback == old(callback)
        decreases todo
      {
        var k :| k in todo;
        var p := new ChangedProxy(this, k, [], true);
        proxies := proxies[k := p];
        todo := todo - {k};
      }
      callback := Some(Callback(this, user));
    }

    /** `mutate(obj)`: unless `obj` is this unit, the attributes are cleared
        and every attribute of `obj` is set again, the callback (`obj`'s,
        set first) reporting each public one, in an order left open here
        (Python follows `obj.__dict__`); then one report without a
        property. */
    method Mutate(obj: Unit)
      requires obj.Valid()
      modifies this, obj.Log()
      ensures this == obj ==> attrs == old(attrs) && proxies == old(proxies) && callback == old(callback)
      ensures this == obj ==> Calls() == old(Calls())
      ensures this != obj ==> attrs == obj.attrs && proxies == obj.proxies && callback == obj.callback
      ensures this != obj && obj.callback.None? ==> unchanged(obj.Log())
      ensures this != obj && obj.callback.Some? ==>
        exists names :: Enumerates(names, PublicKeys(obj.attrs)) &&
          (forall i :: 0 <= i < |names| ==> names[i] in obj.attrs) &&
          obj.Calls() == old(obj.Calls()) + Reports(obj.callback.value.owner, names, obj.attrs)
                         + [Notice(obj.callback.value.owner, None, None)]
      ensures Valid()
    {
      if this == obj {
        return;
      }
      var cb := obj.callback;
      attrs := map[];
      proxies := map[];
      callback := cb;
      ghost var names := SetEach(obj.attrs, cb);
      proxies := obj.proxies;
      if callback.Some? {
        var _ := MarkChanged(None, None);
      }
    }

    /** The loop of `mutate`: `setattr` for every attribute of `source`. */
    method SetEach(source: Attrs, cb: Option<Callback>) returns (ghost names: seq<string>)
      requires "" !in source && attrs == map[] && callback == cb && proxies == map[]
      modifies this, Log()
      ensures attrs == source && callback == cb && proxies == map[]
      ensures Enumerates(names, PublicKeys(source)) && forall i :: 0 <= i < |names| ==> names[i] in source
      ensures cb.Some? ==> cb.value.user.calls == old(cb.value.user.calls) + Reports(cb.value.owner, names, source)
    {
      var todo := source.Keys;
      names := [];
      ghost var start := if cb.Some? then cb.value.user.calls else [];
      while todo != {}
        invariant todo <= source.Keys
        invariant attrs == map k | k in source && k !in todo :: source[k]
        invariant callback == cb && proxies == map[]
        invariant Enumerates(names, PublicKeys(source) - todo)
        invariant forall i :: 0 <= i < |names| ==> names[i] in source
        invariant cb.Some? ==> cb.value.user.calls == start + Reports(cb.value.owner, names, source)
        decreases todo
      {
        var k :| k in todo;
        names := SetNext(source, todo, k, cb, start, names);
        todo := todo - {k};
      }
    }

    /** One turn of `mutate`'s loop: `setattr` of `k`, reported after the
        names reported so far when it is public. */
    method SetNext(source: Attrs, todo: set<string>, k: string, cb: Option<Callback>, ghost start: seq<Notice>, ghost names: seq<string>)
      returns (ghost names': seq<string>)
      requires k in todo && todo <= source.Keys && "" !in source
      requires attrs == map j | j in source && j !in todo :: source[j]
      requires callback == cb && proxies == map[]
      requires Enumerates(names, PublicKeys(source) - todo) && forall i :: 0 <= i < |names| ==> names[i] in source
      requires cb.Some? ==> cb.value.user.calls == start + Reports(cb.value.owner, names, source)
      modifies this, Log()
      ensures attrs == map j | j in source && j !in todo - {k} :: source[j]
      ensures callback == cb && proxies == map[]
      ensures Enumerates(names', PublicKeys(source) - (todo - {k})) && forall i :: 0 <= i < |names'| ==> names'[i] in source
      ensures cb.Some? ==> cb.value.user.calls == start + Reports(cb.value.owner, names', source)
    {
      Step(k, source[k], cb);
      names' := names;
      if Public(k) {
        EnumeratesSnoc(names, PublicKeys(source) - todo, k);
        assert PublicKeys(source) - todo + {k} == PublicKeys(source) - (todo - {k});
        ReportsSnoc(start, if cb.Some? then cb.value.owner else this, names, k, source);
        names' := names + [k];
      } else {
        assert PublicKeys(source) - todo == PublicKeys(source) - (todo - {k});
      }
    }

    /** One `setattr` of `mutate`'s loop. */
    method Step(k: string, v: Value, ghost cb: Option<Callback>)
      requires k != "" && callback == cb && proxies == map[]
      modifies this, Log()
      ensures attrs == old(attrs)[k := v] && callback == cb && proxies == map[]
      ensures cb.Some? ==>
        cb.value.user.calls == old(cb.value.user.calls) + (if Public(k) then [Notice(cb.value.owner, Some(k), Some(v))] else [])
    {
      var _ := SetAttr(k, v);
    }

    /** `accept(value)`: a `changed` handler is called (its effect is not
        modelled); otherwise `value` is set, with its report. */
    method Accept(value: Value) returns (handled: bool)
      modifies this, Log()
      ensures handled <==> "changed" in old(attrs)
      ensures handled ==> attrs == old(attrs) && proxies == old(proxies) && Calls() == old(Calls())
      ensures !handled ==> attrs == old(attrs)["value" := value] && proxies == old(proxies) - {"value"}
      ensures !handled ==> Calls() == old(Calls()) + old(Marked(Some("value"), Some(value)))
      ensures callback == old(callback)
    {
      if "changed" in attrs {
        return true;
      }
      handled := false;
      var _ := SetAttr("value", value);
    }
  }

  // ---------------------------------------------------------------------
  // ChangedProxy

  /** A proxy for the part at `path` of attribute `attr` of `unit`.
      `marksUnit` is false for a proxy whose `_unit` is another proxy (the
      case `__getattribute__` creates); such a proxy cannot report. `own`
      holds the `_` attributes written on the proxy itself. */
  class ChangedProxy {
    const unit: Unit
    const attr: string
    const path: seq<Step>
    const marksUnit: bool
    var own: Attrs

    constructor (unit: Unit, attr: string, path: seq<Step>, marksUnit: bool)
      ensures this.unit == unit && this.attr == attr && this.path == path && this.marksUnit == marksUnit
      ensures own == map[]
    {
      this.unit := unit;
      this.attr := attr;
      this.path := path;
      this.marksUnit := marksUnit;
      own := map[];
    }

    /** The proxy `set_reactivity` makes for attribute `k` of `u`. */
    predicate Roots(u: Unit, k: string) {
      unit == u && attr == k && path == [] && marksUnit
    }

    /** `self._obj`: the wrapped object. */
    function Obj(): Option<Value>
      reads unit
    {
      if attr in unit.attrs then At(unit.attrs[attr], path) else None
    }

    /** A read of `name` that gives a wrapped field of the object. */
    predicate WrapsField(name: string)
      reads unit
    {
      name !in {"_obj", "_unit", "__getstate__"} && name !in ModifyingMethods &&
      Obj().Some? && LookupAttr(Obj().value, name).Some? &&
      LookupAttr(Obj().value, name).value.FieldValue? && Wraps(LookupAttr(Obj().value, name).value.v)
    }

    /** What `proxy.name` gives, `nested` being whether a wrapped field
        reports to the unit: the own `_obj`/`_unit`/`__getstate__` first;
        then the lookup on the wrapped object (AttributeError when it has no
        such attribute); a name in `ModifyingMethods` comes back as it is
        once reported (the report raising when it cannot be made); any other
        container field comes back wrapped. */
    predicate Gives(name: string, nested: bool, r: Read)
      reads unit
    {
      if name == "_obj" then r == (if Obj().Some? then Plain(Obj().value) else Failed)
      else if name == "_unit" || name == "__getstate__" then r == Internal(name)
      else if Obj().None? || LookupAttr(Obj().value, name).None? then r == Failed
      else
        var found := LookupAttr(Obj().value, name).value;
        if name in ModifyingMethods then
          if !marksUnit || unit.callback.None? then r == Failed
          else if found.MethodOf? then r == BoundMethod(name) else r == Plain(found.v)
        else if found.MethodOf? then r == BoundMethod(name)
        else if !Wraps(found.v) then r == Plain(found.v)
        else
          r.Proxied? && r.p.unit == unit && r.p.attr == attr &&
          r.p.path == path + [Field(name)] && r.p.marksUnit == nested && r.p.Equals(found.v)
    }

    /** The report `proxy.name` gives: one for a modifying method the object has. */
    function LookupMarks(name: string): seq<Notice>
      reads unit
    {
      if name !in {"_obj", "_unit", "__getstate__"} && name in ModifyingMethods &&
         Obj().Some? && LookupAttr(Obj().value, name).Some?
      then Marked() else []
    }

    /** `proxy == other`: the wrapped object compared with `other`. */
    predicate Equals(other: Value)
      reads unit
    {
      Obj() == Some(other)
    }

    /** `len(proxy)`: 0 for an unsized object. */
    function Length(): nat
      reads unit
    {
      match Obj()
      case Some(v) => (match Len(v) case Some(n) => n case None => 0)
      case None => 0
    }

    /** The report a successful write gives. */
    function Marked(): seq<Notice>
      reads unit
    {
      if marksUnit then unit.Marked(None, None) else []
    }

    /** `self._unit._mark_changed()`. */
    method Notify() returns (raised: bool)
      modifies unit.Log()
      ensures raised <==> !marksUnit || unit.callback.None?
      ensures unit.Calls() == old(unit.Calls()) + Marked()
    {
      if !marksUnit {
        return true;
      }
      raised := unit.MarkChanged(None, None);
    }

    /** The change itself, made on the wrapped object; nothing is reported. */
    method Update(c: Change) returns (raised: bool)
      modifies unit
      ensures raised <==> Written(old(unit.attrs), attr, path, c).None?
      ensures !raised ==> unit.attrs == Written(old(unit.attrs), attr, path, c).value
      ensures raised ==> unit.attrs == old(unit.attrs)
      ensures unit.proxies == old(unit.proxies) && unit.callback == old(unit.callback)
    {
      var w := Written(unit.attrs, attr, path, c);
      if w.None? {
        return true;
      }
      raised := false;
      unit.attrs := w.value;
    }

    /** A write and then its report; a write that raises is not reported. */
    method Write(c: Change) returns (raised: bool)
      modifies unit, unit.Log()
      ensures Written(old(unit.attrs), attr, path, c).None? ==>
        raised && unit.attrs == old(unit.attrs) && unit.Calls() == old(unit.Calls())
      ensures Written(old(unit.attrs), attr, path, c).Some? ==>
        unit.attrs == Written(old(unit.attrs), attr, path, c).value &&
        (raised <==> !marksUnit || unit.callback.None?) &&
        unit.Calls() == old(unit.Calls()) + Marked()
      ensures unit.proxies == old(unit.proxies) && unit.callback == old(unit.callback)
    {
      raised := Update(c);
      if !raised {
        raised := Notify();
      }
    }

    /** `proxy[key] = x`: the item is written, then reported. */
    method SetItem(key: Value, x: Value) returns (raised: bool)
      modifies unit, unit.Log()
      ensures Written(old(unit.attrs), attr, path, PutItem(key, x)).Some? ==>
        Obj().Some? && PyGetItem(Obj().value, key) == Some(x)
      ensures Written(old(unit.attrs), attr, path, PutItem(key, x)).None? ==>
        raised && unit.attrs == old(unit.attrs) && unit.Calls() == old(unit.Calls())
      ensures Written(old(unit.attrs), attr, path, PutItem(key, x)).Some? ==>
        unit.attrs == Written(old(unit.attrs), attr, path, PutItem(key, x)).value &&
        (raised <==> !marksUnit || unit.callback.None?) &&
        unit.Calls() == old(unit.Calls()) + Marked()
      ensures unit.proxies == old(unit.proxies) && unit.callback == old(unit.callback)
    {
      ghost var a := unit.attrs;
      raised := Write(PutItem(key, x));
      if Written(a, attr, path, PutItem(key, x)).Some? {
        UpdateAtChanges(a[attr], path, PutItem(key, x));
        SetItemThenGet(At(a[attr], path).value, key, x);
      }
    }

    /** `del proxy[key]`: the item is deleted, then reported. */
    method DelItem(key: Value) returns (raised: bool)
      modifies unit, unit.Log()
      ensures Written(old(unit.attrs), attr, path, DropItem(key)).Some? ==>
        Obj().Some? && Length() + 1 == old(Length())
      ensures Written(old(unit.attrs), attr, path, DropItem(key)).None? ==>
        raised && unit.attrs == old(unit.attrs) && unit.Calls() == old(unit.Calls())
      ensures Written(old(unit.attrs), attr, path, DropItem(key)).Some? ==>
        unit.attrs == Written(old(unit.attrs), attr, path, DropItem(key)).value &&
        (raised <==> !marksUnit || unit.callback.None?) &&
        unit.Calls() == old(unit.Calls()) + Marked()
      ensures unit.proxies == old(unit.proxies) && unit.callback == old(unit.callback)
    {
      ghost var a := unit.attrs;
      raised := Write(DropItem(key));
      if Written(a, attr, path, DropItem(key)).Some? {
        WrittenDropShortens(a, attr, path, key);
      }
    }

    /** `proxy.name = x`: a `_` name stays on the proxy; any other is set on
        the wrapped object, then reported. */
    method SetAttr(name: string, x: Value) returns (raised: bool)
      modifies this, unit, unit.Log()
      ensures |name| > 0 && name[0] == '_' ==>
        !raised && own == old(own)[name := x] && unit.attrs == old(unit.attrs) && unit.Calls() == old(unit.Calls())
      ensures !(|name| > 0 && name[0] == '_') ==> own == old(own)
      ensures !(|name| > 0 && name[0] == '_') && Written(old(unit.attrs), attr, path, PutField(name, x)).None? ==>
        raised && unit.attrs == old(unit.attrs) && unit.Calls() == old(unit.Calls())
      ensures !(|name| > 0 && name[0] == '_') && Written(old(unit.attrs), attr, path, PutField(name, x)).Some? ==>
        unit.attrs == Written(old(unit.attrs), attr, path, PutField(name, x)).value &&
        (raised <==> !marksUnit || unit.callback.None?) &&
        unit.Calls() == old(unit.Calls()) + Marked()
      ensures unit.proxies == old(unit.proxies) && unit.callback == old(unit.callback)
    {
      if |name| > 0 && name[0] == '_' {
        own := own[name := x];
        return false;
      }
      raised := Write(PutField(name, x));
    }

    /** `proxy[key]`: a container item comes back wrapped in a new proxy for
        it (reporting to the same unit), anything else as it is. */
    method GetItem(key: Value) returns (r: Read)
      ensures Obj().None? || PyGetItem(Obj().value, key).None? ==> r == Failed
      ensures Obj().Some? && PyGetItem(Obj().value, key).Some? && !Wraps(PyGetItem(Obj().value, key).value) ==>
        r == Plain(PyGetItem(Obj().value, key).value)
      ensures Obj().Some? && PyGetItem(Obj().value, key).Some? && Wraps(PyGetItem(Obj().value, key).value) ==>
        r.Proxied? && fresh(r.p) && r.p.unit == unit && r.p.attr == attr &&
        r.p.path == path + [Item(key)] && r.p.marksUnit == marksUnit &&
        r.p.Equals(PyGetItem(Obj().value, key).value)
    {
      var obj := Obj();
      if obj.None? {
        return Failed;
      }
      var item := PyGetItem(obj.value, key);
      if item.None? {
        return Failed;
      }
      if !Wraps(item.value) {
        return Plain(item.value);
      }
      var p := new ChangedProxy(unit, attr, path + [Item(key)], marksUnit);
      AtConcat(unit.attrs[attr], path, [Item(key)]);
      return Proxied(p);
    }

    /** `proxy.name`, `nested` being whether a wrapped field reports. */
    method Lookup(name: string, nested: bool) returns (r: Read)
      modifies unit.Log()
      ensures Gives(name, nested, r) && (r.Proxied? ==> fresh(r.p))
      ensures unit.Calls() == old(unit.Calls()) + LookupMarks(name)
    {
      if name == "_obj" {
        var o := Obj();
        return if o.Some? then Plain(o.value) else Failed;
      }
      if name == "_unit" || name == "__getstate__" {
        return Internal(name);
      }
      var obj := Obj();
      if obj.None? {
        return Failed;
      }
      var found := LookupAttr(obj.value, name);
      if found.None? {
        return Failed;
      }
      var f := found.value;
      if name in ModifyingMethods {
        var raised := Notify();
        if raised {
          return Failed;
        }
        return if f.MethodOf? then BoundMethod(name) else Plain(f.v);
      }
      if f.MethodOf? {
        return BoundMethod(name);
      }
      if !Wraps(f.v) {
        return Plain(f.v);
      }
      var p := new ChangedProxy(unit, attr, path + [Field(name)], nested);
      AtConcat(unit.attrs[attr], path, [Field(name)]);
      return Proxied(p);
    }

    /** `proxy.name` as unisi/units.py:24 writes it: a wrapped field gets the
        proxy itself as its `_unit`, so it cannot report. */
    method GetAttrAsWritten(name: string) returns (r: Read)
      modifies unit.Log()
      ensures Gives(name, false, r) && (r.Proxied? ==> fresh(r.p))
      ensures unit.Calls() == old(unit.Calls()) + LookupMarks(name)
    {
      r := Lookup(name, false);
    }

    /** `proxy.name` with a wrapped field reporting to the proxy's own unit,
        as `__getitem__` does. */
    method GetAttr(name: string) returns (r: Read)
      modifies unit.Log()
      ensures Gives(name, marksUnit, r) && (r.Proxied? ==> fresh(r.p))
      ensures unit.Calls() == old(unit.Calls()) + LookupMarks(name)
    {
      r := Lookup(name, marksUnit);
    }

    /** `proxy.append(x)`: the lookup of `append` reports; the call extends
        the wrapped list. */
    method Append(x: Value) returns (raised: bool)
      modifies unit, unit.Log()
      ensures old(Obj()).Some? && old(Obj()).value.List? && marksUnit && old(unit.callback).Some? ==>
        !raised && unit.Calls() == old(unit.Calls()) + Marked() &&
        Obj() == Some(List(old(Obj()).value.items + [x]))
      ensures !(old(Obj()).Some? && old(Obj()).value.List?) || !marksUnit || old(unit.callback).None? ==>
        raised && unit.attrs == old(unit.attrs)
      ensures unit.proxies == old(unit.proxies) && unit.callback == old(unit.callback)
    {
      var m := GetAttr("append");
      if m != BoundMethod("append") {
        return true;
      }
      ghost var a := unit.attrs;
      if attr in a {
        UpdateAtSucceeds(a[attr], path, ExtendBy([x]));
        if UpdateAt(a[attr], path, ExtendBy([x])).Some? {
          UpdateAtChanges(a[attr], path, ExtendBy([x]));
        }
      }
      raised := Update(ExtendBy([x]));
    }

    /** `proxy += other`: on a list, `extend` is looked up (and reported) and
        called, TypeError for a value that cannot be iterated; on anything
        else TypeError, with nothing reported. */
    method IAdd(other: Value) returns (raised: bool)
      modifies unit, unit.Log()
      ensures !(old(Obj()).Some? && old(Obj()).value.List?) ==>
        raised && unit.attrs == old(unit.attrs) && unit.Calls() == old(unit.Calls())
      ensures old(Obj()).Some? && old(Obj()).value.List? && marksUnit && old(unit.callback).Some? ==>
        unit.Calls() == old(unit.Calls()) + Marked() &&
        (raised <==> Iterated(other).None?) &&
        (!raised ==> Obj() == Some(List(old(Obj()).value.items + Iterated(other).value)) &&
                     Length() == old(Length()) + |Iterated(other).value|)
      ensures unit.proxies == old(unit.proxies) && unit.callback == old(unit.callback)
    {
      var obj := Obj();
      if !(obj.Some? && obj.value.List?) {
        return true;
      }
      var m := GetAttr("extend");
      if m != BoundMethod("extend") {
        return true;
      }
      var items := Iterated(other);
      if items.None? {
        return true;
      }
      ghost var a := unit.attrs;
      UpdateAtSucceeds(a[attr], path, ExtendBy(items.value));
      UpdateAtChanges(a[attr], path, ExtendBy(items.value));
      raised := Update(ExtendBy(items.value));
    }
  }

  // ---------------------------------------------------------------------
  // smart_complete

  /** `u` occurs in `s` at position `i`. */
  predicate OccursAt(s: string, u: string, i: int) {
    0 <= i && i + |u| <= |s| && s[i..i + |u|] == u
  }

  lemma ShiftOccurs(s: string, u: string)
    requires s != []
    ensures forall j :: 1 <= j ==> (OccursAt(s, u, j) <==> OccursAt(s[1..], u, j - 1))
  {
    forall j | 1 <= j
      ensures OccursAt(s, u, j) <==> OccursAt(s[1..], u, j - 1)
    {
      if j + |u| <= |s| {
        assert s[1..][j - 1..j - 1 + |u|] == s[j..j + |u|];
      }
    }
  }

  /** `s.find(u)`: the first position of `u` in `s`, or -1. */
  function FindSub(s: string, u: string): (r: int)
    ensures -1 <= r <= |s|
    ensures r >= 0 ==> OccursAt(s, u, r) && forall j :: 0 <= j < r ==> !OccursAt(s, u, j)
    ensures r == -1 <==> forall j :: !OccursAt(s, u, j)
  {
    if OccursAt(s, u, 0) then 0
    else if s == [] then -1
    else
      var k := FindSub(s[1..], u);
      ShiftOccurs(s, u);
      if k < 0 then -1 else k + 1
  }

  /** `{it: it.lower() for it in lst}` as an ordered key list: each item
      once, in order of first occurrence. */
  function Dedup(lst: seq<string>): (r: seq<string>)
    ensures forall x :: x in r <==> x in lst
    ensures forall i, j :: 0 <= i < j < |r| ==> r[i] != r[j]
  {
    if lst == [] then []
    else
      var init := lst[..|lst| - 1];
      assert lst == init + [lst[|lst| - 1]];
      var d := Dedup(init);
      if lst[|lst| - 1] in d then d else d + [lst[|lst| - 1]]
  }

  /** One entry of `arr`: `(itlow.find(ustr), it, itlow)`. */
  datatype Cand = Cand(pos: int, item: string, low: string)

  function CandOf(x: string, u: string): Cand {
    Cand(FindSub(Lower(x), u), x, Lower(x))
  }

  predicate DistinctItems(s: seq<Cand>) {
    forall i, j :: 0 <= i < j < |s| ==> s[i].item != s[j].item
  }

  /** The entries of the items that contain `u`, in order. */
  function Matches(items: seq<string>, u: string): (r: seq<Cand>)
    ensures forall c :: c in r <==> c.item in items && c == CandOf(c.item, u) && c.pos >= 0
    ensures (forall i, j :: 0 <= i < j < |items| ==> items[i] != items[j]) ==> DistinctItems(r)
  {
    if items == [] then []
    else
      var rest := Matches(items[1..], u);
      assert forall x :: x in items <==> x == items[0] || x in items[1..];
      var c := CandOf(items[0], u);
      if c.pos != -1 then [c] + rest else rest
  }

  /** Python's `<=` on strings: lexicographic by character. */
  predicate StrLe(a: string, b: string) {
    if a == [] then true
    else if b == [] then false
    else if a[0] != b[0] then a[0] < b[0]
    else StrLe(a[1..], b[1..])
  }

  lemma {:induction false} StrLeTotal(a: string, b: string)
    ensures StrLe(a, b) || StrLe(b, a)
  {
    if a != [] && b != [] && a[0] == b[0] {
      StrLeTotal(a[1..], b[1..]);
    }
  }

  lemma {:induction false} StrLeTrans(a: string, b: string, c: string)
    requires StrLe(a, b) && StrLe(b, c)
    ensures StrLe(a, c)
  {
    if a != [] && b != [] && c != [] && a[0] == b[0] && b[0] == c[0] {
      StrLeTrans(a[1..], b[1..], c[1..]);
    }
  }

  /** The sort key `(e[0], e[2])` compared as a tuple. */
  predicate KeyLe(a: Cand, b: Cand) {
    a.pos < b.pos || (a.pos == b.pos && StrLe(a.low, b.low))
  }

  lemma KeyLeTotal(a: Cand, b: Cand)
    ensures KeyLe(a, b) || KeyLe(b, a)
  {
    StrLeTotal(a.low, b.low);
  }

  lemma KeyLeTrans(a: Cand, b: Cand, c: Cand)
    requires KeyLe(a, b) && KeyLe(b, c)
    ensures KeyLe(a, c)
  {
    if a.pos == b.pos == c.pos {
      StrLeTrans(a.low, b.low, c.low);
    }
  }

  predicate Sorted(s: seq<Cand>) {
    forall i, j :: 0 <= i < j < |s| ==> KeyLe(s[i], s[j])
  }

  /** `x` placed after every leading entry whose key is not above its own. */
  function InsertCand(x: Cand, s: seq<Cand>): (r: seq<Cand>)
    ensures multiset(r) == multiset(s) + multiset{x}
    ensures forall c :: c in r <==> c in s || c == x
  {
    if s == [] then [x]
    else if !KeyLe(s[0], x) then [x] + s
    else
      var t := InsertCand(x, s[1..]);
      assert s == [s[0]] + s[1..];
      [s[0]] + t
  }

  lemma {:induction false} InsertCandSorted(x: Cand, s: seq<Cand>)
    requires Sorted(s)
    ensures Sorted(InsertCand(x, s))
  {
    if s != [] {
      if !KeyLe(s[0], x) {
        KeyLeTotal(s[0], x);
        forall j | 0 <= j < |s| ensures KeyLe(x, s[j]) {
          if j > 0 {
            KeyLeTrans(x, s[0], s[j]);
          }
        }
        var r := [x] + s;
        forall i, j | 0 <= i < j < |r| ensures KeyLe(r[i], r[j]) {
          if i > 0 {
            assert r[i] == s[i - 1] && r[j] == s[j - 1];
          }
        }
      } else {
        assert Sorted(s[1..]);
        InsertCandSorted(x, s[1..]);
        var t := InsertCand(x, s[1..]);
        forall c | c in t ensures KeyLe(s[0], c) {
          if c != x {
            var k :| 1 <= k < |s| && s[k] == c;
          }
        }
        var r := [s[0]] + t;
        forall i, j | 0 <= i < j < |r| ensures KeyLe(r[i], r[j]) {
          if i == 0 {
            assert r[j] in t;
          } else {
            assert r[i] == t[i - 1] && r[j] == t[j - 1];
          }
        }
      }
    }
  }

  lemma {:induction false} InsertCandDistinct(x: Cand, s: seq<Cand>)
    requires DistinctItems(s) && forall c :: c in s ==> c.item != x.item
    ensures DistinctItems(InsertCand(x, s))
  {
    if s != [] && KeyLe(s[0], x) {
      assert s == [s[0]] + s[1..];
      InsertCandDistinct(x, s[1..]);
      var t := InsertCand(x, s[1..]);
      var r := [s[0]] + t;
      forall i, j | 0 <= i < j < |r| ensures r[i].item != r[j].item {
        if i == 0 {
          assert r[j] in t;
        } else {
          assert r[i] == t[i - 1] && r[j] == t[j - 1];
        }
      }
    } else if s != [] {
      var r := [x] + s;
      forall i, j | 0 <= i < j < |r| ensures r[i].item != r[j].item {
        if i > 0 {
          assert r[i] == s[i - 1] && r[j] == s[j - 1];
        } else {
          assert r[j] in s;
        }
      }
    }
  }

  /** `arr.sort(key=...)`: insertion of each entry in turn, which keeps
      entries with equal keys in their original order, as Python's sort
      does. */
  function SortCands(s: seq<Cand>): (r: seq<Cand>)
    ensures multiset(r) == multiset(s)
    ensures Sorted(r)
  {
    if s == [] then []
    else
      var init := s[..|s| - 1];
      var x := s[|s| - 1];
      assert s == init + [x];
      var t := SortCands(init);
      InsertCandSorted(x, t);
      InsertCand(x, t)
  }

  /** Sorting keeps items distinct. */
  lemma {:induction false} SortCandsDistinct(s: seq<Cand>)
    requires DistinctItems(s)
    ensures DistinctItems(SortCands(s))
  {
    if s != [] {
      var init := s[..|s| - 1];
      var x := s[|s| - 1];
      assert s == init + [x];
      assert DistinctItems(init);
      SortCandsDistinct(init);
      var t := SortCands(init);
      forall c | c in t ensures c.item != x.item {
        assert c in multiset(init);
        var k :| 0 <= k < |init| && init[k] == c;
      }
      InsertCandDistinct(x, t);
    }
  }

  function ItemsOf(s: seq<Cand>): (r: seq<string>)
    ensures |r| == |s| && forall i :: 0 <= i < |s| ==> r[i] == s[i].item
  {
    seq(|s|, i requires 0 <= i < |s| => s[i].item)
  }

  /** The entries `complete(_, ustr)` keeps, sorted and truncated. */
  function Completions(lst: seq<string>, maxOutput: int, u: string): (r: seq<Cand>)
    ensures 0 <= maxOutput ==> |r| <= maxOutput
    ensures multiset(r) <= multiset(Matches(Dedup(lst), u))
  {
    var arr := SortCands(Matches(Dedup(lst), u));
    TruncatedPrefix(arr, maxOutput);
    var r := if |arr| > maxOutput then PySlice(arr, 0, maxOutput) else arr;
    assert arr == r + arr[|r|..];
    r
  }

  /** `smart_complete(lst, min_input_length, max_output_length)` applied to
      `ustr`. */
  function SmartComplete(lst: seq<string>, minInput: int, maxOutput: int, ustr: string): (r: seq<string>)
    ensures |ustr| < minInput ==> r == []
    ensures 0 <= maxOutput ==> |r| <= maxOutput
  {
    if |ustr| < minInput then [] else ItemsOf(Completions(lst, maxOutput, Lower(ustr)))
  }

  /** `x` ranks no later than `y` for the input `u`. */
  predicate RankLe(x: string, y: string, u: string) {
    KeyLe(CandOf(x, u), CandOf(y, u))
  }

  /** The kept entries are the first ones of the sorted matches: all of
      them when they fit, and `maxOutput` of them otherwise. */
  lemma CompletionsPrefix(lst: seq<string>, maxOutput: int, u: string)
    ensures var arr := SortCands(Matches(Dedup(lst), u));
      var c := Completions(lst, maxOutput, u);
      |c| <= |arr| && c == arr[..|c|] &&
      (0 <= maxOutput ==> |c| <= maxOutput) &&
      (|arr| <= maxOutput ==> c == arr) &&
      (0 <= maxOutput < |arr| ==> |c| == maxOutput)
  {
    TruncatedPrefix(SortCands(Matches(Dedup(lst), u)), maxOutput);
  }

  /** `arr[:n]` when `arr` is longer than `n`, else `arr`, is a prefix of
      `arr` of at most `n` entries when `n` is not negative. */
  lemma TruncatedPrefix<T>(arr: seq<T>, n: int)
    ensures var c := if |arr| > n then PySlice(arr, 0, n) else arr;
      |c| <= |arr| && c == arr[..|c|] &&
      (0 <= n ==> |c| <= n) &&
      (|arr| <= n ==> c == arr) &&
      (0 <= n < |arr| ==> |c| == n)
  {
  }

  /** Every kept entry belongs to a matching item and names it. */
  lemma CompletionsMatch(lst: seq<string>, maxOutput: int, u: string)
    ensures var c := Completions(lst, maxOutput, u);
      forall i :: 0 <= i < |c| ==> c[i].item in lst && c[i] == CandOf(c[i].item, u) && c[i].pos >= 0
  {
    var m := Matches(Dedup(lst), u);
    var arr := SortCands(m);
    var c := Completions(lst, maxOutput, u);
    CompletionsPrefix(lst, maxOutput, u);
    forall i | 0 <= i < |c| ensures c[i] in m {
      assert c[i] == arr[i];
      assert arr[i] in multiset(m);
    }
  }

  /** The kept entries have distinct items, in key order. */
  lemma CompletionsOrdered(lst: seq<string>, maxOutput: int, u: string)
    ensures var c := Completions(lst, maxOutput, u);
      Sorted(c) && DistinctItems(c)
  {
    var m := Matches(Dedup(lst), u);
    SortCandsDistinct(m);
    var arr := SortCands(m);
    var c := Completions(lst, maxOutput, u);
    CompletionsPrefix(lst, maxOutput, u);
    forall i, j | 0 <= i < j < |c| ensures KeyLe(c[i], c[j]) && c[i].item != c[j].item {
      assert c[i] == arr[i] && c[j] == arr[j];
    }
  }

  /** A matching item not kept lies beyond a full output, after every kept entry. */
  lemma CompletionsComplete(lst: seq<string>, maxOutput: int, u: string, x: string)
    requires 0 <= maxOutput && x in lst && FindSub(Lower(x), u) >= 0
    requires forall i :: 0 <= i < |Completions(lst, maxOutput, u)| ==> Completions(lst, maxOutput, u)[i].item != x
    ensures var c := Completions(lst, maxOutput, u);
      |c| == maxOutput && forall i :: 0 <= i < |c| ==> KeyLe(c[i], CandOf(x, u))
  {
    var m := Matches(Dedup(lst), u);
    var arr := SortCands(m);
    var c := Completions(lst, maxOutput, u);
    CompletionsPrefix(lst, maxOutput, u);
    var cx := CandOf(x, u);
    assert cx in m;
    assert cx in multiset(arr);
    var k :| 0 <= k < |arr| && arr[k] == cx;
    forall i | 0 <= i < |c| ensures arr[i].item != x {
      assert c[i] == arr[i];
    }
    assert arr[k].item == x;
    forall i | 0 <= i < |c| ensures KeyLe(c[i], cx) {
      assert c[i] == arr[i];
    }
  }

  /** Short input gives nothing. Otherwise every completion is an item of
      `lst` that contains the lower-cased input when lower-cased, each at
      most once and at most `maxOutput` of them, ordered by match position
      and then lower-cased text; a matching item is left out only when the
      output is full and it ranks no earlier than every completion shown. */
  lemma SmartCompleteSpec(lst: seq<string>, minInput: int, maxOutput: int, ustr: string)
    ensures |ustr| < minInput ==> SmartComplete(lst, minInput, maxOutput, ustr) == []
    ensures var r := SmartComplete(lst, minInput, maxOutput, ustr);
      forall i :: 0 <= i < |r| ==> r[i] in lst && FindSub(Lower(r[i]), Lower(ustr)) >= 0
    ensures var r := SmartComplete(lst, minInput, maxOutput, ustr);
      forall i, j :: 0 <= i < j < |r| ==> r[i] != r[j] && RankLe(r[i], r[j], Lower(ustr))
    ensures 0 <= maxOutput ==> |SmartComplete(lst, minInput, maxOutput, ustr)| <= maxOutput
    ensures var r := SmartComplete(lst, minInput, maxOutput, ustr);
      |ustr| >= minInput && 0 <= maxOutput ==>
        forall x :: x in lst && FindSub(Lower(x), Lower(ustr)) >= 0 && x !in r ==>
          |r| == maxOutput && forall i :: 0 <= i < |r| ==> RankLe(r[i], x, Lower(ustr))
  {
    var u := Lower(ustr);
    if |ustr| >= minInput {
      assert SmartComplete(lst, minInput, maxOutput, ustr) == ItemsOf(Completions(lst, maxOutput, u));
      ItemsMatch(lst, maxOutput, u);
      ItemsOrdered(lst, maxOutput, u);
      if 0 <= maxOutput {
        ItemsComplete(lst, maxOutput, u);
      }
    }
  }

  /** Each kept item is an item of `lst` that contains `u` when lower-cased. */
  lemma ItemsMatch(lst: seq<string>, maxOutput: int, u: string)
    ensures var r := ItemsOf(Completions(lst, maxOutput, u));
      forall i :: 0 <= i < |r| ==> r[i] in lst && FindSub(Lower(r[i]), u) >= 0
  {
    var c := Completions(lst, maxOutput, u);
    CompletionsMatch(lst, maxOutput, u);
    forall i | 0 <= i < |c| ensures c[i].item in lst && FindSub(Lower(c[i].item), u) >= 0 {
      assert c[i] == CandOf(c[i].item, u);
    }
  }

  /** The kept items are distinct and ranked in order. */
  lemma ItemsOrdered(lst: seq<string>, maxOutput: int, u: string)
    ensures var r := ItemsOf(Completions(lst, maxOutput, u));
      forall i, j :: 0 <= i < j < |r| ==> r[i] != r[j] && RankLe(r[i], r[j], u)
  {
    var c := Completions(lst, maxOutput, u);
    CompletionsMatch(lst, maxOutput, u);
    CompletionsOrdered(lst, maxOutput, u);
    forall i, j | 0 <= i < j < |c| ensures c[i].item != c[j].item && RankLe(c[i].item, c[j].item, u) {
      assert c[i] == CandOf(c[i].item, u) && c[j] == CandOf(c[j].item, u);
    }
  }

  /** A matching item left out means a full output ranked before it. */
  lemma ItemsComplete(lst: seq<string>, maxOutput: int, u: string)
    requires 0 <= maxOutput
    ensures var r := ItemsOf(Completions(lst, maxOutput, u));
      forall x :: x in lst && FindSub(Lower(x), u) >= 0 && x !in r ==>
        |r| == maxOutput && forall i :: 0 <= i < |r| ==> RankLe(r[i], x, u)
  {
    var c := Completions(lst, maxOutput, u);
    var r := ItemsOf(c);
    CompletionsMatch(lst, maxOutput, u);
    forall x | x in lst && FindSub(Lower(x), u) >= 0 && x !in r
      ensures |r| == maxOutput && forall i :: 0 <= i < |r| ==> RankLe(r[i], x, u)
    {
      CompletionsComplete(lst, maxOutput, u, x);
      forall i | 0 <= i < |r| ensures RankLe(r[i], x, u) {
        assert c[i] == CandOf(c[i].item, u);
      }
    }
  }

  // ---------------------------------------------------------------------
  // Widget defaults

  /** `Unit.__init__(name, *args, **kwargs)` (and `Gui.__init__`): the name,
      the value and `changed` handler from the positional arguments, then
      the keyword arguments, which override. */
  function BaseAttrs(name: string, args: seq<Value>, kwargs: Attrs): (r: Attrs)
    ensures r.Keys == {"name"} + (if |args| > 0 then {"value"} else {}) + (if |args| > 1 then {"changed"} else {}) + kwargs.Keys
    ensures forall k :: k in kwargs ==> r[k] == kwargs[k]
    ensures "name" !in kwargs ==> r["name"] == Str(name)
    ensures |args| > 0 && "value" !in kwargs ==> r["value"] == args[0]
  {
    var a := map["name" := Str(name)];
    var b := if |args| > 0 then a["value" := args[0]] else a;
    var c := if |args| > 1 then b["changed" := args[1]] else b;
    c + kwargs
  }

  /** `hasattr(self, k)` or else `self.k = v`. */
  function WithDefault(a: Attrs, k: string, v: Value): Attrs {
    if k in a then a else a[k := v]
  }

  /** The rule `Edit.__init__` applies after the base constructor:
      without an explicit type, an int or float value makes the type
      `'number'` and anything else `'string'`; a missing value becomes `''`,
      or `0` for the number type; `typeGiven` is `'type' in kwargs`. */
  function EditDefaults(b: Attrs, typeGiven: bool): (r: Attrs)
    requires typeGiven ==> "type" in b
    ensures r.Keys == b.Keys + {"type", "value"}
    ensures forall k :: k in b && k != "type" && k != "value" ==> r[k] == b[k]
    ensures typeGiven ==> r["type"] == b["type"]
    ensures !typeGiven ==>
      (r["type"] == Str("number") <==> "value" in b && (b["value"].Int? || b["value"].Float?)) &&
      (r["type"] == Str("number") || r["type"] == Str("string"))
    ensures "value" in b ==> r["value"] == b["value"]
    ensures "value" !in b ==> r["value"] == if r["type"] == Str("number") then Int(0) else Str("")
  {
    if !typeGiven && "value" in b && (b["value"].Int? || b["value"].Float?) then b["type" := Str("number")]
    else
      var t := if typeGiven then b else b["type" := Str("string")];
      if "value" in t then t else t["value" := if t["type"] != Str("number") then Str("") else Int(0)]
  }

  /** The rule `Select.__init__` applies: options default to `[]` and the
      value to None; without a type, more than 3 options make it `'select'`
      and fewer `'radio'`. None where `len(options)` raises TypeError. */
  function SelectDefaults(b: Attrs): (r: Option<Attrs>)
    ensures var options := if "options" in b then b["options"] else List([]);
      r.None? <==> "type" !in b && Len(options).None?
    ensures r.Some? ==> r.value.Keys == b.Keys + {"options", "value", "type"}
    ensures r.Some? ==> forall k :: k in b ==> r.value[k] == b[k]
    ensures r.Some? && "options" !in b ==> r.value["options"] == List([])
    ensures r.Some? && "value" !in b ==> r.value["value"] == Null
    ensures var options := if "options" in b then b["options"] else List([]);
      r.Some? && "type" !in b ==> r.value["type"] == Str(if Len(options).value > 3 then "select" else "radio")
  {
    var a := WithDefault(WithDefault(b, "options", List([])), "value", Null);
    if "type" in a then Some(a)
    else match Len(a["options"])
      case None => None
      case Some(n) => Some(a["type" := Str(if n > 3 then "select" else "radio")])
  }

  /** The rule `Switch.__init__` applies: value `False`, type `'switch'`,
      when missing. */
  function SwitchDefaults(b: Attrs): (r: Attrs)
    ensures r.Keys == b.Keys + {"value", "type"}
    ensures forall k :: k in b ==> r[k] == b[k]
    ensures "value" !in b ==> r["value"] == Bool(false)
    ensures "type" !in b ==> r["type"] == Str("switch")
  {
    WithDefault(WithDefault(b, "value", Bool(false)), "type", Str("switch"))
  }

  /** The rule `Tree.__init__` of unisi/units.py applies: options `[]`,
      value None and type `'tree'`, when missing. */
  function TreeDefaults(b: Attrs): (r: Attrs)
    ensures r.Keys == b.Keys + {"options", "value", "type"}
    ensures forall k :: k in b ==> r[k] == b[k]
    ensures "options" !in b ==> r["options"] == List([])
    ensures "value" !in b ==> r["value"] == Null
    ensures "type" !in b ==> r["type"] == Str("tree")
  {
    WithDefault(WithDefault(WithDefault(b, "options", List([])), "value", Null), "type", Str("tree"))
  }

  /** `v + d` for a number `v`; None where Python raises TypeError. */
  function Shift(v: Value, d: int): (r: Option<Value>)
    ensures r.Some? <==> IsNumber(v)
  {
    match v
    case Bool(b) => Some(Int((if b then 1 else 0) + d))
    case Int(i) => Some(Int(i + d))
    case Float(f) => Some(Float(f + d as real))
    case Complex(re, im) => Some(Complex(re + d as real, im))
    case _ => None
  }

  /** The rule `Range.__init__` applies: value `1.0` when missing, type
      `'range'` always and, unless options were passed (`optionsGiven`),
      the window `[value - 10, value + 10, 1]`, which raises TypeError
      (None) for a value that is not a number. */
  function RangeDefaults(b: Attrs, optionsGiven: bool): (r: Option<Attrs>)
    ensures var v := if "value" in b then b["value"] else Float(1.0);
      r.None? <==> !optionsGiven && !IsNumber(v)
    ensures r.Some? ==> r.value.Keys == b.Keys + {"value", "type"} + (if optionsGiven then {} else {"options"})
    ensures r.Some? ==> forall k :: k in b && k != "type" && (optionsGiven || k != "options") ==> r.value[k] == b[k]
    ensures r.Some? ==> r.value["type"] == Str("range")
    ensures r.Some? && "value" !in b ==> r.value["value"] == Float(1.0)
    ensures r.Some? && !optionsGiven ==>
      var v := r.value["value"];
      r.value["options"] == List([Shift(v, -10).value, Shift(v, 10).value, Int(1)])
  {
    var a := WithDefault(b, "value", Float(1.0))["type" := Str("range")];
    if optionsGiven then Some(a)
    else
      match Shift(a["value"], -10)
      case None => None
      case Some(lo) => Some(a["options" := List([lo, Shift(a["value"], 10).value, Int(1)])])
  }

  /** The widget classes whose construction is modelled. */
  datatype Kind = PlainUnit | EditUnit | SelectUnit | SwitchUnit | TreeUnit | RangeUnit

  /** The attributes a new widget of unisi/units.py starts with; None where
      construction raises: an empty keyword name (IndexError in
      `__setattr__`) or unsized options of a Select (TypeError). */
  function Constructed(kind: Kind, name: string, args: seq<Value>, kwargs: Attrs): (r: Option<Attrs>)
    ensures r.Some? ==> "" !in r.value && "name" in r.value
  {
    if "" in kwargs then None
    else
      var b := BaseAttrs(name, args, kwargs);
      match kind
      case PlainUnit => Some(b)
      case EditUnit => Some(EditDefaults(b["x" := Int(0)], "type" in kwargs))
      case SelectUnit => SelectDefaults(b)
      case SwitchUnit => Some(SwitchDefaults(b))
      case TreeUnit => Some(TreeDefaults(b))
      case RangeUnit => RangeDefaults(b, "options" in kwargs)
  }

  /** An Edit of unisi/units.py also starts at cursor position 0. */
  lemma EditStartsAtZero(name: string, args: seq<Value>, kwargs: Attrs)
    requires "" !in kwargs
    ensures Constructed(EditUnit, name, args, kwargs).Some?
    ensures Constructed(EditUnit, name, args, kwargs).value["x"] == Int(0)
  {
  }

  /** `Kind(name, *args, **kwargs)`. The keywords of Select, Switch and Tree
      go through `set_defaults`. */
  method Create(kind: Kind, name: string, args: seq<Value>, kwargs: Attrs) returns (r: Option<Unit>)
    ensures r.None? <==> Constructed(kind, name, args, kwargs).None?
    ensures r.Some? ==> fresh(r.value) && r.value.attrs == Constructed(kind, name, args, kwargs).value
    ensures r.Some? ==> r.value.callback.None? && r.value.proxies == map[] && r.value.Valid()
  {
    var attrs := Constructed(kind, name, args, kwargs);
    if attrs.None? {
      return None;
    }
    var u := new Unit(attrs.value);
    return Some(u);
  }

  /** A reactive unit whose attribute `data` is an instance holding the
      empty list `xs`, with the proxy `set_reactivity` made for `data`. */
  method DataUnit(user: ChangeLog) returns (u: Unit, p: ChangedProxy)
    ensures fresh(u) && u.callback == Some(Callback(u, user))
    ensures p.unit == u && p.marksUnit
    ensures p.Obj() == Some(Object("Data", map["xs" := List([])]))
  {
    u := new Unit(map["name" := Str("u"), "data" := Object("Data", map["xs" := List([])])]);
    u.SetReactivity(user, false);
    assert "data" in WrappableKeys(u.attrs);
    p := u.proxies["data"];
  }

  /** The attribute chain `unit.data.xs.append(1)` through the proxy for
      `data`, as the source writes it: the lookup of `append` on the proxy
      for `xs` raises (its `_unit` is the proxy for `data`). */
  method NestedAppendAsWritten(user: ChangeLog) returns (raised: bool)
    modifies user
    ensures raised
  {
    var u, p := DataUnit(user);
    assert LookupAttr(p.Obj().value, "xs") == Some(FieldValue(List([])));
    var r := p.GetAttrAsWritten("xs");
    assert r.Proxied? && !r.p.marksUnit;
    raised := r.p.Append(Int(1));
  }

  /** The same chain with the wrapped field reporting to the unit: the
      append happens and is reported once, without a property. */
  method NestedAppendReported(user: ChangeLog) returns (u: Unit, raised: bool)
    modifies user
    ensures !raised
    ensures user.calls == old(user.calls) + [Notice(u, None, None)]
  {
    var p;
    u, p := DataUnit(user);
    assert LookupAttr(p.Obj().value, "xs") == Some(FieldValue(List([])));
    var r := p.GetAttr("xs");
    assert r.Proxied? && r.p.marksUnit && r.p.unit == u && r.p.Obj() == Some(List([]));
    raised := r.p.Append(Int(1));
    assert r.p.Marked() == [Notice(u, None, None)];
  }
}
