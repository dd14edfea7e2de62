/** The containers of unisi/containers.py: the layout helpers of `Block`
    (`scroll_list`, `find`, the content scaler, the resolution of `llm`
    dependencies), `ParamBlock`, which turns keyword parameters into widgets
    laid out in rows, and the value of a `Dialog`. */
module Containers {
  import opened Values
  import opened Common
  import Units
  import Users

  type Elem = Users.Elem

  // ---------------------------------------------------------------------
  // Integer helpers for the row counter

  function Abs(x: int): nat {
    if x < 0 then -x else x
  }

  lemma {:induction false} MulGrows(d: nat, b: int)
    requires d >= 1
    ensures Abs(d * b) >= Abs(b)
    decreases d
  {
    if d > 1 {
      MulGrows(d - 1, b);
      assert d * b == (d - 1) * b + b;
    }
  }

  /** Division with remainder has one answer, whatever the sign of `b`. */
  lemma ModUnique(a: int, b: int, q: int, r: int)
    requires b != 0 && a == q * b + r && 0 <= r < Abs(b)
    ensures a % b == r
  {
    var q', r' := a / b, a % b;
    assert a == q' * b + r' && 0 <= r' < Abs(b);
    var d := q - q';
    assert d * b == r' - r by {
      assert q * b - q' * b == (q - q') * b;
    }
    assert Abs(d * b) < Abs(b);
    if d > 0 {
      MulGrows(d, b);
    } else if d < 0 {
      MulGrows(-d, b);
    }
  }

  /** How the position of `c - 1` in a row of `|row|` relates to that of `c`. */
  lemma ModPred(c: int, row: int)
    requires row != 0
    ensures (c - 1) % row == if c % row == 0 then Abs(row) - 1 else c % row - 1
  {
    var q := c / row;
    assert c == q * row + c % row;
    if c % row == 0 {
      if row > 0 {
        assert c - 1 == (q - 1) * row + (row - 1);
        ModUnique(c - 1, row, q - 1, row - 1);
      } else {
        assert c - 1 == (q + 1) * row + (-row - 1);
        ModUnique(c - 1, row, q + 1, -row - 1);
      }
    } else {
      ModUnique(c - 1, row, q, c % row - 1);
    }
  }

  // ---------------------------------------------------------------------
  // ParamBlock: parameters to widgets

  /** What `ParamBlock` builds for one parameter: the widget class and the
      positional and keyword arguments it passes after the pretty name. */
  datatype Widget = Widget(kind: Units.Kind, args: seq<Value>, kwargs: map<string, Value>)

  /** A list or tuple holding a current value and its options. */
  predicate Composite(val: Value) {
    IsSequence(val) && |Elements(val)| == 2
  }

  /** Options a Range accepts: three numbers. */
  predicate RangeOptions(o: Value) {
    |Elements(o)| == 3 && forall x <- Elements(o) :: IsNumber(x)
  }

  /** The value types `ParamBlock` accepts. */
  predicate Supported(val: Value) {
    || val.Bool? || val.Str? || val.Int? || val.Float?
    || (Composite(val) && (IsSequence(Elements(val)[1]) || Elements(val)[1].Dict?))
  }

  /** The current value a parameter starts its widget with. */
  function Current(val: Value): Value {
    if Composite(val) then Elements(val)[0] else val
  }

  /** The widget `ParamBlock` makes for the parameter value `val`: a Switch
      for a bool, an Edit for a string or number, and for a pair of a value
      and options a Range (three numbers), a Select of type `'select'` (a
      list or tuple) or a Tree (a dict). None is ValueError. */
  function ParamWidget(val: Value): (r: Option<Widget>)
    ensures r.Some? <==> Supported(val)
    ensures val.Bool? ==> r == Some(Widget(Units.SwitchUnit, [val], map[]))
    ensures val.Str? || val.Int? || val.Float? ==> r == Some(Widget(Units.EditUnit, [val], map[]))
    ensures r.Some? && Composite(val) ==>
      var o := Elements(val)[1];
      && r.value.args == [Elements(val)[0]]
      && "options" in r.value.kwargs && r.value.kwargs["options"] == o
      && r.value.kind == (if RangeOptions(o) then Units.RangeUnit
                          else if IsSequence(o) then Units.SelectUnit else Units.TreeUnit)
  {
    if val.Bool? then Some(Widget(Units.SwitchUnit, [val], map[]))
    else if val.Str? || val.Int? || val.Float? then Some(Widget(Units.EditUnit, [val], map[]))
    else if !Composite(val) then None
    else
      var o := Elements(val)[1];
      if !(IsSequence(o) || o.Dict?) then None
      else if RangeOptions(o) then Some(Widget(Units.RangeUnit, [Elements(val)[0]], map["options" := o]))
      else if IsSequence(o) then Some(Widget(Units.SelectUnit, [Elements(val)[0]], map["options" := o, "type" := Str("select")]))
      else Some(Widget(Units.TreeUnit, [Elements(val)[0]], map["options" := o]))
  }

  /** The type a parameter's widget ends up with. */
  function WidgetType(val: Value): string
    requires Supported(val)
  {
    if val.Bool? then "switch"
    else if val.Int? || val.Float? then "number"
    else if val.Str? then "string"
    else if RangeOptions(Elements(val)[1]) then "range"
    else if IsSequence(Elements(val)[1]) then "select"
    else "tree"
  }

  /** The attributes of the widget built for an accepted parameter. */
  function Built(pretty: string, val: Value): Option<Units.Attrs>
    requires Supported(val)
  {
    var w := ParamWidget(val).value;
    Units.Constructed(w.kind, pretty, w.args, w.kwargs)
  }

  /** Every accepted parameter value yields a widget, named by the pretty
      name, holding the parameter's current value, of the type its shape
      selects, and for a composite value with the options given. */
  lemma WidgetBuilt(pretty: string, val: Value)
    requires Supported(val)
    ensures Built(pretty, val).Some?
    ensures var a := Built(pretty, val).value;
      && a["name"] == Str(pretty)
      && a["value"] == Current(val)
      && a["type"] == Str(WidgetType(val))
      && (Composite(val) ==> a["options"] == Elements(val)[1])
  {
    var o := if Composite(val) then Elements(val)[1] else val;
    if !Composite(val) {
      ScalarBuilt(pretty, val);
    } else if RangeOptions(o) {
      CompositeBuilt(pretty, val, Units.RangeUnit);
    } else if IsSequence(o) {
      CompositeBuilt(pretty, val, Units.SelectUnit);
    } else {
      CompositeBuilt(pretty, val, Units.TreeUnit);
    }
  }

  /** What `WidgetBuilt` states of the attributes `a` built for `val`. */
  predicate ShowsParam(a: Units.Attrs, pretty: string, val: Value)
    requires Supported(val)
  {
    && "name" in a && a["name"] == Str(pretty)
    && "value" in a && a["value"] == Current(val)
    && "type" in a && a["type"] == Str(WidgetType(val))
    && (Composite(val) ==> "options" in a && a["options"] == Elements(val)[1])
  }

  /** `WidgetBuilt` for a bool, string or number. */
  lemma ScalarBuilt(pretty: string, val: Value)
    requires Supported(val) && !Composite(val)
    ensures Built(pretty, val).Some? && ShowsParam(Built(pretty, val).value, pretty, val)
  {
    var w := ParamWidget(val).value;
    assert "" !in w.kwargs;
  }

  /** `WidgetBuilt` for a pair of a current value and its options, whose
      widget is of the given kind. */
  lemma CompositeBuilt(pretty: string, val: Value, kind: Units.Kind)
    requires Supported(val) && Composite(val) && ParamWidget(val).value.kind == kind
    ensures Built(pretty, val).Some? && ShowsParam(Built(pretty, val).value, pretty, val)
  {
    var w := ParamWidget(val).value;
    var b := Units.BaseAttrs(pretty, w.args, w.kwargs);
    assert "" !in w.kwargs;
    assert b["value"] == Elements(val)[0];
  }

  /** The rows `ParamBlock` appends after its arguments: a row list is
      started whenever the number of elements placed so far is a multiple
      of `row`, and each element goes to the last row. */
  function Rows<T>(xs: seq<T>, row: int): (r: seq<Nested<T>>)
    requires row != 0 || xs == []
    ensures r == [] <==> xs == []
    ensures forall j :: 0 <= j < |r| ==> r[j].Group?
  {
    if xs == [] then []
    else
      var prev := Rows(xs[..|xs| - 1], row);
      PlaceIn(prev, xs[|xs| - 1], (|xs| - 1) % row == 0)
  }

  /** `x` appended to a new row, or to the last row. */
  function PlaceIn<T>(r: seq<Nested<T>>, x: T, newRow: bool): (r': seq<Nested<T>>)
    requires !newRow ==> r != [] && r[|r| - 1].Group?
    ensures |r'| == if newRow then |r| + 1 else |r|
    ensures forall j :: 0 <= j < |r'| - 1 ==> r'[j] == r[j]
    ensures r'[|r'| - 1] == if newRow then Group([Leaf(x)]) else Group(r[|r| - 1].items + [Leaf(x)])
  {
    if newRow then r + [Group([Leaf(x)])]
    else r[..|r| - 1] + [Group(r[|r| - 1].items + [Leaf(x)])]
  }

  /** Placing after a fixed prefix `a` places in the rows. */
  lemma PlaceAfter<T>(a: seq<Nested<T>>, r: seq<Nested<T>>, x: T, newRow: bool)
    requires !newRow ==> r != [] && r[|r| - 1].Group?
    ensures PlaceIn(a + r, x, newRow) == a + PlaceIn(r, x, newRow)
  {
    if !newRow {
      var s := a + r;
      assert s[..|s| - 1] == a + r[..|r| - 1];
    }
  }

  /** One more element: a new row when the count so far is a multiple of
      `row`, the last row grown otherwise. */
  lemma RowsStep<T>(a: seq<Nested<T>>, xs: seq<T>, x: T, row: int)
    requires row != 0
    ensures |xs| % row != 0 ==> Rows(xs, row) != []
    ensures a + Rows(xs + [x], row) == PlaceIn(a + Rows(xs, row), x, |xs| % row == 0)
  {
    assert (xs + [x])[..|xs|] == xs;
    if |xs| % row != 0 {
      assert xs != [];
    }
    PlaceAfter(a, Rows(xs, row), x, |xs| % row == 0);
  }

  /** The last row holds the elements placed since the count was last a
      multiple of `row`. */
  lemma {:induction false} RowsLast<T>(xs: seq<T>, row: int)
    requires row != 0 && xs != []
    ensures var r := Rows(xs, row); |r[|r| - 1].items| == (|xs| - 1) % row + 1
  {
    var n := |xs| - 1;
    if n % row != 0 {
      RowsLast(xs[..n], row);
      ModPred(n, row);
    }
  }

  /** Every row holds between 1 and `n` elements, and every row but the
      last exactly `n`. */
  predicate FullRows<T>(r: seq<Nested<T>>, n: nat) {
    && (forall j :: 0 <= j < |r| ==> r[j].Group? && 1 <= |r[j].items| <= n)
    && (forall j :: 0 <= j < |r| - 1 ==> |r[j].items| == n)
  }

  lemma NewRowFull<T>(prev: seq<Nested<T>>, x: T, n: nat)
    requires FullRows(prev, n) && n >= 1
    requires prev != [] ==> |prev[|prev| - 1].items| == n
    ensures FullRows(prev + [Group([Leaf(x)])], n)
  {
    var r := prev + [Group([Leaf(x)])];
    assert forall j :: 0 <= j < |prev| ==> r[j] == prev[j];
  }

  lemma GrownRowFull<T>(prev: seq<Nested<T>>, x: T, n: nat)
    requires FullRows(prev, n) && prev != [] && |prev[|prev| - 1].items| < n
    ensures var k := |prev| - 1; FullRows(prev[..k] + [Group(prev[k].items + [Leaf(x)])], n)
  {
    var k := |prev| - 1;
    var r := prev[..k] + [Group(prev[k].items + [Leaf(x)])];
    assert forall j :: 0 <= j < k ==> r[j] == prev[j];
  }

  /** No row holds more than `|row|` elements, and every row but the last
      holds exactly that many. */
  lemma {:induction false} RowsFull<T>(xs: seq<T>, row: int)
    requires row != 0
    ensures FullRows(Rows(xs, row), Abs(row))
  {
    if xs != [] {
      var n := |xs| - 1;
      var prev := Rows(xs[..n], row);
      var x := xs[n];
      RowsFull(xs[..n], row);
      ModPred(n, row);
      if n > 0 {
        RowsLast(xs[..n], row);
      }
      if n % row == 0 {
        assert Rows(xs, row) == prev + [Group([Leaf(x)])];
        NewRowFull(prev, x, Abs(row));
      } else {
        var k := |prev| - 1;
        assert Rows(xs, row) == prev[..k] + [Group(prev[k].items + [Leaf(x)])];
        GrownRowFull(prev, x, Abs(row));
      }
    }
  }

  lemma FlattenNewRow<T>(prev: seq<Nested<T>>, x: T)
    ensures Flatten(prev + [Group([Leaf(x)])]) == Flatten(prev) + [x]
  {
    var single: seq<Nested<T>> := [Leaf(x)];
    assert Flatten(single) == [x];
    FlattenAppend(prev, [Group(single)]);
    FlattenGroup(single);
  }

  lemma FlattenGrownRow<T>(prev: seq<Nested<T>>, x: T)
    requires prev != [] && prev[|prev| - 1].Group?
    ensures var k := |prev| - 1;
      Flatten(prev[..k] + [Group(prev[k].items + [Leaf(x)])]) == Flatten(prev) + [x]
  {
    var k := |prev| - 1;
    var init := prev[..k];
    var last := prev[k].items;
    var single: seq<Nested<T>> := [Leaf(x)];
    assert Flatten(prev) == Flatten(init) + Flatten(last) by {
      assert prev == init + [Group(last)];
      FlattenAppend(init, [Group(last)]);
      FlattenGroup(last);
    }
    assert Flatten(last + single) == Flatten(last) + [x] by {
      FlattenAppend(last, single);
      FlattenLeaf(x);
    }
    assert Flatten(init + [Group(last + single)]) == Flatten(init) + Flatten(last + single) by {
      FlattenAppend(init, [Group(last + single)]);
      FlattenGroup(last + single);
    }
    ConcatAssoc(Flatten(init), Flatten(last), [x]);
  }

  lemma ConcatAssoc<T>(a: seq<T>, b: seq<T>, c: seq<T>)
    ensures a + (b + c) == (a + b) + c
  {
  }

  lemma FlattenLeaf<T>(x: T)
    ensures Flatten([Leaf(x)]) == [x]
  {
    assert [Leaf(x)][1..] == [];
  }

  /** Placing `x` in the rows puts it after every element already laid out. */
  lemma FlattenPlaceIn<T>(r: seq<Nested<T>>, x: T, newRow: bool)
    requires !newRow ==> r != [] && r[|r| - 1].Group?
    ensures Flatten(PlaceIn(r, x, newRow)) == Flatten(r) + [x]
  {
    if newRow {
      FlattenNewRow(r, x);
    } else {
      FlattenGrownRow(r, x);
    }
  }

  /** Laying elements out in rows keeps them all, in order. */
  lemma {:induction false} RowsFlatten<T>(xs: seq<T>, row: int)
    requires row != 0
    ensures Flatten(Rows(xs, row)) == xs
  {
    if xs != [] {
      var n := |xs| - 1;
      var prev := Rows(xs[..n], row);
      var x := xs[n];
      assert Rows(xs, row) == PlaceIn(prev, x, n % row == 0);
      FlattenPlaceIn(prev, x, n % row == 0);
      RowsFlatten(xs[..n], row);
      assert xs == xs[..n] + [x];
    }
  }

  /** One keyword parameter of `ParamBlock`: its name and value. */
  type Param = (string, Value)

  predicate DistinctNames(ps: seq<Param>) {
    forall i, j :: 0 <= i < j < |ps| ==> ps[i].0 != ps[j].0
  }

  /** The names of the first `n` parameters. */
  function NamesOf(ps: seq<Param>, n: nat): (r: set<string>)
    requires n <= |ps|
    ensures forall i :: 0 <= i < n ==> ps[i].0 in r
  {
    if n == 0 then {} else NamesOf(ps, n - 1) + {ps[n - 1].0}
  }

  /** Each name in `NamesOf(ps, n)` is the name of one of the first `n`. */
  lemma {:induction false} NameIndex(ps: seq<Param>, n: nat, k: string) returns (i: nat)
    requires n <= |ps| && k in NamesOf(ps, n)
    ensures i < n && ps[i].0 == k
  {
    if ps[n - 1].0 == k {
      i := n - 1;
    } else {
      i := NameIndex(ps, n - 1, k);
    }
  }

  /** Every parameter has a pretty name and a supported value, and there is
      a row width to divide by, where there are parameters at all. */
  predicate Accepted(ps: seq<Param>, row: int) {
    && (forall i :: 0 <= i < |ps| ==> Pretty4(ps[i].0).Some? && Supported(ps[i].1))
    && (ps != [] ==> row != 0)
  }

  /** The first value of a block without positional arguments. */
  function Start<T>(args: seq<Nested<T>>): seq<Nested<T>> {
    if args == [] then [Group([])] else args
  }

  /** What `params` reports for the first `n` freshly built parameters:
      each name to the current value its widget starts with. */
  function ParamValues(ps: seq<Param>, n: nat): (r: map<string, Value>)
    requires n <= |ps|
    ensures r.Keys == NamesOf(ps, n)
  {
    if n == 0 then map[]
    else ParamValues(ps, n - 1)[ps[n - 1].0 := Current(ps[n - 1].1)]
  }

  lemma {:induction false} ParamValuesAt(ps: seq<Param>, n: nat, i: int)
    requires DistinctNames(ps) && 0 <= i < n <= |ps|
    ensures ParamValues(ps, n)[ps[i].0] == Current(ps[i].1)
  {
    if i < n - 1 {
      ParamValuesAt(ps, n - 1, i);
    }
  }

  /** A block of parameter widgets. */
  class ParamBlock {
    var name: string
    var value: seq<Nested<Units.Unit>>
    var name2elem: map<string, Units.Unit>

    /** A block holding the layout `value` and the widgets by parameter
        name. */
    constructor (name: string, value: seq<Nested<Units.Unit>>, name2elem: map<string, Units.Unit>)
      ensures this.name == name && this.value == value && this.name2elem == name2elem
    {
      this.name := name;
      this.value := value;
      this.name2elem := name2elem;
    }

    /** `params`: each parameter name to its element's current value; None
        is AttributeError (an element without a value). */
    function Params(): (r: Option<map<string, Value>>)
      reads this, name2elem.Values
      ensures r.Some? <==> forall k <- name2elem :: "value" in name2elem[k].attrs
      ensures r.Some? ==> r.value.Keys == name2elem.Keys
      ensures r.Some? ==> forall k <- name2elem :: r.value[k] == name2elem[k].attrs["value"]
    {
      if forall k <- name2elem :: "value" in name2elem[k].attrs
      then Some(map k | k in name2elem :: name2elem[k].attrs["value"])
      else None
    }
  }

  /** `u` is the widget built for parameter `p`. */
  predicate MadeFor(u: Units.Unit, p: Param)
    reads u
  {
    Pretty4(p.0).Some? && Supported(p.1) && Some(u.attrs) == Built(Pretty4(p.0).value, p.1)
  }

  /** What a widget built for parameter `p` shows: the pretty name, the
      parameter's current value and the type its shape selects. */
  predicate Shows(u: Units.Unit, p: Param)
    reads u
  {
    ShowsAttrs(u.attrs, p)
  }

  predicate ShowsAttrs(a: Units.Attrs, p: Param) {
    && Pretty4(p.0).Some? && Supported(p.1)
    && "name" in a && a["name"] == Str(Pretty4(p.0).value)
    && "value" in a && a["value"] == Current(p.1)
    && "type" in a && a["type"] == Str(WidgetType(p.1))
  }

  /** The widget for one parameter: Switch, Edit, Range, Select or Tree
      under the pretty name; None where `pretty4` raises IndexError or the
      value is not supported (ValueError). */
  method WidgetFor(p: Param) returns (el: Option<Units.Unit>)
    ensures el.Some? <==> Pretty4(p.0).Some? && Supported(p.1)
    ensures el.Some? ==> fresh(el.value) && MadeFor(el.value, p) && ShowsAttrs(el.value.attrs, p)
  {
    var (param, val) := p;
    var pretty := Pretty4(param);
    if pretty.None? {
      return None;
    }
    var w := ParamWidget(val);
    if w.None? {
      return None;
    }
    WidgetBuilt(pretty.value, val);
    el := Units.Create(w.value.kind, pretty.value, w.value.args, w.value.kwargs);
  }

  /** `name2elem` once the widgets `es` are built for the first `|es|`
      parameters. */
  function NameMap(ps: seq<Param>, es: seq<Units.Unit>): (r: map<string, Units.Unit>)
    requires |es| <= |ps|
    ensures r.Keys == NamesOf(ps, |es|)
  {
    if es == [] then map[] else NameMap(ps, es[..|es| - 1])[ps[|es| - 1].0 := es[|es| - 1]]
  }

  lemma {:induction false} NameMapAt(ps: seq<Param>, es: seq<Units.Unit>, i: int)
    requires DistinctNames(ps) && 0 <= i < |es| <= |ps|
    ensures NameMap(ps, es)[ps[i].0] == es[i]
  {
    if i < |es| - 1 {
      NameMapAt(ps, es[..|es| - 1], i);
    }
  }

  lemma NameMapAll(ps: seq<Param>, es: seq<Units.Unit>)
    requires DistinctNames(ps) && |es| == |ps|
    ensures forall i :: 0 <= i < |ps| ==> NameMap(ps, es)[ps[i].0] == es[i]
  {
    forall i | 0 <= i < |ps|
      ensures NameMap(ps, es)[ps[i].0] == es[i]
    {
      NameMapAt(ps, es, i);
    }
  }

  /** Each built widget holds its parameter's current value. */
  lemma ParamsAt(pb: ParamBlock, params: seq<Param>, elems: seq<Units.Unit>)
    requires DistinctNames(params) && |elems| == |params|
    requires forall i :: 0 <= i < |params| ==> "value" in elems[i].attrs && elems[i].attrs["value"] == Current(params[i].1)
    requires pb.name2elem.Keys == NamesOf(params, |params|)
    requires forall i :: 0 <= i < |params| ==> pb.name2elem[params[i].0] == elems[i]
    ensures forall k <- pb.name2elem :: "value" in pb.name2elem[k].attrs && pb.name2elem[k].attrs["value"] == ParamValues(params, |params|)[k]
  {
    forall k | k in pb.name2elem
      ensures "value" in pb.name2elem[k].attrs && pb.name2elem[k].attrs["value"] == ParamValues(params, |params|)[k]
    {
      var i := NameIndex(params, |params|, k);
      ParamValuesAt(params, |params|, i);
    }
  }

  /** `params` reads back the values the widgets hold. */
  lemma ParamsRead(pb: ParamBlock, pv: map<string, Value>)
    requires pb.name2elem.Keys == pv.Keys
    requires forall k <- pb.name2elem :: "value" in pb.name2elem[k].attrs && pb.name2elem[k].attrs["value"] == pv[k]
    ensures pb.Params() == Some(pv)
  {
    var m := pb.Params().value;
    assert m.Keys == pv.Keys;
    assert forall k <- m :: m[k] == pv[k];
    assert m == pv;
  }

  lemma NameMapStep(ps: seq<Param>, es: seq<Units.Unit>, el: Units.Unit)
    requires |es| < |ps|
    ensures NameMap(ps, es + [el]) == NameMap(ps, es)[ps[|es|].0 := el]
  {
    assert (es + [el])[..|es|] == es;
  }

  /** A block filled for all the parameters maps each name to its widget
      and reports each parameter's current value. */
  lemma FilledAll(pb: ParamBlock, params: seq<Param>, elems: seq<Units.Unit>)
    requires DistinctNames(params) && |elems| == |params| && pb.name2elem == NameMap(params, elems)
    requires forall i :: 0 <= i < |params| ==> Shows(elems[i], params[i])
    ensures pb.name2elem.Keys == NamesOf(params, |params|)
    ensures forall i :: 0 <= i < |params| ==> pb.name2elem[params[i].0] == elems[i]
    ensures pb.Params() == Some(ParamValues(params, |params|))
  {
    NameMapAll(params, elems);
    ParamsAt(pb, params, elems);
    ParamsRead(pb, ParamValues(params, |params|));
  }

  /** The attributes `shown` are those of widgets for the first `|shown|`
      parameters. */
  predicate AllShown(shown: seq<Units.Attrs>, params: seq<Param>) {
    |shown| <= |params| && forall i :: 0 <= i < |shown| ==> ShowsAttrs(shown[i], params[i])
  }

  /** The widgets `elems` hold the attributes `shown`. */
  predicate Holding(elems: seq<Units.Unit>, shown: seq<Units.Attrs>)
    reads elems
  {
    |elems| == |shown| && forall i :: 0 <= i < |elems| ==> elems[i].attrs == shown[i]
  }

  lemma HoldingStep(elems: seq<Units.Unit>, shown: seq<Units.Attrs>, el: Units.Unit)
    requires Holding(elems, shown)
    ensures Holding(elems + [el], shown + [el.attrs])
  {
    var es, ss := elems + [el], shown + [el.attrs];
    forall i | 0 <= i < |es|
      ensures es[i].attrs == ss[i]
    {
      if i < |elems| {
        assert es[i] == elems[i] && ss[i] == shown[i];
      }
    }
  }

  lemma ShownKept(shown: seq<Units.Attrs>, params: seq<Param>, a: Units.Attrs)
    requires |shown| < |params| && AllShown(shown, params) && ShowsAttrs(a, params[|shown|])
    ensures AllShown(shown + [a], params)
  {
    var s := shown + [a];
    forall i | 0 <= i < |s|
      ensures ShowsAttrs(s[i], params[i])
    {
      if i < |shown| {
        assert s[i] == shown[i];
      }
    }
  }

  /** Widgets for every parameter, with no row width missing, mean the call
      was accepted, and each widget shows its parameter. */
  lemma ShownAll(elems: seq<Units.Unit>, shown: seq<Units.Attrs>, params: seq<Param>, row: int)
    requires AllShown(shown, params) && |shown| == |params| == |elems|
    requires params != [] ==> row != 0
    requires Holding(elems, shown)
    ensures Accepted(params, row)
    ensures forall i :: 0 <= i < |params| ==> Shows(elems[i], params[i])
  {
  }

  /** A parameter that cannot be shown, or no row width, rejects the call. */
  lemma Rejected(ps: seq<Param>, row: int, i: int)
    requires 0 <= i < |ps| && !(Pretty4(ps[i].0).Some? && Supported(ps[i].1) && row != 0)
    ensures !Accepted(ps, row)
  {
  }

  /** The widget for `p`, built after the widgets `elems`, which keep the
      attributes `shown`. */
  method Build(p: Param, elems: seq<Units.Unit>, ghost shown: seq<Units.Attrs>) returns (el: Option<Units.Unit>)
    requires Holding(elems, shown)
    ensures el.Some? <==> Pretty4(p.0).Some? && Supported(p.1)
    ensures el.Some? ==> fresh(el.value) && ShowsAttrs(el.value.attrs, p)
    ensures el.Some? ==> Holding(elems + [el.value], shown + [el.value.attrs])
  {
    el := WidgetFor(p);
    if el.Some? {
      HoldingStep(elems, shown, el.value);
    }
  }

  /** `ParamBlock(name, *args, row=row, **params)`. It returns the block and
      the widgets it built, one per parameter and in parameter order; None
      where construction raises: IndexError for a name with nothing after
      its `_`, ValueError for an unsupported value, ZeroDivisionError for
      `row == 0`. The keyword names of a call are distinct. */
  method NewParamBlock(name: string, args: seq<Nested<Units.Unit>>, row: int, params: seq<Param>)
    returns (r: Option<ParamBlock>, elems: seq<Units.Unit>)
    requires DistinctNames(params)
    ensures r.Some? <==> Accepted(params, row)
    ensures r.Some? ==> fresh(r.value) && r.value.name == name && |elems| == |params|
    ensures r.Some? ==> r.value.value == Start(args) + Rows(elems, row)
    ensures r.Some? ==> r.value.name2elem.Keys == NamesOf(params, |params|)
    ensures r.Some? ==> forall i :: 0 <= i < |params| ==> r.value.name2elem[params[i].0] == elems[i]
    ensures r.Some? ==> forall i :: 0 <= i < |params| ==> Shows(elems[i], params[i])
    ensures r.Some? ==> r.value.Params() == Some(ParamValues(params, |params|))
  {
    var value, name2elem, ok;
    value, name2elem, elems, ok := BuildWidgets(args, row, params);
    if !ok {
      return None, elems;
    }
    var pb := new ParamBlock(name, value, name2elem);
    FilledAll(pb, params, elems);
    return Some(pb), elems;
  }

  /** The loop of `ParamBlock.__init__` over the parameters: one widget per
      parameter, placed `row` to a row after the positional layout, and
      the name map; `ok` is false where construction raises. */
  method BuildWidgets(args: seq<Nested<Units.Unit>>, row: int, params: seq<Param>)
    returns (value: seq<Nested<Units.Unit>>, name2elem: map<string, Units.Unit>, elems: seq<Units.Unit>, ok: bool)
    ensures ok <==> Accepted(params, row)
    ensures ok ==> |elems| == |params| && value == Start(args) + Rows(elems, row)
    ensures ok ==> name2elem == NameMap(params, elems)
    ensures ok ==> forall i :: 0 <= i < |params| ==> Shows(elems[i], params[i])
  {
    value, name2elem := Start(args), map[];
    elems := [];
    ghost var shown: seq<Units.Attrs> := [];
    var cnt := 0;
    while cnt < |params|
      invariant 0 <= cnt <= |params| && |elems| == cnt && |shown| == cnt
      invariant cnt > 0 ==> row != 0
      invariant value == Start(args) + Rows(elems, row)
      invariant name2elem == NameMap(params, elems)
      invariant Holding(elems, shown) && AllShown(shown, params)
    {
      var placed;
      value, name2elem, elems, shown, placed := AddWidget(args, row, params, value, name2elem, elems, shown);
      if !placed {
        return value, name2elem, elems, false;
      }
      cnt := cnt + 1;
    }
    ShownAll(elems, shown, params, row);
    ok := true;
  }

  /** One turn of the loop: the widget for the next parameter is built and
      placed, or construction raises (`placed` false). */
  method AddWidget(args: seq<Nested<Units.Unit>>, row: int, params: seq<Param>,
                   value: seq<Nested<Units.Unit>>, name2elem: map<string, Units.Unit>, elems: seq<Units.Unit>,
                   ghost shown: seq<Units.Attrs>)
    returns (value': seq<Nested<Units.Unit>>, name2elem': map<string, Units.Unit>, elems': seq<Units.Unit>,
             ghost shown': seq<Units.Attrs>, placed: bool)
    requires |elems| < |params| && |shown| == |elems| && (elems != [] ==> row != 0)
    requires value == Start(args) + Rows(elems, row) && name2elem == NameMap(params, elems)
    requires Holding(elems, shown) && AllShown(shown, params)
    ensures !placed ==> !Accepted(params, row)
    ensures placed ==> row != 0 && |elems'| == |elems| + 1 && |shown'| == |elems'|
    ensures placed ==> value' == Start(args) + Rows(elems', row) && name2elem' == NameMap(params, elems')
    ensures placed ==> Holding(elems', shown') && AllShown(shown', params)
  {
    var el := Build(params[|elems|], elems, shown);
    if el.None? || row == 0 {
      Rejected(params, row, |elems|);
      return value, name2elem, elems, shown, false;
    }
    name2elem' := name2elem[params[|elems|].0 := el.value];
    RowsStep(Start(args), elems, el.value, row);
    // a new row list every `row` parameters, then the widget goes last
    value' := PlaceIn(value, el.value, |elems| % row == 0);
    NameMapStep(params, elems, el.value);
    ShownKept(shown, params, el.value.attrs);
    elems', shown' := elems + [el.value], shown + [el.value.attrs];
    placed := true;
  }

  // ---------------------------------------------------------------------
  // Block: scroll list, find, scaler

  /** `scroll_list`: the second entry of the layout when it is a list or
      tuple, and `[]` otherwise. */
  function ScrollList(b: Users.Block): (r: seq<Nested<Elem>>)
    ensures |b.value| > 1 && b.value[1].Group? ==> r == b.value[1].items
    ensures !(|b.value| > 1 && b.value[1].Group?) ==> r == []
  {
    if |b.value| > 1 && b.value[1].Group? then b.value[1].items else []
  }

  /** The layout the `scroll_list` setter leaves: the first entry (or `[]`)
      and the new list. */
  function WithScrollList(b: Users.Block, lst: seq<Nested<Elem>>): (r: Users.Block)
    ensures r.unit == b.unit && |r.value| == 2 && r.value[1] == Group(lst)
    ensures r.value[0] == if b.value == [] then Group([]) else b.value[0]
  {
    b.(value := [if b.value == [] then Group([]) else b.value[0], Group(lst)])
  }

  /** What the setter stores the getter reads back, and a second setting
      replaces the first. */
  lemma ScrollListRoundTrip(b: Users.Block, lst: seq<Nested<Elem>>, lst2: seq<Nested<Elem>>)
    ensures ScrollList(WithScrollList(b, lst)) == lst
    ensures WithScrollList(WithScrollList(b, lst), lst2) == WithScrollList(b, lst2)
  {
  }

  /** Setting the scroll list keeps the head of the layout and shows the new
      list after it. */
  lemma ScrollListLayout(b: Users.Block, lst: seq<Nested<Elem>>)
    ensures Flatten(WithScrollList(b, lst).value) == Flatten(b.value[..if b.value == [] then 0 else 1]) + Flatten(lst)
  {
    var r := WithScrollList(b, lst).value;
    assert r == r[..1] + [Group(lst)];
    FlattenAppend(r[..1], [Group(lst)]);
    FlattenGroup(lst);
    if b.value == [] {
      FlattenGroup<Elem>([]);
    } else {
      assert r[..1] == b.value[..1];
    }
  }

  /** What `find` is given: a unit, or a name. */
  datatype Target = ByUnit(u: Elem) | ByName(n: string)

  /** `e == elem or e.name == elem`: a unit equals only itself, and a name
      matches a unit of that name. */
  predicate Matches(e: Elem, t: Target) {
    match t
    case ByUnit(u) => e == u
    case ByName(n) => e.name == n
  }

  /** `k` is the first position of a match. */
  predicate FirstHit(xs: seq<Elem>, t: Target, k: int) {
    0 <= k < |xs| && Matches(xs[k], t) && forall j :: 0 <= j < k ==> !Matches(xs[j], t)
  }

  function FirstMatch(xs: seq<Elem>, t: Target): (k: int)
    ensures -1 <= k < |xs|
    ensures k == -1 <==> forall e <- xs :: !Matches(e, t)
    ensures k >= 0 ==> FirstHit(xs, t, k)
  {
    if xs == [] then -1
    else if Matches(xs[0], t) then 0
    else
      var k := FirstMatch(xs[1..], t);
      assert forall e <- xs :: e == xs[0] || e in xs[1..];
      if k == -1 then -1 else k + 1
  }

  /** `find`: the first element of the flattened layout that is the unit or
      has the name; None when there is none. */
  function Find(b: Users.Block, t: Target): (r: Option<Elem>)
    ensures r.None? <==> forall e <- Flatten(b.value) :: !Matches(e, t)
    ensures r.Some? ==> exists k :: FirstHit(Flatten(b.value), t, k) && Flatten(b.value)[k] == r.value
  {
    var xs := Flatten(b.value);
    var k := FirstMatch(xs, t);
    if k < 0 then None else Some(xs[k])
  }

  /** Finding a unit that is in the layout returns that very unit. */
  lemma FindUnit(b: Users.Block, u: Elem)
    requires u in Flatten(b.value)
    ensures Find(b, ByUnit(u)) == Some(u)
  {
  }

  /** A Python list as an object, as the scaler placement handles it: a
      row may be shared, appended to in place, or contain its own owner. */
  class PyList {
    var items: seq<Item>

    constructor (items: seq<Item>)
      ensures this.items == items
    {
      this.items := items;
    }
  }

  /** An entry of a list: a unit, or a list object. */
  datatype Item = UnitItem(e: Elem) | SubList(l: PyList)

  /** `flatten` over list objects with `fuel` levels of recursion left;
      None when they run out, as Python raises RecursionError past its
      recursion limit. */
  function Walk(l: PyList, fuel: nat): Option<seq<Elem>>
    reads *
    decreases fuel, 0
  {
    if fuel == 0 then None else WalkItems(l.items, fuel - 1)
  }

  function WalkItems(items: seq<Item>, fuel: nat): Option<seq<Elem>>
    reads *
    decreases fuel, 1, |items|
  {
    if items == [] then Some([])
    else
      var head := match items[0]
        case UnitItem(e) => Some([e])
        case SubList(l) => Walk(l, fuel);
      match head
      case None => None
      case Some(h) =>
        match WalkItems(items[1..], fuel)
        case None => None
        case Some(t) => Some(h + t)
  }

  /** The scaler placement of `Block.__init__` as written, on list objects:
      an empty layout becomes `[[scaler]]`, a first row that is a list gets
      the scaler appended, and otherwise the first entry is replaced by the
      new list `[self.value, scaler]`, which holds the layout itself. */
  method AddScalerAsWritten(value: PyList, scaler: Elem) returns (row: PyList)
    modifies value, if value.items != [] && value.items[0].SubList? then {value.items[0].l} else {}
    ensures old(value.items) == [] ==> fresh(row) && value.items == [SubList(row)] && row.items == [UnitItem(scaler)]
    ensures old(value.items) != [] && old(value.items[0]).SubList? ==>
      row == old(value.items[0]).l && row.items == old(row.items) + [UnitItem(scaler)]
    ensures old(value.items) != [] && old(value.items[0]).SubList? && row != value ==> value.items == old(value.items)
    ensures old(value.items) != [] && old(value.items[0]).UnitItem? ==>
      && fresh(row) && row.items == [SubList(value), UnitItem(scaler)]
      && value.items == old(value.items)[0 := SubList(row)]
  {
    if value.items == [] {
      row := new PyList([UnitItem(scaler)]);
      value.items := [SubList(row)];
    } else if value.items[0].SubList? {
      row := value.items[0].l;
      row.items := row.items + [UnitItem(scaler)];
    } else {
      row := new PyList([SubList(value), UnitItem(scaler)]);
      value.items := value.items[0 := SubList(row)];
    }
  }

  /** Two lists that each begin with the other cannot be flattened: every
      recursion budget runs out. */
  lemma {:induction false} CycleDiverges(a: PyList, b: PyList, fuel: nat)
    requires a.items != [] && a.items[0] == SubList(b)
    requires b.items != [] && b.items[0] == SubList(a)
    ensures Walk(a, fuel).None? && Walk(b, fuel).None?
    decreases fuel
  {
    if fuel > 0 {
      CycleDiverges(a, b, fuel - 1);
    }
  }

  /** With a unit first in the layout, the scaler placement as written
      leaves a layout that `flatten` never finishes. */
  method ScalerAsWrittenDiverges(value: PyList, e: Elem, scaler: Elem, fuel: nat)
    requires value.items != [] && value.items[0] == UnitItem(e)
    modifies value
    ensures Walk(value, fuel).None?
  {
    var row := AddScalerAsWritten(value, scaler);
    CycleDiverges(value, row, fuel);
  }

  /** The scaler placement as intended, on layouts: `[[scaler]]` for an
      empty layout, the scaler appended to a first row that is a list, and
      otherwise the first entry replaced by `[value[0], scaler]`. */
  function WithScaler(value: seq<Nested<Elem>>, scaler: Elem): (r: seq<Nested<Elem>>)
    ensures |r| == if value == [] then 1 else |value|
    ensures r[0].Group? && r[1..] == value[if value == [] then 0 else 1..]
  {
    if value == [] then [Group([Leaf(scaler)])]
    else match value[0]
      case Group(xs) => [Group(xs + [Leaf(scaler)])] + value[1..]
      case Leaf(x) => [Group([Leaf(x), Leaf(scaler)])] + value[1..]
  }

  /** The corrected placement shows the first entry's elements, then the
      scaler, then the rest of the layout, and leaves the scroll list it
      scales alone. */
  lemma ScalerPlaced(b: Users.Block, scaler: Elem)
    ensures var v := b.value;
      Flatten(WithScaler(v, scaler)) == Flatten(v[..if v == [] then 0 else 1]) + [scaler] + Flatten(v[if v == [] then 0 else 1..])
    ensures ScrollList(b.(value := WithScaler(b.value, scaler))) == ScrollList(b)
  {
    FlattenWithScaler(b.value, scaler);
  }

  /** The scaler comes right after the first entry's elements. */
  lemma FlattenWithScaler(v: seq<Nested<Elem>>, scaler: Elem)
    ensures Flatten(WithScaler(v, scaler)) == Flatten(v[..if v == [] then 0 else 1]) + [scaler] + Flatten(v[if v == [] then 0 else 1..])
  {
    var single: seq<Nested<Elem>> := [Leaf(scaler)];
    FlattenLeaf(scaler);
    if v == [] {
      FlattenGroup(single);
      assert v[..0] == [] && v[0..] == [];
    } else {
      var first: seq<Nested<Elem>> := match v[0] case Group(xs) => xs case Leaf(x) => [Leaf(x)];
      var rest := v[1..];
      assert Flatten(v[..1]) == Flatten(first) by {
        assert v[..1] == [v[0]];
        if v[0].Group? {
          FlattenGroup(first);
        }
      }
      assert WithScaler(v, scaler) == [Group(first + single)] + rest by {
        if v[0].Leaf? {
          assert first + single == [v[0], Leaf(scaler)];
        }
      }
      FlattenAppend([Group(first + single)], rest);
      FlattenGroup(first + single);
      FlattenAppend(first, single);
    }
  }

  // ---------------------------------------------------------------------
  // llm dependencies

  /** The `llm` attribute a unit may carry. */
  datatype Llm =
    | Flag(b: bool)                              // True or False
    | NoLlm                                      // None
    | Listed(units: seq<Elem>)                   // a list or tuple of units
    | Single(u: Elem)                            // one unit
    | Fields(fields: seq<(string, FieldDep)>)    // a dict, field to dependencies
    | OtherLlm(v: Value)                         // anything else

  /** The dependencies a table names for one field. */
  datatype FieldDep = DepList(units: seq<Elem>) | DepFlag(b: bool) | DepUnit(u: Elem)

  /** `_llm_dependencies`: units, or per table field. */
  datatype Deps = Units(units: seq<Elem>) | PerField(fields: seq<(string, FieldDep)>)

  /** The state the resolution loop changes: every unit's `llm`, its
      `_llm_dependencies` and the changed handlers installed, each as the
      pair (dependency, unit whose `emit` it calls), in order. */
  datatype LlmState = LlmState(llm: map<Elem, Llm>, deps: map<Elem, Deps>, handlers: seq<(Elem, Elem)>)

  /** A field's dependencies with a single unit wrapped in a list. */
  function Normalized(fs: seq<(string, FieldDep)>): (r: seq<(string, FieldDep)>)
    ensures |r| == |fs|
    ensures forall i :: 0 <= i < |fs| ==> r[i].0 == fs[i].0 && !r[i].1.DepUnit?
    ensures forall i :: 0 <= i < |fs| ==> r[i].1 == if fs[i].1.DepUnit? then DepList([fs[i].1.u]) else fs[i].1
  {
    seq(|fs|, i requires 0 <= i < |fs| => (fs[i].0, if fs[i].1.DepUnit? then DepList([fs[i].1.u]) else fs[i].1))
  }

  /** The units `llm = True` depends on: every other unit of the layout
      that is not a command, in layout order. */
  function Others(flat: seq<Elem>, e: Elem): (r: seq<Elem>)
    ensures forall o <- r :: o in flat && o != e && o.utype != "command"
    ensures forall o <- flat :: o != e && o.utype != "command" ==> o in r
  {
    if flat == [] then []
    else
      var rest := Others(flat[..|flat| - 1], e);
      var o := flat[|flat| - 1];
      assert forall x <- flat :: x in flat[..|flat| - 1] || x == o;
      if o != e && o.utype != "command" then rest + [o] else rest
  }

  /** The handlers `e` installs on its dependencies. */
  function Emitters(ds: seq<Elem>, e: Elem): (r: seq<(Elem, Elem)>)
    ensures |r| == |ds| && forall i :: 0 <= i < |ds| ==> r[i] == (ds[i], e)
  {
    seq(|ds|, i requires 0 <= i < |ds| => (ds[i], e))
  }

  /** Recording dependencies `ds`: none leaves `llm` None, otherwise `llm`
      becomes `exactly`, the dependencies are stored and each of them calls
      `e`'s `emit` when changed. */
  function Depend(st: LlmState, e: Elem, ds: seq<Elem>, exactly: bool): LlmState {
    if ds == [] then st.(llm := st.llm[e := NoLlm])
    else LlmState(st.llm[e := Flag(exactly)], st.deps[e := Units(ds)], st.handlers + Emitters(ds, e))
  }

  /** The loop body for one element of the layout; None is AttributeError
      (`llm` False, None or of another type, or a dict outside a table). */
  function LlmStep(flat: seq<Elem>, e: Elem, st: LlmState): Option<LlmState> {
    if e !in st.llm then Some(st)
    else match st.llm[e]
      case Flag(true) => Some(Depend(st, e, Others(flat, e), false))
      case Listed(us) => Some(Depend(st, e, us, true))
      case Single(u) => Some(Depend(st, e, [u], true))
      case Fields(fs) =>
        if e.utype != "table" then None
        else Some(st.(llm := st.llm[e := Flag(true)], deps := st.deps[e := PerField(Normalized(fs))]))
      case _ => None
  }

  /** The loop over the elements `es` visited so far. */
  function Resolved(flat: seq<Elem>, es: seq<Elem>, st0: LlmState): Option<LlmState> {
    if es == [] then Some(st0)
    else
      match Resolved(flat, es[..|es| - 1], st0)
      case None => None
      case Some(s) => LlmStep(flat, es[|es| - 1], s)
  }

  lemma ResolvedStep(flat: seq<Elem>, es: seq<Elem>, e: Elem, st0: LlmState)
    ensures Resolved(flat, es + [e], st0) ==
      match Resolved(flat, es, st0) case None => None case Some(s) => LlmStep(flat, e, s)
  {
    assert (es + [e])[..|es|] == es;
  }

  lemma ResolvedRaise(flat: seq<Elem>, es: seq<Elem>, e: Elem, st0: LlmState)
    requires Resolved(flat, es, st0).None?
    ensures Resolved(flat, es + [e], st0).None?
  {
    ResolvedStep(flat, es, e, st0);
  }

  /** Once the loop has raised, the whole resolution raises. */
  lemma {:induction false} RaiseKept(flat: seq<Elem>, st0: LlmState, i: nat)
    requires i <= |flat| && Resolved(flat, flat[..i], st0).None?
    ensures Resolved(flat, flat, st0).None?
    decreases |flat| - i
  {
    if i < |flat| {
      ResolvedRaise(flat, flat[..i], flat[i], st0);
      assert flat[..i + 1] == flat[..i] + [flat[i]];
      RaiseKept(flat, st0, i + 1);
    } else {
      assert flat[..i] == flat;
    }
  }

  /** The resolution loop of `Block.__init__` over the flattened layout of
      `value`, starting from the units' `llm` attributes. */
  method ResolveLlm(value: seq<Nested<Elem>>, llm: map<Elem, Llm>) returns (r: Option<LlmState>)
    ensures r == Resolved(Flatten(value), Flatten(value), LlmState(llm, map[], []))
  {
    var flat := Flatten(value);
    var st0 := LlmState(llm, map[], []);
    var st := st0;
    var i := 0;
    while i < |flat|
      invariant 0 <= i <= |flat|
      invariant Resolved(flat, flat[..i], st0) == Some(st)
    {
      var e := flat[i];
      ResolvedStep(flat, flat[..i], e, st0);
      assert flat[..i + 1] == flat[..i] + [e];
      var next := ResolveOne(flat, e, st);
      if next.None? {
        RaiseKept(flat, st0, i + 1);
        return None;
      }
      st := next.value;
      i := i + 1;
    }
    assert flat[..i] == flat;
    return Some(st);
  }

  /** The loop body of the resolution for the element `e`. */
  method ResolveOne(flat: seq<Elem>, e: Elem, st: LlmState) returns (r: Option<LlmState>)
    ensures r == LlmStep(flat, e, st)
  {
    if e !in st.llm {
      return Some(st);
    }
    match st.llm[e]
    case Flag(b) =>
      if !b {
        return None;
      }
      return Some(Depend(st, e, Others(flat, e), false));
    case Listed(us) =>
      return Some(Depend(st, e, us, true));
    case Single(u) =>
      return Some(Depend(st, e, [u], true));
    case Fields(fs) =>
      if e.utype != "table" {
        return None;
      }
      return Some(st.(llm := st.llm[e := Flag(true)], deps := st.deps[e := PerField(Normalized(fs))]));
    case _ =>
      return None;
  }

  // ---------------------------------------------------------------------
  // Dialog

  /** A dialog as the screen sends it: the question is its name. */
  datatype Dialog = Dialog(name: string, commands: seq<string>, icon: string, value: seq<Nested<Elem>>)

  const DialogCommands: seq<string> := ["Ok", "Cancel"]
  const DialogIcon := "not_listed_location"

  /** `Dialog(question, callback, *content)`: with content, the value is an
      empty first row followed by the content; without, it is empty. */
  function NewDialog(question: string, content: seq<Nested<Elem>>, commands: seq<string>, icon: string): (d: Dialog)
    ensures d.name == question && d.commands == commands && d.icon == icon
    ensures content == [] <==> d.value == []
    ensures content != [] ==> d.value[0] == Group([]) && d.value[1..] == content
    ensures Flatten(d.value) == Flatten(content)
  {
    if content == [] then Dialog(question, commands, icon, [])
    else
      FlattenAppend([Group([])], content);
      assert ([Group([])] + content)[1..] == content;
      Dialog(question, commands, icon, [Group([])] + content)
  }
}
