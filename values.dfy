/** Python values as the modelled code sees them, and an Option type. */
module Values {

  datatype Option<+T> = None | Some(value: T)

  /** One key/value pair of a Python dict, in insertion order. */
  datatype Entry = Entry(key: Value, val: Value)

  /** A Python value. `Date` and `DateTime` stand for `datetime.date` and
      `datetime.datetime`; `Callable` for any function or bound method;
      `Object` for any other instance (its class name and attributes). */
  datatype Value =
    | Null
    | Bool(b: bool)
    | Int(i: int)
    | Float(f: real)
    | Complex(re: real, im: real)
    | Str(s: string)
    | Bytes(bytes: seq<int>)
    | Date(day: int)
    | DateTime(stamp: int)
    | List(items: seq<Value>)
    | Tuple(items: seq<Value>)
    | Dict(entries: seq<Entry>)
    | Callable(fname: string)
    | Object(cls: string, fields: map<string, Value>)

  /** Python's `bool(v)`. */
  predicate Truthy(v: Value) {
    match v
    case Null => false
    case Bool(b) => b
    case Int(i) => i != 0
    case Float(f) => f != 0.0
    case Complex(re, im) => re != 0.0 || im != 0.0
    case Str(s) => s != ""
    case Bytes(bs) => bs != []
    case List(xs) => xs != []
    case Tuple(xs) => xs != []
    case Dict(es) => es != []
    case _ => true
  }

  /** `isinstance(v, numbers.Number)`: bool is a subclass of int. */
  predicate IsNumber(v: Value) {
    v.Bool? || v.Int? || v.Float? || v.Complex?
  }

  /** `isinstance(v, list | tuple)`. */
  predicate IsSequence(v: Value) {
    v.List? || v.Tuple?
  }

  /** The elements that iterating over a list, tuple or dict yields (dict: its keys). */
  function Elements(v: Value): seq<Value>
  {
    match v
    case List(xs) => xs
    case Tuple(xs) => xs
    case Dict(es) => seq(|es|, i requires 0 <= i < |es| => es[i].key)
    case _ => []
  }

  /** `len(v)` for the sized values; None where Python raises TypeError. */
  function Len(v: Value): Option<nat>
  {
    match v
    case Str(s) => Some(|s|)
    case Bytes(bs) => Some(|bs|)
    case List(xs) => Some(|xs|)
    case Tuple(xs) => Some(|xs|)
    case Dict(es) => Some(|es|)
    case _ => None
  }

  /** The position `lst[i]` reads in a list of length `n`, if any. */
  function PyIndex(n: nat, i: int): (r: Option<nat>)
    ensures r.Some? <==> -(n as int) <= i < n
    ensures r.Some? ==> r.value < n && (if i < 0 then r.value == i + n else r.value == i)
  {
    if 0 <= i < n then Some(i) else if -(n as int) <= i < 0 then Some(i + n) else None
  }

  /** A slice bound as Python normalises it. */
  function Clamp(i: int, n: nat): nat {
    if i < 0 then (if i + n < 0 then 0 else i + n) else if i > n then n else i
  }

  /** `s[lo:hi]` with Python's treatment of negative and large bounds. */
  function PySlice<T>(s: seq<T>, lo: int, hi: int): seq<T> {
    var a := Clamp(lo, |s|);
    var b := Clamp(hi, |s|);
    if a < b then s[a..b] else []
  }

  // ---------------------------------------------------------------------
  // Item and attribute access

  /** `str.lower()` on one character, for ASCII letters. */
  function LowerChar(c: char): char {
    if 'A' <= c <= 'Z' then (c as int + 32) as char else c
  }

  function Lower(s: string): string {
    seq(|s|, i requires 0 <= i < |s| => LowerChar(s[i]))
  }

  /** The integer a list subscript stands for (a bool counts as 0 or 1). */
  function AsIndex(key: Value): Option<int> {
    match key
    case Int(i) => Some(i)
    case Bool(b) => Some(if b then 1 else 0)
    case _ => None
  }

  /** The position of the first dict entry with key `k`, or -1. */
  function EntryIndex(es: seq<Entry>, k: Value): (r: int)
    ensures -1 <= r < |es|
    ensures r >= 0 ==> es[r].key == k && forall j :: 0 <= j < r ==> es[j].key != k
    ensures r == -1 <==> forall j :: 0 <= j < |es| ==> es[j].key != k
  {
    if es == [] then -1
    else if es[0].key == k then 0
    else
      var r := EntryIndex(es[1..], k);
      if r < 0 then -1 else r + 1
  }

  /** `v[key]` on a list, tuple or dict; None where Python raises. */
  function PyGetItem(v: Value, key: Value): Option<Value> {
    match v
    case List(xs) =>
      (match AsIndex(key)
       case Some(i) => (match PyIndex(|xs|, i) case Some(p) => Some(xs[p]) case None => None)
       case None => None)
    case Tuple(xs) =>
      (match AsIndex(key)
       case Some(i) => (match PyIndex(|xs|, i) case Some(p) => Some(xs[p]) case None => None)
       case None => None)
    case Dict(es) =>
      var r := EntryIndex(es, key);
      if r < 0 then None else Some(es[r].val)
    case _ => None
  }

  /** `v[key] = x` on a list or dict: the new value, or None where Python raises. */
  function PySetItem(v: Value, key: Value, x: Value): Option<Value> {
    match v
    case List(xs) =>
      (match AsIndex(key)
       case Some(i) => (match PyIndex(|xs|, i) case Some(p) => Some(List(xs[p := x])) case None => None)
       case None => None)
    case Dict(es) =>
      var r := EntryIndex(es, key);
      if r < 0 then Some(Dict(es + [Entry(key, x)])) else Some(Dict(es[r := Entry(key, x)]))
    case _ => None
  }

  /** `del v[key]` on a list or dict. */
  function PyDelItem(v: Value, key: Value): Option<Value> {
    match v
    case List(xs) =>
      (match AsIndex(key)
       case Some(i) => (match PyIndex(|xs|, i) case Some(p) => Some(List(xs[..p] + xs[p + 1..])) case None => None)
       case None => None)
    case Dict(es) =>
      var r := EntryIndex(es, key);
      if r < 0 then None else Some(Dict(es[..r] + es[r + 1..]))
    case _ => None
  }

  /** A written item reads back. */
  lemma SetItemThenGet(v: Value, key: Value, x: Value)
    requires PySetItem(v, key, x).Some?
    ensures PyGetItem(PySetItem(v, key, x).value, key) == Some(x)
  {
    if v.Dict? {
      var es := v.entries;
      var r := EntryIndex(es, key);
      if r < 0 {
        var es2 := es + [Entry(key, x)];
        assert es2[|es|].key == key;
        assert forall j :: 0 <= j < |es| ==> es2[j] == es[j];
        var r2 := EntryIndex(es2, key);
        assert r2 != -1;
        assert r2 == |es|;
      } else {
        var es2 := es[r := Entry(key, x)];
        assert es2[r].key == key;
        assert forall j :: 0 <= j < r ==> es2[j] == es[j];
        var r2 := EntryIndex(es2, key);
        assert r2 != -1;
        assert r2 == r;
      }
    }
  }

  /** Writing an item keeps the length of a list and grows a dict only by a new key. */
  lemma SetItemLength(v: Value, key: Value, x: Value)
    requires PySetItem(v, key, x).Some?
    ensures v.List? ==> Len(PySetItem(v, key, x).value) == Len(v)
    ensures v.Dict? ==>
      Len(PySetItem(v, key, x).value).value == Len(v).value + (if PyGetItem(v, key).None? then 1 else 0)
  {
  }

  /** Deleting an item shortens the value by one. */
  lemma DelItemLength(v: Value, key: Value)
    requires PyDelItem(v, key).Some?
    ensures Len(PyDelItem(v, key).value).value + 1 == Len(v).value
  {
  }

  /** `getattr(v, name)` for an attribute of an instance. */
  function PyGetAttr(v: Value, name: string): Option<Value> {
    match v
    case Object(_, fields) => if name in fields then Some(fields[name]) else None
    case _ => None
  }

  /** `setattr(v, name, x)` on an instance; None where Python raises. */
  function PySetAttr(v: Value, name: string, x: Value): Option<Value> {
    match v
    case Object(cls, fields) => Some(Object(cls, fields[name := x]))
    case _ => None
  }

  /** One step from a value to a part of it: a subscript or an attribute. */
  datatype Step = Item(key: Value) | Field(name: string)

  function Follow(v: Value, s: Step): Option<Value> {
    match s
    case Item(k) => PyGetItem(v, k)
    case Field(n) => PyGetAttr(v, n)
  }

  /** The part of `v` a path of steps leads to. */
  function At(v: Value, path: seq<Step>): Option<Value>
    decreases |path|
  {
    if path == [] then Some(v)
    else match Follow(v, path[0])
      case Some(u) => At(u, path[1..])
      case None => None
  }

  /** Following `p + q` is following `p`, then `q`. */
  lemma {:induction false} AtConcat(v: Value, p: seq<Step>, q: seq<Step>)
    ensures At(v, p + q) == (match At(v, p) case Some(u) => At(u, q) case None => None)
    decreases |p|
  {
    if p == [] {
      assert p + q == q;
    } else {
      assert (p + q)[0] == p[0];
      assert (p + q)[1..] == p[1..] + q;
      match Follow(v, p[0])
      case Some(u) =>
        AtConcat(u, p[1..], q);
        assert At(v, p + q) == At(u, p[1..] + q);
        assert At(v, p) == At(u, p[1..]);
      case None =>
        assert At(v, p + q) == None;
    }
  }

  /** `v` with its part at step `s` replaced by `x` (a tuple element too:
      a list inside a tuple is changed in place). */
  function Rebuild(v: Value, s: Step, x: Value): Option<Value> {
    match s
    case Item(k) =>
      (match v
       case Tuple(xs) =>
         (match AsIndex(k)
          case Some(i) => (match PyIndex(|xs|, i) case Some(p) => Some(Tuple(xs[p := x])) case None => None)
          case None => None)
       case _ => PySetItem(v, k, x))
    case Field(n) => PySetAttr(v, n, x)
  }

  /** What a write through a proxy does to the object it wraps. */
  datatype Change =
    | PutItem(key: Value, x: Value)
    | DropItem(key: Value)
    | PutField(name: string, x: Value)
    | ExtendBy(items: seq<Value>)

  function Apply(v: Value, c: Change): Option<Value> {
    match c
    case PutItem(k, x) => PySetItem(v, k, x)
    case DropItem(k) => PyDelItem(v, k)
    case PutField(n, x) => PySetAttr(v, n, x)
    case ExtendBy(items) => if v.List? then Some(List(v.items + items)) else None
  }

  /** `v` with the change applied to its part at `path`; None when the path
      does not lead anywhere or the change raises. */
  function UpdateAt(v: Value, path: seq<Step>, c: Change): Option<Value>
    decreases |path|
  {
    if path == [] then Apply(v, c)
    else match Follow(v, path[0])
      case None => None
      case Some(u) =>
        match UpdateAt(u, path[1..], c)
        case None => None
        case Some(u2) => Rebuild(v, path[0], u2)
  }

  /** Putting a part back where it was read from makes it readable there. */
  lemma RebuildThenFollow(v: Value, s: Step, x: Value)
    requires Follow(v, s).Some? && Rebuild(v, s, x).Some?
    ensures Follow(Rebuild(v, s, x).value, s) == Some(x)
  {
    if s.Item? && !v.Tuple? {
      SetItemThenGet(v, s.key, x);
    }
  }

  /** A part that can be read can be put back. */
  lemma FollowThenRebuild(v: Value, s: Step, x: Value)
    requires Follow(v, s).Some?
    ensures Rebuild(v, s, x).Some?
  {
  }

  /** An update succeeds exactly when the path leads somewhere and the
      change applies there. */
  lemma {:induction false} UpdateAtSucceeds(v: Value, path: seq<Step>, c: Change)
    ensures UpdateAt(v, path, c).Some? <==> At(v, path).Some? && Apply(At(v, path).value, c).Some?
    decreases |path|
  {
    if path != [] {
      match Follow(v, path[0])
      case None =>
      case Some(u) =>
        UpdateAtSucceeds(u, path[1..], c);
        if UpdateAt(u, path[1..], c).Some? {
          FollowThenRebuild(v, path[0], UpdateAt(u, path[1..], c).value);
        }
    }
  }

  /** An update at a path changes exactly the part the path leads to: reading
      that part afterwards gives the changed part. */
  lemma {:induction false} UpdateAtChanges(v: Value, path: seq<Step>, c: Change)
    requires UpdateAt(v, path, c).Some?
    ensures At(v, path).Some? && Apply(At(v, path).value, c).Some?
    ensures At(UpdateAt(v, path, c).value, path) == Apply(At(v, path).value, c)
    decreases |path|
  {
    if path != [] {
      var u := Follow(v, path[0]).value;
      UpdateAtChanges(u, path[1..], c);
      var u2 := UpdateAt(u, path[1..], c).value;
      RebuildThenFollow(v, path[0], u2);
    }
  }
}
