/** Helpers shared by the whole engine: nested layouts, handler composition,
    request records and outbound update messages. */
module Common {
  import opened Values

  /** A possibly nested Python list (or tuple) of items, as layouts are written. */
  datatype Nested<T> = Leaf(item: T) | Group(items: seq<Nested<T>>)

  /** `flatten`: the non-list leaves of a nested layout, left to right. */
  function Flatten<T>(arr: seq<Nested<T>>): (r: seq<T>)
    ensures arr != [] && arr[0].Leaf? ==> r != [] && r[0] == arr[0].item
    ensures arr != [] && arr[|arr| - 1].Leaf? ==> r != [] && r[|r| - 1] == arr[|arr| - 1].item
  {
    if arr == [] then []
    else (match arr[0] case Leaf(x) => [x] case Group(xs) => Flatten(xs)) + Flatten(arr[1..])
  }

  /** Flattening distributes over concatenation, so the order of leaves is kept. */
  lemma {:induction false} FlattenAppend<T>(a: seq<Nested<T>>, b: seq<Nested<T>>)
    ensures Flatten(a + b) == Flatten(a) + Flatten(b)
  {
    if a == [] {
      assert a + b == b;
    } else {
      assert (a + b)[0] == a[0];
      assert (a + b)[1..] == a[1..] + b;
      FlattenAppend(a[1..], b);
    }
  }

  /** A layout of plain leaves flattens to those leaves. */
  lemma {:induction false} FlattenLeaves<T>(xs: seq<T>)
    ensures Flatten(seq(|xs|, i requires 0 <= i < |xs| => Leaf(xs[i]))) == xs
  {
    var ls := seq(|xs|, i requires 0 <= i < |xs| => Leaf(xs[i]));
    if xs != [] {
      assert ls[1..] == seq(|xs[1..]|, i requires 0 <= i < |xs[1..]| => Leaf(xs[1..][i]));
      FlattenLeaves(xs[1..]);
    }
  }

  /** Wrapping a layout in one more list level changes nothing. */
  lemma FlattenGroup<T>(xs: seq<Nested<T>>)
    ensures Flatten([Group(xs)]) == Flatten(xs)
  {
    assert [Group(xs)][1..] == [];
  }

  /** `index_of`: the first index of `target`, or -1 when it is absent. */
  function IndexOf<T(==)>(lst: seq<T>, target: T): (r: int)
    ensures -1 <= r < |lst|
    ensures r == -1 <==> target !in lst
    ensures 0 <= r ==> r < |lst| && lst[r] == target && target !in lst[..r]
  {
    if lst == [] then -1
    else if lst[0] == target then 0
    else
      var k := IndexOf(lst[1..], target);
      assert lst[1..] == lst[..|lst|][1..];
      if k == -1 then -1
      else
        assert lst[..k + 1] == [lst[0]] + lst[1..][..k];
        k + 1
  }

  /** What a handler returned, as `compose_handlers` tells results apart:
      `UpdateScreen` (True) and `Redesign` (2) stop the chain; a list or tuple
      is flattened; any other truthy object is one result; None and other
      falsy values contribute nothing. */
  datatype Reply<U> =
    | NoReply
    | UpdateScreen
    | Redesign
    | One(obj: U)
    | Many(items: seq<Nested<U>>)

  /** The composed handler's return value: a stop signal, the list of the
      collected objects (a Python set, hence no order) or None. */
  datatype Composed<U> = ScreenUpdate | ScreenRedesign | Objects(objs: set<U>) | NoObjects

  predicate IsSignal<U>(r: Reply<U>) {
    r.UpdateScreen? || r.Redesign?
  }

  /** The objects one non-signal result adds to the set. */
  function Contribution<U>(r: Reply<U>): set<U>
  {
    match r
    case One(u) => {u}
    case Many(items) => set x | x in Flatten(items)
    case _ => {}
  }

  /** The union of the contributions of a run of results. */
  function Gathered<U>(rs: seq<Reply<U>>): set<U>
  {
    if rs == [] then {} else Gathered(rs[..|rs| - 1]) + Contribution(rs[|rs| - 1])
  }

  /** The index of the first stop signal among the results. */
  function FirstSignal<U>(rs: seq<Reply<U>>): (k: nat)
    requires exists i :: 0 <= i < |rs| && IsSignal(rs[i])
    ensures k < |rs| && IsSignal(rs[k])
    ensures forall j :: 0 <= j < k ==> !IsSignal(rs[j])
  {
    if IsSignal(rs[0]) then 0 else
      assert exists i :: 0 <= i < |rs[1..]| && IsSignal(rs[1..][i]) by {
        var i :| 0 <= i < |rs| && IsSignal(rs[i]);
        assert rs[1..][i - 1] == rs[i];
      }
      1 + FirstSignal(rs[1..])
  }

  /** `compose_handlers`: run the handlers in order on `obj` (their results
      are `results`, the i-th known only once the i-th ran) and fold the
      results. `ran` is how many handlers ran before the composition
      returned, and `args` the object each of them was called with: always
      `obj`, where the code as written passes the rebound loop variable
      (see `ObjAfter`). */
  method ComposeHandlers<U>(obj: U, results: seq<Reply<U>>) returns (r: Composed<U>, ran: nat, args: seq<U>)
    ensures (exists i :: 0 <= i < |results| && IsSignal(results[i])) ==>
      var k := FirstSignal(results);
      ran == k + 1 && r == (if results[k].UpdateScreen? then ScreenUpdate else ScreenRedesign)
    ensures (forall i :: 0 <= i < |results| ==> !IsSignal(results[i])) ==>
      ran == |results| &&
      r == (if Gathered(results) == {} then NoObjects else Objects(Gathered(results)))
    ensures |args| == ran && forall i :: 0 <= i < ran ==> args[i] == obj
  {
    var objs: set<U> := {};
    var k := 0;
    args := [];
    while k < |results|
      invariant 0 <= k <= |results|
      invariant forall j :: 0 <= j < k ==> !IsSignal(results[j])
      invariant objs == Gathered(results[..k])
      invariant |args| == k && forall j :: 0 <= j < k ==> args[j] == obj
    {
      args := args + [obj];
      var result := results[k];
      if result.UpdateScreen? {
        return ScreenUpdate, k + 1, args;
      } else if result.Redesign? {
        return ScreenRedesign, k + 1, args;
      }
      match result {
        case Many(items) =>
          var leaves := Flatten(items);
          var i := 0;
          var before := objs;
          while i < |leaves|
            invariant 0 <= i <= |leaves|
            invariant objs == before + set x | x in leaves[..i]
          {
            objs := objs + {leaves[i]};
            assert leaves[..i + 1] == leaves[..i] + [leaves[i]];
            i := i + 1;
          }
          assert leaves[..i] == leaves;
        case One(u) =>
          objs := objs + {u};
        case _ =>
      }
      assert results[..k + 1][..k] == results[..k];
      k := k + 1;
    }
    assert results[..k] == results;
    if objs != {} {
      r := Objects(objs);
    } else {
      r := NoObjects;
    }
    ran := k;
  }

  /** What `obj` is bound to inside `compose` after the results `rs`, as
      written: `for obj in flatten(result)` reuses the composed handler's
      own parameter, so each non-empty list result rebinds it to its last
      leaf, and the next handler is called with that leaf. */
  function ObjAfter<U>(obj: U, rs: seq<Reply<U>>): U
  {
    if rs == [] then obj
    else
      var o := ObjAfter(obj, rs[..|rs| - 1]);
      match rs[|rs| - 1]
      case Many(items) =>
        var leaves := Flatten(items);
        if leaves == [] then o else leaves[|leaves| - 1]
      case _ => o
  }

  /** As written, a handler that returns a list of units makes the next
      handler run on the last of them instead of on `obj`; results that are
      not lists leave `obj` alone. */
  lemma ComposeRebindsObj<U>(obj: U, other: U, rs: seq<Reply<U>>)
    requires obj != other
    requires forall i :: 0 <= i < |rs| ==> !rs[i].Many?
    ensures ObjAfter(obj, rs) == obj
    ensures ObjAfter(obj, [Many([Leaf(other)])]) == other != obj
  {
    ObjAfterNoLists(obj, rs);
    assert [Many([Leaf(other)])][..0] == [];
    assert Flatten([Leaf(other)]) == [other] by {
      assert [Leaf(other)][1..] == [];
    }
  }

  lemma {:induction false} ObjAfterNoLists<U>(obj: U, rs: seq<Reply<U>>)
    requires forall i :: 0 <= i < |rs| ==> !rs[i].Many?
    ensures ObjAfter(obj, rs) == obj
  {
    if rs != [] {
      ObjAfterNoLists(obj, rs[..|rs| - 1]);
    }
  }

  /** `equal_dicts`: same keys and equal values under each key. */
  predicate EqualDicts<K, V(==)>(d1: map<K, V>, d2: map<K, V>) {
    d1.Keys == d2.Keys && forall k :: k in d1 ==> d1[k] == d2[k]
  }

  /** Dict comparison key by key is exactly equality of the dicts. */
  lemma EqualDictsIsEquality<K, V>(d1: map<K, V>, d2: map<K, V>)
    ensures EqualDicts(d1, d2) <==> d1 == d2
  {
    if EqualDicts(d1, d2) {
      assert forall k :: k in d1 <==> k in d2;
    }
  }

  /** An inbound request (`ArgObject`/`ReceivedMessage`); an attribute the
      client did not send reads as None. */
  datatype Request = Request(
    block: Option<string>,
    element: Option<string>,
    event: Option<string>,
    value: Value,
    screen: Option<string>)

  /** `screen_type`: a screen switch request. */
  predicate ScreenType(m: Request) {
    m.block == Some("root") && m.element.None?
  }

  /** `voice_type`: a voice command request. */
  predicate VoiceType(m: Request) {
    m.block == Some("voice") && m.element.None?
  }

  /** The default a list of defaults gives for `k`: the first one naming it. */
  function FirstDefault(defaults: seq<(string, Value)>, k: string): Option<Value>
  {
    if defaults == [] then None
    else if defaults[0].0 == k then Some(defaults[0].1)
    else FirstDefault(defaults[1..], k)
  }

  /** A key that no default names has no default. */
  lemma {:induction false} FirstDefaultMissing(ds: seq<(string, Value)>, k: string)
    requires forall d <- ds :: d.0 != k
    ensures FirstDefault(ds, k).None?
  {
    if ds != [] {
      assert ds[0] in ds;
      FirstDefaultMissing(ds[1..], k);
    }
  }

  /** Appending a default only matters for a key not named before. */
  lemma {:induction false} FirstDefaultSnoc(ds: seq<(string, Value)>, d: (string, Value), k: string)
    ensures FirstDefault(ds + [d], k) ==
      if FirstDefault(ds, k).Some? then FirstDefault(ds, k)
      else if d.0 == k then Some(d.1) else None
  {
    if ds == [] {
      assert ds + [d] == [d];
      assert [d][1..] == [];
    } else {
      assert (ds + [d])[1..] == ds[1..] + [d];
      FirstDefaultSnoc(ds[1..], d, k);
    }
  }

  /** `set_defaults`: every attribute not yet set receives its default;
      attributes already set keep their values. */
  method SetDefaults(attrs: map<string, Value>, defaults: seq<(string, Value)>) returns (r: map<string, Value>)
    ensures forall k :: k in r <==> k in attrs || FirstDefault(defaults, k).Some?
    ensures forall k :: k in r ==>
      r[k] == if k in attrs then attrs[k] else FirstDefault(defaults, k).value
  {
    r := attrs;
    var i := 0;
    while i < |defaults|
      invariant 0 <= i <= |defaults|
      invariant forall k :: k in r <==> k in attrs || FirstDefault(defaults[..i], k).Some?
      invariant forall k :: k in r ==>
        r[k] == if k in attrs then attrs[k] else FirstDefault(defaults[..i], k).value
    {
      var (param, value) := defaults[i];
      assert defaults[..i + 1] == defaults[..i] + [defaults[i]];
      forall k {
        FirstDefaultSnoc(defaults[..i], defaults[i], k);
      }
      if param !in r {
        r := r[param := value];
      }
      i := i + 1;
    }
    assert defaults[..i] == defaults;
  }

  /** Python's `str.upper()` on one character, for ASCII letters. */
  function Upper(c: char): char {
    if 'a' <= c <= 'z' then (c as int - 32) as char else c
  }

  /** The character `replace('_', ' ')` puts in place of `c`. */
  function Unscore(c: char): char {
    if c == '_' then ' ' else c
  }

  function ReplaceUnderscores(s: string): (r: string)
    ensures |r| == |s|
    ensures forall i :: 0 <= i < |s| ==> r[i] == Unscore(s[i])
  {
    if s == [] then [] else [Unscore(s[0])] + ReplaceUnderscores(s[1..])
  }

  /** `pretty4`: drop one leading `_`, turn `_` into spaces and upper-case the
      first character; None where Python raises IndexError (nothing left). */
  function Pretty4(name: string): (r: Option<string>)
    ensures var base := if |name| > 0 && name[0] == '_' then name[1..] else name;
      && (r.None? <==> base == [])
      && (r.Some? ==>
            && |r.value| == |base|
            && r.value[0] == Upper(Unscore(base[0]))
            && (forall i :: 1 <= i < |base| ==> r.value[i] == Unscore(base[i]))
            && '_' !in r.value)
  {
    var base := if |name| > 0 && name[0] == '_' then name[1..] else name;
    var pretty := ReplaceUnderscores(base);
    if pretty == [] then None
    else Some([Upper(pretty[0])] + pretty[1..])
  }

  /** `Pretty4` on a name that has something after its optional `_`. */
  function Pretty(name: string): string
    requires name != [] && name != "_"
  {
    Pretty4(name).value
  }

  /** One entry of `Message.updates`: the unit and, once resolved, its path. */
  datatype UpdateEntry<U> = UpdateEntry(data: U, path: Option<seq<string>>)

  /** `set_updates`: one path-less entry per unit, in the given order. */
  function UpdatesOf<U>(units: seq<U>): (r: seq<UpdateEntry<U>>)
    ensures |r| == |units|
    ensures forall i :: 0 <= i < |units| ==> r[i] == UpdateEntry(units[i], None)
  {
    seq(|units|, i requires 0 <= i < |units| => UpdateEntry(units[i], None))
  }

  /** A find-path result counts as found when it is a non-empty list. */
  predicate Resolved(p: Option<seq<string>>) {
    p.Some? && p.value != []
  }

  /** The entries `fill_paths4` keeps, each with its path attached. */
  function Visible<U>(updates: seq<UpdateEntry<U>>, findPath: U -> Option<seq<string>>): (r: seq<UpdateEntry<U>>)
    ensures |r| <= |updates|
    ensures forall e :: e in r ==> Resolved(e.path) && e.path == findPath(e.data)
  {
    if updates == [] then []
    else
      var rest := Visible(updates[1..], findPath);
      var p := findPath(updates[0].data);
      if Resolved(p) then [UpdateEntry(updates[0].data, p)] + rest else rest
  }

  /** An outbound message (`Message`, and `TypeMessage` with its `value`). */
  class Message<U(==)> {
    var mtype: string
    var value: Option<Value>
    var updates: seq<UpdateEntry<U>>

    /** `Message(*units, type=...)` without a user: no paths yet. */
    constructor (units: seq<U>, mtype: string)
      ensures this.mtype == mtype && value.None? && updates == UpdatesOf(units)
    {
      this.mtype := mtype;
      value := None;
      updates := UpdatesOf(units);
    }

    /** `set_updates`. */
    method SetUpdates(units: seq<U>)
      modifies this
      ensures updates == UpdatesOf(units)
      ensures mtype == old(mtype) && value == old(value)
    {
      updates := UpdatesOf(units);
    }

    /** `fill_paths4`: give each resolvable update its path and drop the
        others, which are returned (each is logged as a warning). */
    method FillPaths(findPath: U -> Option<seq<string>>) returns (invisible: seq<U>)
      modifies this
      ensures updates == Visible(old(updates), findPath)
      ensures forall u :: u in invisible <==>
        exists e :: e in old(updates) && e.data == u && !Resolved(findPath(u))
      ensures mtype == old(mtype) && value == old(value)
    {
      var kept: seq<UpdateEntry<U>> := [];
      invisible := [];
      var i := |updates|;
      while i > 0
        invariant 0 <= i <= |updates|
        invariant updates == old(updates)
        invariant kept == Visible(updates[i..], findPath)
        invariant forall u :: u in invisible <==>
          exists e :: e in updates[i..] && e.data == u && !Resolved(findPath(u))
      {
        i := i - 1;
        var data := updates[i].data;
        var path := findPath(data);
        assert updates[i..][1..] == updates[i + 1..];
        if Resolved(path) {
          kept := [UpdateEntry(data, path)] + kept;
        } else {
          invisible := [data] + invisible;
        }
        assert forall e :: e in updates[i..] <==> e == updates[i] || e in updates[i + 1..];
      }
      updates := kept;
    }

    /** `contains`: whether the unit itself is among the updates. */
    function Contains(unit: U): (r: bool)
      reads this
      ensures r <==> exists i :: 0 <= i < |updates| && updates[i].data == unit
    {
      exists i :: 0 <= i < |updates| && updates[i].data == unit
    }
  }

  /** The sequence with the first item called `name` removed. */
  function RemoveFirstNamed<T>(xs: seq<T>, name: string, nameOf: T -> string): seq<T>
  {
    if xs == [] then []
    else if nameOf(xs[0]) == name then xs[1..]
    else [xs[0]] + RemoveFirstNamed(xs[1..], name, nameOf)
  }

  /** `delete_unit` (on values): remove the first unit called `name` from a
      nested list, dropping a sub-list that became empty; the flag says
      whether anything was removed. */
  function DeleteUnit<T>(units: seq<Nested<T>>, name: string, nameOf: T -> string): (r: (seq<Nested<T>>, bool))
    ensures !r.1 ==> r.0 == units
    ensures |r.0| <= |units|
  {
    if units == [] then (units, false)
    else match units[0]
      case Group(xs) =>
        var (ys, found) := DeleteUnit(xs, name, nameOf);
        if found then ((if ys == [] then [] else [Group(ys)]) + units[1..], true)
        else
          var (rest, f) := DeleteUnit(units[1..], name, nameOf);
          ([units[0]] + rest, f)
      case Leaf(u) =>
        if nameOf(u) == name then (units[1..], true)
        else
          var (rest, f) := DeleteUnit(units[1..], name, nameOf);
          ([units[0]] + rest, f)
  }

  /** `delete_unit` removes exactly the first unit of that name, in flattened
      order, and reports whether there was one. */
  lemma {:induction false} DeleteUnitRemovesFirst<T>(units: seq<Nested<T>>, name: string, nameOf: T -> string)
    ensures var (r, found) := DeleteUnit(units, name, nameOf);
      && (found <==> exists u :: u in Flatten(units) && nameOf(u) == name)
      && Flatten(r) == RemoveFirstNamed(Flatten(units), name, nameOf)
  {
    if units != [] {
      FlattenAppend([units[0]], units[1..]);
      assert [units[0]] + units[1..] == units;
      match units[0]
      case Group(xs) =>
        DeleteUnitRemovesFirst(xs, name, nameOf);
        DeleteUnitRemovesFirst(units[1..], name, nameOf);
        assert Flatten([units[0]]) == Flatten(xs) by { FlattenGroup(xs); }
        var (ys, found) := DeleteUnit(xs, name, nameOf);
        if found {
          RemoveFirstAppendFound(Flatten(xs), Flatten(units[1..]), name, nameOf);
          if ys == [] {
            var empty: seq<Nested<T>> := [];
            assert empty + units[1..] == units[1..];
          } else {
            FlattenAppend([Group(ys)], units[1..]);
            FlattenGroup(ys);
          }
        } else {
          RemoveFirstAppendMissing(Flatten(xs), Flatten(units[1..]), name, nameOf);
          var (rest, f) := DeleteUnit(units[1..], name, nameOf);
          FlattenAppend([units[0]], rest);
        }
      case Leaf(u) =>
        DeleteUnitRemovesFirst(units[1..], name, nameOf);
        assert Flatten([units[0]]) == [u];
        if nameOf(u) != name {
          var (rest, f) := DeleteUnit(units[1..], name, nameOf);
          FlattenAppend([units[0]], rest);
        }
    }
  }

  /** Removing the first named item from a concatenation whose first part
      holds one touches only that part. */
  lemma {:induction false} RemoveFirstAppendFound<T>(a: seq<T>, b: seq<T>, name: string, nameOf: T -> string)
    requires exists u :: u in a && nameOf(u) == name
    ensures RemoveFirstNamed(a + b, name, nameOf) == RemoveFirstNamed(a, name, nameOf) + b
  {
    assert (a + b)[0] == a[0];
    assert (a + b)[1..] == a[1..] + b;
    if nameOf(a[0]) != name {
      var u :| u in a && nameOf(u) == name;
      assert u in a[1..];
      RemoveFirstAppendFound(a[1..], b, name, nameOf);
    }
  }

  /** Without a named item in the first part, the second part loses its
      first named item. */
  lemma {:induction false} RemoveFirstAppendMissing<T>(a: seq<T>, b: seq<T>, name: string, nameOf: T -> string)
    requires forall u :: u in a ==> nameOf(u) != name
    ensures RemoveFirstNamed(a + b, name, nameOf) == a + RemoveFirstNamed(b, name, nameOf)
  {
    if a == [] {
      assert a + b == b;
    } else {
      assert (a + b)[0] == a[0];
      assert (a + b)[1..] == a[1..] + b;
      assert a[0] in a;
      RemoveFirstAppendMissing(a[1..], b, name, nameOf);
    }
  }
}
