/** A session of unisi/users.py: how it finds units on its screen, which
    changes it registers, how it folds a handler's result into one message,
    how it joins and leaves a group of sessions sharing one screen, and how
    table patches fan out to sessions. The units are snapshots with an
    identity; their own reactive behaviour is modelled in `Units`. */
module Users {
  import opened Values
  import opened Common

  /** A unit as a session sees it: an identity (`uid`; units compare by
      identity), its name, its type and its other attributes. */
  datatype Elem = Elem(uid: nat, name: string, utype: string, attrs: map<string, Value>)

  /** A block (or dialog): a unit whose value lays out its elements. */
  datatype Block = Block(unit: Elem, value: seq<Nested<Elem>>)

  /** A screen: its unit (type `'screen'`), its block layout and toolbar. */
  datatype Screen = Screen(unit: Elem, blocks: seq<Nested<Block>>, toolbar: seq<Elem>)

  /** A loaded screen module: an identity, its `name` and its `screen`. */
  datatype Module = Module(uid: nat, name: string, screen: Screen)

  /** `screen_module`: None, the empty list a session joining a share
      without screens gets (a list of its own, identical to no other), or a
      module. */
  datatype ModuleRef = NoModule | EmptyList | Loaded(m: Module)

  /** `a is b` for two `screen_module` values of different sessions. */
  predicate SameModule(a: ModuleRef, b: ModuleRef) {
    a == b && !a.EmptyList?
  }

  // ---------------------------------------------------------------------
  // Finding units

  /** The `blocks` property: an active dialog with a non-empty value comes
      first, before the screen's blocks. */
  function BlocksOf(dialog: Option<Block>, screen: Screen): (r: seq<Nested<Block>>)
    ensures dialog.Some? && dialog.value.value != [] ==>
      Flatten(r) == [dialog.value] + Flatten(screen.blocks)
    ensures !(dialog.Some? && dialog.value.value != []) ==> r == screen.blocks
  {
    if dialog.Some? && dialog.value.value != [] then
      FlattenAppend([Leaf(dialog.value)], screen.blocks);
      [Leaf(dialog.value)] + screen.blocks
    else screen.blocks
  }

  /** The first unit of `xs` called `name`, by position; -1 when none is
      (a missing name matches nothing). */
  function FirstNamed(xs: seq<Elem>, name: Option<string>): (r: int)
    ensures -1 <= r < |xs|
    ensures r == -1 <==> forall i :: 0 <= i < |xs| ==> name != Some(xs[i].name)
    ensures r >= 0 ==> name == Some(xs[r].name) && forall i :: 0 <= i < r ==> name != Some(xs[i].name)
  {
    if xs == [] then -1
    else if name == Some(xs[0].name) then 0
    else
      var k := FirstNamed(xs[1..], name);
      if k == -1 then -1 else k + 1
  }

  /** Whether an element name counts as given (`if not elname`). */
  predicate Given(name: Option<string>) {
    name.Some? && name.value != ""
  }

  /** The block loop of `find_element`: the first block called `blname`
      itself when no element name is given; else its first element called
      `elname`, the search going on to later blocks of that name when it
      has none. */
  function FindInBlocks(bls: seq<Block>, blname: Option<string>, elname: Option<string>): Option<Elem>
  {
    if bls == [] then None
    else if blname == Some(bls[0].unit.name) && !Given(elname) then Some(bls[0].unit)
    else if blname == Some(bls[0].unit.name) && FirstNamed(Flatten(bls[0].value), elname) >= 0 then
      Some(Flatten(bls[0].value)[FirstNamed(Flatten(bls[0].value), elname)])
    else FindInBlocks(bls[1..], blname, elname)
  }

  /** `find_element(message)` over the given blocks and toolbar. */
  function FindElement(blocks: seq<Nested<Block>>, toolbar: seq<Elem>, m: Request): (r: Option<Elem>)
    ensures m.block == Some("toolbar") ==>
      (r.Some? <==> exists i :: 0 <= i < |toolbar| && m.element == Some(toolbar[i].name)) &&
      (r.Some? ==> r.value in toolbar && m.element == Some(r.value.name))
  {
    if m.block == Some("toolbar") then
      var k := FirstNamed(toolbar, m.element);
      if k >= 0 then Some(toolbar[k]) else None
    else FindInBlocks(Flatten(blocks), m.block, m.element)
  }

  /** `path` is what `find_path` gives for a unit held by the `i`-th block. */
  predicate PathAt(bls: seq<Block>, i: int, e: Elem, path: seq<string>)
    requires 0 <= i < |bls|
  {
    (bls[i].unit == e && path == [e.name]) ||
    (bls[i].unit != e && e in Flatten(bls[i].value) && path == [bls[i].unit.name, e.name])
  }

  /** The block loop of `find_path`: the first block that is the unit, or
      holds it. */
  function PathInBlocks(bls: seq<Block>, e: Elem): (r: Option<seq<string>>)
    ensures r.Some? ==>
      exists i :: 0 <= i < |bls| && PathAt(bls, i, e, r.value)
    ensures r.None? <==> forall i :: 0 <= i < |bls| ==> bls[i].unit != e && e !in Flatten(bls[i].value)
  {
    if bls == [] then None
    else if bls[0].unit == e then
      assert PathAt(bls, 0, e, [e.name]);
      Some([e.name])
    else if IndexOf(Flatten(bls[0].value), e) >= 0 then
      assert PathAt(bls, 0, e, [bls[0].unit.name, e.name]);
      Some([bls[0].unit.name, e.name])
    else
      var r := PathInBlocks(bls[1..], e);
      assert forall i :: 1 <= i < |bls| ==> bls[i] == bls[1..][i - 1];
      assert r.Some? ==> exists i :: 0 <= i < |bls| && PathAt(bls, i, e, r.value) by {
        if r.Some? {
          var j :| 0 <= j < |bls[1..]| && PathAt(bls[1..], j, e, r.value);
          assert PathAt(bls, j + 1, e, r.value);
        }
      }
      r
  }

  /** `find_path(elem)`: `[block]`, `[block, element]` or
      `['toolbar', element]` for the first place the unit is found; None
      when it is not on the screen. */
  function FindPath(blocks: seq<Nested<Block>>, toolbar: seq<Elem>, e: Elem): (r: Option<seq<string>>)
    ensures r.Some? ==> 1 <= |r.value| <= 2 && r.value[|r.value| - 1] == e.name
    ensures r.None? <==>
      (e !in toolbar && forall b :: b in Flatten(blocks) ==> b.unit != e && e !in Flatten(b.value))
  {
    var p := PathInBlocks(Flatten(blocks), e);
    if p.Some? then p
    else if e in toolbar then Some(["toolbar", e.name])
    else None
  }

  /** The request that addresses a path (`block`, then `element` if any). */
  function PathRequest(path: seq<string>): Request
    requires path != []
  {
    Request(Some(path[0]), if |path| > 1 then Some(path[1]) else None, None, Null, None)
  }

  /** Names unique where `find_element` looks them up and never empty;
      no block is called `'toolbar'`. */
  predicate DistinctNames(xs: seq<Elem>) {
    forall i, j :: 0 <= i < j < |xs| ==> xs[i].name != xs[j].name
  }

  predicate WellNamed(bls: seq<Block>, toolbar: seq<Elem>) {
    && (forall i, j :: 0 <= i < j < |bls| ==> bls[i].unit.name != bls[j].unit.name)
    && (forall i :: 0 <= i < |bls| ==> bls[i].unit.name != "toolbar" && bls[i].unit.name != "")
    && (forall i :: 0 <= i < |bls| ==> DistinctNames(Flatten(bls[i].value)))
    && (forall i :: 0 <= i < |bls| ==> forall c :: c in Flatten(bls[i].value) ==> c.name != "")
    && DistinctNames(toolbar)
  }

  /** In a list of distinct names, looking a member's name up gives it. */
  lemma FirstNamedDistinct(xs: seq<Elem>, e: Elem)
    requires DistinctNames(xs) && e in xs
    ensures FirstNamed(xs, Some(e.name)) >= 0 && xs[FirstNamed(xs, Some(e.name))] == e
  {
    var j :| 0 <= j < |xs| && xs[j] == e;
    var k := FirstNamed(xs, Some(e.name));
    assert k >= 0;
    assert k <= j;
  }

  /** Looking up the block at position `i` (and an element of it) by name
      finds it, when block names are unique. */
  lemma FindInBlocksAt(bls: seq<Block>, toolbar: seq<Elem>, i: nat, elname: Option<string>)
    requires WellNamed(bls, toolbar) && i < |bls|
    ensures FindInBlocks(bls, Some(bls[i].unit.name), elname) ==
      if !Given(elname) then Some(bls[i].unit)
      else if FirstNamed(Flatten(bls[i].value), elname) >= 0 then
        Some(Flatten(bls[i].value)[FirstNamed(Flatten(bls[i].value), elname)])
      else FindInBlocks(bls[i + 1..], Some(bls[i].unit.name), elname)
    decreases i
  {
    if i > 0 {
      assert bls[0].unit.name != bls[i].unit.name;
      assert WellNamed(bls[1..], toolbar) by {
        forall a, b | 0 <= a < b < |bls[1..]| ensures bls[1..][a].unit.name != bls[1..][b].unit.name {
          assert bls[1..][a] == bls[a + 1] && bls[1..][b] == bls[b + 1];
        }
        forall a | 0 <= a < |bls[1..]| ensures DistinctNames(Flatten(bls[1..][a].value)) {
          assert bls[1..][a] == bls[a + 1];
        }
        forall a | 0 <= a < |bls[1..]| ensures bls[1..][a].unit.name != "toolbar" && bls[1..][a].unit.name != "" {
          assert bls[1..][a] == bls[a + 1];
        }
        forall a | 0 <= a < |bls[1..]| ensures forall c :: c in Flatten(bls[1..][a].value) ==> c.name != "" {
          assert bls[1..][a] == bls[a + 1];
        }
      }
      FindInBlocksAt(bls[1..], toolbar, i - 1, elname);
      assert bls[1..][i - 1] == bls[i];
      assert bls[1..][i - 1 + 1..] == bls[i + 1..];
    }
  }

  /** `find_element` undoes `find_path`: when block and element names are
      unique and non-empty, the request for a unit's path finds that unit. */
  lemma FindPathThenElement(blocks: seq<Nested<Block>>, toolbar: seq<Elem>, e: Elem)
    requires WellNamed(Flatten(blocks), toolbar)
    requires FindPath(blocks, toolbar, e).Some?
    ensures FindPath(blocks, toolbar, e).value != []
    ensures FindElement(blocks, toolbar, PathRequest(FindPath(blocks, toolbar, e).value)) == Some(e)
  {
    var bls := Flatten(blocks);
    var p := PathInBlocks(bls, e);
    if p.Some? {
      var i :| 0 <= i < |bls| && PathAt(bls, i, e, p.value);
      assert bls[i].unit.name != "toolbar";
      if bls[i].unit == e {
        FindInBlocksAt(bls, toolbar, i, None);
      } else {
        assert e.name != "";
        FirstNamedDistinct(Flatten(bls[i].value), e);
        FindInBlocksAt(bls, toolbar, i, Some(e.name));
      }
    } else {
      FirstNamedDistinct(toolbar, e);
    }
  }

  /** What `find_element` finds is on the screen: `find_path` resolves it. */
  lemma {:induction false} FoundInBlocksHasPath(bls: seq<Block>, blname: Option<string>, elname: Option<string>)
    requires FindInBlocks(bls, blname, elname).Some?
    ensures PathInBlocks(bls, FindInBlocks(bls, blname, elname).value).Some?
  {
    var e := FindInBlocks(bls, blname, elname).value;
    if bls[0].unit != e && IndexOf(Flatten(bls[0].value), e) < 0 {
      FoundInBlocksHasPath(bls[1..], blname, elname);
    }
  }

  lemma FoundHasPath(blocks: seq<Nested<Block>>, toolbar: seq<Elem>, m: Request)
    requires FindElement(blocks, toolbar, m).Some?
    ensures FindPath(blocks, toolbar, FindElement(blocks, toolbar, m).value).Some?
  {
    if m.block != Some("toolbar") {
      FoundInBlocksHasPath(Flatten(blocks), m.block, m.element);
    }
  }

  // ---------------------------------------------------------------------
  // Dispatching a request to an element

  /** The methods every unit has from its class. */
  const UnitMethods: set<string> :=
    {"specific_changed_register", "set_reactivity", "add", "mutate", "accept", "delattr", "emit", "add_changed_handler"}

  /** `hasattr(elem, a)`. */
  predicate HasAttr(e: Elem, a: string) {
    a in e.attrs || a == "name" || a == "type" || a in UnitMethods
  }

  /** `is_callable(getattr(elem, a))`: an instance attribute shadows a
      method of the class. */
  predicate CallableAttr(e: Elem, a: string) {
    if a in e.attrs then e.attrs[a].Callable? else a in UnitMethods
  }

  /** The events whose handler result goes back wrapped in `Answer`. */
  const AnsweredEvents: set<string> := {"complete", "append", "get"}

  /** What `process_element` does with a request for an element. */
  datatype Dispatch =
    | RunHandler(handler: Value)              // the registered handler is called
    | RunMethod(name: string, answered: bool) // the element's callable attribute is called
    | Assign(name: string, value: Value)      // the attribute is set; the result is None
    | NoMethod(event: string)                 // the `Error` "doesn't contain ... method type"
    | NoEvent                                 // no event: `hasattr` raises TypeError

  /** `process_element(elem, message)`. */
  function ProcessElement(handlers: map<(Elem, string), Value>, e: Elem, m: Request): (r: Dispatch)
    ensures m.event.None? <==> r.NoEvent?
    ensures m.event.Some? && (e, m.event.value) in handlers && Truthy(handlers[(e, m.event.value)]) ==>
      r == RunHandler(handlers[(e, m.event.value)])
    ensures r.RunHandler? ==> m.event.Some? && (e, m.event.value) in handlers && r.handler == handlers[(e, m.event.value)]
    ensures r.RunMethod? ==>
      m.event == Some(r.name) && CallableAttr(e, r.name) && (r.answered <==> r.name in AnsweredEvents)
    ensures r.Assign? ==>
      r.value == m.value && !CallableAttr(e, m.event.value) &&
      (r.name == m.event.value || (m.event == Some("changed") && !HasAttr(e, "changed") && r.name == "value"))
    ensures r.NoMethod? <==>
      m.event.Some? && !((e, m.event.value) in handlers && Truthy(handlers[(e, m.event.value)])) &&
      !HasAttr(e, m.event.value) && m.event.value != "changed"
  {
    match m.event
    case None => NoEvent
    case Some(ev) =>
      if (e, ev) in handlers && Truthy(handlers[(e, ev)]) then RunHandler(handlers[(e, ev)])
      else if HasAttr(e, ev) then
        if CallableAttr(e, ev) then RunMethod(ev, ev in AnsweredEvents) else Assign(ev, m.value)
      else if ev == "changed" then Assign("value", m.value)
      else NoMethod(ev)
  }

  // ---------------------------------------------------------------------
  // Registering changes and preparing results

  /** A change that only echoes the request being processed: the unit is
      its element, the property its event (`'value'` counts as
      `'changed'`) and the value its value. */
  predicate Echoes(last: Option<Request>, unit: Elem, property: Option<string>, value: Value) {
    var p := if property == Some("value") then Some("changed") else property;
    last.Some? && last.value.element == Some(unit.name) && last.value.event == p && last.value.value == value
  }

  /** What a handler returned, as `prepare_result` tells it apart. */
  datatype Raw =
    | RawNone
    | RawTrue
    | RawRedesign
    | RawMessage(m: Message<Elem>)
    | RawUnit(u: Elem)
    | RawUnits(us: seq<Elem>)
    | RawOther

  /** What `prepare_result` returns: the screen (with its `reload` flag), a
      message, None, or the raw result unchanged. */
  datatype Prepared = ScreenOut(screen: Screen, reload: bool) | MessageOut(m: Message<Elem>) | NoneOut | OtherOut

  /** `xs` lists the units of `s`, each once (a set turned into a list, in
      no particular order). */
  predicate Lists(xs: seq<Elem>, s: set<Elem>) {
    (forall x :: x in xs ==> x in s) && (forall x :: x in s ==> x in xs) &&
    forall i, j :: 0 <= i < j < |xs| ==> xs[i] != xs[j]
  }

  method ListOf(s: set<Elem>) returns (xs: seq<Elem>)
    ensures Lists(xs, s)
  {
    xs := [];
    var rest := s;
    while rest != {}
      invariant rest <= s
      invariant forall x :: x in xs <==> x in s && x !in rest
      invariant forall i, j :: 0 <= i < j < |xs| ==> xs[i] != xs[j]
      decreases rest
    {
      var x :| x in rest;
      xs := xs + [x];
      rest := rest - {x};
    }
  }

  /** `find_path` of a session with this dialog and screen. */
  function Finder(dialog: Option<Block>, screen: Screen): Elem -> Option<seq<string>> {
    e => FindPath(BlocksOf(dialog, screen), screen.toolbar, e)
  }

  /** The units a list of updates carries. */
  function DataOf(updates: seq<UpdateEntry<Elem>>): set<Elem> {
    set i | 0 <= i < |updates| :: updates[i].data
  }

  /** `updates` are the updates a message built from the units of `s` and
      filled with paths has: one per unit in some order, those not on the
      screen dropped. */
  ghost predicate Folded(updates: seq<UpdateEntry<Elem>>, s: set<Elem>, find: Elem -> Option<seq<string>>) {
    exists xs :: Lists(xs, s) && updates == Visible(UpdatesOf(xs), find)
  }

  /** The updates of a filled message are exactly its units that have a
      path, each with its path. */
  lemma {:induction false} VisibleUnits(updates: seq<UpdateEntry<Elem>>, find: Elem -> Option<seq<string>>, u: Elem)
    ensures u in DataOf(Visible(updates, find)) <==> u in DataOf(updates) && Resolved(find(u))
  {
    if updates != [] {
      VisibleUnits(updates[1..], find, u);
      var rest := Visible(updates[1..], find);
      assert updates == [updates[0]] + updates[1..];
      DataOfCons(updates[0], updates[1..]);
      var p := find(updates[0].data);
      if Resolved(p) {
        DataOfCons(UpdateEntry(updates[0].data, p), rest);
      }
    }
  }

  /** The units of updates with one more in front. */
  lemma DataOfCons(head: UpdateEntry<Elem>, rest: seq<UpdateEntry<Elem>>)
    ensures DataOf([head] + rest) == {head.data} + DataOf(rest)
  {
    var all := [head] + rest;
    forall x | x in DataOf(all) ensures x in {head.data} + DataOf(rest) {
      var i :| 0 <= i < |all| && all[i].data == x;
      if i > 0 {
        assert all[i] == rest[i - 1];
      }
    }
    forall x | x in DataOf(rest) ensures x in DataOf(all) {
      var i :| 0 <= i < |rest| && rest[i].data == x;
      assert all[i + 1] == rest[i];
    }
    assert all[0].data == head.data;
  }

  /** The units a message built from `xs` shows are the units of `xs` with
      a path. */
  lemma FoldedUnits(updates: seq<UpdateEntry<Elem>>, s: set<Elem>, find: Elem -> Option<seq<string>>)
    requires Folded(updates, s, find)
    ensures forall u :: u in DataOf(updates) <==> u in s && Resolved(find(u))
  {
    var xs :| Lists(xs, s) && updates == Visible(UpdatesOf(xs), find);
    forall u ensures u in DataOf(updates) <==> u in s && Resolved(find(u)) {
      VisibleUnits(UpdatesOf(xs), find, u);
      if u in s {
        var i :| 0 <= i < |xs| && xs[i] == u;
        assert UpdatesOf(xs)[i].data == u;
      }
    }
  }

  // ---------------------------------------------------------------------
  // Switching screens

  /** What `screen_process` answers: not a screen request (None), switched
      (True), switched for a request made on another screen (the loop
      breaks and None is returned, so processing goes on), the `Error`
      "Unknown screen name", or AttributeError for the missing screen. */
  datatype ScreenAnswer = NotScreen | Switched | SwitchedForMessage | UnknownScreen | NoScreen

  /** The answer, the new `screen_module` and the units registered as
      changed (the screen switched to). */
  datatype ScreenStep = ScreenStep(answer: ScreenAnswer, current: ModuleRef, shown: set<Elem>)

  /** `message.screen and self.screen.name != message.screen`; None is
      AttributeError (no screen to compare with). */
  function ChangeRequested(current: ModuleRef, m: Request): Option<bool> {
    if m.screen.Some? && m.screen.value != "" then
      if current.Loaded? then Some(current.m.screen.unit.name != m.screen.value) else None
    else Some(false)
  }

  /** The module the loop of `screen_process` as written switches to: the
      first one with the requested name that is not the current module. */
  function PickAsWritten(screens: seq<Module>, value: Value, current: ModuleRef): (k: int)
    ensures -1 <= k < |screens|
    ensures k >= 0 ==> Str(screens[k].name) == value && current != Loaded(screens[k])
    ensures forall j :: 0 <= j < |screens| && (k < 0 || j < k) ==>
      Str(screens[j].name) != value || current == Loaded(screens[j])
  {
    if screens == [] then -1
    else if Str(screens[0].name) == value && current != Loaded(screens[0]) then 0
    else
      var k := PickAsWritten(screens[1..], value, current);
      assert forall j :: 1 <= j < |screens| ==> screens[j] == screens[1..][j - 1];
      if k < 0 then -1 else k + 1
  }

  /** `screen_process` as written: when the only module with the requested
      name is the current one, the loop runs out and answers Unknown screen
      name. */
  function SwitchAsWritten(screens: seq<Module>, current: ModuleRef, m: Request): ScreenStep {
    match ChangeRequested(current, m)
    case None => ScreenStep(NoScreen, current, {})
    case Some(change) =>
      if !(change || ScreenType(m)) then ScreenStep(NotScreen, current, {})
      else
        var k := PickAsWritten(screens, m.value, current);
        if k < 0 then ScreenStep(UnknownScreen, current, {})
        else ScreenStep(if change then SwitchedForMessage else Switched, Loaded(screens[k]), {screens[k].screen.unit})
  }

  /** The first module with the requested name. */
  function Pick(screens: seq<Module>, value: Value): (k: int)
    ensures -1 <= k < |screens|
    ensures k >= 0 ==> Str(screens[k].name) == value
    ensures forall j :: 0 <= j < |screens| && (k < 0 || j < k) ==> Str(screens[j].name) != value
  {
    if screens == [] then -1
    else if Str(screens[0].name) == value then 0
    else
      var k := Pick(screens[1..], value);
      assert forall j :: 1 <= j < |screens| ==> screens[j] == screens[1..][j - 1];
      if k < 0 then -1 else k + 1
  }

  /** `screen_process` corrected: asking for the screen already shown is a
      switch that changes nothing. */
  function Switch(screens: seq<Module>, current: ModuleRef, m: Request): (r: ScreenStep)
    ensures r.current != current ==>
      exists k :: 0 <= k < |screens| && r.current == Loaded(screens[k]) && m.value == Str(screens[k].name)
    ensures r.shown == {} <==> r.current == current
    ensures r.answer == UnknownScreen ==> forall k :: 0 <= k < |screens| ==> m.value != Str(screens[k].name)
  {
    match ChangeRequested(current, m)
    case None => ScreenStep(NoScreen, current, {})
    case Some(change) =>
      if !(change || ScreenType(m)) then ScreenStep(NotScreen, current, {})
      else
        var k := Pick(screens, m.value);
        var answer := if change then SwitchedForMessage else Switched;
        if k < 0 then ScreenStep(UnknownScreen, current, {})
        else if current == Loaded(screens[k]) then ScreenStep(answer, current, {})
        else ScreenStep(answer, Loaded(screens[k]), {screens[k].screen.unit})
  }

  /** As written, a screen request is refused as unknown exactly when every
      module with that name is the current one, so also when the
      requested screen is the one shown. */
  lemma SwitchAsWrittenRefusesCurrent(screens: seq<Module>, current: ModuleRef, m: Request)
    requires ScreenType(m) && (m.screen.None? || m.screen.value == "")
    ensures SwitchAsWritten(screens, current, m).answer == UnknownScreen <==>
      forall j :: 0 <= j < |screens| && Str(screens[j].name) == m.value ==> current == Loaded(screens[j])
  {
  }

  /** The screen request that shows it: the only screen, already shown. */
  lemma CurrentScreenUnknown(s: Module)
    ensures var m := Request(Some("root"), None, None, Str(s.name), None);
      SwitchAsWritten([s], Loaded(s), m).answer == UnknownScreen &&
      Switch([s], Loaded(s), m) == ScreenStep(Switched, Loaded(s), {})
  {
    var m := Request(Some("root"), None, None, Str(s.name), None);
    assert PickAsWritten([s], m.value, Loaded(s)) == -1;
    assert Pick([s], m.value) == 0;
  }

  /** Corrected, a screen request for a name some module has always
      succeeds, and the shown module is one with that name. */
  lemma SwitchFindsNamed(screens: seq<Module>, current: ModuleRef, m: Request, j: nat)
    requires ChangeRequested(current, m).Some? && ScreenType(m)
    requires j < |screens| && Str(screens[j].name) == m.value
    ensures Switch(screens, current, m).answer in {Switched, SwitchedForMessage}
    ensures Switch(screens, current, m).current.Loaded?
    ensures Switch(screens, current, m).current == current ||
      Str(Switch(screens, current, m).current.m.name) == m.value
  {
  }

  // ---------------------------------------------------------------------
  // Sessions

  /** What `result4message` routes a request to. */
  datatype Routed =
    | ClosedDialog(dialog: Block, closeSent: bool) // the dialog's `changed` is called; `closeSent` when the close message goes to the group
    | Dispatched(e: Elem, d: Dispatch)              // `process_element` on the element found
    | NoResult                                      // a dialog is open and the element is not found: None
    | ScreenResult(answer: ScreenAnswer)            // `screen_process` answered True or an Error
    | Voice                                         // handed to the voice commander
    | Missing                                       // the `Error` "Element ... does not exist!"
    | Raised                                        // AttributeError: no screen

  /** The element lookup of a request for a session with this dialog,
      screen and handlers; `notFound` is what a miss gives. */
  function Route(dialog: Option<Block>, current: ModuleRef, handlers: map<(Elem, string), Value>, m: Request, notFound: Routed): Routed {
    if !current.Loaded? then Raised
    else
      var screen := current.m.screen;
      match FindElement(BlocksOf(dialog, screen), screen.toolbar, m)
      case None => notFound
      case Some(e) => Dispatched(e, ProcessElement(handlers, e, m))
  }

  /** Whether the request was routed to code whose result is passed on:
      the dialog's handler, an element's handler or method (an answered
      event wraps its result in `Answer`), or the voice commander for
      anything but `listen`. */
  predicate CallsHandler(r: Routed, m: Request) {
    || r.ClosedDialog?
    || (r.Dispatched? && (r.d.RunHandler? || (r.d.RunMethod? && !r.d.answered)))
    || (r.Voice? && m.event != Some("listen"))
  }

  /** A handler result, as `reflect` tells it apart. */
  datatype HandlerResult = Falsy | MessageResult(m: Message<Elem>) | OtherResult

  /** What `reflect` broadcasts to the group, in order: the result, and the
      unit the request addressed (None when it is not found). */
  datatype Sent = SentResult | SentElement(e: Option<Elem>)

  /** The sessions of `us` other than `me` that show the same screen module. */
  function Peers(us: seq<User>, me: User, screen: ModuleRef): (r: seq<User>)
    reads us
    ensures |r| <= |us|
    ensures forall u <- r :: u in us && u != me && SameModule(screen, u.screenModule)
    ensures forall u <- us :: u != me && SameModule(screen, u.screenModule) ==> u in r
  {
    if us == [] then []
    else (if us[0] != me && SameModule(screen, us[0].screenModule) then [us[0]] else []) + Peers(us[1..], me, screen)
  }

  /** `reflections`: the list of sessions sharing one screen, one list
      object held by all of them. */
  class Group {
    var members: seq<User>

    constructor ()
      ensures members == []
    {
      members := [];
    }
  }

  /** `Unishare.sessions`: the sessions by session id. */
  class Sessions {
    var users: map<string, User>

    constructor ()
      ensures users == map[]
    {
      users := map[];
    }
  }

  /** No session is listed twice. */
  predicate NoRepeats(us: seq<User>) {
    forall i, j :: 0 <= i < j < |us| ==> us[i] != us[j]
  }

  /** A session (`User`). */
  class User {
    const session: string
    var activeDialog: Option<Block>
    var lastMessage: Option<Request>
    var changedUnits: set<Elem>
    var screens: seq<Module>
    var screenModule: ModuleRef
    var handlers: map<(Elem, string), Value>
    var reflections: Group

    /** `User(session, share)`: a session joining `share` takes its screens,
        handlers and screen module (an empty list of its own when there are
        no screens) and joins its group, which is created as the pair
        `[share, self]` when `share` has none. */
    constructor (session: string, share: Option<User>)
      modifies if share.Some? then {share.value, share.value.reflections} else {}
      ensures this.session == session && activeDialog.None? && lastMessage.None? && changedUnits == {}
      ensures share.None? ==>
        screens == [] && screenModule == NoModule && handlers == map[] &&
        fresh(reflections) && reflections.members == []
      ensures share.Some? ==>
        screens == share.value.screens && handlers == share.value.handlers &&
        screenModule == (if share.value.screens != [] then share.value.screenModule else EmptyList) &&
        share.value.reflections == reflections && |reflections.members| >= 2
      ensures share.Some? && old(share.value.reflections.members) != [] ==>
        reflections == old(share.value.reflections) &&
        reflections.members == old(share.value.reflections.members) + [this]
      ensures share.Some? && old(share.value.reflections.members) == [] ==>
        fresh(reflections) && reflections.members == [share.value, this]
      ensures share.Some? ==>
        share.value.screens == old(share.value.screens) &&
        share.value.screenModule == old(share.value.screenModule) &&
        share.value.handlers == old(share.value.handlers)
    {
      this.session := session;
      activeDialog := None;
      lastMessage := None;
      changedUnits := {};
      var g: Group;
      if share.Some? && share.value.reflections.members != [] {
        g := share.value.reflections;
      } else {
        g := new Group();
      }
      reflections := g;
      if share.Some? {
        screens := share.value.screens;
        screenModule := if share.value.screens != [] then share.value.screenModule else EmptyList;
        handlers := share.value.handlers;
      } else {
        screens := [];
        screenModule := NoModule;
        handlers := map[];
      }
      new;
      if share.Some? {
        if g.members != [] {
          g.members := g.members + [this];
        } else {
          g.members := [share.value, this];
          share.value.reflections := g;
        }
      }
    }

    /** `delete()`: the session leaves the session table; a group of two is
        cleared (one session left alone shares with nobody), from a larger
        one this session is removed, which raises ValueError when it is not
        in it. */
    method Delete(sessions: Sessions) returns (raised: bool)
      modifies sessions, reflections
      ensures sessions.users ==
        if session in old(sessions.users) then old(sessions.users) - {session} else old(sessions.users)
      ensures var g := old(reflections.members);
        if g == [] || |g| == 2 then !raised && reflections.members == []
        else if this in g then !raised && reflections.members == g[..IndexOf(g, this)] + g[IndexOf(g, this) + 1..]
        else raised && reflections.members == g
      ensures old(reflections.members) == [] || |old(reflections.members)| >= 2 ==>
        reflections.members == [] || |reflections.members| >= 2
      ensures !raised && NoRepeats(old(reflections.members)) ==> this !in reflections.members
    {
      if session in sessions.users {
        sessions.users := sessions.users - {session};
      }
      raised := false;
      var g := reflections.members;
      if g != [] {
        if |g| == 2 {
          reflections.members := [];
        } else {
          var i := IndexOf(g, this);
          if i < 0 {
            return true;
          }
          reflections.members := g[..i] + g[i + 1..];
          if NoRepeats(g) {
            assert forall j :: 0 <= j < |g| && j != i ==> g[j] != this;
          }
        }
      }
    }

    /** The sessions `broadcast` sends to: every other member of the group
        that shows the very same screen module. */
    function Audience(): (r: seq<User>)
      reads this, reflections, reflections.members
      ensures forall u <- r :: u in reflections.members && u != this && SameModule(screenModule, u.screenModule)
      ensures forall u <- reflections.members :: u != this && SameModule(screenModule, u.screenModule) ==> u in r
      ensures this !in r
    {
      Peers(reflections.members, this, screenModule)
    }

    /** `register_changed_unit(unit, property, value)`: a change is kept
        for the next result unless it echoes the request being processed. */
    method RegisterChangedUnit(unit: Elem, property: Option<string>, value: Value)
      modifies this
      ensures changedUnits ==
        if Echoes(lastMessage, unit, property, value) then old(changedUnits) else old(changedUnits) + {unit}
      ensures screenModule == old(screenModule) && activeDialog == old(activeDialog) && lastMessage == old(lastMessage)
      ensures screens == old(screens) && handlers == old(handlers) && reflections == old(reflections)
    {
      if !Echoes(lastMessage, unit, property, value) {
        changedUnits := changedUnits + {unit};
      }
    }

    /** The `blocks` property; None is AttributeError (no screen). */
    function Blocks(): (r: Option<seq<Nested<Block>>>)
      reads this
      ensures r.Some? <==> screenModule.Loaded?
      ensures r.Some? && activeDialog.Some? && activeDialog.value.value != [] ==>
        Flatten(r.value) == [activeDialog.value] + Flatten(screenModule.m.screen.blocks)
    {
      if screenModule.Loaded? then Some(BlocksOf(activeDialog, screenModule.m.screen)) else None
    }

    /** `prepare_result(raw)`: the screen, marked for reload when a screen
        changed or a redesign was asked for; otherwise the pending changes
        folded with the result into one message whose units not on the
        screen are dropped. The pending changes are always cleared. The
        source needs a screen here (it resolves paths on it). */
    method PrepareResult(raw: Raw) returns (r: Prepared)
      requires screenModule.Loaded?
      modifies this`changedUnits, if raw.RawMessage? then {raw.m} else {}
      ensures changedUnits == {}
      ensures var reload := Reloads(old(changedUnits));
        reload || raw.RawTrue? || raw.RawRedesign? ==> r == ScreenOut(screenModule.m.screen, reload || raw.RawRedesign?)
      ensures var find := Finder(activeDialog, screenModule.m.screen);
        !Reloads(old(changedUnits)) ==>
        match raw
        case RawNone => if old(changedUnits) == {} then r == NoneOut else PreparedFrom(r, old(changedUnits), find)
        case RawUnit(u) => PreparedFrom(r, old(changedUnits) + {u}, find)
        case RawUnits(us) => PreparedFrom(r, old(changedUnits) + set i | 0 <= i < |us| :: us[i], find)
        case RawOther => r == OtherOut
        case RawMessage(m) =>
          r == MessageOut(m) && m.mtype == old(m.mtype) && m.value == old(m.value) &&
          if old(changedUnits) == {} then m.updates == Visible(old(m.updates), find)
          else Folded(m.updates, old(changedUnits) + DataOf(old(m.updates)), find)
        case _ => true
    {
      var screen := screenModule.m.screen;
      var find := Finder(activeDialog, screen);
      var reload := Reloads(changedUnits);
      if reload || raw.RawTrue? || raw.RawRedesign? {
        r := ScreenOut(screen, reload || raw.RawRedesign?);
      } else {
        match raw {
          case RawNone =>
            if changedUnits != {} {
              var m := NewMessage(changedUnits, find);
              r := MessageOut(m);
            } else {
              r := NoneOut;
            }
          case RawMessage(m) =>
            FoldPending(m, changedUnits, find);
            r := MessageOut(m);
          case RawUnit(u) =>
            var m := NewMessage(changedUnits + {u}, find);
            r := MessageOut(m);
          case RawUnits(us) =>
            var m := NewMessage(changedUnits + set i | 0 <= i < |us| :: us[i], find);
            r := MessageOut(m);
          case RawOther =>
            r := OtherOut;
          case _ =>
            r := OtherOut;
        }
      }
      changedUnits := {};
    }

    /** `screen_process(message)`, with the current screen's own name
        treated as a switch that changes nothing. */
    method ScreenProcess(m: Request) returns (r: ScreenAnswer)
      modifies this
      ensures var st := Switch(old(screens), old(screenModule), m);
        r == st.answer && screenModule == st.current && changedUnits == old(changedUnits) + st.shown
      ensures activeDialog == old(activeDialog) && lastMessage == old(lastMessage)
      ensures screens == old(screens) && handlers == old(handlers) && reflections == old(reflections)
    {
      var change := false;
      if m.screen.Some? && m.screen.value != "" {
        if !screenModule.Loaded? {
          return NoScreen;
        }
        change := screenModule.m.screen.unit.name != m.screen.value;
      }
      if !(change || ScreenType(m)) {
        return NotScreen;
      }
      var answer := if change then SwitchedForMessage else Switched;
      var i := 0;
      while i < |screens|
        invariant 0 <= i <= |screens|
        invariant forall j :: 0 <= j < i ==> Str(screens[j].name) != m.value
        invariant screenModule == old(screenModule) && changedUnits == old(changedUnits)
      {
        var s := screens[i];
        if Str(s.name) == m.value {
          assert Pick(screens, m.value) == i;
          if screenModule != Loaded(s) {
            changedUnits := changedUnits + {s.screen.unit};
            screenModule := Loaded(s);
          }
          return answer;
        }
        i := i + 1;
      }
      return UnknownScreen;
    }

    /** `result4message(message)`: with a dialog open, a request without
        element closes it and goes to the dialog's handler, any other is
        looked up (the dialog first); without a dialog `process` switches
        screens, hands voice requests on, or looks the element up. The
        handler's body is outside the model: `returned` is the `Dialog` it
        returns, if it returns one, and a returned dialog becomes the open
        one. */
    method Result4Message(m: Request, returned: Option<Block>) returns (r: Routed)
      modifies this
      ensures lastMessage == Some(m)
      ensures activeDialog ==
        if returned.Some? && CallsHandler(r, m) then returned
        else if old(activeDialog).Some? && m.element.Some? then old(activeDialog)
        else None
      ensures old(activeDialog).Some? && m.element.None? ==>
        r == ClosedDialog(old(activeDialog).value, old(reflections.members) != []) &&
        screenModule == old(screenModule) && changedUnits == old(changedUnits)
      ensures old(activeDialog).Some? && m.element.Some? ==>
        r == Route(old(activeDialog), old(screenModule), old(handlers), m, NoResult) &&
        screenModule == old(screenModule) && changedUnits == old(changedUnits)
      ensures old(activeDialog).None? ==>
        var st := Switch(old(screens), old(screenModule), m);
        screenModule == st.current && changedUnits == old(changedUnits) + st.shown &&
        r == (if st.answer == NoScreen then Raised
              else if st.answer == Switched || st.answer == UnknownScreen then ScreenResult(st.answer)
              else if VoiceType(m) then Voice
              else Route(None, st.current, old(handlers), m, Missing))
      ensures screens == old(screens) && handlers == old(handlers) && reflections == old(reflections)
    {
      lastMessage := Some(m);
      if activeDialog.Some? {
        if m.element.None? {
          r := ClosedDialog(activeDialog.value, reflections.members != []);
          activeDialog := None;
        } else {
          r := Route(activeDialog, screenModule, handlers, m, NoResult);
        }
      } else {
        r := Process(m);
      }
      if returned.Some? && CallsHandler(r, m) {
        activeDialog := returned;
      }
    }

    /** `process(message)` for a session without an open dialog. */
    method Process(m: Request) returns (r: Routed)
      requires activeDialog.None?
      modifies this
      ensures var st := Switch(old(screens), old(screenModule), m);
        screenModule == st.current && changedUnits == old(changedUnits) + st.shown &&
        r == (if st.answer == NoScreen then Raised
              else if st.answer == Switched || st.answer == UnknownScreen then ScreenResult(st.answer)
              else if VoiceType(m) then Voice
              else Route(None, st.current, old(handlers), m, Missing))
      ensures activeDialog == old(activeDialog) && lastMessage == old(lastMessage)
      ensures screens == old(screens) && handlers == old(handlers) && reflections == old(reflections)
    {
      var answer := ScreenProcess(m);
      if answer == NoScreen {
        r := Raised;
      } else if answer == Switched || answer == UnknownScreen {
        r := ScreenResult(answer);
      } else if VoiceType(m) {
        r := Voice;
      } else {
        r := Route(None, screenModule, handlers, m, Missing);
      }
    }

    /** `reflect(message, result)` as written: the group is sent the
        result (when truthy), then the addressed unit unless the result
        message carries it; nothing without a group or for a screen
        request. A missing request raises AttributeError, as does a
        missing screen: None. */
    function ReflectAsWritten(message: Option<Request>, result: HandlerResult): (r: Option<seq<Sent>>)
      reads this, reflections, if result.MessageResult? then {result.m} else {}
      ensures reflections.members != [] && message.None? ==> r.None?
    {
      if reflections.members == [] then Some([])
      else if message.None? then None
      else if ScreenType(message.value) then Some([])
      else ReflectSends(message.value, result)
    }

    /** `reflect` corrected: without a request (as `progress` calls it) only
        the result is sent. */
    function Reflect(message: Option<Request>, result: HandlerResult): (r: Option<seq<Sent>>)
      reads this, reflections, if result.MessageResult? then {result.m} else {}
      ensures reflections.members == [] || (message.Some? && ScreenType(message.value)) ==> r == Some([])
      ensures r.None? <==>
        reflections.members != [] && message.Some? && !ScreenType(message.value) && !screenModule.Loaded?
      ensures r.Some? ==>
        (SentResult in r.value <==>
          reflections.members != [] && !(message.Some? && ScreenType(message.value)) && !result.Falsy?)
      ensures r.Some? && message.None? ==> forall s :: s in r.value ==> s == SentResult
    {
      if reflections.members == [] then Some([])
      else if message.None? then Some(if result.Falsy? then [] else [SentResult])
      else if ScreenType(message.value) then Some([])
      else ReflectSends(message.value, result)
    }

    /** The broadcasts `reflect` makes for a request in a group. */
    function ReflectSends(m: Request, result: HandlerResult): (r: Option<seq<Sent>>)
      reads this, if result.MessageResult? then {result.m} else {}
      ensures r.None? <==> !screenModule.Loaded?
      ensures r.Some? ==> (SentResult in r.value <==> !result.Falsy?)
      ensures r.Some? ==> forall s :: s in r.value && s.SentElement? ==>
        s.e == FindElement(BlocksOf(activeDialog, screenModule.m.screen), screenModule.m.screen.toolbar, m) &&
        !(result.MessageResult? && s.e.Some? && result.m.Contains(s.e.value))
    {
      if !screenModule.Loaded? then None
      else
        var first := if result.Falsy? then [] else [SentResult];
        var screen := screenModule.m.screen;
        var e := FindElement(BlocksOf(activeDialog, screen), screen.toolbar, m);
        if result.MessageResult? && e.Some? && result.m.Contains(e.value) then Some(first)
        else Some(first + [SentElement(e)])
    }

    /** `calc_dbsharing()`: for every table, screen by screen, the
        elements (with their blocks) that show it. */
    method CalcDbSharing() returns (share: Sharing)
      ensures forall id, scr :: Lookup(share, id, scr) == PlacesOf(Placements(screens), id, scr)
    {
      var ps := Placements(screens);
      share := map[];
      var i := 0;
      while i < |ps|
        invariant 0 <= i <= |ps|
        invariant share == ShareOf(ps[..i])
      {
        share := Record(share, ps[i]);
        assert ps[..i + 1][..i] == ps[..i];
        i := i + 1;
      }
      assert ps[..i] == ps;
      forall id, scr ensures Lookup(share, id, scr) == PlacesOf(ps, id, scr) {
        ShareLists(ps, id, scr);
      }
    }
  }

  /** A message of the pending units, filled with paths (`Message(*units,
      user=self)`). */
  method NewMessage(s: set<Elem>, find: Elem -> Option<seq<string>>) returns (m: Message<Elem>)
    ensures fresh(m) && m.mtype == "update" && m.value.None? && Folded(m.updates, s, find)
  {
    var xs := ListOf(s);
    m := new Message(xs, "update");
    var _ := m.FillPaths(find);
    assert Lists(xs, s) && m.updates == Visible(UpdatesOf(xs), find);
  }

  /** The message branch of `prepare_result`: pending changes join the
      message's own data units and the whole is folded for the screen;
      without pending changes only the paths are filled in. */
  method FoldPending(m: Message<Elem>, changed: set<Elem>, find: Elem -> Option<seq<string>>)
    modifies m
    ensures m.mtype == old(m.mtype) && m.value == old(m.value)
    ensures changed == {} ==> m.updates == Visible(old(m.updates), find)
    ensures changed != {} ==> Folded(m.updates, changed + DataOf(old(m.updates)), find)
  {
    if changed != {} {
      var xs := ListOf(changed + DataOf(m.updates));
      m.SetUpdates(xs);
      var _ := m.FillPaths(find);
      assert Lists(xs, changed + DataOf(old(m.updates)));
    } else {
      var _ := m.FillPaths(find);
    }
  }

  /** The prepared result is a new message of exactly these units. */
  ghost predicate PreparedFrom(r: Prepared, s: set<Elem>, find: Elem -> Option<seq<string>>)
    reads if r.MessageOut? then {r.m} else {}
  {
    r.MessageOut? && r.m.mtype == "update" && r.m.value.None? && Folded(r.m.updates, s, find)
  }

  /** A changed unit is a screen, which makes the screen reload. */
  predicate Reloads(s: set<Elem>) {
    exists u :: u in s && u.utype == "screen"
  }

  /** A `progress` call, which reflects without a request, raises in a
      session that shares its screen, as written; corrected it sends the
      progress message to the group. */
  lemma ProgressReflection(u: User, progress: Message<Elem>)
    requires u.reflections.members != []
    ensures u.ReflectAsWritten(None, MessageResult(progress)).None?
    ensures u.Reflect(None, MessageResult(progress)) == Some([SentResult])
  {
  }

  // ---------------------------------------------------------------------
  // Table sharing

  /** An element showing a table, with its block. */
  datatype Place = Place(element: string, block: string)

  /** One element with an `id` on a screen. */
  datatype Placement = Placement(id: Value, screen: string, place: Place)

  /** `dbshare`: table id, then screen name, to the places showing it. */
  type Sharing = map<Value, map<string, seq<Place>>>

  function ElementPlacements(scr: string, b: Block, es: seq<Elem>): seq<Placement> {
    if es == [] then []
    else
      (if "id" in es[0].attrs then [Placement(es[0].attrs["id"], scr, Place(es[0].name, b.unit.name))] else []) +
      ElementPlacements(scr, b, es[1..])
  }

  function BlockPlacements(scr: string, bls: seq<Block>): seq<Placement> {
    if bls == [] then []
    else ElementPlacements(scr, bls[0], Flatten(bls[0].value)) + BlockPlacements(scr, bls[1..])
  }

  /** The elements with an `id`, module by module, block by block, in
      layout order. */
  function Placements(mods: seq<Module>): seq<Placement> {
    if mods == [] then []
    else BlockPlacements(mods[0].screen.unit.name, Flatten(mods[0].screen.blocks)) + Placements(mods[1..])
  }

  /** `dbshare[id][scr]` of the default dictionaries: `[]` when absent. */
  function Lookup(share: Sharing, id: Value, scr: string): seq<Place> {
    if id in share && scr in share[id] then share[id][scr] else []
  }

  /** One `append` into `dbshare`. */
  function Record(share: Sharing, p: Placement): Sharing {
    var screensOf := if p.id in share then share[p.id] else map[];
    share[p.id := screensOf[p.screen := Lookup(share, p.id, p.screen) + [p.place]]]
  }

  function ShareOf(ps: seq<Placement>): Sharing {
    if ps == [] then map[] else Record(ShareOf(ps[..|ps| - 1]), ps[|ps| - 1])
  }

  /** The places of the placements for table `id` on screen `scr`, in order. */
  function PlacesOf(ps: seq<Placement>, id: Value, scr: string): (r: seq<Place>)
    ensures |r| <= |ps|
  {
    if ps == [] then []
    else
      PlacesOf(ps[..|ps| - 1], id, scr) +
      (if ps[|ps| - 1].id == id && ps[|ps| - 1].screen == scr then [ps[|ps| - 1].place] else [])
  }

  /** Building `dbshare` placement by placement lists, for every table and
      screen, exactly the places showing that table there, in order. */
  lemma {:induction false} ShareLists(ps: seq<Placement>, id: Value, scr: string)
    ensures Lookup(ShareOf(ps), id, scr) == PlacesOf(ps, id, scr)
  {
    if ps != [] {
      ShareLists(ps[..|ps| - 1], id, scr);
    }
  }

  /** A table patch (`dbupdates` entry). */
  type Patch = map<string, Value>

  /** A session with the name of the screen it shows. */
  datatype Peer = Peer(user: nat, screen: string)

  /** A patch sent to a session, addressed to an element. */
  datatype Send = Send(user: nat, data: Patch)

  /** `update.get('exclude', False)`: the session that made the change
      already shows it. */
  predicate Excluded(up: Patch) {
    "exclude" in up && Truthy(up["exclude"])
  }

  /** `{**update, **elem_block}`. */
  function Tagged(up: Patch, pl: Place): Patch {
    up["element" := Str(pl.element)]["block" := Str(pl.block)]
  }

  function ToPlaces(u: nat, up: Patch, pls: seq<Place>): (r: seq<Send>)
    ensures forall s :: s in r <==> s.user == u && exists k :: 0 <= k < |pls| && s.data == Tagged(up, pls[k])
  {
    if pls == [] then []
    else
      var rest := ToPlaces(u, up, pls[1..]);
      assert forall k :: 1 <= k < |pls| ==> pls[k] == pls[1..][k - 1];
      [Send(u, Tagged(up, pls[0]))] + rest
  }

  /** What one session is sent of one patch: nothing when it made an
      `exclude` patch or its screen does not show the table. */
  function ToPeer(up: Patch, places: map<string, seq<Place>>, p: Peer, me: nat): seq<Send> {
    if (!Excluded(up) || p.user != me) && p.screen in places then ToPlaces(p.user, up, places[p.screen]) else []
  }

  function ToPeers(up: Patch, places: map<string, seq<Place>>, peers: seq<Peer>, me: nat): (r: seq<Send>)
    ensures forall s :: s in r <==> exists k :: 0 <= k < |peers| && s in ToPeer(up, places, peers[k], me)
  {
    if peers == [] then []
    else
      var rest := ToPeers(up, places, peers[1..], me);
      assert forall k :: 1 <= k < |peers| ==> peers[k] == peers[1..][k - 1];
      ToPeer(up, places, peers[0], me) + rest
  }

  /** `dbshare[id]` of the default dictionary. */
  function PlacesFor(share: Sharing, id: Value): map<string, seq<Place>> {
    if id in share then share[id] else map[]
  }

  /** What one patch fans out to; an empty patch to nothing. */
  function ToPatch(id: Value, up: Patch, share: Sharing, peers: seq<Peer>, me: nat): seq<Send> {
    if up != map[] then ToPeers(up, PlacesFor(share, id), peers, me) else []
  }

  function ToPatches(id: Value, ups: seq<Patch>, share: Sharing, peers: seq<Peer>, me: nat): (r: seq<Send>)
    ensures forall s :: s in r <==> exists k :: 0 <= k < |ups| && s in ToPatch(id, ups[k], share, peers, me)
  {
    if ups == [] then []
    else
      var rest := ToPatches(id, ups[1..], share, peers, me);
      assert forall k :: 1 <= k < |ups| ==> ups[k] == ups[1..][k - 1];
      ToPatch(id, ups[0], share, peers, me) + rest
  }

  /** `sync_dbupdates`: every non-empty patch of every table goes to every
      session whose screen shows that table, once per element showing it,
      addressed to that element; an `exclude` patch skips the session that
      made it. */
  function FanOut(queue: seq<(Value, seq<Patch>)>, share: Sharing, peers: seq<Peer>, me: nat): (r: seq<Send>)
    ensures forall s :: s in r <==>
      exists i :: 0 <= i < |queue| && s in ToPatches(queue[i].0, queue[i].1, share, peers, me)
  {
    if queue == [] then []
    else
      var rest := FanOut(queue[1..], share, peers, me);
      assert forall i :: 1 <= i < |queue| ==> queue[i] == queue[1..][i - 1];
      ToPatches(queue[0].0, queue[0].1, share, peers, me) + rest
  }

  /** `s` carries one of the patches `q` holds for its table, tagged with a
      place showing the table on the screen of its session. */
  ghost predicate DeliveredFrom(q: (Value, seq<Patch>), share: Sharing, peers: seq<Peer>, s: Send) {
    exists k, j, n :: 0 <= k < |q.1| && 0 <= j < |peers| && 0 <= n < |Lookup(share, q.0, peers[j].screen)| &&
      DeliveredAs(q.1[k], peers[j], Lookup(share, q.0, peers[j].screen)[n], s)
  }

  ghost predicate DeliveredAs(up: Patch, p: Peer, pl: Place, s: Send) {
    up != map[] && s == Send(p.user, Tagged(up, pl))
  }

  /** What one session is sent of one patch is that patch, tagged. */
  lemma PeerSound(up: Patch, places: map<string, seq<Place>>, p: Peer, me: nat, s: Send)
    requires s in ToPeer(up, places, p, me)
    ensures s.user == p.user && (s.user == me ==> !Excluded(s.data))
    ensures p.screen in places && exists n :: 0 <= n < |places[p.screen]| && s.data == Tagged(up, places[p.screen][n])
  {
    var n :| 0 <= n < |places[p.screen]| && s.data == Tagged(up, places[p.screen][n]);
    assert "exclude" in s.data <==> "exclude" in up;
    assert "exclude" in up ==> s.data["exclude"] == up["exclude"];
  }

  /** A session never gets back a patch it made with `exclude`, and every
      patch sent is addressed to an element of a session showing the table. */
  lemma FanOutSound(queue: seq<(Value, seq<Patch>)>, share: Sharing, peers: seq<Peer>, me: nat, s: Send)
    requires s in FanOut(queue, share, peers, me)
    ensures s.user == me ==> !Excluded(s.data)
    ensures exists i :: 0 <= i < |queue| && DeliveredFrom(queue[i], share, peers, s)
  {
    var i :| 0 <= i < |queue| && s in ToPatches(queue[i].0, queue[i].1, share, peers, me);
    PatchesSound(queue[i], share, peers, me, s);
  }

  /** The same for the patches of one table. */
  lemma PatchesSound(q: (Value, seq<Patch>), share: Sharing, peers: seq<Peer>, me: nat, s: Send)
    requires s in ToPatches(q.0, q.1, share, peers, me)
    ensures s.user == me ==> !Excluded(s.data)
    ensures DeliveredFrom(q, share, peers, s)
  {
    var places := PlacesFor(share, q.0);
    var k :| 0 <= k < |q.1| && s in ToPatch(q.0, q.1[k], share, peers, me);
    var up := q.1[k];
    assert up != map[] && s in ToPeers(up, places, peers, me);
    var j :| 0 <= j < |peers| && s in ToPeer(up, places, peers[j], me);
    PeerSound(up, places, peers[j], me, s);
    var n :| 0 <= n < |places[peers[j].screen]| && s.data == Tagged(up, places[peers[j].screen][n]);
    assert Lookup(share, q.0, peers[j].screen) == places[peers[j].screen];
    assert DeliveredAs(q.1[k], peers[j], Lookup(share, q.0, peers[j].screen)[n], s);
  }

  /** Each place showing the table on a session's screen gets the patch. */
  lemma FanOutComplete(queue: seq<(Value, seq<Patch>)>, share: Sharing, peers: seq<Peer>, me: nat,
                       i: nat, k: nat, j: nat, n: nat)
    requires i < |queue| && k < |queue[i].1| && j < |peers| && queue[i].1[k] != map[]
    requires n < |Lookup(share, queue[i].0, peers[j].screen)|
    requires !Excluded(queue[i].1[k]) || peers[j].user != me
    ensures Send(peers[j].user, Tagged(queue[i].1[k], Lookup(share, queue[i].0, peers[j].screen)[n]))
      in FanOut(queue, share, peers, me)
  {
    var id := queue[i].0;
    var up := queue[i].1[k];
    var p := peers[j];
    var places := PlacesFor(share, id);
    var s := Send(p.user, Tagged(up, Lookup(share, id, p.screen)[n]));
    assert s in ToPlaces(p.user, up, places[p.screen]);
    assert s in ToPeer(up, places, peers[j], me);
    assert s in ToPeers(up, places, peers, me);
    assert s in ToPatch(id, queue[i].1[k], share, peers, me);
    assert s in ToPatches(id, queue[i].1, share, peers, me);
  }
}
