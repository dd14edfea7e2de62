/** The test client of unisi/proxy.py: the event flags, the searches over
    the screen the server last sent, the messages the client builds, and
    how it takes in the server's replies. The websocket is a parameter: a
    reply is what `recv` would have returned, already decoded. */
module Client {
  import opened Values
  import opened Common

  // ---------------------------------------------------------------------
  // Event flags

  /** `Event`, an `IntFlag`. */
  type Flags = bv16

  const NoEvent: Flags := 0
  const UpdateEvent: Flags := 1
  const Invalid: Flags := 2
  const MessageEvent: Flags := 4
  const UpdateMessage: Flags := 5
  const ProgressEvent: Flags := 8
  const UpdateProgress: Flags := 9
  const Unknown: Flags := 16
  const UnknownUpdate: Flags := 17
  const DialogEvent: Flags := 32
  const ScreenEvent: Flags := 65
  const Complete: Flags := 128
  const Append: Flags := 256

  /** `e & f` is `f`: the event carries every bit of `f`. */
  predicate Has(e: Flags, f: Flags) {
    e & f == f
  }

  /** The composite events are unions of the simple ones, and a new screen
      counts as an update. */
  lemma CompositeEvents()
    ensures UpdateMessage == UpdateEvent | MessageEvent
    ensures UpdateProgress == UpdateEvent | ProgressEvent
    ensures UnknownUpdate == UpdateEvent | Unknown
    ensures Has(ScreenEvent, UpdateEvent) && !Has(ScreenEvent, ProgressEvent)
  {
  }

  // ---------------------------------------------------------------------
  // Messages from the server

  /** An element as the server sends it: its name, its type, the keys of
      its dict (the handlers it declares among them) and its value. */
  datatype Elem = Elem(name: string, etype: string, keys: set<string>, value: Value)

  /** A block as the server sends it: its name and its nested elements. */
  datatype BlockMsg = BlockMsg(name: string, value: seq<Nested<Elem>>)

  /** A decoded reply: its `type` entry and the entries the client reads. */
  datatype Incoming = Incoming(mtype: Option<string>, name: string, menu: seq<string>,
                               blocks: seq<Nested<BlockMsg>>, toolbar: seq<Nested<Elem>>,
                               updates: bool, commands: seq<string>)

  /** A cached screen: its name, the names of its menu entries and the
      `name2block` dict the client attaches to it. */
  datatype Screen = Screen(name: string, menu: seq<string>, name2block: seq<(string, BlockMsg)>)

  /** What a call returns, or the exception it raises. */
  datatype Outcome<T> = Returned(value: T) | Raised(error: string)

  /** The message the client sends for an element. */
  datatype ArgMsg = ArgMsg(block: Option<string>, element: string, event: string, value: Value)

  // ---------------------------------------------------------------------
  // Dicts in insertion order

  /** `d[k]`, if `k` is a key. */
  function Lookup<V>(d: seq<(string, V)>, k: string): Option<V> {
    if d == [] then None else if d[0].0 == k then Some(d[0].1) else Lookup(d[1..], k)
  }

  /** `d[k] = v`: an existing key keeps its place, a new one goes last. */
  function Put<V>(d: seq<(string, V)>, k: string, v: V): (r: seq<(string, V)>)
    ensures Lookup(r, k) == Some(v)
    ensures forall k' :: k' != k ==> Lookup(r, k') == Lookup(d, k')
    ensures |d| <= |r| <= |d| + 1
  {
    if d == [] then [(k, v)]
    else if d[0].0 == k then [(k, v)] + d[1..]
    else [d[0]] + Put(d[1..], k, v)
  }

  /** `d.values()`. */
  function DictValues<V>(d: seq<(string, V)>): seq<V> {
    if d == [] then [] else [d[0].1] + DictValues(d[1..])
  }

  /** `{block['name']: block for block in bs}`: later blocks of the same name
      win. */
  function ByName(bs: seq<BlockMsg>): seq<(string, BlockMsg)> {
    if bs == [] then [] else Put(ByName(bs[..|bs| - 1]), bs[|bs| - 1].name, bs[|bs| - 1])
  }

  /** The last block of `bs` named `n`. */
  function LastNamed(bs: seq<BlockMsg>, n: string): Option<BlockMsg> {
    if bs == [] then None
    else if bs[|bs| - 1].name == n then Some(bs[|bs| - 1])
    else LastNamed(bs[..|bs| - 1], n)
  }

  /** The `name2block` of a screen message: its blocks by name, and the
      toolbar as a block named `toolbar`. */
  function Name2Block(bs: seq<BlockMsg>, toolbar: seq<Nested<Elem>>): seq<(string, BlockMsg)> {
    Put(ByName(bs), "toolbar", BlockMsg("toolbar", toolbar))
  }

  lemma {:induction false} ByNameLookup(bs: seq<BlockMsg>, n: string)
    ensures Lookup(ByName(bs), n) == LastNamed(bs, n)
  {
    if bs != [] {
      ByNameLookup(bs[..|bs| - 1], n);
    }
  }

  /** Every block of a screen can be found under its name (the last one
      when names repeat), and `toolbar` holds the toolbar. */
  lemma Name2BlockLookup(bs: seq<BlockMsg>, toolbar: seq<Nested<Elem>>, n: string)
    ensures Lookup(Name2Block(bs, toolbar), n) ==
      if n == "toolbar" then Some(BlockMsg("toolbar", toolbar)) else LastNamed(bs, n)
  {
    ByNameLookup(bs, n);
  }

  // ---------------------------------------------------------------------
  // Searching the screen

  /** The elements of the blocks, block after block, each flattened. */
  function BlockElems(bs: seq<BlockMsg>): seq<Elem> {
    if bs == [] then [] else Flatten(bs[0].value) + BlockElems(bs[1..])
  }

  /** The elements of `els` named `name`, in order. */
  function Named(els: seq<Elem>, name: string): (r: seq<Elem>)
    ensures forall e :: e in r <==> e in els && e.name == name
  {
    if els == [] then []
    else (if els[0].name == name then [els[0]] else []) + Named(els[1..], name)
  }

  /** The element named `name` when exactly one has that name. */
  function UniqueNamed(els: seq<Elem>, name: string): Option<Elem> {
    var ns := Named(els, name);
    if |ns| == 1 then Some(ns[0]) else None
  }

  /** The loop of `element`: the first match is kept and a second one ends
      the search with None. */
  function Scan(els: seq<Elem>, name: string, found: Option<Elem>): Option<Elem> {
    if els == [] then found
    else if els[0].name == name then (if found.None? then Scan(els[1..], name, Some(els[0])) else None)
    else Scan(els[1..], name, found)
  }

  lemma {:induction false} ScanUnique(els: seq<Elem>, name: string, found: Option<Elem>)
    ensures Scan(els, name, found) ==
      if found.None? then UniqueNamed(els, name)
      else if Named(els, name) == [] then found else None
  {
    if els != [] {
      ScanUnique(els[1..], name, if els[0].name == name && found.None? then Some(els[0]) else found);
    }
  }

  /** The elements `element` searches: those of the named block, or of all
      blocks when no block name is given; None where `name2block[...]`
      raises KeyError. */
  function Searched(s: Screen, blockName: Option<string>): Option<seq<Elem>> {
    if blockName.Some? && blockName.value != "" then
      (match Lookup(s.name2block, blockName.value)
       case None => None
       case Some(b) => Some(Flatten(b.value)))
    else Some(BlockElems(BlocksOf(s)))
  }

  /** `element(name, block_name)`: the element only when exactly one of the
      searched elements has that name, None when the name is missing or
      ambiguous. */
  function Element(screen: Option<Screen>, name: string, blockName: Option<string>): (r: Outcome<Option<Elem>>)
    ensures screen.None? ==> r.Raised?
    ensures screen.Some? ==> (r.Raised? <==> Searched(screen.value, blockName).None?)
    ensures screen.Some? && r.Returned? ==> r.value == UniqueNamed(Searched(screen.value, blockName).value, name)
    ensures r.Returned? && r.value.Some? ==> r.value.value.name == name
  {
    if screen.None? then Raised("TypeError")
    else
      match Searched(screen.value, blockName)
      case None => Raised("KeyError")
      case Some(els) =>
        ScanUnique(els, name, None);
        Returned(Scan(els, name, None))
  }

  /** The elements whose type is one of `types`; all of them when `types`
      is empty. */
  function OfTypes(els: seq<Elem>, types: seq<string>): (r: seq<Elem>)
    ensures forall e :: e in r <==> e in els && (types == [] || e.etype in types)
    ensures types == [] ==> r == els
    ensures |r| <= |els|
  {
    if els == [] then []
    else (if types == [] || els[0].etype in types then [els[0]] else []) + OfTypes(els[1..], types)
  }

  /** `elements(block, types)`: the flattened elements of the block, or of
      every block of the screen, filtered to `types` when given. */
  function Elements(screen: Option<Screen>, block: Option<BlockMsg>, types: seq<string>): (r: Outcome<seq<Elem>>)
    ensures block.Some? ==> r == Returned(OfTypes(Flatten(block.value.value), types))
    ensures block.None? ==> (r.Returned? <==> screen.Some?)
    ensures block.None? && r.Returned? ==>
      forall e :: e in r.value <==> e in BlockElems(BlocksOf(screen.value)) && (types == [] || e.etype in types)
  {
    if block.Some? then Returned(OfTypes(Flatten(block.value.value), types))
    else if screen.None? then Raised("TypeError")
    else Returned(OfTypes(BlockElems(BlocksOf(screen.value)), types))
  }

  /** What `block_name` looks for: an element of that name, or that
      element. */
  datatype Target = NameOf(n: string) | ElemOf(e: Elem)

  predicate Matches(el: Elem, t: Target) {
    match t
    case NameOf(n) => el.name == n
    case ElemOf(e) => el == e
  }

  predicate HasMatch(b: BlockMsg, t: Target) {
    exists el :: el in Flatten(b.value) && Matches(el, t)
  }

  /** The blocks of a screen, in the order of its `name2block`. */
  function BlocksOf(s: Screen): seq<BlockMsg> {
    DictValues(s.name2block)
  }

  /** The position of the first block holding a match, `|bs|` when none
      does. */
  function FirstMatch(bs: seq<BlockMsg>, t: Target): (k: nat)
    ensures k <= |bs|
    ensures k < |bs| ==> HasMatch(bs[k], t)
    ensures forall j :: 0 <= j < k ==> !HasMatch(bs[j], t)
  {
    if bs == [] then 0
    else if exists el :: el in Flatten(bs[0].value) && Matches(el, t) then 0
    else 1 + FirstMatch(bs[1..], t)
  }

  /** `block_name(element)`: the name of the first block holding an
      element of that name (or that element), None when no block does. */
  function BlockName(screen: Option<Screen>, t: Target): (r: Outcome<Option<string>>)
    ensures r.Returned? <==> screen.Some?
    ensures r.Returned? ==>
      (r.value.None? <==> forall j :: 0 <= j < |BlocksOf(screen.value)| ==> !HasMatch(BlocksOf(screen.value)[j], t))
    ensures r.Returned? && r.value.Some? ==>
      exists k :: 0 <= k < |BlocksOf(screen.value)| && BlocksOf(screen.value)[k].name == r.value.value
                  && HasMatch(BlocksOf(screen.value)[k], t) && forall j :: 0 <= j < k ==> !HasMatch(BlocksOf(screen.value)[j], t)
  {
    if screen.None? then Raised("TypeError")
    else
      var bs := BlocksOf(screen.value);
      var k := FirstMatch(bs, t);
      if k < |bs| then Returned(Some(bs[k].name)) else Returned(None)
  }

  /** The element a message is about: the element itself, or the one
      `element(name)` finds. */
  function Resolve(screen: Option<Screen>, t: Target): Outcome<Option<Elem>> {
    match t
    case NameOf(n) => Element(screen, n, None)
    case ElemOf(e) => Returned(Some(e))
  }

  /** `make_message(element, value, event)`: None for an event other than
      `changed` that the element does not declare; otherwise the message
      naming the element, its block, the event and the value. A name that
      finds no unique element raises TypeError. */
  function MakeMessage(screen: Option<Screen>, t: Target, value: Value, event: string): (r: Outcome<Option<ArgMsg>>)
    ensures r == Returned(None) <==>
      Resolve(screen, t).Returned? && Resolve(screen, t).value.Some? && event != "changed" && event !in Resolve(screen, t).value.value.keys
    ensures r.Returned? && r.value.Some? ==>
      && Resolve(screen, t).Returned? && Resolve(screen, t).value.Some?
      && var e := Resolve(screen, t).value.value;
         r.value.value.element == e.name && r.value.value.event == event && r.value.value.value == value
         && (event == "changed" || event in e.keys)
         && BlockName(screen, ElemOf(e)) == Returned(r.value.value.block)
    ensures t.NameOf? && Element(screen, t.n, None) == Returned(None) ==> r.Raised?
  {
    match Resolve(screen, t)
    case Raised(err) => Raised(err)
    case Returned(found) =>
      if found.None? then Raised("TypeError")
      else
        var e := found.value;
        if event != "changed" && event !in e.keys then Returned(None)
        else
          match BlockName(screen, ElemOf(e))
          case Raised(err) => Raised(err)
          case Returned(b) => Returned(Some(ArgMsg(b, e.name, event, value)))
  }

  // ---------------------------------------------------------------------
  // Taking in replies

  /** The screen a `screen` message becomes once the client has attached
      its `name2block`. */
  function ScreenOf(m: Incoming): Screen {
    Screen(m.name, m.menu, Name2Block(Flatten(m.blocks), m.toolbar))
  }

  /** The client's fields `process` changes. */
  datatype ProxyState = ProxyState(screen: Option<Screen>, screens: map<string, Screen>, dialog: Option<Incoming>,
                                   event: Option<Flags>, mtype: Option<string>, message: Option<Incoming>)

  const Fresh := ProxyState(None, map[], None, None, None, None)

  /** The event of a reply that is none of screen, dialog, complete, append
      or update: a message, progress or unknown, with the update bit when
      it carries updates. */
  function Classified(mtype: Option<string>, updates: bool): (r: Flags)
    ensures Has(r, UpdateEvent) <==> updates
    ensures Has(r, MessageEvent) <==> mtype == Some("error") || mtype == Some("warning") || mtype == Some("info")
    ensures Has(r, ProgressEvent) <==> mtype == Some("progress")
    ensures Has(r, Unknown) <==> !Has(r, MessageEvent) && !Has(r, ProgressEvent)
  {
    if mtype == Some("error") || mtype == Some("warning") || mtype == Some("info") then
      (if updates then UpdateMessage else MessageEvent)
    else if mtype == Some("progress") then (if updates then UpdateProgress else ProgressEvent)
    else if updates then UnknownUpdate else Unknown
  }

  /** The last branch of `process` as written: it compares the builtin
      `type`, never the reply's type, so every such reply is unknown. */
  function ClassifiedAsWritten(mtype: Option<string>, updates: bool): Flags {
    if updates then UnknownUpdate else Unknown
  }

  /** `process(message)` with the reply classified by `classify`: the new
      fields and the event returned. */
  function ProcessWith(st: ProxyState, msg: Option<Incoming>, classify: (Option<string>, bool) -> Flags): (ProxyState, Flags) {
    if msg.None? then (st.(message := None, event := Some(NoEvent), mtype := None), NoEvent)
    else
      var m := msg.value;
      var st0 := st.(message := msg, mtype := m.mtype);
      if m.mtype == Some("screen") then
        var s := ScreenOf(m);
        (st0.(screen := Some(s), screens := st.screens[m.name := s], event := Some(ScreenEvent)), ScreenEvent)
      else if m.mtype == Some("dialog") then (st0.(dialog := msg, event := Some(DialogEvent)), DialogEvent)
      else if m.mtype == Some("complete") then (st0, Complete)
      else if m.mtype == Some("append") then (st0.(event := Some(Append)), Append)
      else if m.mtype == Some("update") then (st0.(event := Some(UpdateEvent)), UpdateEvent)
      else
        var e := classify(m.mtype, m.updates);
        (st0.(event := Some(e)), e)
  }

  /** `process(message)` with the last branch reading the reply's type. */
  function Processed(st: ProxyState, msg: Option<Incoming>): (r: (ProxyState, Flags))
    ensures msg.None? ==> r.1 == NoEvent
    ensures r.1 != Complete ==> r.0.event == Some(r.1)
    ensures r.1 == Complete ==> r.0.event == st.event && r.0.screen == st.screen && r.0.screens == st.screens
    ensures msg.Some? && msg.value.mtype == Some("screen") ==>
      && r.1 == ScreenEvent && r.0.screen == Some(ScreenOf(msg.value))
      && r.0.screens == st.screens[msg.value.name := ScreenOf(msg.value)]
    ensures msg.Some? && msg.value.mtype == Some("dialog") ==> r.1 == DialogEvent && r.0.dialog == msg
    ensures msg.Some? && msg.value.mtype == Some("progress") ==> Has(r.1, ProgressEvent)
    ensures msg.Some? && msg.value.mtype in {Some("error"), Some("warning"), Some("info")} ==> Has(r.1, MessageEvent)
    ensures msg.Some? && msg.value.mtype != Some("screen") ==> r.0.screen == st.screen && r.0.screens == st.screens
  {
    ProcessWith(st, msg, Classified)
  }

  /** Whether `process` hands the reply to `update`: an `update` reply, or
      a reply of another type that is none of screen, dialog, complete or
      append and carries updates. */
  predicate CallsUpdate(msg: Option<Incoming>) {
    && msg.Some?
    && var t := msg.value.mtype;
       (t == Some("update")
        || (t !in {Some("screen"), Some("dialog"), Some("complete"), Some("append")} && msg.value.updates))
  }

  /** `process(message)` as written. `update` reads `message.updates` as
      an attribute of the dict the reply was decoded into, so every reply
      it is handed raises AttributeError; the others are classified
      through the builtin `type`. */
  function ProcessedAsWritten(st: ProxyState, msg: Option<Incoming>): Outcome<(ProxyState, Flags)> {
    if CallsUpdate(msg) then Raised("AttributeError")
    else Returned(ProcessWith(st, msg, ClassifiedAsWritten))
  }

  /** As written, every reply carrying updates raises; corrected, it gives
      an event with the update bit and leaves the screen cache alone. */
  lemma ProcessAsWrittenRaisesOnUpdates(st: ProxyState, m: Incoming)
    requires m.mtype == Some("update") || (m.mtype == Some("info") && m.updates)
    ensures ProcessedAsWritten(st, Some(m)) == Raised("AttributeError")
    ensures Has(Processed(st, Some(m)).1, UpdateEvent)
    ensures Processed(st, Some(m)).0.screens == st.screens
  {
  }

  /** An `info` reply is reported as unknown by the code as written, and a
      `progress` reply lacks the progress bit, so `interact` stops waiting
      at the first one. */
  lemma ProcessAsWrittenMisclassifies(st: ProxyState, m: Incoming)
    requires m.mtype == Some("info") && !m.updates
    ensures ProcessedAsWritten(st, Some(m)) == Returned((Processed(st, Some(m)).0.(event := Some(Unknown)), Unknown))
    ensures Processed(st, Some(m)).1 == MessageEvent
    ensures ProcessedAsWritten(st, Some(m.(mtype := Some("progress")))).Returned?
    ensures !Has(ProcessedAsWritten(st, Some(m.(mtype := Some("progress")))).value.1, ProgressEvent)
  {
  }

  /** The replies `interact` takes in: each is processed, and the exchange
      ends after the first whose event lacks the progress bit. The new
      fields and how many replies were taken. */
  function Interacted(st: ProxyState, rs: seq<Option<Incoming>>): (r: (ProxyState, nat))
    ensures r.1 <= |rs|
    ensures rs != [] ==> 1 <= r.1
    decreases |rs|
  {
    if rs == [] then (st, 0)
    else
      var (st1, e) := Processed(st, rs[0]);
      if Has(e, ProgressEvent) then
        var (st2, n) := Interacted(st1, rs[1..]);
        (st2, n + 1)
      else (st1, 1)
  }

  /** One reply of the exchange: after a progress event the rest follow. */
  lemma InteractedStep(st: ProxyState, rs: seq<Option<Incoming>>, rest: seq<Option<Incoming>>)
    requires rs != [] && rest == rs[1..]
    ensures var (st1, e) := Processed(st, rs[0]);
      Interacted(st, rs) == if Has(e, ProgressEvent) then (Interacted(st1, rest).0, Interacted(st1, rest).1 + 1) else (st1, 1)
  {
  }

  /** Progress replies keep the exchange going: a progress reply and then
      an info reply are both taken, and the info event is the outcome. */
  lemma ProgressThenMessage(st: ProxyState, p: Incoming, m: Incoming)
    requires p.mtype == Some("progress") && m.mtype == Some("info")
    ensures Interacted(st, [Some(p), Some(m)]).1 == 2
    ensures Interacted(st, [Some(p), Some(m)]).0.event == Some(if m.updates then UpdateMessage else MessageEvent)
  {
    var st1 := Processed(st, Some(p)).0;
    assert [Some(p), Some(m)][1..] == [Some(m)];
    assert Interacted(st1, [Some(m)]) == (Processed(st1, Some(m)).0, 1);
  }

  /** The screen menu: the names of the current screen's menu entries. */
  function ScreenMenu(screen: Option<Screen>): seq<string> {
    if screen.Some? then screen.value.menu else []
  }

  /** The test client's connection state. */
  class Proxy {
    var screen: Option<Screen>
    var screens: map<string, Screen>
    var dialog: Option<Incoming>
    var event: Option<Flags>
    var mtype: Option<string>
    var message: Option<Incoming>

    ghost function State(): ProxyState
      reads this
    {
      ProxyState(screen, screens, dialog, event, mtype, message)
    }

    /** `Proxy(...)`: a client with nothing cached takes in the server's
        first reply. */
    constructor (first: Option<Incoming>)
      ensures State() == Processed(Fresh, first).0
    {
      screen, screens, dialog, event, mtype, message := None, map[], None, None, None, None;
      new;
      var _ := Process(first);
    }

    /** `process(message)`. */
    method Process(msg: Option<Incoming>) returns (r: Flags)
      modifies this
      ensures (State(), r) == Processed(old(State()), msg)
    {
      message := msg;
      if msg.None? {
        event, mtype := Some(NoEvent), None;
        return NoEvent;
      }
      var m := msg.value;
      mtype := m.mtype;
      if m.mtype == Some("screen") {
        var s := ScreenOf(m);
        screen := Some(s);
        screens := screens[m.name := s];
        event := Some(ScreenEvent);
      } else if m.mtype == Some("dialog") {
        dialog := msg;
        event := Some(DialogEvent);
      } else if m.mtype == Some("complete") {
        return Complete;
      } else if m.mtype == Some("append") {
        event := Some(Append);
      } else if m.mtype == Some("update") {
        event := Some(UpdateEvent);
      } else {
        event := Some(Classified(m.mtype, m.updates));
      }
      r := event.value;
    }

    /** `interact`: replies are taken in while they report progress; the
        result is the event field afterwards. */
    method Interact(replies: seq<Option<Incoming>>) returns (r: Option<Flags>, taken: nat)
      modifies this
      ensures (State(), taken) == Interacted(old(State()), replies) && r == event
    {
      ghost var final := Interacted(State(), replies);
      taken := 0;
      var done := false;
      while !done && taken < |replies|
        invariant taken <= |replies|
        invariant !done ==> Interacted(State(), replies[taken..]).0 == final.0
        invariant !done ==> Interacted(State(), replies[taken..]).1 + taken == final.1
        invariant done ==> (State(), taken) == final
        decreases |replies| - taken
      {
        ghost var st := State();
        InteractedStep(st, replies[taken..], replies[taken + 1..]);
        var e := Process(replies[taken]);
        taken := taken + 1;
        done := !Has(e, ProgressEvent);
      }
      r := event;
    }

    /** `set_screen(name)`: True for a cached screen; False for a name not
        in the menu; otherwise the screen is requested, and the answer is
        whether the reply was a screen. */
    method SetScreen(name: string, reply: Option<Incoming>) returns (ok: bool)
      modifies this
      ensures name in old(screens) ==> ok && State() == old(State())
      ensures name !in old(screens) && name !in ScreenMenu(old(screen)) ==> !ok && State() == old(State())
      ensures name !in old(screens) && name in ScreenMenu(old(screen)) ==>
        var (st, e) := Processed(old(State()), reply);
        State() == st && ok == (e == ScreenEvent)
      ensures name !in old(screens) && name in ScreenMenu(old(screen)) && reply.Some? && reply.value.mtype == Some("screen") ==>
        ok && reply.value.name in screens
    {
      if name in screens {
        return true;
      }
      if name in ScreenMenu(screen) {
        var e := Process(reply);
        return e == ScreenEvent;
      }
      return false;
    }

    /** `dialog_responce(command)`: without a dialog the event is invalid;
        otherwise the exchange with the server decides it. */
    method DialogResponse(replies: seq<Option<Incoming>>) returns (r: Option<Flags>, taken: nat)
      modifies this
      ensures old(dialog).None? ==> r == Some(Invalid) && event == Some(Invalid) && taken == 0
      ensures old(dialog).None? ==> State() == old(State()).(event := Some(Invalid))
      ensures old(dialog).Some? ==> (State(), taken) == Interacted(old(State()), replies) && r == event
    {
      if dialog.None? {
        event := Some(Invalid);
        return Some(Invalid), 0;
      }
      r, taken := Interact(replies);
    }
  }
}
