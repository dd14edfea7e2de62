/** The screen validators and the test recorder of unisi/autotest.py.
    `check_block` and `check_module` are loops over the elements and blocks
    of a screen that fill a dictionary of element hashes and sets of names;
    each is a method proved equal to a function that states the same scan
    element by element, and the properties of the scan are lemmas about that
    function. */
module Autotest {
  import opened Values
  import opened Common

  // ---------------------------------------------------------------------
  // check_block

  /** An element of a block as `check_block` sees it: a unit (its identity
      hash, its name, its `type` when it has one, whether it has a `view`,
      whether it is a Block), or any other object (its hash). A unit is
      always truthy. */
  datatype Child =
    | UnitChild(key: nat, name: Value, ctype: Option<Value>, hasView: bool, isBlock: bool)
    | Other(key: nat)

  /** The name of an element; other objects have none. */
  function NameOf(c: Child): Value {
    if c.UnitChild? then c.name else Null
  }

  /** What is wrong with one element. */
  datatype Problem =
    | Reused(first: Value) // already used, in the block so named
    | Invalid              // not a Unit
    | NestedBlock          // a Block inside a block
    | DuplicateName        // a name already used in the block
    | NoView               // a chart without `view`

  /** The error lines of the validators. */
  datatype CheckError =
    | Unnamed
    | NameNotString(name: Value)
    | ChildProblem(block: Value, child: Child, problem: Problem)
    | ScreenUnnamed
    | ScreenNameNotString(name: Value)
    | BlocksNotList
    | NotABlock(key: nat)
    | DuplicateBlock(name: Value)
    | Header(screen: Value)

  /** `hash_elements` (an element's hash to the block it was first seen in)
      and `child_names`, the names accepted so far in the block. */
  datatype Scan = Scan(seen: map<nat, Value>, names: set<Value>)

  /** `cs[k]` was seen before: in an earlier block or earlier in this one. */
  predicate Repeated(cs: seq<Child>, k: nat, seen: map<nat, Value>)
    requires k < |cs|
  {
    cs[k].key in seen || exists j :: 0 <= j < k && cs[j].key == cs[k].key
  }

  /** One pass of the loop of `check_block` over the element `c` of block
      `bn`: its problem, if any, and the scan after it. None is an
      AttributeError: the message about a repeated object reads its `name`,
      which only units have, and the duplicate and chart tests read the
      `type` of a unit. */
  function Judge(bn: Value, c: Child, st: Scan): Option<(Option<Problem>, Scan)> {
    if c.key in st.seen then
      if c.Other? then None else Some((Some(Reused(st.seen[c.key])), st))
    else
      var seen := st.seen[c.key := bn];
      if c.Other? then Some((Some(Invalid), Scan(seen, st.names)))
      else if c.isBlock then Some((Some(NestedBlock), Scan(seen, st.names)))
      else if c.ctype.None? then None
      else if c.name in st.names && c.ctype.value != Str("line") then Some((Some(DuplicateName), Scan(seen, st.names)))
      else if c.ctype.value == Str("chart") && !c.hasView then Some((Some(NoView), Scan(seen, st.names)))
      else Some((None, Scan(seen, st.names + {c.name})))
  }

  /** The verdicts on the elements `cs` of block `bn`, in order, and the scan
      after the last; None when an element raises. */
  function Verdicts(bn: Value, cs: seq<Child>, st0: Scan): (r: Option<(seq<Option<Problem>>, Scan)>)
    ensures r.Some? ==> |r.value.0| == |cs|
  {
    if cs == [] then Some(([], st0))
    else
      match Verdicts(bn, cs[..|cs| - 1], st0)
      case None => None
      case Some(p) =>
        match Judge(bn, cs[|cs| - 1], p.1)
        case None => None
        case Some(q) => Some((p.0 + [q.0], q.1))
  }

  /** The error lines of a block's verdicts, in element order. */
  function Reported(bn: Value, cs: seq<Child>, vs: seq<Option<Problem>>): seq<CheckError>
    requires |vs| == |cs|
  {
    if cs == [] then []
    else
      Reported(bn, cs[..|cs| - 1], vs[..|vs| - 1]) +
      (if vs[|vs| - 1].Some? then [ChildProblem(bn, cs[|cs| - 1], vs[|vs| - 1].value)] else [])
  }

  /** The outcome of `check_block`: its errors, `hash_elements` after it and
      the block's name after it. */
  datatype BlockCheck = BlockCheck(errors: seq<CheckError>, seen: map<nat, Value>, name: Value)

  /** `check_block` of a block with this `name` and `value` (None: no such
      attribute) against `hash_elements` `seen`. A block whose name is
      missing or falsy is reported and renamed `'Unknown'`; reading a
      missing `value` raises (None). */
  function BlockChecked(name: Option<Value>, value: Option<seq<Nested<Child>>>, seen: map<nat, Value>): Option<BlockCheck> {
    if value.None? then None
    else
      var bad := name.None? || !Truthy(name.value);
      var bn := if bad then Str("Unknown") else name.value;
      var head := (if bad then [Unnamed] else []) + (if !bn.Str? then [NameNotString(bn)] else []);
      var cs := Flatten(value.value);
      match Verdicts(bn, cs, Scan(seen, {}))
      case None => None
      case Some(p) => Some(BlockCheck(head + Reported(bn, cs, p.0), p.1.seen, bn))
  }

  /** A scan that raises on a prefix raises on the whole. */
  lemma {:induction false} VerdictsRaise(bn: Value, cs: seq<Child>, st0: Scan, n: nat)
    requires n <= |cs| && Verdicts(bn, cs[..n], st0).None?
    ensures Verdicts(bn, cs, st0).None?
    decreases |cs| - n
  {
    if n < |cs| {
      assert cs[..n + 1][..n] == cs[..n];
      VerdictsRaise(bn, cs, st0, n + 1);
    } else {
      assert cs[..n] == cs;
    }
  }

  /** One more element extends the verdicts and the error lines. */
  lemma ScanStep(bn: Value, cs: seq<Child>, st0: Scan, i: nat, vs: seq<Option<Problem>>, st: Scan,
                 v: Option<Problem>, st': Scan)
    requires i < |cs| && Verdicts(bn, cs[..i], st0) == Some((vs, st)) && Judge(bn, cs[i], st) == Some((v, st'))
    ensures Verdicts(bn, cs[..i + 1], st0) == Some((vs + [v], st'))
    ensures Reported(bn, cs[..i + 1], vs + [v]) ==
      Reported(bn, cs[..i], vs) + (if v.Some? then [ChildProblem(bn, cs[i], v.value)] else [])
  {
    assert cs[..i + 1][..i] == cs[..i];
    assert (vs + [v])[..i] == vs;
  }

  /** An element that raises makes the whole scan raise. */
  lemma ScanRaises(bn: Value, cs: seq<Child>, st0: Scan, i: nat, vs: seq<Option<Problem>>, st: Scan)
    requires i < |cs| && Verdicts(bn, cs[..i], st0) == Some((vs, st)) && Judge(bn, cs[i], st).None?
    ensures Verdicts(bn, cs, st0).None?
  {
    assert cs[..i + 1][..i] == cs[..i];
    VerdictsRaise(bn, cs, st0, i + 1);
  }

  /** The body of the loop of `check_block` for one element. */
  method Visit(bn: Value, c: Child, hashes: map<nat, Value>, names: set<Value>)
    returns (raised: bool, problem: Option<Problem>, hashes': map<nat, Value>, names': set<Value>)
    ensures raised <==> Judge(bn, c, Scan(hashes, names)).None?
    ensures !raised ==> Judge(bn, c, Scan(hashes, names)) == Some((problem, Scan(hashes', names')))
  {
    raised, problem, hashes', names' := false, None, hashes, names;
    if c.key in hashes {
      if c.Other? {
        return true, None, hashes, names;
      }
      problem := Some(Reused(hashes[c.key]));
      return;
    }
    hashes' := hashes[c.key := bn];
    if c.Other? {
      problem := Some(Invalid);
    } else if c.isBlock {
      problem := Some(NestedBlock);
    } else if c.ctype.None? {
      raised := true;
    } else if c.name in names && c.ctype.value != Str("line") {
      problem := Some(DuplicateName);
    } else if c.ctype.value == Str("chart") && !c.hasView {
      problem := Some(NoView);
    } else {
      names' := names + {c.name};
    }
  }

  /** The loop of `check_block` over the flattened elements `cs` of block
      `bn`: the error lines and `hash_elements` after it, None if it raises. */
  method ScanElements(bn: Value, cs: seq<Child>, seen: map<nat, Value>)
    returns (r: Option<(seq<CheckError>, map<nat, Value>)>)
    ensures r.None? <==> Verdicts(bn, cs, Scan(seen, {})).None?
    ensures r.Some? ==>
      r.value == (Reported(bn, cs, Verdicts(bn, cs, Scan(seen, {})).value.0), Verdicts(bn, cs, Scan(seen, {})).value.1.seen)
  {
    var errors := [];
    var hashes: map<nat, Value> := seen;
    var names: set<Value> := {};
    ghost var vs: seq<Option<Problem>> := [];
    ghost var st0 := Scan(seen, {});
    var i: nat := 0;
    while i < |cs|
      invariant i <= |cs|
      invariant Verdicts(bn, cs[..i], st0) == Some((vs, Scan(hashes, names)))
      invariant errors == Reported(bn, cs[..i], vs)
    {
      var c := cs[i];
      ghost var st := Scan(hashes, names);
      var raised, problem, hashes', names' := Visit(bn, c, hashes, names);
      if raised {
        ScanRaises(bn, cs, st0, i, vs, st);
        return None;
      }
      hashes, names := hashes', names';
      if problem.Some? {
        errors := errors + [ChildProblem(bn, c, problem.value)];
      }
      ScanStep(bn, cs, st0, i, vs, st, problem, Scan(hashes, names));
      vs := vs + [problem];
      i := i + 1;
    }
    assert cs[..i] == cs;
    return Some((errors, hashes));
  }

  /** `check_block(block, hash_elements)`. */
  method CheckBlock(name: Option<Value>, value: Option<seq<Nested<Child>>>, seen: map<nat, Value>)
    returns (r: Option<BlockCheck>)
    ensures r == BlockChecked(name, value, seen)
  {
    if value.None? {
      return None;
    }
    var bad := name.None? || !Truthy(name.value);
    var bn := if bad then Str("Unknown") else name.value;
    var head := (if bad then [Unnamed] else []) + (if !bn.Str? then [NameNotString(bn)] else []);
    var scanned := ScanElements(bn, Flatten(value.value), seen);
    if scanned.None? {
      return None;
    }
    return Some(BlockCheck(head + scanned.value.0, scanned.value.1, bn));
  }

  /** The hashes of the elements `cs`. */
  function KeysOf(cs: seq<Child>): set<nat> {
    set j | 0 <= j < |cs| :: cs[j].key
  }

  /** The names of the elements the verdicts accept. */
  function CleanNames(cs: seq<Child>, vs: seq<Option<Problem>>): set<Value>
    requires |vs| == |cs|
  {
    set j | 0 <= j < |cs| && vs[j].None? :: NameOf(cs[j])
  }

  /** After the scan, `hash_elements` holds exactly the earlier hashes and
      those of the block's elements, and `child_names` exactly the names of
      the accepted elements. */
  lemma {:induction false} ScanState(bn: Value, cs: seq<Child>, st0: Scan)
    requires Verdicts(bn, cs, st0).Some?
    ensures Verdicts(bn, cs, st0).value.1.seen.Keys == st0.seen.Keys + KeysOf(cs)
    ensures Verdicts(bn, cs, st0).value.1.names == st0.names + CleanNames(cs, Verdicts(bn, cs, st0).value.0)
  {
    if cs != [] {
      var init := cs[..|cs| - 1];
      ScanState(bn, init, st0);
      var p := Verdicts(bn, init, st0).value;
      var q := Judge(bn, cs[|cs| - 1], p.1).value;
      assert Verdicts(bn, cs, st0).value == (p.0 + [q.0], q.1);
      JudgeState(bn, cs[|cs| - 1], p.1);
      KeysOfSnoc(cs);
      CleanNamesSnoc(cs, p.0 + [q.0]);
      assert (p.0 + [q.0])[..|cs| - 1] == p.0;
    }
  }

  /** Judging one element records its hash and, when it is accepted, its
      name. */
  lemma JudgeState(bn: Value, c: Child, st: Scan)
    requires Judge(bn, c, st).Some?
    ensures var q := Judge(bn, c, st).value;
      && q.1.seen.Keys == st.seen.Keys + {c.key}
      && q.1.names == st.names + (if q.0.None? then {NameOf(c)} else {})
  {
  }

  lemma KeysOfSnoc(cs: seq<Child>)
    requires cs != []
    ensures KeysOf(cs) == KeysOf(cs[..|cs| - 1]) + {cs[|cs| - 1].key}
  {
    var init := cs[..|cs| - 1];
    forall x | x in KeysOf(cs) ensures x in KeysOf(init) + {cs[|cs| - 1].key} {
      var j :| 0 <= j < |cs| && cs[j].key == x;
      if j < |cs| - 1 {
        assert init[j] == cs[j];
      }
    }
    forall x | x in KeysOf(init) ensures x in KeysOf(cs) {
      var j :| 0 <= j < |init| && init[j].key == x;
      assert cs[j] == init[j];
    }
  }

  lemma CleanNamesSnoc(cs: seq<Child>, vs: seq<Option<Problem>>)
    requires cs != [] && |vs| == |cs|
    ensures CleanNames(cs, vs) ==
      CleanNames(cs[..|cs| - 1], vs[..|vs| - 1]) + (if vs[|cs| - 1].None? then {NameOf(cs[|cs| - 1])} else {})
  {
    var init := cs[..|cs| - 1];
    var ws := vs[..|vs| - 1];
    var last := if vs[|cs| - 1].None? then {NameOf(cs[|cs| - 1])} else {};
    forall x | x in CleanNames(cs, vs) ensures x in CleanNames(init, ws) + last {
      var j :| 0 <= j < |cs| && vs[j].None? && NameOf(cs[j]) == x;
      if j < |cs| - 1 {
        assert init[j] == cs[j] && ws[j] == vs[j];
      }
    }
    forall x | x in CleanNames(init, ws) ensures x in CleanNames(cs, vs) {
      var j :| 0 <= j < |init| && ws[j].None? && NameOf(init[j]) == x;
      assert cs[j] == init[j] && vs[j] == ws[j];
    }
  }

  /** The scan of a prefix is the start of the scan of the whole, and the
      verdict on the next element is the `Judge` of it in the prefix's scan. */
  lemma {:induction false} VerdictsPrefix(bn: Value, cs: seq<Child>, st0: Scan, k: nat)
    requires Verdicts(bn, cs, st0).Some? && k < |cs|
    ensures Verdicts(bn, cs[..k], st0).Some?
    ensures Verdicts(bn, cs[..k], st0).value.0 == Verdicts(bn, cs, st0).value.0[..k]
    ensures Judge(bn, cs[k], Verdicts(bn, cs[..k], st0).value.1).Some?
    ensures Judge(bn, cs[k], Verdicts(bn, cs[..k], st0).value.1).value.0 == Verdicts(bn, cs, st0).value.0[k]
    decreases |cs|
  {
    var init := cs[..|cs| - 1];
    if k < |cs| - 1 {
      VerdictsPrefix(bn, init, st0, k);
      assert init[..k] == cs[..k] && init[k] == cs[k];
    } else {
      assert init == cs[..k];
    }
  }

  /** An element is reported as already used exactly when it was seen
      before, in an earlier block or earlier in this one. */
  lemma ReusedExactly(bn: Value, cs: seq<Child>, st0: Scan, k: nat)
    requires Verdicts(bn, cs, st0).Some? && k < |cs|
    ensures Verdicts(bn, cs, st0).value.0[k].Some? && Verdicts(bn, cs, st0).value.0[k].value.Reused?
      <==> Repeated(cs, k, st0.seen)
  {
    VerdictsPrefix(bn, cs, st0, k);
    ScanState(bn, cs[..k], st0);
    assert forall j :: 0 <= j < k ==> cs[..k][j] == cs[j];
    if Repeated(cs, k, st0.seen) {
      if cs[k].key !in st0.seen {
        var j :| 0 <= j < k && cs[j].key == cs[k].key;
        assert cs[j].key in KeysOf(cs[..k]);
      }
    }
  }

  /** A name is reported duplicated only for a unit whose type is not
      `'line'` and when an earlier, accepted element of the block has it. */
  lemma DuplicateSound(bn: Value, cs: seq<Child>, st0: Scan, k: nat)
    requires Verdicts(bn, cs, st0).Some? && k < |cs| && st0.names == {}
    requires Verdicts(bn, cs, st0).value.0[k] == Some(DuplicateName)
    ensures cs[k].UnitChild? && cs[k].ctype.Some? && cs[k].ctype.value != Str("line")
    ensures exists j :: 0 <= j < k && Verdicts(bn, cs, st0).value.0[j].None? && NameOf(cs[j]) == cs[k].name
  {
    var vs := Verdicts(bn, cs, st0).value.0;
    VerdictsPrefix(bn, cs, st0, k);
    ScanState(bn, cs[..k], st0);
    var pre := Verdicts(bn, cs[..k], st0).value;
    assert cs[k].name in CleanNames(cs[..k], pre.0);
    var j :| 0 <= j < k && pre.0[j].None? && NameOf(cs[..k][j]) == cs[k].name;
    assert vs[j] == pre.0[j] && cs[..k][j] == cs[j];
  }

  /** A new unit of a type other than `'line'` that has the name of an
      earlier accepted element of its block is reported duplicated. */
  lemma DuplicateComplete(bn: Value, cs: seq<Child>, st0: Scan, j: nat, k: nat)
    requires Verdicts(bn, cs, st0).Some? && j < k < |cs|
    requires Verdicts(bn, cs, st0).value.0[j].None? && !Repeated(cs, k, st0.seen)
    requires cs[k].UnitChild? && !cs[k].isBlock && cs[k].ctype.Some? && cs[k].ctype.value != Str("line")
    requires NameOf(cs[j]) == cs[k].name
    ensures Verdicts(bn, cs, st0).value.0[k] == Some(DuplicateName)
  {
    var vs := Verdicts(bn, cs, st0).value.0;
    VerdictsPrefix(bn, cs, st0, k);
    ScanState(bn, cs[..k], st0);
    var pre := Verdicts(bn, cs[..k], st0).value;
    assert pre.0[j] == vs[j] && cs[..k][j] == cs[j];
    assert cs[k].name in CleanNames(cs[..k], pre.0);
  }

  // ---------------------------------------------------------------------
  // check_module

  /** An entry of a screen's `blocks` (its hash; whether it is a Block; its
      `name` and `value`, None where it has no such attribute). */
  datatype BlockDef = BlockDef(key: nat, isBlock: bool, name: Option<Value>, value: Option<seq<Nested<Child>>>)

  /** A screen: its `name` (None: not defined), its `blocks` (None: not a
      list) and its toolbar. */
  datatype ScreenDef = ScreenDef(name: Option<Value>, blocks: Option<seq<Nested<BlockDef>>>, toolbar: seq<Child>)

  /** The scan of `check_module`: `hash_elements`, `block_names` and the
      blocks `check_block` renamed so far. */
  datatype ModScan = ModScan(seen: map<nat, Value>, names: set<Value>, renamed: set<nat>)

  /** One pass of the loop of `check_module`: the entry is reported when
      it is not a Block or its name is taken, then checked as a block. A
      Block without a name attribute raises. */
  function BlockStep(b: BlockDef, st: ModScan): Option<(seq<CheckError>, ModScan)> {
    var nm := if b.key in st.renamed then Some(Str("Unknown")) else b.name;
    if b.isBlock && nm.None? then None
    else
      var taken := b.isBlock && nm.value in st.names;
      var e1 := if !b.isBlock then [NotABlock(b.key)] else if taken then [DuplicateBlock(nm.value)] else [];
      var names := if b.isBlock && !taken then st.names + {nm.value} else st.names;
      match BlockChecked(nm, b.value, st.seen)
      case None => None
      case Some(bc) =>
        Some((e1 + bc.errors, ModScan(bc.seen, names, if Some(bc.name) != nm then st.renamed + {b.key} else st.renamed)))
  }

  /** The errors of the entries `bs`, in order, and the scan after them. */
  function BlocksScanned(bs: seq<BlockDef>, st0: ModScan): Option<(seq<CheckError>, ModScan)> {
    if bs == [] then Some(([], st0))
    else
      match BlocksScanned(bs[..|bs| - 1], st0)
      case None => None
      case Some(p) =>
        match BlockStep(bs[|bs| - 1], p.1)
        case None => None
        case Some(q) => Some((p.0 + q.0, q.1))
  }

  /** `Block('toolbar', *toolbar).value`. */
  function Leaves(tb: seq<Child>): seq<Nested<Child>> {
    seq(|tb|, i requires 0 <= i < |tb| => Leaf(tb[i]))
  }

  /** The toolbar is checked as a block named `'toolbar'` when it is not
      empty. */
  function ToolbarChecked(tb: seq<Child>): Option<BlockCheck> {
    if tb == [] then Some(BlockCheck([], map[], Str("toolbar")))
    else BlockChecked(Some(Str("toolbar")), Some(Leaves(tb)), map[])
  }

  /** `check_module`: the screen's name, then (when `blocks` is a list) the
      toolbar and every entry, `'toolbar'` counting as a taken block name;
      a header line goes first when there is any error. None: raised. */
  function ModuleChecked(s: ScreenDef): (r: Option<seq<CheckError>>)
    ensures r.Some? && r.value != [] ==> r.value[0].Header?
  {
    var bad := s.name.None? || !Truthy(s.name.value);
    var sn := if bad then Str("Unknown") else s.name.value;
    var head := if bad then [ScreenUnnamed] else if !sn.Str? then [ScreenNameNotString(sn)] else [];
    var body :=
      if s.blocks.None? then Some([BlocksNotList])
      else
        match ToolbarChecked(s.toolbar)
        case None => None
        case Some(tb) =>
          match BlocksScanned(Flatten(s.blocks.value), ModScan(tb.seen, {Str("toolbar")}, {}))
          case None => None
          case Some(p) => Some(tb.errors + p.0);
    match body
    case None => None
    case Some(b) =>
      var all := head + b;
      Some(if all == [] then [] else [Header(sn)] + all)
  }

  /** An entry scan that raises on a prefix raises on the whole. */
  lemma {:induction false} BlocksRaise(bs: seq<BlockDef>, st0: ModScan, n: nat)
    requires n <= |bs| && BlocksScanned(bs[..n], st0).None?
    ensures BlocksScanned(bs, st0).None?
    decreases |bs| - n
  {
    if n < |bs| {
      assert bs[..n + 1][..n] == bs[..n];
      BlocksRaise(bs, st0, n + 1);
    } else {
      assert bs[..n] == bs;
    }
  }

  /** The body of the loop of `check_module` for one entry. */
  method VisitEntry(b: BlockDef, hashes: map<nat, Value>, names: set<Value>, renamed: set<nat>)
    returns (r: Option<(seq<CheckError>, ModScan)>)
    ensures r == BlockStep(b, ModScan(hashes, names, renamed))
  {
    var nm := if b.key in renamed then Some(Str("Unknown")) else b.name;
    if b.isBlock && nm.None? {
      return None;
    }
    var errors := [];
    var names' := names;
    if !b.isBlock {
      errors := [NotABlock(b.key)];
    } else if nm.value in names {
      errors := [DuplicateBlock(nm.value)];
    } else {
      names' := names + {nm.value};
    }
    var bc := CheckBlock(nm, b.value, hashes);
    if bc.None? {
      return None;
    }
    var renamed' := renamed;
    if Some(bc.value.name) != nm {
      renamed' := renamed + {b.key};
    }
    return Some((errors + bc.value.errors, ModScan(bc.value.seen, names', renamed')));
  }

  /** The loop of `check_module` over the flattened entries. */
  method ScanEntries(bs: seq<BlockDef>, st0: ModScan) returns (r: Option<seq<CheckError>>)
    ensures r.None? <==> BlocksScanned(bs, st0).None?
    ensures r.Some? ==> r.value == BlocksScanned(bs, st0).value.0
  {
    var errors := [];
    var st := st0;
    var i := 0;
    while i < |bs|
      invariant 0 <= i <= |bs|
      invariant BlocksScanned(bs[..i], st0) == Some((errors, st))
    {
      assert bs[..i + 1][..i] == bs[..i];
      var step := VisitEntry(bs[i], st.seen, st.names, st.renamed);
      if step.None? {
        BlocksRaise(bs, st0, i + 1);
        return None;
      }
      errors := errors + step.value.0;
      st := step.value.1;
      i := i + 1;
    }
    assert bs[..i] == bs;
    return Some(errors);
  }

  /** `check_module(module)`. */
  method CheckModule(s: ScreenDef) returns (r: Option<seq<CheckError>>)
    ensures r == ModuleChecked(s)
  {
    var bad := s.name.None? || !Truthy(s.name.value);
    var sn := if bad then Str("Unknown") else s.name.value;
    var errors := if bad then [ScreenUnnamed] else if !sn.Str? then [ScreenNameNotString(sn)] else [];
    if s.blocks.None? {
      errors := errors + [BlocksNotList];
    } else {
      ghost var toolbar := ToolbarChecked(s.toolbar);
      var hashes: map<nat, Value> := map[];
      var tbErrors := [];
      if s.toolbar != [] {
        var tb := CheckBlock(Some(Str("toolbar")), Some(Leaves(s.toolbar)), hashes);
        if tb.None? {
          return None;
        }
        tbErrors, hashes := tb.value.errors, tb.value.seen;
      }
      assert toolbar == Some(BlockCheck(tbErrors, hashes, Str("toolbar")));
      var rest := ScanEntries(Flatten(s.blocks.value), ModScan(hashes, {Str("toolbar")}, {}));
      if rest.None? {
        return None;
      }
      errors := errors + (tbErrors + rest.value);
    }
    if errors != [] {
      errors := [Header(sn)] + errors;
    }
    return Some(errors);
  }

  /** Entry `k` of `bs` was never met before (so never renamed). */
  predicate FirstMet(bs: seq<BlockDef>, k: nat, renamed: set<nat>)
    requires k < |bs|
  {
    bs[k].key !in renamed && forall j :: 0 <= j < k ==> bs[j].key != bs[k].key
  }

  /** The errors of a prefix of the entries start the errors of the whole. */
  lemma {:induction false} BlocksPrefix(bs: seq<BlockDef>, st0: ModScan, k: nat)
    requires BlocksScanned(bs, st0).Some? && k <= |bs|
    ensures BlocksScanned(bs[..k], st0).Some?
    ensures BlocksScanned(bs[..k], st0).value.0 <= BlocksScanned(bs, st0).value.0
    decreases |bs|
  {
    if k < |bs| {
      var init := bs[..|bs| - 1];
      BlocksPrefix(init, st0, k);
      assert init[..k] == bs[..k];
    } else {
      assert bs[..k] == bs;
    }
  }

  /** The scan keeps its starting block names, renames only entries it met,
      and holds the name of every Block it met first. */
  lemma {:induction false} BlockNames(bs: seq<BlockDef>, st0: ModScan)
    requires BlocksScanned(bs, st0).Some?
    ensures st0.names <= BlocksScanned(bs, st0).value.1.names
    ensures forall x :: x in BlocksScanned(bs, st0).value.1.renamed ==>
      x in st0.renamed || exists j :: 0 <= j < |bs| && bs[j].key == x
    ensures forall j :: 0 <= j < |bs| && bs[j].isBlock && bs[j].name.Some? && FirstMet(bs, j, st0.renamed) ==>
      bs[j].name.value in BlocksScanned(bs, st0).value.1.names
  {
    if bs != [] {
      var init := bs[..|bs| - 1];
      BlockNames(init, st0);
      var last := |bs| - 1;
      forall j | 0 <= j < last && bs[j].isBlock && bs[j].name.Some? && FirstMet(bs, j, st0.renamed)
        ensures bs[j].name.value in BlocksScanned(init, st0).value.1.names
      {
        assert init[j] == bs[j];
        assert FirstMet(init, j, st0.renamed) by {
          forall i | 0 <= i < j ensures init[i].key != init[j].key {
            assert init[i] == bs[i];
          }
        }
      }
      var st := BlocksScanned(init, st0).value.1;
      forall x | x in BlocksScanned(bs, st0).value.1.renamed
        ensures x in st0.renamed || exists j :: 0 <= j < |bs| && bs[j].key == x
      {
        if x in st.renamed && x !in st0.renamed {
          var j :| 0 <= j < |init| && init[j].key == x;
          assert bs[j] == init[j];
        }
      }
    }
  }

  /** A Block whose current name is taken gets the duplicate line. */
  lemma TakenStep(bs: seq<BlockDef>, st0: ModScan, k: nat, n: Value)
    requires k < |bs| && BlocksScanned(bs[..k + 1], st0).Some?
    requires bs[k].isBlock && bs[k].name == Some(n)
    requires BlocksScanned(bs[..k], st0).Some?
    requires n in BlocksScanned(bs[..k], st0).value.1.names && bs[k].key !in BlocksScanned(bs[..k], st0).value.1.renamed
    ensures DuplicateBlock(n) in BlocksScanned(bs[..k + 1], st0).value.0
  {
    assert bs[..k + 1][..k] == bs[..k] && bs[..k + 1][k] == bs[k];
    var st := BlocksScanned(bs[..k], st0).value.1;
    var step := BlockStep(bs[k], st).value;
    assert step.0[0] == DuplicateBlock(n);
    assert BlocksScanned(bs[..k + 1], st0).value.0 == BlocksScanned(bs[..k], st0).value.0 + step.0;
  }

  /** Before entry `k`, a name taken at the start or by a Block met first
      is still taken, and an entry met first is not renamed. */
  lemma TakenBefore(bs: seq<BlockDef>, st0: ModScan, k: nat, n: Value)
    requires k < |bs| && BlocksScanned(bs[..k], st0).Some?
    requires FirstMet(bs, k, st0.renamed)
    requires n in st0.names ||
      exists j :: 0 <= j < k && bs[j].isBlock && bs[j].name == Some(n) && FirstMet(bs, j, st0.renamed)
    ensures n in BlocksScanned(bs[..k], st0).value.1.names
    ensures bs[k].key !in BlocksScanned(bs[..k], st0).value.1.renamed
  {
    var pre := bs[..k];
    BlockNames(pre, st0);
    if n !in st0.names {
      var j :| 0 <= j < k && bs[j].isBlock && bs[j].name == Some(n) && FirstMet(bs, j, st0.renamed);
      assert pre[j] == bs[j];
      assert FirstMet(pre, j, st0.renamed) by {
        forall i | 0 <= i < j ensures pre[i].key != pre[j].key {
          assert pre[i] == bs[i];
        }
      }
    }
  }

  /** A Block whose name is already taken, by the starting names or by a
      Block met first earlier, is reported as a duplicated block name. */
  lemma DuplicateBlockReported(bs: seq<BlockDef>, st0: ModScan, k: nat, n: Value)
    requires BlocksScanned(bs, st0).Some? && k < |bs|
    requires bs[k].isBlock && bs[k].name == Some(n) && FirstMet(bs, k, st0.renamed)
    requires n in st0.names ||
      exists j :: 0 <= j < k && bs[j].isBlock && bs[j].name == Some(n) && FirstMet(bs, j, st0.renamed)
    ensures DuplicateBlock(n) in BlocksScanned(bs, st0).value.0
  {
    BlocksPrefix(bs, st0, k + 1);
    BlocksPrefix(bs, st0, k);
    TakenBefore(bs, st0, k, n);
    TakenStep(bs, st0, k, n);
  }

  /** `'toolbar'` is reserved: a Block so named, met for the first time, is
      reported as a duplicated block name. */
  lemma ToolbarReserved(s: ScreenDef, k: nat)
    requires ModuleChecked(s).Some? && s.blocks.Some? && k < |Flatten(s.blocks.value)|
    requires var bs := Flatten(s.blocks.value);
      bs[k].isBlock && bs[k].name == Some(Str("toolbar")) && FirstMet(bs, k, {})
    ensures DuplicateBlock(Str("toolbar")) in ModuleChecked(s).value
  {
    var tb := ToolbarChecked(s.toolbar).value;
    var st0 := ModScan(tb.seen, {Str("toolbar")}, {});
    DuplicateBlockReported(Flatten(s.blocks.value), st0, k, Str("toolbar"));
  }

  /** No line of `es` is a header. */
  predicate NoHeaders(es: seq<CheckError>) {
    forall i :: 0 <= i < |es| ==> !es[i].Header?
  }

  lemma {:induction false} ReportedNoHeaders(bn: Value, cs: seq<Child>, vs: seq<Option<Problem>>)
    requires |vs| == |cs|
    ensures NoHeaders(Reported(bn, cs, vs))
  {
    if cs != [] {
      ReportedNoHeaders(bn, cs[..|cs| - 1], vs[..|vs| - 1]);
    }
  }

  lemma BlockNoHeaders(name: Option<Value>, value: Option<seq<Nested<Child>>>, seen: map<nat, Value>)
    requires BlockChecked(name, value, seen).Some?
    ensures NoHeaders(BlockChecked(name, value, seen).value.errors)
  {
    var bad := name.None? || !Truthy(name.value);
    var bn := if bad then Str("Unknown") else name.value;
    var cs := Flatten(value.value);
    ReportedNoHeaders(bn, cs, Verdicts(bn, cs, Scan(seen, {})).value.0);
  }

  lemma {:induction false} BlocksNoHeaders(bs: seq<BlockDef>, st0: ModScan)
    requires BlocksScanned(bs, st0).Some?
    ensures NoHeaders(BlocksScanned(bs, st0).value.0)
  {
    if bs != [] {
      var init := bs[..|bs| - 1];
      BlocksNoHeaders(init, st0);
      var st := BlocksScanned(init, st0).value.1;
      var b := bs[|bs| - 1];
      var nm := if b.key in st.renamed then Some(Str("Unknown")) else b.name;
      BlockNoHeaders(nm, b.value, st.seen);
    }
  }

  /** With no error the result is empty; otherwise the header line comes
      first and only there. */
  lemma HeaderFirst(s: ScreenDef)
    requires ModuleChecked(s).Some?
    ensures var r := ModuleChecked(s).value;
      r == [] || (r[0] == Header(if s.name.None? || !Truthy(s.name.value) then Str("Unknown") else s.name.value) &&
                  NoHeaders(r[1..]))
  {
    if s.blocks.Some? {
      if s.toolbar != [] {
        BlockNoHeaders(Some(Str("toolbar")), Some(Leaves(s.toolbar)), map[]);
      }
      var tb := ToolbarChecked(s.toolbar).value;
      BlocksNoHeaders(Flatten(s.blocks.value), ModScan(tb.seen, {Str("toolbar")}, {}));
    }
  }

  // ---------------------------------------------------------------------
  // Recorder

  /** One recorded exchange: the request and the answer sent back
      (`null` for None). */
  datatype Record = Record(msg: Request, response: Option<Value>)

  /** What `stop_recording` answers. */
  datatype Stopped = TestCreated(file: Option<string>) | NothingToSave

  /** The test recorder: the file being recorded, the buffer and whether
      the first message was skipped (None until the first `start` with a
      file name, as the attribute does not exist before). */
  class Recorder {
    var recordFile: Option<string>
    var buffer: seq<Record>
    var ignored: Option<bool>

    /** `Recorder()`, which is `start(None)`. */
    constructor ()
      ensures recordFile.None? && buffer == [] && ignored.None?
    {
      recordFile := None;
      buffer := [];
      ignored := None;
    }

    /** `accept(msg, response)`: the first message after `start` is
        skipped, later ones are recorded; `raised` is the AttributeError
        of a recorder that never started. */
    method Accept(msg: Request, response: Option<Value>) returns (raised: bool)
      modifies this
      ensures raised <==> old(ignored).None?
      ensures old(ignored) == Some(false) ==> ignored == Some(true) && buffer == old(buffer)
      ensures old(ignored) == Some(true) ==> ignored == Some(true) && buffer == old(buffer) + [Record(msg, response)]
      ensures old(ignored).None? ==> ignored.None? && buffer == old(buffer)
      ensures recordFile == old(recordFile)
    {
      match ignored {
        case None =>
          return true;
        case Some(skipped) =>
          if !skipped {
            ignored := Some(true);
          } else {
            buffer := buffer + [Record(msg, response)];
          }
          return false;
      }
    }

    /** `start(fname)` on a session showing the screen `screen` of the
        module named `moduleName`: with a file name the buffer holds just
        the opening screen and the next accepted message is skipped. */
    method Start(fname: Option<string>, moduleName: string, screen: Value)
      modifies this
      ensures recordFile == fname
      ensures fname.None? || fname.value == "" ==> buffer == [] && ignored == old(ignored)
      ensures fname.Some? && fname.value != "" ==>
        ignored == Some(false) &&
        buffer == [Record(Request(Some("root"), None, Some("changed"), Str(moduleName), None), Some(screen))]
    {
      recordFile := fname;
      buffer := [];
      if fname.Some? && fname.value != "" {
        ignored := Some(true);
        var _ := Accept(Request(Some("root"), None, Some("changed"), Str(moduleName), None), Some(screen));
        ignored := Some(false);
      }
    }

    /** `stop_recording`: a test is saved only when something beyond the
        opening screen was recorded; recording stops either way. */
    method Stop() returns (r: Stopped)
      modifies this
      ensures r == if |old(buffer)| > 1 then TestCreated(old(recordFile)) else NothingToSave
      ensures recordFile.None? && buffer == old(buffer) && ignored == old(ignored)
    {
      r := if |buffer| > 1 then TestCreated(recordFile) else NothingToSave;
      recordFile := None;
    }
  }

  /** After `start` with a file, the message that follows is skipped and
      the next ones are appended in order. */
  method RecordSession(rec: Recorder, fname: string, moduleName: string, screen: Value,
                       first: Request, later: seq<Request>, answers: seq<Option<Value>>)
    requires fname != "" && |answers| == |later|
    modifies rec
    ensures rec.buffer ==
      [Record(Request(Some("root"), None, Some("changed"), Str(moduleName), None), Some(screen))] +
      seq(|later|, i requires 0 <= i < |later| => Record(later[i], answers[i]))
  {
    rec.Start(Some(fname), moduleName, screen);
    var opening := rec.buffer;
    var _ := rec.Accept(first, None);
    var i := 0;
    while i < |later|
      invariant 0 <= i <= |later|
      invariant rec.ignored == Some(true)
      invariant rec.buffer == opening + seq(i, j requires 0 <= j < i => Record(later[j], answers[j]))
    {
      var _ := rec.Accept(later[i], answers[i]);
      i := i + 1;
    }
  }
}
