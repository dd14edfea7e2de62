/** The voice assistant of unisi/voicecom.py: the table from spoken words
    to commands, the commands offered in each mode, and how a recognised
    word edits the text of the active unit or runs a command. */
module VoiceCommands {
  import opened Values
  import Units

  // ---------------------------------------------------------------------
  // The command tables

  /** `command_synonyms`, in definition order. */
  const CommandSynonyms: seq<(string, seq<string>)> := [
    ("value", ["is", "equals"]),
    ("root", ["select", "choose", "set"]),
    ("backspace", ["back"]),
    ("enter", ["push", "execute", "run"]),
    ("clean", ["empty", "erase"]),
    ("screen", ["menu"]),
    ("push", ["execute", "run"]),
    ("reset", ["cancel"]),
    ("ok", ["okay"])
  ]

  const RootCommands: seq<string> := ["root", "screen", "stop", "reset", "ok"]

  /** `modes`: the actions of each mode, in definition order. */
  const Modes: seq<(string, seq<string>)> := [
    ("text", ["text", "left", "right", "up", "down", "backspace", "delete", "space", "tab", "enter", "undo", "clean"]),
    ("number", ["number", "backspace", "delete", "undo", "clean"]),
    ("graph", ["node", "edge"]),
    ("table", ["page", "row", "column", "left", "right", "up", "down", "backspace", "delete"]),
    ("command", ["push"])
  ]

  /** Each word of `ws` mapped to `c`. */
  function MapTo(ws: seq<string>, c: string): map<string, string> {
    map w | w in ws :: c
  }

  /** Each word of `ws` mapped to itself. */
  function SelfMap(ws: seq<string>): map<string, string> {
    map w | w in ws :: w
  }

  /** The synonym entries of `cs`, a later entry overriding an earlier one. */
  function SynMap(cs: seq<(string, seq<string>)>): map<string, string> {
    if cs == [] then map[]
    else SynMap(cs[..|cs| - 1]) + MapTo(cs[|cs| - 1].1, cs[|cs| - 1].0)
  }

  /** The actions of the modes, in order. */
  function Actions(ms: seq<(string, seq<string>)>): seq<string> {
    if ms == [] then [] else Actions(ms[..|ms| - 1]) + ms[|ms| - 1].1
  }

  /** The synonyms of the entries of `cs` whose command is one of `roots`. */
  function RootSynonyms(cs: seq<(string, seq<string>)>, roots: seq<string>): seq<string> {
    if cs == [] then []
    else RootSynonyms(cs[..|cs| - 1], roots) + (if cs[|cs| - 1].0 in roots then cs[|cs| - 1].1 else [])
  }

  /** The word table the module-level loops build from synonym entries,
      root commands and modes. */
  function CommandTable(cs: seq<(string, seq<string>)>, roots: seq<string>, ms: seq<(string, seq<string>)>): map<string, string> {
    SynMap(cs) + SelfMap(roots) + SelfMap(Actions(ms))
  }

  /** `word2command`. */
  function Word2Command(): (r: map<string, string>)
    ensures forall w :: w in RootCommands || w in Actions(Modes) ==> w in r && r[w] == w
  {
    CommandTable(CommandSynonyms, RootCommands, Modes)
  }

  /** `ext_root_commands`. */
  function ExtRootCommands(): seq<string> {
    RootCommands + RootSynonyms(CommandSynonyms, RootCommands)
  }

  /** The module-level tables: the definitions and what the loops build
      from them. */
  datatype Tables = Tables(synonyms: seq<(string, seq<string>)>, roots: seq<string>, modes: seq<(string, seq<string>)>,
                           word2command: map<string, string>, extRoot: seq<string>)

  /** The built tables are those of their definitions. */
  predicate Built(t: Tables) {
    && t.word2command == CommandTable(t.synonyms, t.roots, t.modes)
    && t.extRoot == t.roots + RootSynonyms(t.synonyms, t.roots)
  }

  /** The command of the last synonym entry of `cs` that lists `w`: an
      independent reading of "later definitions win". */
  function Owner(cs: seq<(string, seq<string>)>, w: string): Option<string> {
    if cs == [] then None
    else if w in cs[|cs| - 1].1 then Some(cs[|cs| - 1].0)
    else Owner(cs[..|cs| - 1], w)
  }

  lemma {:induction false} SynMapOwner(cs: seq<(string, seq<string>)>, w: string)
    ensures w in SynMap(cs) <==> Owner(cs, w).Some?
    ensures w in SynMap(cs) ==> SynMap(cs)[w] == Owner(cs, w).value
  {
    if cs != [] {
      SynMapOwner(cs[..|cs| - 1], w);
    }
  }

  /** A word is a command word exactly when it is a root command, a mode
      action or a synonym; a root command or an action stands for itself,
      and a synonym for the last command that lists it. */
  lemma CommandTableMeaning(cs: seq<(string, seq<string>)>, roots: seq<string>, ms: seq<(string, seq<string>)>, w: string)
    ensures w in CommandTable(cs, roots, ms) <==> w in roots || w in Actions(ms) || Owner(cs, w).Some?
    ensures w in CommandTable(cs, roots, ms) ==>
      CommandTable(cs, roots, ms)[w] == if w in roots || w in Actions(ms) then w else Owner(cs, w).value
  {
    SynMapOwner(cs, w);
  }

  /** The owner of `w` is the entry at `k` when no later entry lists it. */
  lemma {:induction false} OwnerAt(cs: seq<(string, seq<string>)>, w: string, k: nat)
    requires k < |cs| && w in cs[k].1
    requires forall j :: k < j < |cs| ==> w !in cs[j].1
    ensures Owner(cs, w) == Some(cs[k].0)
  {
    if k < |cs| - 1 {
      OwnerAt(cs[..|cs| - 1], w, k);
    }
  }

  /** The synonyms as the table resolves them: "run" and "execute" end as
      "push", not "enter". */
  lemma SynonymsResolved()
    ensures Owner(CommandSynonyms, "run") == Some("push") && Owner(CommandSynonyms, "execute") == Some("push")
    ensures Owner(CommandSynonyms, "back") == Some("backspace") && Owner(CommandSynonyms, "is") == Some("value")
    ensures Owner(CommandSynonyms, "okay") == Some("ok") && Owner(CommandSynonyms, "cancel") == Some("reset")
  {
    var cs := CommandSynonyms;
    OwnerAt(cs, "run", 6);
    OwnerAt(cs, "execute", 6);
    OwnerAt(cs, "okay", 8);
    OwnerAt(cs, "cancel", 7);
    OwnerAt(cs, "back", 2);
    OwnerAt(cs, "is", 0);
  }

  /** `ext_root_commands`: the root commands, then the synonyms of those
      root commands, in definition order. */
  lemma ExtRootCommandsValue()
    ensures ExtRootCommands() == ["root", "screen", "stop", "reset", "ok", "select", "choose", "set", "menu", "cancel", "okay"]
  {
    var cs := CommandSynonyms;
    var rs := RootCommands;
    RootSynonymsFirstSix();
    RootSynonymsStep(cs, rs, 7);
    RootSynonymsStep(cs, rs, 8);
    RootSynonymsStep(cs, rs, 9);
    assert cs[..9] == cs;
  }

  /** The root synonyms among the first six synonym entries. */
  lemma RootSynonymsFirstSix()
    ensures RootSynonyms(CommandSynonyms[..6], RootCommands) == ["select", "choose", "set", "menu"]
  {
    var cs := CommandSynonyms;
    var rs := RootCommands;
    RootSynonymsFirstThree();
    RootSynonymsStep(cs, rs, 4);
    RootSynonymsStep(cs, rs, 5);
    RootSynonymsStep(cs, rs, 6);
  }

  /** The root synonyms among the first three synonym entries. */
  lemma RootSynonymsFirstThree()
    ensures RootSynonyms(CommandSynonyms[..3], RootCommands) == ["select", "choose", "set"]
  {
    var cs := CommandSynonyms;
    var rs := RootCommands;
    assert cs[..0] == [];
    RootSynonymsStep(cs, rs, 1);
    RootSynonymsStep(cs, rs, 2);
    RootSynonymsStep(cs, rs, 3);
  }

  /** `RootSynonyms` over the first `n` entries, one entry at a time. */
  lemma RootSynonymsStep(cs: seq<(string, seq<string>)>, roots: seq<string>, n: nat)
    requires 0 < n <= |cs|
    ensures RootSynonyms(cs[..n], roots) ==
      RootSynonyms(cs[..n - 1], roots) + (if cs[n - 1].0 in roots then cs[n - 1].1 else [])
  {
    assert cs[..n][..n - 1] == cs[..n - 1];
  }

  /** The module-level loops that fill `word2command` and
      `ext_root_commands`, over the synonym entries `cs`, the root
      commands `roots` and the modes `ms`. */
  method BuildCommandTables(cs: seq<(string, seq<string>)>, roots: seq<string>, ms: seq<(string, seq<string>)>)
    returns (word2command: map<string, string>, extRoot: seq<string>)
    ensures word2command == CommandTable(cs, roots, ms)
    ensures extRoot == roots + RootSynonyms(cs, roots)
  {
    word2command := map[];
    extRoot := roots;
    var i := 0;
    while i < |cs|
      invariant 0 <= i <= |cs|
      invariant word2command == SynMap(cs[..i])
      invariant extRoot == roots + RootSynonyms(cs[..i], roots)
    {
      var (command, syns) := cs[i];
      assert cs[..i + 1][..i] == cs[..i];
      word2command := AddSynonyms(word2command, syns, command);
      if command in roots {
        extRoot := extRoot + syns;
      }
      i := i + 1;
    }
    assert cs[..i] == cs;
    word2command := AddActions(word2command + SelfMap(roots), ms);
  }

  /** The loop over the modes: each action is mapped to itself. */
  method AddActions(m: map<string, string>, ms: seq<(string, seq<string>)>) returns (r: map<string, string>)
    ensures r == m + SelfMap(Actions(ms))
  {
    r := m;
    var k := 0;
    while k < |ms|
      invariant 0 <= k <= |ms|
      invariant r == m + SelfMap(Actions(ms[..k]))
    {
      ActionsStep(m, ms, k);
      r := r + SelfMap(ms[k].1);
      k := k + 1;
    }
    assert ms[..k] == ms;
  }

  /** One more mode's actions extend the table by those actions. */
  lemma ActionsStep(m: map<string, string>, ms: seq<(string, seq<string>)>, k: nat)
    requires k < |ms|
    ensures m + SelfMap(Actions(ms[..k + 1])) == m + SelfMap(Actions(ms[..k])) + SelfMap(ms[k].1)
  {
    assert ms[..k + 1][..k] == ms[..k];
    assert SelfMap(Actions(ms[..k + 1])) == SelfMap(Actions(ms[..k])) + SelfMap(ms[k].1);
  }

  /** The inner loop: each synonym is mapped to its command. */
  method AddSynonyms(m: map<string, string>, syns: seq<string>, command: string) returns (r: map<string, string>)
    ensures r == m + MapTo(syns, command)
  {
    r := m;
    var j := 0;
    while j < |syns|
      invariant 0 <= j <= |syns|
      invariant r == m + MapTo(syns[..j], command)
    {
      assert MapTo(syns[..j + 1], command) == MapTo(syns[..j], command)[syns[j] := command];
      r := r[syns[j] := command];
      j := j + 1;
    }
    assert syns[..j] == syns;
  }

  /** The tables as the module builds them at import. */
  method ModuleTables() returns (t: Tables)
    ensures Built(t) && t.synonyms == CommandSynonyms && t.roots == RootCommands && t.modes == Modes
    ensures t.word2command == Word2Command() && t.extRoot == ExtRootCommands()
  {
    var w, e := BuildCommandTables(CommandSynonyms, RootCommands, Modes);
    t := Tables(CommandSynonyms, RootCommands, Modes, w, e);
  }

  // ---------------------------------------------------------------------
  // Sorting command lists

  predicate Sorted(s: seq<string>) {
    forall i, j :: 0 <= i < j < |s| ==> Units.StrLe(s[i], s[j])
  }

  /** `x` placed before the first entry above it. */
  function InsertWord(x: string, s: seq<string>): seq<string> {
    if s == [] then [x]
    else if !Units.StrLe(s[0], x) then [x] + s
    else [s[0]] + InsertWord(x, s[1..])
  }

  lemma {:induction false} InsertWordItems(x: string, s: seq<string>)
    ensures multiset(InsertWord(x, s)) == multiset(s) + multiset{x}
  {
    if s != [] {
      InsertWordItems(x, s[1..]);
      assert s == [s[0]] + s[1..];
    }
  }

  lemma {:induction false} InsertWordSorted(x: string, s: seq<string>)
    requires Sorted(s)
    ensures Sorted(InsertWord(x, s))
  {
    if s != [] {
      if !Units.StrLe(s[0], x) {
        Units.StrLeTotal(s[0], x);
        var r := [x] + s;
        forall i, j | 0 <= i < j < |r| ensures Units.StrLe(r[i], r[j]) {
          if i == 0 {
            if j > 1 {
              Units.StrLeTrans(x, s[0], s[j - 1]);
            }
          } else {
            assert r[i] == s[i - 1] && r[j] == s[j - 1];
          }
        }
      } else {
        assert Sorted(s[1..]);
        InsertWordSorted(x, s[1..]);
        var t := InsertWord(x, s[1..]);
        InsertWordItems(x, s[1..]);
        forall c | c in t ensures Units.StrLe(s[0], c) {
          assert c in multiset(t);
          if c != x {
            assert c in multiset(s[1..]);
            var k :| 0 <= k < |s[1..]| && s[1..][k] == c;
            assert s[k + 1] == c;
          }
        }
        var r := [s[0]] + t;
        forall i, j | 0 <= i < j < |r| ensures Units.StrLe(r[i], r[j]) {
          if i == 0 {
            assert r[j] in t;
          } else {
            assert r[i] == t[i - 1] && r[j] == t[j - 1];
          }
        }
      }
    }
  }

  /** `list.sort()` on strings. */
  function SortWords(s: seq<string>): seq<string> {
    if s == [] then [] else InsertWord(s[0], SortWords(s[1..]))
  }

  lemma {:induction false} SortWordsSorted(s: seq<string>)
    ensures Sorted(SortWords(s)) && multiset(SortWords(s)) == multiset(s)
  {
    if s != [] {
      SortWordsSorted(s[1..]);
      InsertWordSorted(s[0], SortWords(s[1..]));
      InsertWordItems(s[0], SortWords(s[1..]));
      assert s == [s[0]] + s[1..];
    }
  }

  // ---------------------------------------------------------------------
  // Modes

  /** `command_synonyms.get(c)`: the synonyms of the last entry for `c`. */
  function SynonymsOf(cs: seq<(string, seq<string>)>, c: string): seq<string> {
    if cs == [] then []
    else if cs[|cs| - 1].0 == c then cs[|cs| - 1].1
    else SynonymsOf(cs[..|cs| - 1], c)
  }

  /** The synonyms of each command of `commands`, in order. */
  function AllSynonyms(cs: seq<(string, seq<string>)>, commands: seq<string>): seq<string> {
    if commands == [] then []
    else AllSynonyms(cs, commands[..|commands| - 1]) + SynonymsOf(cs, commands[|commands| - 1])
  }

  /** `modes.get(mode, [])`. */
  function ModeActions(ms: seq<(string, seq<string>)>, mode: string): seq<string> {
    if ms == [] then []
    else if ms[|ms| - 1].0 == mode then ms[|ms| - 1].1
    else ModeActions(ms[..|ms| - 1], mode)
  }

  /** The words `set_mode` offers in `mode`, before sorting: the mode's
      actions, the root commands and the synonyms of both. */
  function ModeWords(t: Tables, mode: string): seq<string> {
    var commands := ModeActions(t.modes, mode) + t.roots;
    commands + AllSynonyms(t.synonyms, commands)
  }

  /** The command list of `mode`. */
  function CommandsFor(t: Tables, mode: string): seq<string> {
    SortWords(ModeWords(t, mode))
  }

  /** `set_mode`'s command list is sorted and holds the mode's words. */
  lemma CommandsForSorted(t: Tables, mode: string)
    ensures Sorted(CommandsFor(t, mode)) && multiset(CommandsFor(t, mode)) == multiset(ModeWords(t, mode))
  {
    SortWordsSorted(ModeWords(t, mode));
  }

  /** Every root command is offered in every mode. */
  lemma RootCommandsEverywhere(t: Tables, mode: string, c: string)
    requires c in t.roots
    ensures c in CommandsFor(t, mode)
  {
    var commands := ModeActions(t.modes, mode) + t.roots;
    assert c in commands;
    assert c in ModeWords(t, mode);
    CommandsForSorted(t, mode);
    assert c in multiset(CommandsFor(t, mode));
  }

  /** The mode a unit's type selects in `activate_unit`. */
  function ModeOf(utype: string): (m: string)
    ensures utype == "string" ==> m == "text"
    ensures utype == "range" ==> m == "number"
    ensures utype != "string" && utype != "range" ==> m == utype
  {
    match utype
    case "string" => "text"
    case "range" => "number"
    case _ => utype
  }

  const SwitchWords: seq<string> := ["true", "false", "yes", "no", "on", "off"]

  /** The element list `set_mode` shows: answers for a switch, the unit's
      options for a choice, the other screens in screen mode. */
  function ContextOptionsFor(mode: string, unitOptions: seq<string>, otherScreens: seq<string>): seq<string> {
    if mode == "switch" || mode == "check" then SwitchWords
    else if ChoiceMode(mode) then unitOptions
    else if mode == "screen" then otherScreens
    else []
  }

  function ModeMessage(mode: string): string {
    if mode == "screen" then "Select a screen" else "Continue.."
  }

  /** Modes whose element list reads the unit's options. */
  predicate ChoiceMode(mode: string) {
    mode == "select" || mode == "list" || mode == "radio" || mode == "tree"
  }

  // ---------------------------------------------------------------------
  // Text editing

  /** A text cursor position within or at the end of the text. */
  predicate CursorIn(v: string, x: int) {
    0 <= x <= |v|
  }

  /** A recognised word put into the text: at the end (after a space when
      the text is not empty) when the cursor is -1, otherwise at the cursor,
      followed by a space, with the cursor after it. */
  function PutWord(v: string, x: int, w: string): (r: (string, int))
    ensures x == -1 ==> r.0 == (if v == "" then w else v + " " + w) && r.1 == |r.0|
    ensures CursorIn(v, x) ==> r.0 == v[..x] + w + " " + v[x..] && r.1 == x + |w| + 1
  {
    if x == -1 then
      var nv := if v != "" then v + " " + w else w;
      (nv, |nv|)
    else
      var w' := w + " ";
      (PySlice(v, 0, x) + w' + PySlice(v, x, |v|), x + |w'|)
  }

  /** Putting a word at a cursor inside the text keeps the text around it,
      and leaves the cursor just after the word and its space. */
  lemma PutWordKeepsText(v: string, x: int, w: string)
    requires CursorIn(v, x)
    ensures var (nv, nx) := PutWord(v, x, w);
      && CursorIn(nv, nx) && |nv| == |v| + |w| + 1
      && nv[..x] + nv[nx..] == v && nv[x..nx] == w + " "
  {
    var (nv, nx) := PutWord(v, x, w);
    assert nv[..x] == v[..x] && nv[nx..] == v[x..];
    assert v[..x] + v[x..] == v;
  }

  /** A word put at the end of the text becomes its last word. */
  lemma PutWordAtEnd(v: string, w: string)
    ensures var (nv, nx) := PutWord(v, -1, w);
      CursorIn(nv, nx) && nx == |nv| && nv[|nv| - |w|..] == w && nv[..|nv| - |w|] == (if v == "" then "" else v + " ")
  {
  }

  /** `delete` as written: the character at the cursor is removed only when
      the cursor is before the last character. */
  function DeleteAsWritten(v: string, x: int): (string, int) {
    if x < |v| - 1 then (PySlice(v, 0, x) + PySlice(v, x + 1, |v|), x) else (v, x)
  }

  /** `delete`: the character at the cursor is removed when there is one. */
  function Delete(v: string, x: int): (r: (string, int))
    ensures 0 <= x < |v| ==> r == (v[..x] + v[x + 1..], x)
    ensures !(0 <= x < |v|) ==> r == (v, x)
  {
    if 0 <= x < |v| then (v[..x] + v[x + 1..], x) else (v, x)
  }

  /** As written, `delete` keeps the last character under the cursor, and
      with the cursor at -1 it doubles the text but for its last
      character. */
  lemma DeleteAsWrittenMisses()
    ensures DeleteAsWritten("ab", 1) == ("ab", 1) && Delete("ab", 1) == ("a", 1)
    ensures DeleteAsWritten("ab", -1) == ("aab", -1) && Delete("ab", -1) == ("ab", -1)
  {
    assert "ab"[..1] + "ab"[2..] == "a";
    assert PySlice("ab", 0, -1) == "ab"[0..1] == "a";
    assert PySlice("ab", 0, 2) == "ab"[0..2] == "ab";
    assert "a" + "ab" == "aab";
  }

  /** `delete` removes exactly one character, the one at the cursor. */
  lemma DeleteRemovesAtCursor(v: string, x: int)
    requires 0 <= x < |v|
    ensures var (nv, nx) := Delete(v, x);
      |nv| == |v| - 1 && nx == x && nv[..x] == v[..x] && nv[x..] == v[x + 1..] && CursorIn(nv, nx)
  {
  }

  /** A text-mode command on the unit's (text, cursor), given the saved
      (text, cursor) for `undo`; None for a command that has no meaning
      in text mode ("Command is outside context"). */
  function TextCommand(command: string, v: string, x: int, previous: Option<(string, int)>): (r: Option<(string, int)>)
    ensures r.Some? <==> command in {"left", "right", "backspace", "delete", "space", "undo", "clean"}
    ensures command in {"left", "right"} ==> r.value.0 == v
    ensures command == "space" ==> |r.value.0| == |v| + 1
    ensures command == "clean" ==> r.value.0 == ""
  {
    match command
    case "left" => Some(if x > 0 then (v, x - 1) else (v, x))
    case "right" => Some(if x < |v| - 1 then (v, x + 1) else (v, x))
    case "backspace" => Some(if x > 0 then (PySlice(v, 0, x - 1) + PySlice(v, x, |v|), x - 1) else (v, x))
    case "delete" => Some(Delete(v, x))
    case "space" => Some((PySlice(v, 0, x) + " " + PySlice(v, x, |v|), x + 1))
    case "undo" => Some(if previous.Some? then previous.value else (v, x))
    case "clean" => Some(("", x))
    case _ => None
  }

  /** The cursor commands keep the cursor within the text; `left` and
      `right` move it by one inside the text, `backspace` removes the
      character before it, `space` puts a space at it. */
  lemma CursorCommands(v: string, x: int, previous: Option<(string, int)>)
    requires CursorIn(v, x)
    ensures CursorIn(TextCommand("left", v, x, previous).value.0, TextCommand("left", v, x, previous).value.1)
    ensures CursorIn(TextCommand("right", v, x, previous).value.0, TextCommand("right", v, x, previous).value.1)
    ensures CursorIn(TextCommand("backspace", v, x, previous).value.0, TextCommand("backspace", v, x, previous).value.1)
    ensures CursorIn(TextCommand("delete", v, x, previous).value.0, TextCommand("delete", v, x, previous).value.1)
    ensures CursorIn(TextCommand("space", v, x, previous).value.0, TextCommand("space", v, x, previous).value.1)
    ensures x > 0 ==> TextCommand("left", v, x, previous) == Some((v, x - 1))
    ensures x < |v| - 1 ==> TextCommand("right", v, x, previous) == Some((v, x + 1))
    ensures x > 0 ==> TextCommand("backspace", v, x, previous) == Some((v[..x - 1] + v[x..], x - 1))
    ensures TextCommand("space", v, x, previous) == Some((v[..x] + " " + v[x..], x + 1))
    ensures TextCommand("clean", v, x, previous) == Some(("", x))
  {
    SliceInRange(v, 0, x);
    SliceInRange(v, x, |v|);
    assert v[x..|v|] == v[x..];
    assert TextCommand("space", v, x, previous) == Some((PySlice(v, 0, x) + " " + PySlice(v, x, |v|), x + 1));
    if x > 0 {
      SliceInRange(v, 0, x - 1);
      assert TextCommand("backspace", v, x, previous) == Some((PySlice(v, 0, x - 1) + PySlice(v, x, |v|), x - 1));
    }
    if x < |v| {
      assert Delete(v, x).0 == v[..x] + v[x + 1..];
    }
  }

  lemma SliceInRange(s: string, lo: int, hi: int)
    requires 0 <= lo <= hi <= |s|
    ensures PySlice(s, lo, hi) == s[lo..hi]
  {
  }

  /** `undo` after a word was put in gives back the text and cursor saved
      before it. */
  lemma UndoRestoresWord(v: string, x: int, w: string)
    ensures var (nv, nx) := PutWord(v, x, w);
      TextCommand("undo", nv, nx, Some((v, x))) == Some((v, x))
  {
  }

  // ---------------------------------------------------------------------
  // The assistant

  /** The unit the assistant edits: its type, text value and cursor, and
      the options a choice unit offers. */
  class Unit {
    var utype: string
    var value: string
    var x: int
    var active: bool
    var focus: bool
    var options: seq<string>

    constructor (utype: string, value: string, options: seq<string>)
      ensures this.utype == utype && this.value == value && this.options == options
      ensures x == 0 && !active && !focus
    {
      this.utype := utype;
      this.value := value;
      this.options := options;
      x := 0;
      active := false;
      focus := false;
    }
  }

  /** The dialog commands `reset` offers as written: `commands.sort` is
      never called, so the list stays in definition order. */
  function DialogCommandsAsWritten(t: Tables): seq<string> {
    t.extRoot + ["close"]
  }

  /** The dialog commands, sorted as the other command lists are. */
  function DialogCommands(t: Tables): (r: seq<string>)
    ensures |r| == |t.extRoot| + 1 && "close" in r
  {
    SortWordsSorted(t.extRoot + ["close"]);
    assert "close" in multiset(t.extRoot + ["close"]);
    SortWords(t.extRoot + ["close"])
  }

  /** The dialog commands are sorted and hold the root commands, their
      synonyms and `close`. */
  lemma DialogCommandsSorted(t: Tables)
    ensures Sorted(DialogCommands(t)) && multiset(DialogCommands(t)) == multiset(t.extRoot + ["close"])
  {
    SortWordsSorted(t.extRoot + ["close"]);
  }

  /** The unsorted dialog list: "stop" is offered before "reset". */
  lemma DialogCommandsAsWrittenUnsorted(t: Tables)
    requires t.extRoot == ExtRootCommands()
    ensures !Sorted(DialogCommandsAsWritten(t))
  {
    ExtRootCommandsValue();
    var r := DialogCommandsAsWritten(t);
    assert r[2] == "stop" && r[3] == "reset";
    assert !Units.StrLe("stop", "reset");
  }

  /** Each cached command list is the one of its mode. */
  predicate CacheOk(t: Tables, cache: map<string, seq<string>>) {
    forall m <- cache :: cache[m] == CommandsFor(t, m)
  }

  /** The cache step of `set_mode`: the cached list of `mode` when there is
      a non-empty one, otherwise the list is built and cached. */
  method CachedCommands(t: Tables, cache: map<string, seq<string>>, mode: string)
    returns (commands: seq<string>, cache': map<string, seq<string>>)
    requires CacheOk(t, cache)
    ensures commands == CommandsFor(t, mode) && cache' == cache[mode := commands] && CacheOk(t, cache')
  {
    if mode in cache && cache[mode] != [] {
      commands, cache' := cache[mode], cache;
    } else {
      commands := CommandsFor(t, mode);
      cache' := cache[mode := commands];
    }
  }

  class VoiceCom {
    const tables: Tables
    var mode: string
    var buffer: seq<string>
    var previous: Option<(string, int)>          // previous_unit_value_x
    var cachedCommands: map<string, seq<string>>
    var commands: seq<string>                    // command_list.options
    var contextOptions: seq<string>              // context_list.options
    var context: Option<string>                  // context_list.value
    var unit: Unit?
    var input: string                            // input.value
    var message: string                          // message.value
    var unitNames: seq<string>
    var otherScreens: seq<string>
    var shown: bool                              // the assistant block ends the screen

    /** The tables are built from their definitions, and each cached
        command list is the one of its mode. */
    ghost predicate Valid()
      reads this`cachedCommands
    {
      Built(tables) && Cached()
    }

    /** Each cached command list is the one of its mode. */
    ghost predicate Cached()
      reads this`cachedCommands
    {
      CacheOk(tables, cachedCommands)
    }

    /** `VoiceCom(user)`: the screen is set, which resets the assistant. */
    constructor (tables: Tables, unitNames: seq<string>, otherScreens: seq<string>, dialog: Option<seq<string>>)
      requires Built(tables)
      ensures this.tables == tables
      ensures Valid() && mode == "root" && buffer == [] && previous.None? && unit == null
      ensures cachedCommands == map[] && context.None? && input == "" && message == "Select a command or element"
      ensures commands == (if dialog.Some? then DialogCommands(tables) else tables.extRoot)
      ensures contextOptions == (if dialog.Some? then SortWords(dialog.value) else unitNames)
      ensures this.unitNames == unitNames && this.otherScreens == otherScreens && !shown
    {
      this.tables := tables;
      this.unitNames := unitNames;
      this.otherScreens := otherScreens;
      mode := "root";
      buffer := [];
      previous := None;
      cachedCommands := map[];
      commands := [];
      contextOptions := [];
      context := None;
      unit := null;
      input := "";
      message := "";
      shown := false;
      new;
      assert Valid();
      Reset(dialog);
    }

    /** The command list of mode `m`, from the cache or built and cached. */
    method SelectCommands(m: string)
      requires Cached()
      modifies this`commands, this`cachedCommands
      ensures Cached() && commands == CommandsFor(tables, m) && cachedCommands == old(cachedCommands)[m := CommandsFor(tables, m)]
    {
      commands, cachedCommands := CachedCommands(tables, cachedCommands, m);
    }

    /** `set_mode`: the mode's command list (built once per mode and
        cached), its element list and prompt; the buffer, the saved text and
        the chosen element are cleared. */
    method SetMode(m: string)
      requires Cached()
      requires ChoiceMode(m) ==> unit != null
      modifies this`context, this`mode, this`buffer, this`previous, this`input, this`message
      modifies this`contextOptions, this`commands, this`cachedCommands
      ensures Cached() && mode == m && buffer == [] && previous.None? && context.None?
      ensures commands == CommandsFor(tables, m) && cachedCommands == old(cachedCommands)[m := CommandsFor(tables, m)]
      ensures input == m && message == ModeMessage(m)
      ensures contextOptions == ContextOptionsFor(m, if unit != null then unit.options else [], otherScreens)
    {
      ghost var options := if unit != null then unit.options else [];
      mode, buffer, previous := m, [], None;
      SelectCommands(m);
      assert Cached();
      ShowMode(m);
      assert options == if unit != null then unit.options else [];
    }

    /** The prompt part of `set_mode`: the input names the mode, the message
        and the element list are the mode's, and no element is chosen. */
    method ShowMode(m: string)
      requires ChoiceMode(m) ==> unit != null
      modifies this`input, this`message, this`contextOptions, this`context
      ensures input == m && message == ModeMessage(m) && context.None?
      ensures contextOptions == ContextOptionsFor(m, if unit != null then unit.options else [], otherScreens)
    {
      contextOptions := ContextOptionsFor(m, if unit != null then unit.options else [], otherScreens);
      input, message, context := m, ModeMessage(m), None;
    }

    /** `activate_unit`: the previous unit is deactivated, the new one is
        activated and focused and selects its mode; the (text, cursor) of a
        text or number unit is saved. Without a unit only the root commands
        are offered. */
    method ActivateUnit(u: Unit?)
      requires Cached()
      modifies this, unit, u
      ensures Cached() && unit == u
      ensures old(unit) != null && old(unit) != u ==> !old(unit).active && !old(unit).focus
      ensures u != null ==>
        && u.active && u.focus && u.value == old(u.value) && u.x == old(u.x)
        && mode == ModeOf(u.utype) && commands == CommandsFor(tables, mode) && buffer == [] && message == ModeMessage(mode)
        && previous == (if u.utype == "text" || u.utype == "number" then Some((u.value, u.x)) else None)
      ensures u == null ==> commands == tables.extRoot && message == "Select a command" && mode == old(mode)
    {
      if unit != null {
        unit.active := false;
        unit.focus := false;
      }
      unit := u;
      message := "Select a command";
      if u != null {
        Enter(u);
      } else {
        commands := tables.extRoot;
      }
    }

    /** The activating part of `activate_unit` for the new current unit `u`. */
    method Enter(u: Unit)
      requires Cached() && unit == u
      modifies this`context, this`mode, this`buffer, this`previous, this`input, this`message
      modifies this`contextOptions, this`commands, this`cachedCommands, u`active, u`focus
      ensures Cached() && u.active && u.focus
      ensures mode == ModeOf(u.utype) && commands == CommandsFor(tables, mode) && buffer == [] && message == ModeMessage(mode)
      ensures previous == (if u.utype == "text" || u.utype == "number" then Some((u.value, u.x)) else None)
    {
      u.active := true;
      u.focus := true;
      SetMode(ModeOf(u.utype));
      if u.utype == "text" || u.utype == "number" {
        previous := Some((u.value, u.x));
      }
    }

    /** `reset`: back to root mode with an empty buffer; a dialog offers
        its element names and `close`, otherwise the screen's units are
        offered; the current unit is deactivated and released. */
    method Reset(dialog: Option<seq<string>>)
      modifies this`mode, this`buffer, this`commands, this`contextOptions, this`context
      modifies this`unit, this`input, this`message, unit
      ensures mode == "root" && buffer == [] && unit == null && context.None?
      ensures input == "" && message == "Select a command or element"
      ensures commands == (if dialog.Some? then DialogCommands(tables) else tables.extRoot)
      ensures contextOptions == (if dialog.Some? then SortWords(dialog.value) else unitNames)
      ensures old(unit) != null ==> !old(unit).active && !old(unit).focus
    {
      buffer := [];
      mode := "root";
      Offer(dialog);
      Release();
      input := "";
      message := "Select a command or element";
      context := None;
    }

    /** What `reset` offers: a dialog's commands and its element names, or
        the root commands and the screen's units. */
    method Offer(dialog: Option<seq<string>>)
      modifies this`commands, this`contextOptions
      ensures commands == (if dialog.Some? then DialogCommands(tables) else tables.extRoot)
      ensures contextOptions == (if dialog.Some? then SortWords(dialog.value) else unitNames)
    {
      if dialog.Some? {
        commands := DialogCommands(tables);
        contextOptions := SortWords(dialog.value);
      } else {
        commands := tables.extRoot;
        contextOptions := unitNames;
      }
    }

    /** The current unit, if any, is deactivated and released. */
    method Release()
      modifies this`unit, unit
      ensures unit == null
      ensures old(unit) != null ==> !old(unit).active && !old(unit).focus
    {
      if unit != null {
        unit.active := false;
        unit.focus := false;
        unit := null;
      }
    }

    /** `stop`: the assistant block leaves the screen. */
    method Stop()
      modifies this`shown
      ensures !shown
    {
      shown := false;
    }

    /** A recognised word in text mode. A command word said twice in a row
        takes back what its first hearing typed (the saved text and cursor)
        and is returned to be run; any other word is typed into the text,
        after saving the text and cursor. */
    method HearTextWord(word: string) returns (run: Option<string>)
      requires Valid() && mode == "text" && unit != null && word != ""
      modifies this`buffer, this`previous, unit`value, unit`x
      ensures Valid()
      ensures var repeated := old(buffer) != [] && old(buffer)[|old(buffer)| - 1] == word && word in tables.word2command;
        && (repeated ==>
              && run == Some(tables.word2command[word]) && buffer == old(buffer)[..|old(buffer)| - 1] && previous.None?
              && (unit.value, unit.x) == (if old(previous).Some? then old(previous).value else old((unit.value, unit.x))))
        && (!repeated ==>
              && run.None? && buffer == [word] && previous == Some(old((unit.value, unit.x)))
              && (unit.value, unit.x) == PutWord(old(unit.value), old(unit.x), word))
    {
      var w2c := tables.word2command;
      if buffer != [] && buffer[|buffer| - 1] == word && word in w2c {
        buffer := buffer[..|buffer| - 1];
        if previous.Some? {
          unit.value, unit.x := previous.value.0, previous.value.1;
          previous := None;
        }
        return Some(w2c[word]);
      }
      previous := Some((unit.value, unit.x));
      buffer := [word];
      var (nv, nx) := PutWord(unit.value, unit.x, word);
      unit.value, unit.x := nv, nx;
      return None;
    }

    /** `context_command` in text mode: the command edits the unit's text
        and cursor, or the assistant says it is out of context. */
    method TextContextCommand(command: string)
      requires Valid() && mode == "text" && unit != null
      modifies this`message, unit`value, unit`x
      ensures var r := TextCommand(command, old(unit.value), old(unit.x), previous);
        && (r.Some? ==> (unit.value, unit.x) == r.value && message == old(message))
        && (r.None? ==> unit.value == old(unit.value) && unit.x == old(unit.x) && message == "Command is ouside context")
    {
      var r := TextCommand(command, unit.value, unit.x, previous);
      if r.Some? {
        unit.value, unit.x := r.value.0, r.value.1;
      } else {
        message := "Command is ouside context";
      }
    }

    /** `run_command`: `root` and `reset` reset the assistant, `screen`
        switches to screen mode, `stop` hides it; any other command goes
        to the unit in text mode, and without a unit it is out of
        context. */
    method RunCommand(command: string, dialog: Option<seq<string>>)
      requires Valid()
      modifies this, unit
      ensures Valid()
      ensures command == "root" || command == "reset" ==> mode == "root" && unit == null && buffer == []
      ensures command == "screen" ==> mode == "screen" && commands == CommandsFor(tables, "screen") && contextOptions == otherScreens
      ensures command == "stop" ==> !shown && mode == old(mode) && unit == old(unit)
      ensures command !in {"root", "screen", "reset", "stop"} && old(unit) == null ==> message == "Command is out of context."
      ensures command !in {"root", "screen", "reset", "stop"} && old(unit) != null && old(mode) == "text" ==>
        var r := TextCommand(command, old(unit.value), old(unit.x), old(previous));
        r.Some? ==> (old(unit).value, old(unit).x) == r.value
    {
      message := "";
      if command == "root" || command == "reset" {
        Reset(dialog);
      } else if command == "screen" {
        SetMode("screen");
      } else if command == "stop" {
        Stop();
      } else if unit != null {
        if mode == "text" {
          TextContextCommand(command);
        }
      } else {
        message := "Command is out of context.";
      }
    }

    /** `process_word` in text mode: the input shows the word, which is
        typed into the text or, said twice, run as a command. */
    method ProcessTextWord(word: string, dialog: Option<seq<string>>)
      requires Valid() && mode == "text" && unit != null
      modifies this, unit
      ensures Valid()
      ensures word == "" ==> input == word && message == "" && unit == old(unit) && unit.value == old(unit.value) && unit.x == old(unit.x)
      ensures word != "" && !(old(buffer) != [] && old(buffer)[|old(buffer)| - 1] == word && word in tables.word2command) ==>
        && input == word && message == "" && buffer == [word] && unit == old(unit)
        && (unit.value, unit.x) == PutWord(old(unit.value), old(unit.x), word)
    {
      input := word;
      message := "";
      if word != "" {
        var run := HearTextWord(word);
        if run.Some? {
          RunCommand(run.value, dialog);
        }
      }
    }
  }
}
