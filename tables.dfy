/** Tables of unisi/tables.py: the selection helpers, the header row of a
    persistent table, the default row delete and append handlers on a table
    whose rows are a plain list, and the link edit a selection change causes. */
module Tables {
  import opened Values
  import opened Common

  type Row = seq<Value>
  type Attrs = map<string, Value>

  const RelationMark: string := "Ⓡ"
  const ExcludeMark: string := "✘"

  // ---------------------------------------------------------------------
  // Selection

  /** `selected_list`: nothing for None, the list itself, or the single
      selected value. */
  function SelectedList(v: Value): (r: seq<Value>)
    ensures r == [] <==> v.Null? || v == List([])
    ensures !v.List? ==> |r| <= 1 && forall x :: x in r ==> x == v
  {
    if v.Null? then [] else if v.List? then v.items else [v]
  }

  /** `clean_selection`: an empty list for a list or tuple selection, None
      otherwise. */
  function CleanSelection(v: Value): (r: Value)
    ensures r == List([]) || r == Null
    ensures r.List? <==> IsSequence(v)
  {
    if IsSequence(v) then List([]) else Null
  }

  /** A selection reads as the selected values: each scalar selection is one
      selected value, a list selects its items, and a cleaned selection
      selects nothing whatever it held. */
  lemma SelectionMeaning(v: Value)
    ensures v.Null? <==> (SelectedList(v) == [] && !v.List?)
    ensures !v.Null? && !v.List? ==> SelectedList(v) == [v]
    ensures v.List? ==> forall x :: x in SelectedList(v) <==> x in v.items
    ensures SelectedList(CleanSelection(v)) == []
    ensures CleanSelection(CleanSelection(v)) == CleanSelection(v)
  {
  }

  // ---------------------------------------------------------------------
  // Construction

  /** What `Table(...)` without `panda` does with the attributes given:
      its own attributes, or the error it raises. */
  datatype Built = Built(attrs: Attrs) | Raised(error: string)

  const TableDefaults: seq<(string, Value)> := [
    ("headers", List([])), ("type", Str("table")), ("value", Null),
    ("rows", List([])), ("editing", Bool(false)), ("dense", Bool(true))]

  const EditDefaults: seq<(string, Value)> := [
    ("delete", Callable("delete_table_row")), ("append", Callable("append_table_row")),
    ("modify", Callable("accept_cell_value"))]

  /** `a` keeps every attribute of `attrs` with its value. */
  predicate Extends(a: Attrs, attrs: Attrs) {
    forall k <- attrs :: k in a && a[k] == attrs[k]
  }

  /** The table defaults: `value` None unless given. */
  method WithTableDefaults(attrs: Attrs) returns (a: Attrs)
    ensures Extends(a, attrs)
    ensures "headers" in a && "rows" in a && "value" in a && "type" in a
    ensures "value" !in attrs ==> a["value"] == Null
    ensures ("edit" in a <==> "edit" in attrs) && ("delete" in a <==> "delete" in attrs)
    ensures ("link" in a <==> "link" in attrs) && ("filter" in a <==> "filter" in attrs)
  {
    a := SetDefaults(attrs, TableDefaults);
    TableDefaultsNamed();
  }

  /** The table defaults name `headers`, `rows`, `type` and `value` (None),
      and none of `link`, `filter`, `edit` or `delete`. */
  lemma TableDefaultsNamed()
    ensures FirstDefault(TableDefaults, "value") == Some(Null)
    ensures FirstDefault(TableDefaults, "headers").Some? && FirstDefault(TableDefaults, "rows").Some?
    ensures FirstDefault(TableDefaults, "type").Some?
    ensures FirstDefault(TableDefaults, "link").None? && FirstDefault(TableDefaults, "filter").None?
    ensures FirstDefault(TableDefaults, "edit").None? && FirstDefault(TableDefaults, "delete").None?
  {
    FirstDefaultMissing(TableDefaults, "link");
    FirstDefaultMissing(TableDefaults, "filter");
    FirstDefaultMissing(TableDefaults, "edit");
    FirstDefaultMissing(TableDefaults, "delete");
    var ds := TableDefaults;
    assert ds[1..][1..] == [("value", Null), ("rows", List([])), ("editing", Bool(false)), ("dense", Bool(true))];
    assert ds[1..][1..][1..] == [("rows", List([])), ("editing", Bool(false)), ("dense", Bool(true))];
  }

  /** The persistence defaults: `filter` follows `link`, no `ids`, an
      empty `search`. */
  method WithPersistentDefaults(attrs: Attrs) returns (a: Attrs)
    ensures Extends(a, attrs)
    ensures "filter" in a && "ids" in a && "search" in a
    ensures "filter" !in attrs ==> a["filter"] == Bool("link" in attrs)
    ensures ("edit" in a <==> "edit" in attrs) && ("delete" in a <==> "delete" in attrs)
  {
    var ds := [("filter", Bool("link" in attrs)), ("ids", Bool(false)), ("search", Str(""))];
    a := SetDefaults(attrs, ds);
    assert ds[1..] == [("ids", Bool(false)), ("search", Str(""))];
    assert ds[1..][1..] == [("search", Str(""))];
    assert ds[1..][1..][1..] == [];
    assert FirstDefault(ds[1..][1..], "search").Some?;
    assert FirstDefault(ds[1..][1..], "edit").None? && FirstDefault(ds[1..][1..], "delete").None?;
    assert FirstDefault(ds, "filter") == Some(Bool("link" in attrs));
    assert FirstDefault(ds, "ids").Some?;
    assert FirstDefault(ds, "search").Some?;
    assert FirstDefault(ds, "edit").None?;
    assert FirstDefault(ds, "delete").None?;
  }

  /** The row handlers, unless given. */
  method WithEditDefaults(attrs: Attrs) returns (a: Attrs)
    ensures Extends(a, attrs)
    ensures "delete" in a && "append" in a && "modify" in a
    ensures "delete" !in attrs ==> a["delete"] == Callable("delete_table_row")
  {
    a := SetDefaults(attrs, EditDefaults);
    assert FirstDefault(EditDefaults, "delete") == Some(Callable("delete_table_row"));
    assert FirstDefault(EditDefaults, "append").Some?;
    assert FirstDefault(EditDefaults, "modify").Some?;
  }

  /** Whether `edit` is given and falsy (`getattr(self, 'edit', True)`). */
  predicate NoEdit(attrs: Attrs) {
    "edit" in attrs && !Truthy(attrs["edit"])
  }

  /** The attributes a table ends with: the table defaults, for a table with
      an `id` its persistence defaults (AssertionError without a database),
      `ids` refused without an `id` (ValueError), and the row handlers as
      defaults unless `edit` is falsy. The linking of a persistent table
      and its header row (`CalcHeaders`) are not part of this step. */
  method NewTable(attrs: Attrs, dbConfigured: bool) returns (r: Built)
    ensures r.Raised? <==> ("id" in attrs && !dbConfigured) || ("id" !in attrs && "ids" in attrs)
    ensures r.Built? ==> Extends(r.attrs, attrs)
    ensures r.Built? ==> "headers" in r.attrs && "rows" in r.attrs && "value" in r.attrs && "type" in r.attrs
    ensures r.Built? && "value" !in attrs ==> r.attrs["value"] == Null
    ensures r.Built? && "id" in attrs ==> "filter" in r.attrs && "ids" in r.attrs && "search" in r.attrs
    ensures r.Built? && "id" in attrs && "filter" !in attrs ==> r.attrs["filter"] == Bool("link" in attrs)
    ensures r.Built? && !NoEdit(attrs) ==> "delete" in r.attrs && "append" in r.attrs && "modify" in r.attrs
    ensures r.Built? && NoEdit(attrs) ==> "delete" !in attrs ==> "delete" !in r.attrs
  {
    var a := WithTableDefaults(attrs);
    if "id" in attrs {
      if !dbConfigured {
        return Raised("AssertionError");
      }
      var b := WithPersistentDefaults(a);
      a := b;
    } else if "ids" in attrs {
      return Raised("ValueError");
    }
    assert NoEdit(a) == NoEdit(attrs);
    if !NoEdit(a) {
      var b := WithEditDefaults(a);
      a := b;
    }
    return Built(a);
  }

  // ---------------------------------------------------------------------
  // Headers

  /** The pretty names of the table fields; None where `pretty4` raises. */
  function PrettyAll(fields: seq<string>): (r: Option<seq<string>>)
    ensures r.Some? <==> forall i :: 0 <= i < |fields| ==> Pretty4(fields[i]).Some?
    ensures r.Some? ==> (|r.value| == |fields| &&
      forall i :: 0 <= i < |fields| ==> r.value[i] == Pretty4(fields[i]).value)
  {
    if fields == [] then Some([])
    else
      match (Pretty4(fields[0]), PrettyAll(fields[1..]))
      case (Some(h), Some(t)) => Some([h] + t)
      case _ => None
  }

  /** The link field headers: each pretty name marked as a relation. */
  function Marked(fields: seq<string>): (r: Option<seq<string>>)
    ensures r.Some? <==> forall i :: 0 <= i < |fields| ==> Pretty4(fields[i]).Some?
    ensures r.Some? ==> (|r.value| == |fields| &&
      forall i :: 0 <= i < |fields| ==> r.value[i] == RelationMark + Pretty4(fields[i]).value)
  {
    if fields == [] then Some([])
    else
      match (Pretty4(fields[0]), Marked(fields[1..]))
      case (Some(h), Some(t)) => Some([RelationMark + h] + t)
      case _ => None
  }

  /** `list.insert(i, x)`: a position past the end appends. */
  function InsertAt<T>(xs: seq<T>, i: nat, x: T): (r: seq<T>)
    ensures |r| == |xs| + 1
  {
    if i <= |xs| then xs[..i] + [x] + xs[i..] else xs + [x]
  }

  /** A table as its handlers see it: its header row, the headers it was
      declared with (`__headers__`), the fields of its node table and of its
      relation, its options, its selection and its rows. */
  class Table {
    var headers: seq<string>
    var declared: seq<string>
    var fields: seq<string>
    var link: seq<string>
    var ids: bool
    var filter: bool
    var value: Value
    var rows: seq<Row>

    constructor (declared: seq<string>, fields: seq<string>, link: seq<string>, ids: bool, filter: bool, value: Value, rows: seq<Row>)
      ensures this.headers == declared && this.declared == declared && this.fields == fields && this.link == link
      ensures this.ids == ids && this.filter == filter && this.value == value && this.rows == rows
    {
      headers := declared;
      this.declared := declared;
      this.fields := fields;
      this.link := link;
      this.ids := ids;
      this.filter := filter;
      this.value := value;
      this.rows := rows;
    }

    /** `calc_headers`: a copy of the declared headers, or the pretty field
        names; the ID column after the node fields (`ID` with `ids`, the
        excluded `✘ID` with only `filter`); with `filter`, the relation
        fields when the headers were the node fields only, and the
        relation's `ⓇID` with `ids`. `raised` where `pretty4` raises: on a
        node field the headers are unchanged; on a relation field they are
        already the base headers with the ID column. */
    method CalcHeaders() returns (raised: bool)
      modifies this`headers
      ensures raised <==> Headers(declared, fields, link, ids, filter).None?
      ensures !raised ==> headers == Headers(declared, fields, link, ids, filter).value
      ensures raised && declared == [] && PrettyAll(fields).None? ==> headers == old(headers)
      ensures raised && (declared != [] || PrettyAll(fields).Some?) ==>
        var base := if declared != [] then declared else PrettyAll(fields).value;
        headers == WithIdColumn(base, |fields|, ids, filter) && filter && |base| == |fields|
    {
      var h: seq<string>;
      if declared != [] {
        h := declared;
      } else {
        var pretty := PrettyAll(fields);
        if pretty.None? {
          return true;
        }
        h := pretty.value;
      }
      var onlyNode := |h| == |fields|;
      if ids {
        h := InsertAt(h, |fields|, "ID");
      } else if filter {
        h := InsertAt(h, |fields|, ExcludeMark + "ID");
      }
      headers := h;
      if filter {
        if onlyNode {
          var m := Marked(link);
          if m.None? {
            return true;
          }
          h := h + m.value;
        }
        if ids {
          h := h + [RelationMark + "ID"];
        }
      }
      headers := h;
      return false;
    }

    /** `delete_table_row(table, value)` on a table whose rows are a list:
        with something selected, a list of positions is deleted largest
        first and the selection becomes `[]`, a single position is deleted
        and the selection becomes None. `raised` where a deletion raises;
        the deletions before it stay done and the selection is kept. */
    method DeleteRow(sel: Value) returns (raised: bool)
      modifies this`rows, this`value
      ensures SelectedList(old(value)) == [] ==> !raised && rows == old(rows) && value == old(value)
      ensures SelectedList(old(value)) != [] ==>
        var (rs, ok) := DeleteSelection(old(rows), sel);
        && rows == rs && raised == !ok
        && value == (if ok then (if sel.List? then List([]) else Null) else old(value))
    {
      if SelectedList(value) == [] {
        return false;
      }
      var idx := Positions(sel);
      if idx.None? {
        return true;
      }
      var order := if sel.List? then SortDesc(idx.value) else idx.value;
      assert DeleteSelection(rows, sel) == DeleteAll(rows, order);
      var rs, ok := DeleteInTurn(rows, order);
      rows := rs;
      if !ok {
        return true;
      }
      value := if sel.List? then List([]) else Null;
      return false;
    }

    /** `append_table_row` on a table whose rows are a list: a row of one
        None per header is appended and returned. */
    method AppendRow() returns (row: Row)
      modifies this`rows
      ensures |row| == |headers| && forall c <- row :: c == Null
      ensures rows == old(rows) + [row]
    {
      row := seq(|headers|, _ => Null);
      rows := rows + [row];
    }
  }

  /** `del rows[p]` for each position of `order` in turn, stopping at the
      first that raises (`ok` false) with the deletions before it done. */
  method DeleteInTurn(rows: seq<Row>, order: seq<int>) returns (rs: seq<Row>, ok: bool)
    ensures (rs, ok) == DeleteAll(rows, order)
  {
    rs := rows;
    var i := 0;
    while i < |order|
      invariant 0 <= i <= |order|
      invariant DeleteAll(rows, order) == DeleteAll(rs, order[i..])
    {
      var p := PyIndex(|rs|, order[i]);
      assert order[i..][0] == order[i] && order[i..][1..] == order[i + 1..];
      if p.None? {
        return rs, false;
      }
      rs := rs[..p.value] + rs[p.value + 1..];
      i := i + 1;
    }
    assert order[i..] == [];
    return rs, true;
  }

  /** The header row `calc_headers` builds; None where `pretty4` raises. */
  function Headers(declared: seq<string>, fields: seq<string>, link: seq<string>, ids: bool, filter: bool): (r: Option<seq<string>>)
    ensures declared == [] && (exists i :: 0 <= i < |fields| && Pretty4(fields[i]).None?) ==> r.None?
    ensures r.Some? ==>
      var base := if declared != [] then declared else PrettyAll(fields).value;
      var links := if filter && |base| == |fields| then |link| else 0;
      |r.value| == |base| + (if ids || filter then 1 else 0) + links + (if filter && ids then 1 else 0)
  {
    var base := if declared != [] then Some(declared) else PrettyAll(fields);
    if base.None? then None
    else
      var links := if filter && |base.value| == |fields| then Marked(link) else Some([]);
      if links.None? then None
      else Some(Layout(base.value, |fields|, links.value, ids, filter))
  }

  /** The base headers `h` with the ID column inserted after the `n` node
      fields: `ID` with `ids`, the excluded `✘ID` with only `filter`. */
  function WithIdColumn(h: seq<string>, n: nat, ids: bool, filter: bool): seq<string> {
    if ids then InsertAt(h, n, "ID")
    else if filter then InsertAt(h, n, ExcludeMark + "ID") else h
  }

  /** The header row from the base headers `h`, the number of node fields
      and the relation headers: the ID column inserted after the node
      fields, then under `filter` the relation headers and, with `ids`, the
      relation's ID. */
  function Layout(h: seq<string>, n: nat, links: seq<string>, ids: bool, filter: bool): seq<string> {
    var withId := WithIdColumn(h, n, ids, filter);
    if !filter then withId
    else withId + links + (if ids then [RelationMark + "ID"] else [])
  }

  /** The layout of the header row up to the relation columns: the base
      headers up to the ID column, the ID column at position
      `min(n, len(base))`, then the rest of the base. Without `ids` or
      `filter` it is the base alone. */
  lemma LayoutIdColumn(base: seq<string>, n: nat, links: seq<string>, ids: bool, filter: bool)
    ensures var h := Layout(base, n, links, ids, filter);
      var p := if n <= |base| then n else |base|;
      && (!ids && !filter ==> h == base)
      && (ids || filter ==> h[..p] == base[..p] && h[p + 1..p + 1 + |base| - p] == base[p..])
      && (ids ==> h[p] == "ID")
      && (!ids && filter ==> h[p] == ExcludeMark + "ID")
  {
    var h := Layout(base, n, links, ids, filter);
    var p := if n <= |base| then n else |base|;
    if ids || filter {
      var x := if ids then "ID" else ExcludeMark + "ID";
      var w := InsertAt(base, n, x);
      assert w == base[..p] + [x] + base[p..];
      var tail := if filter then links + (if ids then [RelationMark + "ID"] else []) else [];
      assert h == w + tail;
      InsertedLayout(base, p, x, tail);
    }
  }

  /** Under `filter`, the relation headers follow the base and the ID
      column, and with `ids` the relation's ID comes last. */
  lemma LayoutRelations(base: seq<string>, n: nat, links: seq<string>, ids: bool)
    ensures var h := Layout(base, n, links, ids, true);
      && |h| == |base| + 1 + |links| + (if ids then 1 else 0)
      && h[|base| + 1..|base| + 1 + |links|] == links
      && (ids ==> h[|h| - 1] == RelationMark + "ID")
  {
    var x := if ids then "ID" else ExcludeMark + "ID";
    var w := InsertAt(base, n, x);
    var h := Layout(base, n, links, ids, true);
    assert h == w + links + (if ids then [RelationMark + "ID"] else []);
    assert h[|w|..|w| + |links|] == links;
  }

  /** The header row of a table up to the relation columns: the ID column
      after the node fields, the base around it. Without `ids` or `filter`
      it is the base alone. */
  lemma HeadersLayout(declared: seq<string>, fields: seq<string>, link: seq<string>, ids: bool, filter: bool)
    requires Headers(declared, fields, link, ids, filter).Some?
    ensures var h := Headers(declared, fields, link, ids, filter).value;
      var base := if declared != [] then declared else PrettyAll(fields).value;
      var p := if |fields| <= |base| then |fields| else |base|;
      && (!ids && !filter ==> h == base)
      && (ids || filter ==> h[..p] == base[..p] && h[p + 1..p + 1 + |base| - p] == base[p..])
      && (ids ==> h[p] == "ID")
      && (!ids && filter ==> h[p] == ExcludeMark + "ID")
  {
    var base := if declared != [] then declared else PrettyAll(fields).value;
    var links := if filter && |base| == |fields| then Marked(link).value else [];
    assert Headers(declared, fields, link, ids, filter).value == Layout(base, |fields|, links, ids, filter);
    LayoutIdColumn(base, |fields|, links, ids, filter);
  }

  /** Under `filter`, the header row ends with one marked header per
      relation field when the base has one header per node field (none
      otherwise) and, with `ids`, a last marked `ID`. */
  lemma HeadersRelations(declared: seq<string>, fields: seq<string>, link: seq<string>, ids: bool)
    requires Headers(declared, fields, link, ids, true).Some?
    ensures var h := Headers(declared, fields, link, ids, true).value;
      var base := if declared != [] then declared else PrettyAll(fields).value;
      && (ids ==> h[|h| - 1] == RelationMark + "ID")
      && (|base| == |fields| ==>
            Marked(link).Some? &&
            |h| == |base| + 1 + |link| + (if ids then 1 else 0) &&
            h[|base| + 1..|base| + 1 + |link|] == Marked(link).value)
      && (|base| != |fields| ==> |h| == |base| + 1 + (if ids then 1 else 0))
  {
    var base := if declared != [] then declared else PrettyAll(fields).value;
    var links := if |base| == |fields| then Marked(link).value else [];
    assert Headers(declared, fields, link, ids, true).value == Layout(base, |fields|, links, ids, true);
    LayoutRelations(base, |fields|, links, ids);
  }

  /** A sequence with `x` inserted at `p` and something after it keeps the
      sequence around `x`. */
  lemma InsertedLayout<T>(base: seq<T>, p: nat, x: T, tail: seq<T>)
    requires p <= |base|
    ensures var h := base[..p] + [x] + base[p..] + tail;
      h[..p] == base[..p] && h[p] == x && h[p + 1..p + 1 + |base| - p] == base[p..]
  {
    var h := base[..p] + [x] + base[p..] + tail;
    assert h[p + 1..p + 1 + |base| - p] == base[p..] by {
      forall j | p + 1 <= j < |base| + 1
        ensures h[j] == base[j - 1]
      {
      }
    }
  }

  // ---------------------------------------------------------------------
  // Deleting rows

  /** The positions a selection names: each item of a list, or the single
      value; None where one of them is not an integer. */
  function Positions(sel: Value): (r: Option<seq<int>>)
    ensures r.Some? ==> |r.value| == |SelectedListOf(sel)|
    ensures r.Some? ==> forall i :: 0 <= i < |r.value| ==> AsIndex(SelectedListOf(sel)[i]) == Some(r.value[i])
  {
    AllIndices(SelectedListOf(sel))
  }

  /** The values a selection passed to the handler names. */
  function SelectedListOf(sel: Value): seq<Value> {
    if sel.List? then sel.items else [sel]
  }

  function AllIndices(vs: seq<Value>): (r: Option<seq<int>>)
    ensures r.Some? <==> forall v <- vs :: AsIndex(v).Some?
    ensures r.Some? ==> |r.value| == |vs| && forall i :: 0 <= i < |vs| ==> AsIndex(vs[i]) == Some(r.value[i])
  {
    if vs == [] then Some([])
    else
      match (AsIndex(vs[0]), AllIndices(vs[1..]))
      case (Some(i), Some(t)) => Some([i] + t)
      case _ => None
  }

  /** `del rows[p]` for each position in turn; false where one raises. */
  function DeleteAll(rows: seq<Row>, order: seq<int>): (r: (seq<Row>, bool))
    ensures |r.0| <= |rows|
    ensures r.1 ==> |r.0| + |order| == |rows|
  {
    if order == [] then (rows, true)
    else
      match PyIndex(|rows|, order[0])
      case None => (rows, false)
      case Some(p) => DeleteAll(rows[..p] + rows[p + 1..], order[1..])
  }

  /** What `delete_table_row` leaves of the rows: a list selection deleted
      in descending order, a single position deleted alone. */
  function DeleteSelection(rows: seq<Row>, sel: Value): (r: (seq<Row>, bool))
    ensures Positions(sel).None? ==> r == (rows, false)
    ensures |r.0| <= |rows|
    ensures r.1 ==> |r.0| + |SelectedListOf(sel)| == |rows|
  {
    match Positions(sel)
    case None => (rows, false)
    case Some(idx) =>
      assert |multiset(SortDesc(idx))| == |multiset(idx)|;
      DeleteAll(rows, if sel.List? then SortDesc(idx) else idx)
  }

  predicate Desc(xs: seq<int>) {
    forall i, j :: 0 <= i < j < |xs| ==> xs[i] >= xs[j]
  }

  predicate StrictlyDesc(xs: seq<int>) {
    forall i, j :: 0 <= i < j < |xs| ==> xs[i] > xs[j]
  }

  /** `x` inserted into a descending list before the first smaller item. */
  function InsertDesc(x: int, xs: seq<int>): (r: seq<int>)
  {
    if xs == [] then [x]
    else if x >= xs[0] then [x] + xs
    else [xs[0]] + InsertDesc(x, xs[1..])
  }

  lemma DescCons(a: int, t: seq<int>)
    requires Desc(t) && forall j :: 0 <= j < |t| ==> t[j] <= a
    ensures Desc([a] + t)
  {
    var s := [a] + t;
    forall i, j | 0 <= i < j < |s| ensures s[i] >= s[j] {
      if i > 0 {
        assert s[i] == t[i - 1];
      }
      assert s[j] == t[j - 1];
    }
  }

  lemma StrictCons(a: int, t: seq<int>)
    requires StrictlyDesc(t) && forall j :: 0 <= j < |t| ==> t[j] < a
    ensures StrictlyDesc([a] + t)
  {
    var s := [a] + t;
    forall i, j | 0 <= i < j < |s| ensures s[i] > s[j] {
      if i > 0 {
        assert s[i] == t[i - 1];
      }
      assert s[j] == t[j - 1];
    }
  }

  /** Insertion adds `x` and nothing else. */
  lemma {:induction false} InsertDescItems(x: int, xs: seq<int>)
    ensures multiset(InsertDesc(x, xs)) == multiset(xs) + multiset{x}
    ensures forall y :: y in InsertDesc(x, xs) <==> y == x || y in xs
  {
    if xs != [] && x < xs[0] {
      assert xs == [xs[0]] + xs[1..];
      InsertDescItems(x, xs[1..]);
    }
  }

  /** The head of a descending list bounds its tail. */
  lemma HeadBounds(xs: seq<int>)
    requires xs != [] && Desc(xs)
    ensures Desc(xs[1..]) && forall y <- xs[1..] :: y <= xs[0]
    ensures StrictlyDesc(xs) ==> StrictlyDesc(xs[1..]) && forall y <- xs[1..] :: y < xs[0]
  {
    forall y <- xs[1..] ensures y <= xs[0] && (StrictlyDesc(xs) ==> y < xs[0]) {
      var k :| 0 <= k < |xs[1..]| && xs[1..][k] == y;
      assert xs[k + 1] == y;
    }
    if StrictlyDesc(xs) {
      forall i, j | 0 <= i < j < |xs[1..]| ensures xs[1..][i] > xs[1..][j] {
        assert xs[1..][i] == xs[i + 1] && xs[1..][j] == xs[j + 1];
      }
    }
  }

  /** Insertion keeps the list descending and adds just `x`; into a
      strictly descending list without `x` it keeps it strictly so. */
  lemma {:induction false} InsertDescSorted(x: int, xs: seq<int>)
    requires Desc(xs)
    ensures Desc(InsertDesc(x, xs)) && multiset(InsertDesc(x, xs)) == multiset(xs) + multiset{x}
    ensures x !in xs && StrictlyDesc(xs) ==> StrictlyDesc(InsertDesc(x, xs))
  {
    InsertDescItems(x, xs);
    if xs == [] {
    } else if x >= xs[0] {
      DescCons(x, xs);
      if x !in xs && StrictlyDesc(xs) {
        assert x != xs[0];
        StrictCons(x, xs);
      }
    } else {
      var a, rest := xs[0], xs[1..];
      HeadBounds(xs);
      InsertDescSorted(x, rest);
      var t := InsertDesc(x, rest);
      InsertDescItems(x, rest);
      assert InsertDesc(x, xs) == [a] + t;
      forall j | 0 <= j < |t| ensures t[j] <= a {
        assert t[j] in t;
      }
      DescCons(a, t);
      if x !in xs && StrictlyDesc(xs) {
        assert x !in rest by { assert forall y <- rest :: y in xs; }
        forall j | 0 <= j < |t| ensures t[j] < a {
          assert t[j] in t;
        }
        StrictCons(a, t);
      }
    }
  }

  /** `list.sort(reverse=True)` on integers. */
  function SortDesc(xs: seq<int>): (r: seq<int>)
    ensures Desc(r) && multiset(r) == multiset(xs)
  {
    if xs == [] then []
    else
      assert xs == [xs[0]] + xs[1..];
      InsertDescSorted(xs[0], SortDesc(xs[1..]));
      InsertDesc(xs[0], SortDesc(xs[1..]))
  }

  predicate Distinct(xs: seq<int>) {
    forall i, j :: 0 <= i < j < |xs| ==> xs[i] != xs[j]
  }

  /** Sorting distinct positions leaves them strictly descending. */
  lemma {:induction false} SortDescStrict(xs: seq<int>)
    requires Distinct(xs)
    ensures StrictlyDesc(SortDesc(xs))
  {
    if xs != [] {
      assert xs == [xs[0]] + xs[1..];
      SortDescStrict(xs[1..]);
      var s := SortDesc(xs[1..]);
      assert xs[0] !in xs[1..];
      assert xs[0] !in multiset(s);
      InsertDescSorted(xs[0], s);
    }
  }

  /** The rows whose positions are not in `gone`, in order. */
  function Keep(rows: seq<Row>, gone: set<int>): (r: seq<Row>)
    ensures |r| <= |rows|
  {
    if rows == [] then []
    else Keep(rows[..|rows| - 1], gone) + (if |rows| - 1 in gone then [] else [rows[|rows| - 1]])
  }

  /** Positions at or beyond the end do not matter to `Keep`. */
  lemma {:induction false} KeepBelow(rows: seq<Row>, gone: set<int>, extra: set<int>)
    requires forall x <- extra :: x >= |rows|
    ensures Keep(rows, gone + extra) == Keep(rows, gone)
  {
    if rows != [] {
      KeepBelow(rows[..|rows| - 1], gone, extra);
    }
  }

  /** Deleting position `v` above every position in `gone` is keeping the
      rows outside `gone` and `v`. */
  lemma {:induction false} KeepDelete(rows: seq<Row>, v: int, gone: set<int>)
    requires 0 <= v < |rows| && forall x <- gone :: x < v
    ensures Keep(rows[..v] + rows[v + 1..], gone) == Keep(rows, gone + {v})
  {
    var n := |rows|;
    var d := rows[..v] + rows[v + 1..];
    if v == n - 1 {
      assert d == rows[..n - 1];
      KeepBelow(rows[..n - 1], gone, {v});
    } else {
      var front := rows[..n - 1];
      KeepDelete(front, v, gone);
      assert d[..|d| - 1] == front[..v] + front[v + 1..];
      assert d[|d| - 1] == rows[n - 1];
      assert n - 2 !in gone && n - 1 !in gone + {v};
    }
  }

  /** The tail of a strictly descending list is strictly descending and
      below its head. */
  lemma StrictTail(xs: seq<int>)
    requires xs != [] && StrictlyDesc(xs)
    ensures StrictlyDesc(xs[1..]) && forall y <- xs[1..] :: y < xs[0]
  {
    forall y <- xs[1..] ensures y < xs[0] {
      var k :| 0 <= k < |xs[1..]| && xs[1..][k] == y;
      assert xs[k + 1] == y;
    }
    forall i, j | 0 <= i < j < |xs[1..]| ensures xs[1..][i] > xs[1..][j] {
      assert xs[1..][i] == xs[i + 1] && xs[1..][j] == xs[j + 1];
    }
  }

  /** Deleting strictly descending positions, all in range, one at a time
      keeps exactly the rows at the other positions. */
  lemma {:induction false} DeleteDescending(rows: seq<Row>, order: seq<int>)
    requires StrictlyDesc(order) && forall x <- order :: 0 <= x < |rows|
    ensures DeleteAll(rows, order) == (Keep(rows, set x | x in order), true)
  {
    if order == [] {
      KeepNone(rows);
      assert (set x | x in order) == {};
    } else {
      var v, rest := order[0], order[1..];
      assert v in order;
      var d := rows[..v] + rows[v + 1..];
      assert DeleteAll(rows, order) == DeleteAll(d, rest);
      StrictTail(order);
      assert forall x <- rest :: 0 <= x < |d| by {
        forall x <- rest ensures 0 <= x < |d| {
          assert x in order;
        }
      }
      DeleteDescending(d, rest);
      KeepDelete(rows, v, set x | x in rest);
      assert (set x | x in rest) + {v} == (set x | x in order) by {
        assert order == [v] + rest;
      }
    }
  }

  lemma {:induction false} KeepNone(rows: seq<Row>)
    ensures Keep(rows, {}) == rows
  {
    if rows != [] {
      KeepNone(rows[..|rows| - 1]);
      assert rows == rows[..|rows| - 1] + [rows[|rows| - 1]];
    }
  }

  /** The handler deletes exactly the selected rows when the selected
      positions are distinct and within the rows, whatever order they were
      selected in. */
  lemma DeleteSelectionKeepsOthers(rows: seq<Row>, items: seq<int>)
    requires Distinct(items) && forall x <- items :: 0 <= x < |rows|
    ensures DeleteSelection(rows, IntList(items)) == (Keep(rows, set x | x in items), true)
  {
    IntListPositions(items);
    var order := SortDesc(items);
    assert DeleteSelection(rows, IntList(items)) == DeleteAll(rows, order);
    SortDescStrict(items);
    SortDescSameSet(items);
    assert forall x <- order :: 0 <= x < |rows|;
    DeleteDescending(rows, order);
  }

  /** A selection of several rows, as the client sends it. */
  function IntList(items: seq<int>): Value {
    List(seq(|items|, i requires 0 <= i < |items| => Int(items[i])))
  }

  /** The positions named by a list of integers are those integers. */
  lemma IntListPositions(items: seq<int>)
    ensures IntList(items).List? && Positions(IntList(items)) == Some(items)
  {
    var sel := IntList(items);
    assert SelectedListOf(sel) == sel.items;
    assert forall v <- sel.items :: AsIndex(v).Some?;
    var idx := Positions(sel).value;
    assert |idx| == |items|;
    forall i | 0 <= i < |items| ensures idx[i] == items[i] {
      assert AsIndex(sel.items[i]) == Some(idx[i]);
    }
    assert idx == items;
  }

  /** Sorting keeps the set of positions. */
  lemma SortDescSameSet(items: seq<int>)
    ensures forall x :: x in SortDesc(items) <==> x in items
    ensures (set x | x in SortDesc(items)) == (set x | x in items)
  {
    var order := SortDesc(items);
    forall x ensures x in order <==> x in items {
      assert x in order <==> x in multiset(order);
      assert x in items <==> x in multiset(items);
    }
  }

  /** A single selected row: that one row goes. */
  lemma DeleteSingle(rows: seq<Row>, p: int)
    requires 0 <= p < |rows|
    ensures DeleteSelection(rows, Int(p)) == (rows[..p] + rows[p + 1..], true)
  {
    var idx := AllIndices([Int(p)]);
    assert AsIndex(Int(p)).Some?;
    assert idx.Some? && |idx.value| == 1 && AsIndex(Int(p)) == Some(idx.value[0]);
    assert idx.value == [p];
    assert [p][1..] == [];
    assert DeleteAll(rows, [p]) == DeleteAll(rows[..p] + rows[p + 1..], []);
  }

  // ---------------------------------------------------------------------
  // Editing links

  /** What a changed selection on a table linked to another does:
      nothing to the links, a warning instead of the change, or the links
      to delete and to add before the change is accepted. */
  datatype LinkEdit = NoLinkChange | NotEditable | EditLinks(deleted: set<Value>, added: set<Value>)

  /** The selection as a set of ids: a list's items, none for None, else the value. */
  function AsSet(v: Value): set<Value> {
    if v.List? then set x | x in v.items else if v.Null? then {} else {v}
  }

  /** `changed_selection_causes__changing_links`: links are editable only
      when the linked table has one (non-list) selected row and the table
      is not filtered; then, in edit mode, links for the deselected ids are
      deleted and links for the newly selected ids added, and otherwise a
      warning is returned and the selection is not accepted. */
  function LinkChange(linkValue: Value, filter: bool, editing: bool, oldValue: Value, newValue: Value): (r: LinkEdit)
    ensures r.EditLinks? ==> r.deleted == AsSet(oldValue) - AsSet(newValue) && r.added == AsSet(newValue) - AsSet(oldValue)
    ensures r.NotEditable? <==> !linkValue.Null? && linkValue != List([]) && !filter && !IsSequence(linkValue) && !editing
    ensures r.EditLinks? <==> !linkValue.Null? && linkValue != List([]) && !filter && !IsSequence(linkValue) && editing
  {
    if linkValue.Null? || linkValue == List([]) || filter || IsSequence(linkValue) then NoLinkChange
    else if !editing then NotEditable
    else EditLinks(AsSet(oldValue) - AsSet(newValue), AsSet(newValue) - AsSet(oldValue))
  }

  /** After the edit the linked ids are exactly the new selection, when
      they were the old one: nothing is deleted and added at once. */
  lemma LinkChangeSyncs(linkValue: Value, filter: bool, oldValue: Value, newValue: Value)
    requires LinkChange(linkValue, filter, true, oldValue, newValue).EditLinks?
    ensures var e := LinkChange(linkValue, filter, true, oldValue, newValue);
      && (AsSet(oldValue) - e.deleted) + e.added == AsSet(newValue)
      && e.deleted !! e.added
      && e.deleted <= AsSet(oldValue) && e.added !! AsSet(oldValue)
  {
  }
}
