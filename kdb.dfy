/** The graph-database layer as the paginated list sees it: column-type
    inference, query-text helpers, and `Dbtable`, the handle on one node
    table. The table's rows are held here as a sequence in ID order (the
    order every read query asks for); the last cell of a stored row is its
    `ID`, a serial number the store hands out. */
module Kdb {
  import opened Values

  type Pos = n: int | n > 0 witness 1
  type Row = seq<Value>

  function Min(a: int, b: int): int {
    if a < b then a else b
  }

  // ---------------------------------------------------------------------
  // equal_fields_dicts

  /** `equal_fields_dicts`: the same field names, with type names equal up to case. */
  predicate EqualFieldsDicts(d1: map<string, string>, d2: map<string, string>) {
    d1.Keys == d2.Keys && forall k :: k in d1 ==> Lower(d1[k]) == Lower(d2[k])
  }

  /** A fields dict with its type names lower-cased. */
  function Lowered(d: map<string, string>): map<string, string> {
    map k | k in d :: Lower(d[k])
  }

  /** Two fields dicts agree exactly when their lower-cased forms are equal. */
  lemma EqualFieldsDictsIffLoweredEqual(d1: map<string, string>, d2: map<string, string>)
    ensures EqualFieldsDicts(d1, d2) <==> Lowered(d1) == Lowered(d2)
  {
    if Lowered(d1) == Lowered(d2) {
      assert d1.Keys == Lowered(d1).Keys;
      assert d2.Keys == Lowered(d2).Keys;
      forall k | k in d1
        ensures Lower(d1[k]) == Lower(d2[k])
      {
        assert Lowered(d1)[k] == Lowered(d2)[k];
      }
    }
    if EqualFieldsDicts(d1, d2) {
      assert Lowered(d1).Keys == Lowered(d2).Keys;
    }
  }

  // ---------------------------------------------------------------------
  // kuzu_data_type, number_types

  const NumberTypes: seq<string> := ["DOUBLE", "INT64"]

  /** A value the store has a column type for. */
  predicate Storable(v: Value) {
    v.Bool? || v.Int? || v.Float? || v.Str? || v.DateTime? || v.Date? || v.Bytes? || v.List? || v.Tuple?
  }

  /** `kuzu_data_type`: the column type of a value; `""` when there is none.
      A bool is a BOOLEAN although Python counts it as an int. */
  function KuzuDataType(v: Value): (r: string)
    ensures r == "" <==> !Storable(v)
    ensures r in NumberTypes <==> v.Int? || v.Float?
  {
    match v
    case Bool(_) => "BOOLEAN"
    case Int(_) => "INT64"
    case Float(_) => "DOUBLE"
    case Str(_) => "STRING"
    case DateTime(_) => "TIMESTAMP"
    case Date(_) => "DATE"
    case Bytes(_) => "BLOB"
    case List(_) => "LIST"
    case Tuple(_) => "LIST"
    case _ => ""
  }

  // ---------------------------------------------------------------------
  // dict_to_cypher_set

  /** One `alias.key = value` item; a string value is put in single quotes,
      any other value is written as `show` renders it. */
  function SetItem(alias: string, key: string, value: Value, show: Value -> string): string {
    alias + "." + key + " = " + (if value.Str? then "'" + value.s + "'" else show(value))
  }

  function SetItems(props: seq<(string, Value)>, alias: string, show: Value -> string): seq<string> {
    seq(|props|, i requires 0 <= i < |props| => SetItem(alias, props[i].0, props[i].1, show))
  }

  /** `", ".join(items)`. */
  function JoinComma(items: seq<string>): string {
    if items == [] then "" else if |items| == 1 then items[0] else items[0] + ", " + JoinComma(items[1..])
  }

  /** `dict_to_cypher_set`: a Cypher `SET` clause for the properties, in order. */
  function DictToCypherSet(props: seq<(string, Value)>, alias: string, show: Value -> string): string {
    "SET " + JoinComma(SetItems(props, alias, show))
  }

  lemma {:induction false} JoinCommaAppend(a: seq<string>, b: seq<string>)
    requires a != [] && b != []
    ensures JoinComma(a + b) == JoinComma(a) + ", " + JoinComma(b)
  {
    if |a| == 1 {
      assert (a + b)[1..] == b;
    } else {
      assert (a + b)[1..] == a[1..] + b;
      JoinCommaAppend(a[1..], b);
    }
  }

  /** The clause for two property runs is the first clause continued by the
      items of the second, separated by a comma: one item per property. */
  lemma DictToCypherSetAppend(p: seq<(string, Value)>, q: seq<(string, Value)>, alias: string, show: Value -> string)
    requires p != [] && q != []
    ensures DictToCypherSet(p + q, alias, show) ==
      DictToCypherSet(p, alias, show) + ", " + JoinComma(SetItems(q, alias, show))
  {
    assert SetItems(p + q, alias, show) == SetItems(p, alias, show) + SetItems(q, alias, show);
    JoinCommaAppend(SetItems(p, alias, show), SetItems(q, alias, show));
  }

  /** A single string property gives `SET alias.key = 'value'`. */
  lemma DictToCypherSetString(key: string, s: string, alias: string, show: Value -> string)
    ensures DictToCypherSet([(key, Str(s))], alias, show) == "SET " + alias + "." + key + " = '" + s + "'"
  {
    assert SetItems([(key, Str(s))], alias, show) == [SetItem(alias, key, Str(s), show)];
  }

  // ---------------------------------------------------------------------
  // Column-type inference of get_table

  /** A cell the inference looks at: not None and of a storable type. */
  predicate IsTypedCell(rows: seq<Row>, a: int, b: int) {
    0 <= a < |rows| && 0 <= b < |rows[a]| && !rows[a][b].Null? && Storable(rows[a][b])
  }

  /** `t` is an admissible column type for a cell of type `k`. */
  predicate Fits(t: string, k: string) {
    k == t || (t == "DOUBLE" && k in NumberTypes)
  }

  /** Two cell types may share a column: equal, or both numeric. */
  predicate Compatible(a: string, b: string) {
    a == b || (a in NumberTypes && b in NumberTypes)
  }

  ghost predicate ConflictFree(rows: seq<Row>) {
    forall a1, a2, b :: IsTypedCell(rows, a1, b) && IsTypedCell(rows, a2, b) ==>
      Compatible(KuzuDataType(rows[a1][b]), KuzuDataType(rows[a2][b]))
  }

  ghost predicate WithinHeaders(rows: seq<Row>, width: nat) {
    forall a, b :: IsTypedCell(rows, a, b) ==> b < width
  }

  ghost predicate ColumnTyped(rows: seq<Row>, b: int) {
    exists a :: IsTypedCell(rows, a, b)
  }

  /** Column `b` gets type `t`: some typed cell of it has that type, and
      every typed cell of it fits it. */
  ghost predicate TypedAs(rows: seq<Row>, b: int, t: string) {
    && (exists a :: IsTypedCell(rows, a, b) && KuzuDataType(rows[a][b]) == t)
    && (forall a :: IsTypedCell(rows, a, b) ==> Fits(t, KuzuDataType(rows[a][b])))
  }

  /** What the inference ends with: the column types, None (no headers, a
      type conflict, or a column without any typed value), or an IndexError
      for a typed cell beyond the headers. */
  datatype Inference = Inferred(types: seq<string>) | Unusable | TooWide

  /** The cells the inference has seen once it stands at cell `j` of row `i`. */
  predicate Seen(rows: seq<Row>, i: int, j: int, a: int, b: int) {
    IsTypedCell(rows, a, b) && (a < i || (a == i && b < j))
  }

  ghost predicate InferInv(rows: seq<Row>, width: nat, types: seq<Option<string>>, i: int, j: int) {
    && |types| == width
    && (forall a, b :: Seen(rows, i, j, a, b) ==> b < width)
    && (forall b :: 0 <= b < width && types[b].None? ==> forall a :: !Seen(rows, i, j, a, b))
    && (forall b :: 0 <= b < width && types[b].Some? ==>
          (exists a :: Seen(rows, i, j, a, b) && KuzuDataType(rows[a][b]) == types[b].value))
    && (forall a, b :: Seen(rows, i, j, a, b) && b < width ==>
          types[b].Some? && Fits(types[b].value, KuzuDataType(rows[a][b])))
  }

  lemma SeenNextRow(rows: seq<Row>, i: nat, i2: nat, a: int, b: int)
    requires i < |rows| && i2 == i + 1
    ensures Seen(rows, i2, 0, a, b) == Seen(rows, i, |rows[i]|, a, b)
  {
  }

  lemma InferInvNextRow(rows: seq<Row>, width: nat, types: seq<Option<string>>, i: nat, i2: nat)
    requires i < |rows| && i2 == i + 1 && InferInv(rows, width, types, i, |rows[i]|)
    ensures InferInv(rows, width, types, i2, 0)
  {
    var j := |rows[i]|;
    forall a, b | Seen(rows, i2, 0, a, b)
      ensures b < width
      ensures types[b].Some? && Fits(types[b].value, KuzuDataType(rows[a][b]))
    {
      SeenNextRow(rows, i, i2, a, b);
    }
    forall b | 0 <= b < width && types[b].None?
      ensures forall a :: !Seen(rows, i2, 0, a, b)
    {
      forall a
        ensures !Seen(rows, i2, 0, a, b)
      {
        SeenNextRow(rows, i, i2, a, b);
      }
    }
    forall b | 0 <= b < width && types[b].Some?
      ensures exists a :: Seen(rows, i2, 0, a, b) && KuzuDataType(rows[a][b]) == types[b].value
    {
      var a :| Seen(rows, i, j, a, b) && KuzuDataType(rows[a][b]) == types[b].value;
      SeenNextRow(rows, i, i2, a, b);
    }
  }

  lemma SeenNextCell(rows: seq<Row>, i: nat, j: nat, j2: nat, a: int, b: int)
    requires j2 == j + 1
    ensures Seen(rows, i, j2, a, b) == (Seen(rows, i, j, a, b) || (a == i && b == j && IsTypedCell(rows, a, b)))
  {
  }

  /** A cell the inference skips leaves what it knows unchanged. */
  lemma InferUntypedStep(rows: seq<Row>, width: nat, types: seq<Option<string>>, i: nat, j: nat, j2: nat)
    requires i < |rows| && j < |rows[i]| && j2 == j + 1
    requires InferInv(rows, width, types, i, j) && !IsTypedCell(rows, i, j)
    ensures InferInv(rows, width, types, i, j2)
  {
    forall a, b
      ensures Seen(rows, i, j2, a, b) == Seen(rows, i, j, a, b)
    {
      SeenNextCell(rows, i, j, j2, a, b);
    }
  }

  /** A typed cell of column `j` whose new column type `t2` still fits every
      earlier cell, and that is the type of that cell or of an earlier one. */
  lemma InferTypedStep(rows: seq<Row>, width: nat, types: seq<Option<string>>, types2: seq<Option<string>>,
                       t2: string, i: nat, j: nat, j2: nat)
    requires i < |rows| && j < |rows[i]| && j < width && j2 == j + 1
    requires InferInv(rows, width, types, i, j) && IsTypedCell(rows, i, j)
    requires types2 == types[j := Some(t2)]
    requires Fits(t2, KuzuDataType(rows[i][j]))
    requires types[j].None? ==> t2 == KuzuDataType(rows[i][j])
    requires types[j].Some? ==> Fits(t2, types[j].value) && (t2 == types[j].value || t2 == KuzuDataType(rows[i][j]))
    ensures InferInv(rows, width, types2, i, j2)
  {
    forall a, b | Seen(rows, i, j2, a, b)
      ensures b < width
      ensures b < width ==> types2[b].Some? && Fits(types2[b].value, KuzuDataType(rows[a][b]))
    {
      SeenNextCell(rows, i, j, j2, a, b);
    }
    forall b | 0 <= b < width && types2[b].None?
      ensures forall a :: !Seen(rows, i, j2, a, b)
    {
      forall a
        ensures !Seen(rows, i, j2, a, b)
      {
        SeenNextCell(rows, i, j, j2, a, b);
      }
    }
    forall b | 0 <= b < width && types2[b].Some?
      ensures exists a :: Seen(rows, i, j2, a, b) && KuzuDataType(rows[a][b]) == types2[b].value
    {
      if b == j && t2 == KuzuDataType(rows[i][j]) {
        SeenNextCell(rows, i, j, j2, i, j);
      } else {
        var a :| Seen(rows, i, j, a, b) && KuzuDataType(rows[a][b]) == types[b].value;
        SeenNextCell(rows, i, j, j2, a, b);
      }
    }
  }

  /** A column whose type is still unknown after every row has no typed cell. */
  lemma InferNoneSeen(rows: seq<Row>, width: nat, types: seq<Option<string>>, k: int)
    requires InferInv(rows, width, types, |rows|, 0) && 0 <= k < width && types[k].None?
    ensures !ColumnTyped(rows, k)
  {
    forall a
      ensures !IsTypedCell(rows, a, k)
    {
      assert IsTypedCell(rows, a, k) ==> Seen(rows, |rows|, 0, a, k);
    }
  }

  /** Once every row is seen and every column has a type, the types describe the rows. */
  lemma InferDone(rows: seq<Row>, width: nat, types: seq<Option<string>>, ts: seq<string>)
    requires InferInv(rows, width, types, |rows|, 0)
    requires |ts| == width && forall b :: 0 <= b < width ==> types[b] == Some(ts[b])
    ensures ConflictFree(rows) && WithinHeaders(rows, width)
    ensures forall b :: 0 <= b < width ==> ColumnTyped(rows, b) && TypedAs(rows, b, ts[b])
  {
    var i := |rows|;
    forall a, b | IsTypedCell(rows, a, b)
      ensures Seen(rows, i, 0, a, b)
    {
    }
    forall b | 0 <= b < width
      ensures ColumnTyped(rows, b) && TypedAs(rows, b, ts[b])
    {
      assert types[b].Some?;
      var a :| Seen(rows, i, 0, a, b) && KuzuDataType(rows[a][b]) == types[b].value;
      forall a' | IsTypedCell(rows, a', b)
        ensures Fits(ts[b], KuzuDataType(rows[a'][b]))
      {
        assert Seen(rows, i, 0, a', b);
      }
    }
    forall a1, a2, b | IsTypedCell(rows, a1, b) && IsTypedCell(rows, a2, b)
      ensures Compatible(KuzuDataType(rows[a1][b]), KuzuDataType(rows[a2][b]))
    {
      assert Seen(rows, i, 0, a1, b) && Seen(rows, i, 0, a2, b);
    }
  }

  /** One row of the type inference: the column types after its cells, or
      the outcome that ends the inference early. */
  method InferRow(width: nat, rows: seq<Row>, types: seq<Option<string>>, i: nat)
      returns (next: seq<Option<string>>, stop: Option<Inference>)
    requires i < |rows| && InferInv(rows, width, types, i, 0)
    ensures stop.None? ==> InferInv(rows, width, next, i, |rows[i]|)
    ensures stop.Some? ==>
      (stop.value.TooWide? && !WithinHeaders(rows, width)) ||
      (stop.value.Unusable? && !ConflictFree(rows))
  {
    next := types;
    var j := 0;
    while j < |rows[i]|
      invariant 0 <= j <= |rows[i]|
      invariant InferInv(rows, width, next, i, j)
    {
      next, stop := InferCell(width, rows, next, i, j);
      if stop.Some? {
        return;
      }
      j := j + 1;
    }
    stop := None;
  }

  /** One cell of the type inference: the column types after cell `j` of
      row `i`, or the outcome that ends the inference early. */
  method InferCell(width: nat, rows: seq<Row>, types: seq<Option<string>>, i: nat, j: nat)
      returns (next: seq<Option<string>>, stop: Option<Inference>)
    requires i < |rows| && j < |rows[i]| && InferInv(rows, width, types, i, j)
    ensures stop.None? ==> InferInv(rows, width, next, i, j + 1)
    ensures stop.Some? ==>
      (stop.value.TooWide? && !WithinHeaders(rows, width)) ||
      (stop.value.Unusable? && !ConflictFree(rows))
  {
    next, stop := types, None;
    var cell := rows[i][j];
    if !cell.Null? && KuzuDataType(cell) != "" {
      var ktype := KuzuDataType(cell);
      if j >= width {
        assert IsTypedCell(rows, i, j);
        return next, Some(TooWide);
      }
      if next[j].None? {
        next := next[j := Some(ktype)];
        InferTypedStep(rows, width, types, next, ktype, i, j, j + 1);
      } else if next[j].value != ktype {
        if next[j].value in NumberTypes && ktype in NumberTypes {
          next := next[j := Some("DOUBLE")];
          InferTypedStep(rows, width, types, next, "DOUBLE", i, j, j + 1);
        } else {
          var a0 :| Seen(rows, i, j, a0, j) && KuzuDataType(rows[a0][j]) == next[j].value;
          assert IsTypedCell(rows, a0, j) && IsTypedCell(rows, i, j);
          return next, Some(Unusable);
        }
      } else {
        InferTypedStep(rows, width, types, next, ktype, i, j, j + 1);
      }
    } else {
      InferUntypedStep(rows, width, next, i, j, j + 1);
    }
  }

  /** The loop of the type inference over the rows: the column types after
      all of them, or the outcome that ends the inference early. */
  method InferRows(width: nat, rows: seq<Row>) returns (types: seq<Option<string>>, stop: Option<Inference>)
    ensures stop.None? ==> InferInv(rows, width, types, |rows|, 0)
    ensures stop.Some? ==>
      (stop.value.TooWide? && !WithinHeaders(rows, width)) ||
      (stop.value.Unusable? && !ConflictFree(rows))
  {
    types, stop := seq(width, _ => None), None;
    var i := 0;
    while i < |rows|
      invariant 0 <= i <= |rows| && stop.None?
      invariant InferInv(rows, width, types, i, 0)
    {
      types, stop := InferRow(width, rows, types, i);
      if stop.Some? {
        return;
      }
      InferInvNextRow(rows, width, types, i, i + 1);
      i := i + 1;
    }
  }

  /** The type inference of `get_table` for rows given without fields. */
  method InferColumnTypes(width: nat, rows: seq<Row>) returns (r: Inference)
    ensures r.Inferred? <==>
      width > 0 && ConflictFree(rows) && WithinHeaders(rows, width) &&
      forall b :: 0 <= b < width ==> ColumnTyped(rows, b)
    ensures r.Inferred? ==> |r.types| == width
    ensures r.Inferred? ==> forall b :: 0 <= b < width ==> TypedAs(rows, b, r.types[b])
    ensures r.TooWide? ==> !WithinHeaders(rows, width)
    ensures r.Unusable? ==>
      width == 0 || !ConflictFree(rows) || exists b :: 0 <= b < width && !ColumnTyped(rows, b)
  {
    if width == 0 {
      return Unusable;
    }
    var types, stop := InferRows(width, rows);
    if stop.Some? {
      return stop.value;
    }
    var k := 0;
    while k < width
      invariant 0 <= k <= width
      invariant forall b :: 0 <= b < k ==> types[b].Some?
    {
      if types[k].None? {
        InferNoneSeen(rows, width, types, k);
        return Unusable;
      }
      k := k + 1;
    }
    var ts := seq(width, b requires 0 <= b < width => types[b].value);
    InferDone(rows, width, types, ts);
    r := Inferred(ts);
  }

  // ---------------------------------------------------------------------
  // default_index_name2

  /** `default_index_name2`: the relation table linking `id` to `linkTable`. */
  function DefaultIndexName2(id: string, linkTable: string): (r: string)
    ensures |r| == |id| + 1 + |linkTable|
    ensures r[..|id|] == id && r[|id|] == '2' && r[|id| + 1..] == linkTable
  {
    id + "2" + linkTable
  }

  /** For one node table, different link tables get different relation names. */
  lemma DefaultIndexName2Injective(id: string, t1: string, t2: string)
    requires DefaultIndexName2(id, t1) == DefaultIndexName2(id, t2)
    ensures t1 == t2
  {
    assert t1 == DefaultIndexName2(id, t1)[|id| + 1..];
  }

  // ---------------------------------------------------------------------
  // The store behind a Dbtable

  /** The table's state: page size, number of data columns, the stored rows
      in ID order, the next serial ID, and the `length` counter. */
  datatype Store = Store(limit: Pos, columns: nat, rows: seq<Row>, nextId: int, length: int)

  /** The `ID` cell of a stored row. */
  function LastCell(r: Row): Value {
    if r == [] then Null else r[|r| - 1]
  }

  /** Python's `lst[lo:hi]` for `lo >= 0` and `hi >= 0`. */
  function Slice<T>(s: seq<T>, lo: nat, hi: nat): (r: seq<T>)
    ensures |r| == if lo < |s| && lo < hi then Min(hi, |s|) - lo else 0
    ensures forall i :: 0 <= i < |r| ==> r[i] == s[lo + i]
  {
    if lo >= |s| || hi <= lo then [] else s[lo..Min(hi, |s|)]
  }

  /** `read_rows(skip, limit)`: the rows from position `skip` on, at most
      `lim` of them (`limit` when `lim` is 0). A negative `skip` makes the
      query fail, which reads as None. */
  function ReadRows(st: Store, skip: int, lim: nat): (r: Option<seq<Row>>)
    ensures r.None? <==> skip < 0
    ensures r.Some? ==> r.value == Slice(st.rows, skip, skip + (if lim == 0 then st.limit else lim))
  {
    if skip < 0 then None
    else Some(Slice(st.rows, skip, skip + (if lim == 0 then st.limit else lim)))
  }

  /** `init_list`'s length: the number of rows of the first read when that
      read was short, else the store's count. Both give the true count. */
  function InitLength(st: Store): (n: int)
    ensures n == |st.rows|
  {
    var first := ReadRows(st, 0, st.limit).value;
    if |first| == st.limit then |st.rows| else |first|
  }

  /** The row the store creates for `cells`: the data columns, missing ones
      NULL, then the new ID. */
  function NewRow(columns: nat, cells: Row, id: int): (r: Row)
    ensures |r| == columns + 1 && LastCell(r) == Int(id)
    ensures forall c :: 0 <= c < columns ==> r[c] == if c < |cells| then cells[c] else Null
  {
    seq(columns, c requires 0 <= c < columns => if c < |cells| then cells[c] else Null) + [Int(id)]
  }

  /** `append_row`: when the store answers (`accepted`), the new row is stored
      and returned and the counter goes up by one; otherwise nothing changes. */
  function Appended(st: Store, cells: Row, accepted: bool): (Store, Option<Row>)
  {
    if accepted then
      var row := NewRow(st.columns, cells, st.nextId);
      (st.(rows := st.rows + [row], nextId := st.nextId + 1, length := st.length + 1), Some(row))
    else (st, None)
  }

  /** The rows `append_rows` creates, in order, with consecutive IDs. */
  function CreatedRows(columns: nat, batch: seq<Row>, firstId: int): (r: seq<Row>)
    ensures |r| == |batch|
    ensures forall i :: 0 <= i < |r| ==> r[i] == NewRow(columns, batch[i], firstId + i)
  {
    seq(|batch|, i requires 0 <= i < |batch| => NewRow(columns, batch[i], firstId + i))
  }

  /** `append_rows`: store every row and add `len(rows)` to the counter. */
  function AppendedAll(st: Store, batch: seq<Row>): (Store, seq<Row>)
  {
    var created := CreatedRows(st.columns, batch, st.nextId);
    (st.(rows := st.rows + created, nextId := st.nextId + |batch|, length := st.length + |batch|), created)
  }

  /** The rows whose ID cell is not `id`. */
  function RemoveId(rows: seq<Row>, id: Value): (r: seq<Row>)
    ensures |r| <= |rows|
  {
    if rows == [] then []
    else (if LastCell(rows[0]) == id then [] else [rows[0]]) + RemoveId(rows[1..], id)
  }

  /** `delete_row(id)`: delete the row with that ID, and count one row less
      whether or not such a row existed. */
  function Deleted(st: Store, id: Value): Store {
    st.(rows := RemoveId(st.rows, id), length := st.length - 1)
  }

  /** `clear`: an empty table with length 0. */
  function Cleared(st: Store): Store {
    st.(rows := [], length := 0)
  }

  /** A row with its first data cells replaced by those of `cells`. */
  function Overwrite(old_: Row, cells: Row, columns: nat): (r: Row)
    ensures |r| == |old_|
    ensures forall c :: 0 <= c < |old_| ==> r[c] == if c < columns && c < |cells| then cells[c] else old_[c]
  {
    seq(|old_|, c requires 0 <= c < |old_| => if c < columns && c < |cells| then cells[c] else old_[c])
  }

  /** The update query of `assign_row` is valid: no written cell is None. */
  predicate AssignableCells(cells: Row, columns: nat) {
    forall c :: 0 <= c < columns && c < |cells| ==> !cells[c].Null?
  }

  /** `assign_row(cells)`: the row whose ID is the last of `cells` takes the
      data cells of `cells`; a query the store rejects changes nothing. */
  function Assigned(st: Store, cells: Row): Store
    requires cells != []
  {
    if !AssignableCells(cells, st.columns) then st
    else st.(rows := seq(|st.rows|, i requires 0 <= i < |st.rows| =>
      if LastCell(st.rows[i]) == cells[|cells| - 1] then Overwrite(st.rows[i], cells, st.columns) else st.rows[i]))
  }

  // ---------------------------------------------------------------------
  // Store invariants

  /** Every stored row has its data columns and an integer ID below the next
      one; IDs strictly increase along the rows. */
  predicate WellFormed(st: Store) {
    && (forall i :: 0 <= i < |st.rows| ==>
          |st.rows[i]| == st.columns + 1 && LastCell(st.rows[i]).Int? && LastCell(st.rows[i]).i < st.nextId)
    && (forall i, j :: 0 <= i < j < |st.rows| ==> LastCell(st.rows[i]).i < LastCell(st.rows[j]).i)
  }

  /** The counter equals the number of stored rows. */
  predicate Synced(st: Store) {
    st.length == |st.rows|
  }

  lemma {:induction false} RemoveAbsentId(rows: seq<Row>, id: Value)
    requires forall i :: 0 <= i < |rows| ==> LastCell(rows[i]) != id
    ensures RemoveId(rows, id) == rows
  {
    if rows != [] {
      RemoveAbsentId(rows[1..], id);
    }
  }

  lemma {:induction false} RemoveUniqueId(rows: seq<Row>, p: nat)
    requires p < |rows|
    requires forall i :: 0 <= i < |rows| && i != p ==> LastCell(rows[i]) != LastCell(rows[p])
    ensures RemoveId(rows, LastCell(rows[p])) == rows[..p] + rows[p + 1..]
  {
    var id := LastCell(rows[p]);
    if p == 0 {
      RemoveAbsentId(rows[1..], id);
    } else {
      assert rows[1..][p - 1] == rows[p];
      RemoveUniqueId(rows[1..], p - 1);
      assert rows[..p] == [rows[0]] + rows[1..][..p - 1];
      assert rows[p + 1..] == rows[1..][p..];
    }
  }

  /** In a well-formed store, deleting the ID of the row at `p` removes just
      that row; the counter stays equal to the row count. */
  lemma DeletedAtPosition(st: Store, p: nat)
    requires WellFormed(st) && p < |st.rows|
    ensures Deleted(st, LastCell(st.rows[p])).rows == st.rows[..p] + st.rows[p + 1..]
    ensures WellFormed(Deleted(st, LastCell(st.rows[p])))
    ensures Synced(st) ==> Synced(Deleted(st, LastCell(st.rows[p])))
  {
    OtherIdsDiffer(st, p);
    RemoveUniqueId(st.rows, p);
    DropRowWellFormed(st, p);
  }

  /** In a well-formed store no other row carries the ID of row `p`. */
  lemma OtherIdsDiffer(st: Store, p: nat)
    requires WellFormed(st) && p < |st.rows|
    ensures forall i :: 0 <= i < |st.rows| && i != p ==> LastCell(st.rows[i]) != LastCell(st.rows[p])
  {
    forall i | 0 <= i < |st.rows| && i != p
      ensures LastCell(st.rows[i]) != LastCell(st.rows[p])
    {
      if i < p {
        assert LastCell(st.rows[i]).i < LastCell(st.rows[p]).i;
      } else {
        assert LastCell(st.rows[p]).i < LastCell(st.rows[i]).i;
      }
    }
  }

  /** Dropping one row of a well-formed store leaves it well formed. */
  lemma DropRowWellFormed(st: Store, p: nat)
    requires WellFormed(st) && p < |st.rows|
    ensures WellFormed(st.(rows := st.rows[..p] + st.rows[p + 1..], length := st.length - 1))
  {
    var r := st.rows[..p] + st.rows[p + 1..];
    forall i, j | 0 <= i < j < |r|
      ensures LastCell(r[i]).i < LastCell(r[j]).i
    {
      var i' := if i < p then i else i + 1;
      var j' := if j < p then j else j + 1;
      assert r[i] == st.rows[i'] && r[j] == st.rows[j'];
    }
  }

  /** Deleting an ID no row carries removes nothing but still lowers the counter. */
  lemma DeletedAbsent(st: Store, id: Value)
    requires forall i :: 0 <= i < |st.rows| ==> LastCell(st.rows[i]) != id
    ensures Deleted(st, id).rows == st.rows
    ensures Deleted(st, id).length == st.length - 1
  {
    RemoveAbsentId(st.rows, id);
  }

  /** `append_row` keeps the store well formed and the counter in step. */
  lemma AppendedKeeps(st: Store, cells: Row, accepted: bool)
    requires WellFormed(st)
    ensures WellFormed(Appended(st, cells, accepted).0)
    ensures Synced(st) ==> Synced(Appended(st, cells, accepted).0)
    ensures accepted ==> Appended(st, cells, accepted).0.rows == st.rows + [NewRow(st.columns, cells, st.nextId)]
  {
  }

  /** `append_rows` keeps the store well formed and the counter in step. */
  lemma AppendedAllKeeps(st: Store, batch: seq<Row>)
    requires WellFormed(st)
    ensures WellFormed(AppendedAll(st, batch).0)
    ensures Synced(st) ==> Synced(AppendedAll(st, batch).0)
  {
    var st2 := AppendedAll(st, batch).0;
    var created := CreatedRows(st.columns, batch, st.nextId);
    assert st2.rows == st.rows + created;
    forall i | 0 <= i < |st2.rows|
      ensures |st2.rows[i]| == st2.columns + 1 && LastCell(st2.rows[i]).Int? && LastCell(st2.rows[i]).i < st2.nextId
    {
      if i >= |st.rows| {
        assert st2.rows[i] == created[i - |st.rows|];
      }
    }
    forall i, j | 0 <= i < j < |st2.rows|
      ensures LastCell(st2.rows[i]).i < LastCell(st2.rows[j]).i
    {
      if j >= |st.rows| {
        assert st2.rows[j] == created[j - |st.rows|];
        if i >= |st.rows| {
          assert st2.rows[i] == created[i - |st.rows|];
        }
      }
    }
  }

  /** `assign_row` keeps the store well formed and the counter unchanged. */
  lemma AssignedKeeps(st: Store, cells: Row)
    requires WellFormed(st) && cells != []
    ensures WellFormed(Assigned(st, cells))
    ensures Assigned(st, cells).length == st.length && |Assigned(st, cells).rows| == |st.rows|
  {
    var st2 := Assigned(st, cells);
    forall i | 0 <= i < |st2.rows|
      ensures LastCell(st2.rows[i]) == LastCell(st.rows[i])
    {
      assert st2.rows[i][st.columns] == st.rows[i][st.columns];
    }
  }

  /** In a well-formed store, assigning a row that carries the ID of row
      `index` (with its data cells set) replaces exactly that row. */
  lemma AssignedAt(st: Store, index: nat, cells: Row)
    requires WellFormed(st) && index < |st.rows|
    requires |cells| == st.columns + 1 && LastCell(cells) == LastCell(st.rows[index])
    requires AssignableCells(cells, st.columns)
    ensures Assigned(st, cells).rows == st.rows[index := cells]
  {
    var rows := st.rows;
    var rows2 := rows[index := cells];
    var st2 := Assigned(st, cells);
    forall i | 0 <= i < |rows|
      ensures st2.rows[i] == rows2[i]
    {
      if i != index {
        if i < index {
          assert LastCell(rows[i]).i < LastCell(rows[index]).i;
        } else {
          assert LastCell(rows[index]).i < LastCell(rows[i]).i;
        }
      } else {
        assert Overwrite(rows[i], cells, st.columns) == cells;
      }
    }
  }

  /** The table handle. `rows` and `nextId` stand for the contents of the
      node table in the database; `length` is the handle's own counter. */
  class Dbtable {
    const id: string
    const limit: Pos
    const columns: nat
    var rows: seq<Row>
    var nextId: int
    var length: int

    function State(): Store
      reads this
    {
      Store(limit, columns, rows, nextId, length)
    }

    /** Opening a table runs `init_list`, which sets `length` (the list
        itself is built by the paginated list module). */
    constructor (id: string, limit: Pos, columns: nat, rows: seq<Row>, nextId: int)
      ensures this.id == id && this.limit == limit && this.columns == columns
      ensures this.rows == rows && this.nextId == nextId
      ensures Synced(State())
    {
      this.id := id;
      this.limit := limit;
      this.columns := columns;
      this.rows := rows;
      this.nextId := nextId;
      length := InitLength(Store(limit, columns, rows, nextId, 0));
    }

    /** `read_rows(skip, limit)`: the query over the stored rows in ID order. */
    method FetchRows(skip: int, lim: nat) returns (r: Option<seq<Row>>)
      ensures r == ReadRows(State(), skip, lim)
    {
      if skip < 0 {
        r := None;
      } else {
        var n := if lim == 0 then limit else lim;
        r := Some(Slice(rows, skip, skip + n));
      }
    }

    /** `assign_row`; raises IndexError on an empty row. */
    method AssignRow(cells: Row) returns (raised: bool)
      modifies this
      ensures raised <==> cells == []
      ensures State() == if raised then old(State()) else Assigned(old(State()), cells)
    {
      if cells == [] {
        return true;
      }
      raised := false;
      if AssignableCells(cells, columns) {
        var refs := cells[|cells| - 1];
        var old_ := rows;
        rows := seq(|old_|, i requires 0 <= i < |old_| =>
          if LastCell(old_[i]) == refs then Overwrite(old_[i], cells, columns) else old_[i]);
      }
    }

    /** `delete_row`. */
    method DeleteRow(id: Value)
      modifies this
      ensures State() == Deleted(old(State()), id)
    {
      length := length - 1;
      rows := RemoveId(rows, id);
    }

    /** `clear` (with or without `detach`, the node rows are all deleted). */
    method Clear(detach: bool)
      modifies this
      ensures State() == Cleared(old(State()))
    {
      length := 0;
      rows := [];
    }

    /** `append_row`; `accepted` is whether the store answered with the new row. */
    method AppendRow(cells: Row, accepted: bool) returns (r: Option<Row>)
      modifies this
      ensures (State(), r) == Appended(old(State()), cells, accepted)
    {
      if accepted {
        var row := NewRow(columns, cells, nextId);
        rows := rows + [row];
        nextId := nextId + 1;
        length := length + 1;
        r := Some(row);
      } else {
        r := None;
      }
    }

    /** `append_rows`. */
    method AppendRows(batch: seq<Row>) returns (created: seq<Row>)
      modifies this
      ensures (State(), created) == AppendedAll(old(State()), batch)
    {
      created := [];
      var i := 0;
      while i < |batch|
        invariant 0 <= i <= |batch|
        invariant created == CreatedRows(columns, batch[..i], nextId)
      {
        created := created + [NewRow(columns, batch[i], nextId + i)];
        i := i + 1;
      }
      assert batch[..i] == batch;
      length := length + |batch|;
      rows := rows + created;
      nextId := nextId + |batch|;
    }
  }
}
