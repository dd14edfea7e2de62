/** The older paginated list of `unisi/dbelements.py` as an object: it holds
    the table it views, the optional cache, the chunk map and the last patch,
    and every operation is proved to change them as the corresponding
    function of `DbElementsModel` says. */
module DbElements {
  import opened Values
  import opened Kdb
  import U = DbUnitsModel
  import M = DbElementsModel

  class Dblist {
    const table: Dbtable
    var cache: Option<seq<Row>>
    var deltas: U.Chunks
    var update: M.Patch

    /** The whole state the list and its table are in. */
    function Snapshot(): M.Snap
      reads this, table
    {
      M.Snap(table.State(), cache, deltas, update)
    }

    /** `Dblist(dbtable, init_list, cache)` once one of the two lists is given. */
    constructor (table: Dbtable, initList: Option<seq<Row>>, cache: Option<seq<Row>>)
      requires initList.Some? || cache.Some?
      ensures this.table == table
      ensures Snapshot() == M.Init(table.State(), initList, cache).value
    {
      this.table := table;
      this.cache := cache;
      var first := if cache.Some? then Some(PySlice(cache.value, 0, table.limit)) else initList;
      deltas := map[0 := first];
      var len := if cache.Some? then |cache.value| else table.length;
      update := M.Opened(len, table.limit, first);
    }

    /** `len(self)`. */
    method Length() returns (n: int)
      ensures n == M.Len(Snapshot())
      ensures M.Valid(Snapshot()) ==> n == |table.rows|
    {
      n := if cache.Some? then |cache.value| else table.length;
    }

    /** `get_delta_chunk(index)`: a held chunk without rows is read again. */
    method GetDeltaChunk(index: int) returns (key: int, chunk: Option<seq<Row>>)
      modifies this
      ensures (key, chunk, Snapshot()) == M.GetDeltaChunk(old(Snapshot()), index)
    {
      var len := Length();
      if index >= len {
        return -1, None;
      }
      key := index / table.limit * table.limit;
      if cache.Some? {
        return key, Some(PySlice(cache.value, key, key + table.limit));
      }
      if key in deltas && deltas[key].Some? && deltas[key].value != [] {
        return key, deltas[key];
      }
      chunk := table.FetchRows(key, 0);
      deltas := deltas[key := chunk];
    }

    /** `self[index]`. */
    method Get(index: int) returns (r: U.Lookup)
      modifies this
      ensures (r, Snapshot()) == M.GetItem(old(Snapshot()), index)
    {
      if cache.Some? {
        var c := cache.value;
        match PyIndex(|c|, index) {
          case Some(p) => r := U.Got(c[p]);
          case None => r := U.Raised;
        }
        return;
      }
      var key, chunk := GetDeltaChunk(index);
      U.KeyBounds(index, table.limit);
      if chunk.Some? && chunk.value != [] {
        r := if index - key < |chunk.value| then U.Got(chunk.value[index - key]) else U.Raised;
      } else {
        r := U.Nothing;
      }
    }

    /** `self[index] = value`; the result is an IndexError. */
    method Set(index: int, value: Row) returns (raised: bool)
      modifies this, table
      ensures (raised, Snapshot()) == M.SetItem(old(Snapshot()), index, value)
    {
      if cache.Some? {
        var c := cache.value;
        match PyIndex(|c|, index) {
          case Some(p) =>
            cache := Some(c[p := value]);
            raised := false;
          case None =>
            raised := true;
        }
        return;
      }
      var key, chunk := GetDeltaChunk(index);
      U.KeyBounds(index, table.limit);
      var held := chunk.Some? && chunk.value != [];
      if held && index - key >= |chunk.value| {
        return true;
      }
      if held {
        deltas := deltas[key := Some(chunk.value[index - key := value])];
      }
      update := M.Update(index, value);
      raised := table.AssignRow(value);
    }

    /** `clean_cache_from(delta_list)`. */
    method CleanCacheFrom(from: int)
      modifies this
      ensures deltas == U.CleanCacheFrom(old(deltas), from)
      ensures cache == old(cache) && update == old(update)
    {
      deltas := map k | k in deltas && k < from :: deltas[k];
    }

    /** `del self[index]`: the row is deleted and taken out of its chunk,
      then the loop moves rows forward across the held chunks that follow;
      the result is an IndexError. */
    method Delete(index: int) returns (raised: bool)
      modifies this, table
      ensures (raised, Snapshot()) == M.DelItem(old(Snapshot()), index)
    {
      var key, chunk := GetDeltaChunk(index);
      U.KeyBounds(index, table.limit);
      if !(chunk.Some? && chunk.value != []) {
        return false;
      }
      var c := chunk.value;
      var p := index - key;
      if p >= |c| {
        return true;
      }
      raised := false;
      table.DeleteRow(LastCell(c[p]));
      update := M.Delete(index);
      var aliased := cache.None?;
      var current := c[..p] + c[p + 1..];
      if aliased {
        deltas := deltas[key := Some(current)];
      }
      RunCascade(key, current, aliased);
    }

    /** The loop of `__delitem__` from the chunk at `start`, which holds
        `c` and has lost a row: while the current chunk is one short, it
        takes the first row of the next held chunk; at the first chunk not
        held, the row is read from the table and the later chunks are
        dropped. */
    method RunCascade(start: int, c: seq<Row>, aliased0: bool)
      modifies this
      ensures deltas == M.Cascade(table.State(), old(deltas), start, c, aliased0, table.limit)
      ensures cache == old(cache) && update == old(update)
    {
      var limit := table.limit;
      var cur, current, aliased := start, c, aliased0;
      ghost var target := M.Cascade(table.State(), deltas, cur, current, aliased, limit);
      while |current| + 1 == limit
        invariant M.Cascade(table.State(), deltas, cur, current, aliased, limit) == target
        invariant cache == old(cache) && update == old(update)
        decreases M.Above(deltas, cur)
      {
        var next := cur + limit;
        if next in deltas && deltas[next].Some? && deltas[next].value != [] {
          var nl := deltas[next].value;
          ghost var before := deltas;
          if aliased {
            deltas := deltas[cur := Some(current + [nl[0]])];
          }
          deltas := deltas[next := Some(nl[1..])];
          M.AboveShrinks(before, deltas, cur, next);
          cur := next;
          current := nl[1..];
          aliased := true;
        } else {
          var read := table.FetchRows(next - 1, 1);
          var last := if read.Some? then read.value else [];
          if aliased {
            deltas := deltas[cur := Some(current + last)];
          }
          CleanCacheFrom(next);
          return;
        }
      }
    }

    /** `append(value)`; `accepted` is whether the store answered with the new row. */
    method Append(arr: Row, accepted: bool) returns (r: M.Answer)
      modifies this, table
      ensures (r, Snapshot()) == M.Append(old(Snapshot()), arr, accepted)
    {
      if cache.Some? {
        cache := Some(cache.value + [arr]);
        return if arr == [] then M.IndexError else M.Cell(arr[|arr| - 1]);
      }
      var index := table.length;
      var row := table.AppendRow(arr, accepted);
      r := M.Returned(row);
      var key := index / table.limit * table.limit;
      if row.Some? && key in deltas && deltas[key].Some? && deltas[key].value != [] {
        deltas := deltas[key := Some(deltas[key].value + [row.value])];
        update := M.Add(index, row.value);
      }
    }

    /** `extend(rows)`: the loop hands each chunk from the old length on the
      new rows it has room for; the call then always ends in AttributeError
      (the result), `update` untouched. */
    method Extend(batch: seq<Row>) returns (raised: bool)
      requires U.Fillable(deltas, table.length, table.limit)
      modifies this`deltas, table
      ensures raised
      ensures Snapshot() == M.Extend(old(Snapshot()), batch)
    {
      var start := table.length;
      ghost var start0 := start;
      ghost var deltas0 := deltas;
      var rows := table.AppendRows(batch);
      var lenRows := |rows|;
      var iRows: nat := 0;
      var limit := table.limit;
      while lenRows > 0
        invariant lenRows == |rows| - iRows
        invariant U.Fillable(deltas, start, limit)
        invariant U.DistributeAsWritten(deltas, limit, start, rows, iRows)
               == U.DistributeAsWritten(deltas0, limit, start0, rows, 0)
        invariant table.State() == AppendedAll(old(table.State()), batch).0
        decreases lenRows
      {
        ghost var d := deltas;
        var canFill := FillChunk(rows, iRows, start, limit);
        U.DistributeAsWrittenStep(d, limit, start, rows, iRows, canFill);
        iRows := iRows + canFill;
        start := start + canFill;
        lenRows := lenRows - canFill;
      }
      raised := true;
    }

    /** One round of the `extend` loop: the chunk holding offset `start`
        is topped up with the next rows of the batch. */
    method FillChunk(rows: seq<Row>, iRows: nat, start: int, limit: Pos) returns (canFill: int)
      requires U.Fillable(deltas, start, limit)
      modifies this`deltas
      ensures canFill == limit - |U.Resident(old(deltas), U.Key(start, limit))|
      ensures deltas == U.Topped(old(deltas), limit, start, rows, iRows)
    {
      U.FillableCanFill(deltas, start, limit);
      var key := start / limit * limit;
      var list := if key in deltas && deltas[key].Some? then deltas[key].value else [];
      canFill := limit - |list|;
      deltas := deltas[key := Some(list + Slice(rows, iRows, iRows + canFill))];
    }

    /** `insert(index, value)`: the index is ignored and the row appended;
      the result is an IndexError. */
    method Insert(index: int, value: Row, accepted: bool) returns (raised: bool)
      modifies this, table
      ensures (raised, Snapshot()) == M.Insert(old(Snapshot()), index, value, accepted)
    {
      var answer := Append(value, accepted);
      raised := answer == M.IndexError;
    }

    /** `remove(value)`: delete at the position the row's last cell names. */
    method Remove(value: Row) returns (raised: bool)
      modifies this, table
      ensures (raised, Snapshot()) == M.Remove(old(Snapshot()), value)
    {
      if value == [] {
        return true;
      }
      match value[|value| - 1]
      case Int(i) =>
        raised := Delete(i);
      case _ =>
        raised := true;
    }

    /** `pop(index)`, a negative index counted from the end. */
    method Pop(index: int) returns (r: U.Lookup)
      modifies this, table
      ensures (r, Snapshot()) == M.Pop(old(Snapshot()), index)
    {
      var len := Length();
      var i := if index < 0 then index + len else index;
      r := Get(i);
      var _ := Delete(i);
    }

    /** `clear()`, with the chunk map reset. */
    method Clear()
      modifies this, table
      ensures Snapshot() == M.Clear(old(Snapshot()))
    {
      table.Clear(false);
      deltas := map[0 := None];
    }
  }

  /** Opening a list: AttributeError when neither a first chunk nor a cache
      is given. */
  method Open(table: Dbtable, initList: Option<seq<Row>>, cache: Option<seq<Row>>)
    returns (r: Option<Dblist>)
    ensures r.None? <==> initList.None? && cache.None?
    ensures r.Some? ==> fresh(r.value) && r.value.table == table
    ensures r.Some? ==> r.value.Snapshot() == M.Init(table.State(), initList, cache).value
  {
    if cache.None? && initList.None? {
      return None;
    }
    var l := new Dblist(table, initList, cache);
    return Some(l);
  }
}
