/** The paginated list of `unisi/dbunits.py` as an object: it holds the
    table it views, the optional in-memory cache, the chunk map and the
    table's patch queue, and every operation is proved to change them as
    the corresponding function of `DbUnitsModel` says. */
module DbUnits {
  import opened Values
  import opened Kdb
  import DbUnitsModel

  /** `at_iter(iter, times)`: walk the fields and return the one met at step
      `times`; None when the walk ends first. */
  method AtIter<T>(xs: seq<T>, times: int) returns (r: Option<T>)
    ensures r == DbUnitsModel.AtIter(xs, times)
  {
    var i := 0;
    while i < |xs|
      invariant 0 <= i <= |xs|
      invariant times < 0 || i <= times
    {
      if i == times {
        return Some(xs[i]);
      }
      i := i + 1;
    }
    return None;
  }

  /** `index2node_relation(cell)`: a row holds the node's fields, then its ID,
      then the link's fields; a cell index names a node field (first result
      true) or a link field. */
  method Index2NodeRelation(tableFields: seq<string>, linkFields: seq<string>, cell: int)
    returns (inNode: bool, field: Option<string>)
    ensures inNode <==> cell < |tableFields|
    ensures 0 <= cell < |tableFields| ==> field == Some(tableFields[cell])
    ensures cell < 0 || cell == |tableFields| ==> field.None?
    ensures cell > |tableFields| ==> field == DbUnitsModel.AtIter(linkFields, cell - |tableFields| - 1)
  {
    var delta := cell - |tableFields|;
    if delta < 0 {
      inNode := true;
      field := AtIter(tableFields, cell);
      return;
    }
    delta := delta - 1;
    inNode := false;
    field := AtIter(linkFields, delta);
  }

  class Dblist {
    const table: Dbtable
    var cache: Option<seq<Row>>
    var deltas: DbUnitsModel.Chunks
    var queue: seq<DbUnitsModel.Patch>

    /** The whole state the list and its table are in. */
    function Snapshot(): DbUnitsModel.Snap
      reads this, table
    {
      DbUnitsModel.Snap(table.State(), cache, deltas, queue)
    }

    /** `Dblist(dbtable, init_list, cache)` once one of the two lists is given. */
    constructor (table: Dbtable, initList: Option<seq<Row>>, cache: Option<seq<Row>>)
      requires initList.Some? || cache.Some?
      ensures this.table == table
      ensures Snapshot() == DbUnitsModel.Init(table.State(), initList, cache).value
    {
      this.table := table;
      this.cache := cache;
      if cache.Some? {
        deltas := map[0 := Some(PySlice(cache.value, 0, table.limit))];
      } else {
        deltas := map[0 := initList];
      }
      queue := [];
    }

    /** `len(self)`. */
    method Length() returns (n: int)
      ensures n == DbUnitsModel.Len(Snapshot())
      ensures DbUnitsModel.Valid(Snapshot()) ==> n == |table.rows|
    {
      n := if cache.Some? then |cache.value| else table.length;
    }

    /** `get_delta_chunk(index)`. */
    method GetDeltaChunk(index: int) returns (key: int, chunk: Option<seq<Row>>)
      modifies this
      ensures (key, chunk, Snapshot()) == DbUnitsModel.GetDeltaChunk(old(Snapshot()), index)
    {
      var len := Length();
      if index >= len {
        return -1, None;
      }
      key := index / table.limit * table.limit;
      if cache.Some? {
        return key, Some(PySlice(cache.value, key, key + table.limit));
      }
      if key in deltas && deltas[key].Some? {
        return key, deltas[key];
      }
      chunk := table.FetchRows(key, 0);
      deltas := deltas[key := chunk];
    }

    /** `self[index]`. */
    method Get(index: int) returns (r: DbUnitsModel.Lookup)
      modifies this
      ensures (r, Snapshot()) == DbUnitsModel.GetItem(old(Snapshot()), index)
    {
      if cache.Some? {
        var c := cache.value;
        match PyIndex(|c|, index) {
          case Some(p) => r := DbUnitsModel.Got(c[p]);
          case None => r := DbUnitsModel.Raised;
        }
        return;
      }
      var key, chunk := GetDeltaChunk(index);
      DbUnitsModel.KeyBounds(index, table.limit);
      if chunk.Some? && chunk.value != [] {
        r := if index - key < |chunk.value| then DbUnitsModel.Got(chunk.value[index - key]) else DbUnitsModel.Raised;
      } else {
        r := DbUnitsModel.Nothing;
      }
    }

    /** `self[index] = value`; the result is an IndexError. */
    method Set(index: int, value: Row) returns (raised: bool)
      modifies this, table
      ensures (raised, Snapshot()) == DbUnitsModel.SetItem(old(Snapshot()), index, value)
    {
      if cache.Some? {
        var c := cache.value;
        match PyIndex(|c|, index) {
          case Some(p) =>
            cache := Some(c[p := value]);
            raised := false;
          case None =>
            raised := true;
        }
        return;
      }
      var key, chunk := GetDeltaChunk(index);
      DbUnitsModel.KeyBounds(index, table.limit);
      var held := chunk.Some? && chunk.value != [];
      if held && index - key >= |chunk.value| {
        return true;
      }
      if held {
        deltas := deltas[key := Some(chunk.value[index - key := value])];
      }
      raised := table.AssignRow(value);
      if !raised {
        queue := queue + [DbUnitsModel.Update(index, value)];
      }
    }

    /** `clean_cache_from(delta_list)`. */
    method CleanCacheFrom(from: int)
      modifies this
      ensures deltas == DbUnitsModel.CleanCacheFrom(old(deltas), from)
      ensures cache == old(cache) && queue == old(queue)
    {
      deltas := map k | k in deltas && k < from :: deltas[k];
    }

    /** `del self[index]`; the result is an IndexError. */
    method Delete(index: int) returns (raised: bool)
      modifies this, table
      ensures (raised, Snapshot()) == DbUnitsModel.DelItem(old(Snapshot()), index)
    {
      var key, chunk := GetDeltaChunk(index);
      DbUnitsModel.KeyBounds(index, table.limit);
      if !(chunk.Some? && chunk.value != []) {
        return false;
      }
      var c := chunk.value;
      var p := index - key;
      if p >= |c| {
        return true;
      }
      raised := false;
      table.DeleteRow(LastCell(c[p]));
      queue := queue + [DbUnitsModel.Delete(index)];
      ShiftAfterDelete(key, c, p);
    }

    /** The chunk edit that follows a deletion from chunk `c` at `key`:
        slot `p` goes, and a chunk that was full takes the row after it
        (from the next chunk, else from the table) and drops every later
        chunk. */
    method ShiftAfterDelete(key: int, c: seq<Row>, p: nat)
      requires p < |c|
      modifies this
      ensures Snapshot() == DbUnitsModel.ShiftChunks(old(Snapshot()), key, c, p, true)
    {
      var rest := c[..p] + c[p + 1..];
      var next := key + table.limit;
      if |rest| + 1 == table.limit {
        var refill := DbUnitsModel.NextFirst(deltas, next);
        if refill == [] {
          var read := table.FetchRows(next - 1, 1);
          refill := if read.Some? then read.value else [];
        }
        if cache.None? {
          deltas := deltas[key := Some(rest + refill)];
        }
        CleanCacheFrom(next);
      } else if cache.None? {
        deltas := deltas[key := Some(rest)];
      }
    }

    /** `append(arr)`; `accepted` is whether the store answered with the new row. */
    method Append(arr: Row, accepted: bool) returns (r: Option<Row>)
      modifies this, table
      ensures (r, Snapshot()) == DbUnitsModel.Append(old(Snapshot()), arr, accepted)
    {
      if cache.Some? {
        cache := Some(cache.value + [arr]);
        return Some(arr);
      }
      var index := table.length;
      r := table.AppendRow(arr, accepted);
      if r.None? {
        return;
      }
      var key := index / table.limit * table.limit;
      if key in deltas && deltas[key].Some? {
        deltas := deltas[key := Some(deltas[key].value + [r.value])];
      }
      queue := queue + [DbUnitsModel.Add(index, r.value)];
    }

    /** `extend(rows)`: the new rows are persisted, handed to the chunks
      from the old length on, and queued as one bulk update. */
    method Extend(batch: seq<Row>)
      modifies this, table
      ensures Snapshot() == DbUnitsModel.Extend(old(Snapshot()), batch)
    {
      ghost var s1 := DbUnitsModel.Distributed(Snapshot(), batch);
      var deltaStart := table.length;
      var rows := table.AppendRows(batch);
      HandOut(deltaStart, rows);
      assert Snapshot() == s1;
      var delta, data := GetDeltaChunk(deltaStart);
      ghost var got := DbUnitsModel.GetDeltaChunk(s1, deltaStart);
      assert delta == got.0 && data == got.1 && Snapshot() == got.2;
      queue := queue + [DbUnitsModel.BulkUpdate(delta, data, |batch| + deltaStart)];
    }

    /** The loop of `extend`: each chunk from `start` on gets the new rows
      it still has room for. */
    method HandOut(from: int, rows: seq<Row>)
      modifies this`deltas
      ensures deltas == DbUnitsModel.Distribute(old(deltas), table.limit, from, rows, 0)
    {
      var start := from;
      ghost var deltas0 := deltas;
      var lenRows := |rows|;
      var iRows: nat := 0;
      var limit := table.limit;
      while lenRows > 0
        invariant lenRows == |rows| - iRows
        invariant DbUnitsModel.Distribute(deltas, limit, start, rows, iRows)
               == DbUnitsModel.Distribute(deltas0, limit, from, rows, 0)
        decreases lenRows
      {
        var key := start / limit * limit;
        var canFill := DbUnitsModel.CanFill(start, limit);
        var piece := Slice(rows, iRows, iRows + canFill);
        if key in deltas && deltas[key].Some? {
          deltas := deltas[key := Some(deltas[key].value + piece)];
        } else if start == key {
          deltas := deltas[key := Some(piece)];
        }
        iRows := iRows + canFill;
        start := start + canFill;
        lenRows := lenRows - canFill;
      }
    }

    /** `insert(index, value)`: the index is ignored and the row appended. */
    method Insert(index: int, value: Row, accepted: bool)
      modifies this, table
      ensures Snapshot() == DbUnitsModel.Insert(old(Snapshot()), index, value, accepted)
    {
      var _ := Append(value, accepted);
    }

    /** `remove(value)`: delete at the position the row's last cell names. */
    method Remove(value: Row) returns (raised: bool)
      modifies this, table
      ensures (raised, Snapshot()) == DbUnitsModel.Remove(old(Snapshot()), value)
    {
      if value == [] {
        return true;
      }
      match value[|value| - 1]
      case Int(i) =>
        raised := Delete(i);
      case _ =>
        raised := true;
    }

    /** `pop(index)`, a negative index counted from the end. */
    method Pop(index: int) returns (r: DbUnitsModel.Lookup)
      modifies this, table
      ensures (r, Snapshot()) == DbUnitsModel.Pop(old(Snapshot()), index)
    {
      var len := Length();
      var i := if index < 0 then index + len else index;
      r := Get(i);
      var _ := Delete(i);
    }

    /** `clear(detach)`. */
    method Clear(detach: bool)
      modifies this, table
      ensures Snapshot() == DbUnitsModel.Clear(old(Snapshot()))
    {
      table.Clear(detach);
      deltas := map[0 := None];
      queue := queue + [DbUnitsModel.LengthUpdate(0)];
    }
  }

  /** Opening a list: AttributeError when neither a first chunk nor a cache
      is given. */
  method Open(table: Dbtable, initList: Option<seq<Row>>, cache: Option<seq<Row>>)
    returns (r: Option<Dblist>)
    ensures r.None? <==> initList.None? && cache.None?
    ensures r.Some? ==> fresh(r.value) && r.value.table == table
    ensures r.Some? ==> r.value.Snapshot() == DbUnitsModel.Init(table.State(), initList, cache).value
  {
    if cache.None? && initList.None? {
      return None;
    }
    var l := new Dblist(table, initList, cache);
    return Some(l);
  }
}
