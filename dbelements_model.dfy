/** The older paginated list of unisi/dbelements.py, as state-transition
    functions. It shares the chunk layout of `DbUnitsModel` but keeps only
    the last patch in `update`, treats a held but empty chunk as missing,
    and on deletion shifts rows across consecutive held chunks. */
module DbElementsModel {
  import opened Values
  import opened Kdb
  import U = DbUnitsModel

  /** What `self.update` last recorded. */
  datatype Patch =
    | Opened(length: int, limit: int, first: Option<seq<Row>>) // type 'init'
    | Update(index: int, data: Row)                            // type 'update'
    | Delete(index: int)                                       // type 'delete'
    | Add(index: int, data: Row)                               // type 'add'

  /** The table, the optional cache, the chunks and the last patch. */
  datatype Snap = Snap(st: Store, cache: Option<seq<Row>>, deltas: U.Chunks, update: Patch)

  /** What `append` answers: the last cell of the appended value (cache
      mode), the store's new row or None, or an IndexError. */
  datatype Answer = Cell(cell: Value) | Returned(row: Option<Row>) | IndexError

  /** `len(self)`. */
  function Len(s: Snap): int {
    if s.cache.Some? then |s.cache.value| else s.st.length
  }

  /** A chunk the truthiness test `if lst:` accepts: held and not empty. */
  predicate IsHeld(d: U.Chunks, k: int) {
    U.IsResident(d, k) && d[k].value != []
  }

  /** Every non-empty held chunk starts at a chunk offset and is exactly the
      table's rows there (an empty one is read again on use). */
  ghost predicate HeldMirror(d: U.Chunks, rows: seq<Row>, limit: Pos) {
    forall k :: IsHeld(d, k) ==> k >= 0 && U.Aligned(k, limit) && d[k].value == U.Window(rows, k, limit)
  }

  ghost predicate Valid(s: Snap) {
    && s.cache.None?
    && WellFormed(s.st)
    && Synced(s.st)
    && HeldMirror(s.deltas, s.st.rows, s.st.limit)
  }

  /** `Dblist.__init__`: as in the newer list, and the `init` patch records
      the length, the page size and the first chunk. */
  function Init(st: Store, initList: Option<seq<Row>>, cache: Option<seq<Row>>): (r: Option<Snap>)
    ensures r.None? <==> initList.None? && cache.None?
    ensures r.Some? ==> r.value.st == st && r.value.cache == cache && r.value.deltas.Keys == {0}
    ensures r.Some? ==> r.value.update == Opened(Len(r.value), st.limit, r.value.deltas[0])
    ensures cache.Some? ==> r.value.deltas[0] == Some(PySlice(cache.value, 0, st.limit))
    ensures cache.None? && initList.Some? ==> r.value.deltas[0] == initList
  {
    if cache.Some? then
      var first := Some(PySlice(cache.value, 0, st.limit));
      Some(Snap(st, cache, map[0 := first], Opened(|cache.value|, st.limit, first)))
    else if initList.None? then None
    else Some(Snap(st, None, map[0 := initList], Opened(st.length, st.limit, initList)))
  }

  /** A table opened with its first chunk read from the store gives a valid
      list whose `init` patch carries the row count. */
  lemma InitValid(st: Store)
    requires WellFormed(st) && Synced(st)
    ensures Init(st, ReadRows(st, 0, st.limit), None).Some?
    ensures Valid(Init(st, ReadRows(st, 0, st.limit), None).value)
    ensures Init(st, ReadRows(st, 0, st.limit), None).value.update ==
      Opened(|st.rows|, st.limit, Some(U.Window(st.rows, 0, st.limit)))
  {
    var s := Init(st, ReadRows(st, 0, st.limit), None).value;
    U.KeyBounds(0, st.limit);
    forall k | IsHeld(s.deltas, k)
      ensures k >= 0 && U.Aligned(k, st.limit) && s.deltas[k].value == U.Window(st.rows, k, st.limit)
    {
      assert k == 0;
    }
  }

  // ---------------------------------------------------------------------
  // get_delta_chunk, __getitem__, __setitem__

  /** `get_delta_chunk(index)`: a held chunk that is empty is read again. */
  function GetDeltaChunk(s: Snap, index: int): (r: (int, Option<seq<Row>>, Snap))
    ensures index >= Len(s) ==> r == (-1, None, s)
    ensures index < Len(s) ==> r.0 == U.Key(index, s.st.limit)
    ensures r.2.st == s.st && r.2.cache == s.cache && r.2.update == s.update
    ensures s.cache.Some? && index < Len(s) ==>
      r.1 == Some(PySlice(s.cache.value, r.0, r.0 + s.st.limit)) && r.2 == s
    ensures s.cache.None? && index < Len(s) && IsHeld(s.deltas, r.0) ==> r.1 == s.deltas[r.0] && r.2 == s
    ensures s.cache.None? && index < Len(s) && !IsHeld(s.deltas, r.0) ==>
      r.1 == ReadRows(s.st, r.0, 0) && r.2.deltas == s.deltas[r.0 := r.1]
  {
    if index >= Len(s) then (-1, None, s)
    else
      var key := U.Key(index, s.st.limit);
      if s.cache.Some? then (key, Some(PySlice(s.cache.value, key, key + s.st.limit)), s)
      else if IsHeld(s.deltas, key) then (key, s.deltas[key], s)
      else
        var lst := ReadRows(s.st, key, 0);
        (key, lst, s.(deltas := s.deltas[key := lst]))
  }

  /** In a valid list every index below the length finds the chunk that
      mirrors the table, and the list stays valid. */
  lemma GetDeltaChunkMirrors(s: Snap, index: int)
    requires Valid(s)
    ensures Valid(GetDeltaChunk(s, index).2)
    ensures 0 <= index < |s.st.rows| ==>
      GetDeltaChunk(s, index).1 == Some(U.Window(s.st.rows, U.Key(index, s.st.limit), s.st.limit))
    ensures index < 0 ==> GetDeltaChunk(s, index).1.None?
  {
    var limit := s.st.limit;
    U.KeyBounds(index, limit);
    var (key, chunk, s1) := GetDeltaChunk(s, index);
    if index < |s.st.rows| && !IsHeld(s.deltas, key) {
      forall k | IsHeld(s1.deltas, k)
        ensures k >= 0 && U.Aligned(k, limit) && s1.deltas[k].value == U.Window(s1.st.rows, k, limit)
      {
        if k != key {
          assert IsHeld(s.deltas, k);
        }
      }
    }
  }

  /** `self[index]`. */
  function GetItem(s: Snap, index: int): (U.Lookup, Snap)
  {
    if s.cache.Some? then
      var c := s.cache.value;
      (match PyIndex(|c|, index) case Some(p) => U.Got(c[p]) case None => U.Raised, s)
    else
      var (key, chunk, s1) := GetDeltaChunk(s, index);
      U.KeyBounds(index, s.st.limit);
      if chunk.Some? && chunk.value != [] then
        (if index - key < |chunk.value| then U.Got(chunk.value[index - key]) else U.Raised, s1)
      else (U.Nothing, s1)
  }

  /** Reading a valid list gives the table's row at that position, and
      `None` outside `0 <= index < len`. */
  lemma GetItemMirrors(s: Snap, index: int)
    requires Valid(s)
    ensures Valid(GetItem(s, index).1)
    ensures GetItem(s, index).1.st == s.st && GetItem(s, index).1.update == s.update
    ensures 0 <= index < |s.st.rows| ==> GetItem(s, index).0 == U.Got(s.st.rows[index])
    ensures !(0 <= index < |s.st.rows|) ==> GetItem(s, index).0 == U.Nothing
  {
    GetDeltaChunkMirrors(s, index);
    U.KeyBounds(index, s.st.limit);
    if 0 <= index < |s.st.rows| {
      var key := U.Key(index, s.st.limit);
      assert U.Window(s.st.rows, key, s.st.limit)[index - key] == s.st.rows[index];
    }
  }

  /** `self[index] = value`: the chunk slot is written when the chunk has
      rows, the `update` patch is recorded, and then the row is persisted
      (an empty row has no ID: IndexError, with the patch already set). */
  function SetItem(s: Snap, index: int, value: Row): (bool, Snap)
  {
    if s.cache.Some? then
      var c := s.cache.value;
      match PyIndex(|c|, index)
      case Some(p) => (false, s.(cache := Some(c[p := value])))
      case None => (true, s)
    else
      var (key, chunk, s1) := GetDeltaChunk(s, index);
      U.KeyBounds(index, s.st.limit);
      var held := chunk.Some? && chunk.value != [];
      if held && index - key >= |chunk.value| then (true, s1)
      else
        var s2 := (if held then s1.(deltas := s1.deltas[key := Some(chunk.value[index - key := value])]) else s1)
          .(update := Update(index, value));
        if value == [] then (true, s2)
        else (false, s2.(st := Assigned(s2.st, value)))
  }

  /** Writing a valid list a row with the ID of the row it replaces
      overwrites exactly that row, keeps the list valid and records one
      `update` patch. */
  lemma SetItemKeepsValid(s: Snap, index: int, value: Row)
    requires Valid(s) && 0 <= index < |s.st.rows|
    requires |value| == s.st.columns + 1 && LastCell(value) == LastCell(s.st.rows[index])
    requires AssignableCells(value, s.st.columns)
    ensures !SetItem(s, index, value).0
    ensures SetItem(s, index, value).1.st.rows == s.st.rows[index := value]
    ensures SetItem(s, index, value).1.update == Update(index, value)
    ensures Valid(SetItem(s, index, value).1)
  {
    var limit := s.st.limit;
    GetDeltaChunkMirrors(s, index);
    U.KeyBounds(index, limit);
    var (key, chunk, s1) := GetDeltaChunk(s, index);
    var rows := s.st.rows;
    var rows2 := rows[index := value];
    var s3 := SetItem(s, index, value).1;
    assert s3.st == Assigned(s.st, value);
    AssignedAt(s.st, index, value);
    AssignedKeeps(s.st, value);
    assert chunk == s1.deltas[key] == Some(U.Window(rows, key, limit));
    SetRowHeldMirror(s1.deltas, rows, index, value, limit);
    assert s3.deltas == s1.deltas[key := Some(chunk.value[index - key := value])];
  }

  /** Writing a row into the table and into the non-empty held chunk of its
      index keeps the held chunks mirroring the table. */
  lemma SetRowHeldMirror(d: U.Chunks, rows: seq<Row>, index: nat, value: Row, limit: Pos)
    requires HeldMirror(d, rows, limit) && index < |rows|
    requires IsHeld(d, U.Key(index, limit))
    ensures var key := U.Key(index, limit);
      index - key < |d[key].value| &&
      HeldMirror(d[key := Some(d[key].value[index - key := value])], rows[index := value], limit)
  {
    U.KeyBounds(index, limit);
    var key := U.Key(index, limit);
    var rows2 := rows[index := value];
    var d3 := d[key := Some(d[key].value[index - key := value])];
    forall k | IsHeld(d3, k)
      ensures k >= 0 && U.Aligned(k, limit) && d3[k].value == U.Window(rows2, k, limit)
    {
      if k == key {
        var w := U.Window(rows, key, limit);
        assert d3[k].value == w[index - key := value];
        assert w[index - key := value] == U.Window(rows2, k, limit);
      } else {
        assert IsHeld(d, k);
        if k < key {
          U.AlignedGap(k, key, limit);
        } else if k > key {
          U.AlignedGap(key, k, limit);
        }
        assert U.Window(rows2, k, limit) == U.Window(rows, k, limit);
      }
    }
  }

  // ---------------------------------------------------------------------
  // __delitem__ and its cascade

  /** Store an edited chunk object back: only when it is the map's own
      object (`aliased`); a cache-mode chunk is a slice copy. */
  function Put(d: U.Chunks, k: int, c: seq<Row>, aliased: bool): U.Chunks {
    if aliased then d[k := Some(c)] else d
  }

  /** The chunk offsets above `k`; the cascade's measure. */
  function Above(d: U.Chunks, k: int): set<int> {
    set j | j in d && j > k
  }

  /** Moving to the next held chunk leaves fewer chunk offsets above. */
  lemma AboveShrinks(d: U.Chunks, d2: U.Chunks, cur: int, next: int)
    requires d2.Keys <= d.Keys + {cur} && next in d && cur < next
    ensures Above(d2, next) < Above(d, cur)
  {
    assert next in Above(d, cur) - Above(d2, next);
  }

  /** The `while len(chunk) == limit - 1` loop: while the current chunk `c`
      at `cur` is one short, it takes the first row of the next held chunk,
      which becomes the current one; when the next chunk is not held, the
      one table row before the next offset (if any) closes the current chunk
      and every chunk from the next offset on is dropped. */
  function Cascade(st: Store, d: U.Chunks, cur: int, c: seq<Row>, aliased: bool, limit: Pos): U.Chunks
    decreases Above(d, cur)
  {
    if |c| != limit - 1 then d
    else
      var next := cur + limit;
      if IsHeld(d, next) then
        var nl := d[next].value;
        var d2 := Put(d, cur, c + [nl[0]], aliased)[next := Some(nl[1..])];
        AboveShrinks(d, d2, cur, next);
        Cascade(st, d2, next, nl[1..], true, limit)
      else
        var last := match ReadRows(st, next - 1, 1) case Some(rs) => rs case None => [];
        U.CleanCacheFrom(Put(d, cur, c + last, aliased), next)
  }

  /** `del self[index]`: when the index's chunk has rows and holds the
      index, persist the deletion of that row by its ID, record a `delete`
      patch, take the row out of the chunk and run the cascade. The flag is
      an IndexError for a slot beyond the chunk. */
  function DelItem(s: Snap, index: int): (r: (bool, Snap))
    ensures |r.1.st.rows| <= |s.st.rows| && r.1.st.nextId == s.st.nextId && r.1.cache == s.cache
    ensures r.1.update == s.update || r.1.update == Delete(index)
  {
    var (key, chunk, s1) := GetDeltaChunk(s, index);
    U.KeyBounds(index, s.st.limit);
    if !(chunk.Some? && chunk.value != []) then (false, s1)
    else if index - key >= |chunk.value| then (true, s1)
    else
      var c := chunk.value;
      var p := index - key;
      var st2 := Deleted(s1.st, LastCell(c[p]));
      var rest := U.RemoveAt(c, p);
      var aliased := s1.cache.None?;
      var d1 := Put(s1.deltas, key, rest, aliased);
      (false, s1.(st := st2, update := Delete(index), deltas := Cascade(st2, d1, key, rest, aliased, s.st.limit)))
  }

  /** What holds while the cascade runs at `cur` over the table `rows`
      (already without the deleted row): the chunks before `cur` mirror the
      table, the chunk at `cur` lacks only its last row, and the held chunks
      after it still hold the rows they held before the deletion, which now
      start one position earlier. */
  ghost predicate CascInv(d: U.Chunks, cur: int, rows: seq<Row>, limit: Pos) {
    && cur >= 0 && U.Aligned(cur, limit) && U.IsResident(d, cur)
    && d[cur].value == Slice(rows, cur, cur + limit - 1)
    && (forall k :: IsHeld(d, k) && k < cur ==> k >= 0 && U.Aligned(k, limit) && d[k].value == U.Window(rows, k, limit))
    && (forall k :: IsHeld(d, k) && k > cur ==> U.Aligned(k, limit) && d[k].value == Slice(rows, k - 1, k - 1 + limit))
  }

  /** Once the cascade ends, every non-empty held chunk mirrors the table. */
  lemma {:induction false} CascadeMirrors(st: Store, d: U.Chunks, cur: int, limit: Pos)
    requires CascInv(d, cur, st.rows, limit)
    ensures HeldMirror(Cascade(st, d, cur, d[cur].value, true, limit), st.rows, limit)
    decreases Above(d, cur)
  {
    var c := d[cur].value;
    var next := cur + limit;
    if |c| != limit - 1 {
      CascadeShort(st, d, cur, limit);
    } else if IsHeld(d, next) {
      var d2 := Advance(d, cur, limit);
      CascadeStep(d, cur, st.rows, limit);
      CascadeAdvances(st, d, cur, limit);
      CascadeMirrors(st, d2, next, limit);
    } else {
      CascadeCloses(st, d, cur, limit);
    }
  }

  /** The chunks after one cascade step: the current chunk `cur` takes the
      first row of the held chunk at `cur + limit`, which loses it. */
  function Advance(d: U.Chunks, cur: int, limit: Pos): (r: U.Chunks)
    requires U.IsResident(d, cur) && IsHeld(d, cur + limit)
    ensures r.Keys == d.Keys && U.IsResident(r, cur) && U.IsResident(r, cur + limit)
    ensures r[cur].value == d[cur].value + [d[cur + limit].value[0]]
    ensures r[cur + limit].value == d[cur + limit].value[1..]
  {
    var nl := d[cur + limit].value;
    d[cur := Some(d[cur].value + [nl[0]])][cur + limit := Some(nl[1..])]
  }

  /** One unfolding of a cascade whose current chunk is one short and whose
      next chunk is held. */
  lemma CascadeAdvances(st: Store, d: U.Chunks, cur: int, limit: Pos)
    requires U.IsResident(d, cur) && |d[cur].value| == limit - 1 && IsHeld(d, cur + limit)
    ensures Above(Advance(d, cur, limit), cur + limit) < Above(d, cur)
    ensures Cascade(st, d, cur, d[cur].value, true, limit)
      == Cascade(st, Advance(d, cur, limit), cur + limit, Advance(d, cur, limit)[cur + limit].value, true, limit)
  {
    AboveShrinks(d, Advance(d, cur, limit), cur, cur + limit);
  }

  /** A current chunk shorter than one short of full is the table's end. */
  lemma CascadeShort(st: Store, d: U.Chunks, cur: int, limit: Pos)
    requires CascInv(d, cur, st.rows, limit) && |d[cur].value| != limit - 1
    ensures HeldMirror(Cascade(st, d, cur, d[cur].value, true, limit), st.rows, limit)
  {
    var rows := st.rows;
    assert Cascade(st, d, cur, d[cur].value, true, limit) == d;
    assert |rows| < cur + limit - 1;
    forall k | IsHeld(d, k)
      ensures k >= 0 && U.Aligned(k, limit) && d[k].value == U.Window(rows, k, limit)
    {
      if k > cur {
        U.AlignedGap(cur, k, limit);
      } else if k == cur {
        U.SliceToEnd(rows, cur, cur + limit - 1, cur + limit);
      }
    }
  }

  /** Taking the first row of the next held chunk moves the invariant on. */
  lemma CascadeStep(d: U.Chunks, cur: int, rows: seq<Row>, limit: Pos)
    requires CascInv(d, cur, rows, limit) && |d[cur].value| == limit - 1 && IsHeld(d, cur + limit)
    ensures CascInv(Advance(d, cur, limit), cur + limit, rows, limit)
  {
    var next := cur + limit;
    U.AlignedNext(cur, limit);
    assert d[next].value == Slice(rows, next - 1, next - 1 + limit);
    CascadeMoves(d, cur, rows, limit);
    var d2 := Advance(d, cur, limit);
    forall k | IsHeld(d2, k) && k < next
      ensures k >= 0 && U.Aligned(k, limit) && d2[k].value == U.Window(rows, k, limit)
    {
      if k > cur {
        U.AlignedGap(cur, k, limit);
      }
    }
  }

  /** The rows one cascade step moves: the current chunk becomes the
      table's window and the next one lacks only its last row. */
  lemma CascadeMoves(d: U.Chunks, cur: int, rows: seq<Row>, limit: Pos)
    requires cur >= 0 && U.IsResident(d, cur) && d[cur].value == Slice(rows, cur, cur + limit - 1)
    requires |d[cur].value| == limit - 1 && IsHeld(d, cur + limit)
    requires d[cur + limit].value == Slice(rows, cur + limit - 1, cur + limit - 1 + limit)
    ensures Advance(d, cur, limit)[cur].value == U.Window(rows, cur, limit)
    ensures Advance(d, cur, limit)[cur + limit].value == Slice(rows, cur + limit, cur + limit + limit - 1)
  {
    var c := d[cur].value;
    var next := cur + limit;
    var nl := d[next].value;
    assert c + [nl[0]] == U.Window(rows, cur, limit) by {
      assert nl[0] == rows[next - 1];
      assert [nl[0]] == Slice(rows, next - 1, next);
      U.SliceConcat(rows, cur, next - 1, next);
    }
    assert nl[1..] == Slice(rows, next, next + limit - 1);
  }

  /** When the next chunk is not held, the row read before it closes the
      current chunk and the chunks dropped from there on leave a mirror. */
  lemma CascadeCloses(st: Store, d: U.Chunks, cur: int, limit: Pos)
    requires CascInv(d, cur, st.rows, limit) && |d[cur].value| == limit - 1 && !IsHeld(d, cur + limit)
    ensures HeldMirror(Cascade(st, d, cur, d[cur].value, true, limit), st.rows, limit)
  {
    var rows := st.rows;
    CascadeClosesWindow(st, d, cur, limit);
    var d3 := U.CleanCacheFrom(d[cur := Some(U.Window(rows, cur, limit))], cur + limit);
    forall k | IsHeld(d3, k)
      ensures k >= 0 && U.Aligned(k, limit) && d3[k].value == U.Window(rows, k, limit)
    {
      if k > cur {
        U.AlignedGap(cur, k, limit);
      }
    }
  }

  /** The row read from the store completes the current chunk's window. */
  lemma CascadeClosesWindow(st: Store, d: U.Chunks, cur: int, limit: Pos)
    requires cur >= 0 && U.IsResident(d, cur) && d[cur].value == Slice(st.rows, cur, cur + limit - 1)
    requires |d[cur].value| == limit - 1 && !IsHeld(d, cur + limit)
    ensures Cascade(st, d, cur, d[cur].value, true, limit)
      == U.CleanCacheFrom(d[cur := Some(U.Window(st.rows, cur, limit))], cur + limit)
  {
    var rows := st.rows;
    var c := d[cur].value;
    var next := cur + limit;
    var last := match ReadRows(st, next - 1, 1) case Some(rs) => rs case None => [];
    assert Cascade(st, d, cur, c, true, limit) == U.CleanCacheFrom(d[cur := Some(c + last)], next);
    assert last == Slice(rows, next - 1, next);
    U.SliceConcat(rows, cur, next - 1, next);
  }

  /** Deleting from a valid list removes exactly the row at that position,
      keeps the list valid and records one `delete` patch; outside
      `0 <= index < len` nothing is deleted. */
  lemma DelItemKeepsValid(s: Snap, index: int)
    requires Valid(s)
    ensures !DelItem(s, index).0
    ensures Valid(DelItem(s, index).1)
    ensures 0 <= index < |s.st.rows| ==>
      DelItem(s, index).1.st.rows == s.st.rows[..index] + s.st.rows[index + 1..] &&
      DelItem(s, index).1.update == Delete(index)
    ensures !(0 <= index < |s.st.rows|) ==> DelItem(s, index).1.st == s.st && DelItem(s, index).1.update == s.update
  {
    GetDeltaChunkMirrors(s, index);
    U.KeyBounds(index, s.st.limit);
    if 0 <= index < |s.st.rows| {
      DelItemInRange(s, index);
    }
  }

  lemma DelItemInRange(s: Snap, index: int)
    requires Valid(s) && 0 <= index < |s.st.rows|
    ensures !DelItem(s, index).0
    ensures Valid(DelItem(s, index).1)
    ensures DelItem(s, index).1.st.rows == s.st.rows[..index] + s.st.rows[index + 1..]
    ensures DelItem(s, index).1.update == Delete(index)
  {
    GetDeltaChunkMirrors(s, index);
    var limit := s.st.limit;
    U.KeyBounds(index, limit);
    var rows := s.st.rows;
    var key := U.Key(index, limit);
    var s1 := GetDeltaChunk(s, index).2;
    var w := U.Window(rows, key, limit);
    assert GetDeltaChunk(s, index) == (key, Some(w), s1);
    assert w[index - key] == rows[index];
    DeletedAtPosition(s.st, index);
    var rest := U.RemoveAt(w, index - key);
    DelItemFromChunk(s, index, key, w);
    DelItemCascInv(s1.deltas, rows, index, key, limit);
    CascadeMirrors(Deleted(s.st, LastCell(rows[index])), s1.deltas[key := Some(rest)], key, limit);
  }

  /** `DelItem` once the index's chunk `w` is known to hold the index. */
  lemma DelItemFromChunk(s: Snap, index: int, key: int, w: seq<Row>)
    requires s.cache.None? && GetDeltaChunk(s, index) == (key, Some(w), GetDeltaChunk(s, index).2)
    requires 0 <= index - key < |w|
    ensures var s1 := GetDeltaChunk(s, index).2;
      var st2 := Deleted(s.st, LastCell(w[index - key]));
      var rest := U.RemoveAt(w, index - key);
      DelItem(s, index) == (false, s1.(st := st2, update := Delete(index), deltas := Cascade(st2, s1.deltas[key := Some(rest)], key, rest, true, s.st.limit)))
  {
  }

  /** Right after the deletion, the cascade's invariant holds at the
      deleted row's chunk. */
  lemma DelItemCascInv(d: U.Chunks, rows: seq<Row>, index: nat, key: nat, limit: Pos)
    requires HeldMirror(d, rows, limit) && index < |rows|
    requires key == U.Key(index, limit) && key <= index < key + limit && U.Aligned(key, limit)
    requires |U.Window(rows, key, limit)| > index - key
    ensures CascInv(d[key := Some(U.RemoveAt(U.Window(rows, key, limit), index - key))], key, rows[..index] + rows[index + 1..], limit)
  {
    var rows2 := rows[..index] + rows[index + 1..];
    var d1 := d[key := Some(U.RemoveAt(U.Window(rows, key, limit), index - key))];
    U.RemoveAtWindow(rows, index, key, limit);
    forall k | IsHeld(d1, k) && k < key
      ensures k >= 0 && U.Aligned(k, limit) && d1[k].value == U.Window(rows2, k, limit)
    {
      assert IsHeld(d, k);
      U.DelItemEarlierChunks(rows, index, k, key, limit);
    }
    forall k | IsHeld(d1, k) && k > key
      ensures U.Aligned(k, limit) && d1[k].value == Slice(rows2, k - 1, k - 1 + limit)
    {
      assert IsHeld(d, k);
      U.AlignedGap(key, k, limit);
    }
  }

  // ---------------------------------------------------------------------
  // append, insert, extend, clear, pop, remove

  /** `append(value)`: a cache appends the value and answers its last cell.
      Otherwise the row is persisted; when the store answered with the new
      row and the chunk covering its position has rows, the row joins that
      chunk and an `add` patch is recorded. The answer is the store's row. */
  function Append(s: Snap, arr: Row, accepted: bool): (r: (Answer, Snap))
    ensures s.cache.None? ==> r.0.Returned? && (r.0.row.Some? <==> accepted)
    ensures s.cache.None? && accepted ==>
      r.1.st.rows == s.st.rows + [r.0.row.value] && LastCell(r.0.row.value) == Int(s.st.nextId)
    ensures s.cache.None? && !accepted ==> r.1 == s
    ensures s.cache.Some? ==> r.1.cache == Some(s.cache.value + [arr]) && r.1.st == s.st
  {
    if s.cache.Some? then
      var s1 := s.(cache := Some(s.cache.value + [arr]));
      (if arr == [] then IndexError else Cell(arr[|arr| - 1]), s1)
    else
      var index := Len(s);
      var (st1, row) := Appended(s.st, arr, accepted);
      var key := U.Key(index, s.st.limit);
      if row.Some? && IsHeld(s.deltas, key) then
        (Returned(row), s.(st := st1, deltas := s.deltas[key := Some(s.deltas[key].value + [row.value])],
                           update := Add(index, row.value)))
      else (Returned(row), s.(st := st1))
  }

  /** Appending to a valid list adds the store's new row at the end of the
      table and keeps the list valid; the `add` patch is recorded when the
      row's chunk had rows. */
  lemma AppendKeepsValid(s: Snap, arr: Row, accepted: bool)
    requires Valid(s)
    ensures Valid(Append(s, arr, accepted).1)
    ensures accepted ==>
      var row := NewRow(s.st.columns, arr, s.st.nextId);
      Append(s, arr, accepted).0 == Returned(Some(row)) &&
      Append(s, arr, accepted).1.st.rows == s.st.rows + [row] &&
      (IsHeld(s.deltas, U.Key(|s.st.rows|, s.st.limit)) ==> Append(s, arr, accepted).1.update == Add(|s.st.rows|, row))
    ensures !accepted ==> Append(s, arr, accepted) == (Returned(None), s)
  {
    if accepted {
      var limit := s.st.limit;
      var rows := s.st.rows;
      var row := NewRow(s.st.columns, arr, s.st.nextId);
      var rows2 := rows + [row];
      var key := U.Key(|rows|, limit);
      U.KeyBounds(|rows|, limit);
      AppendedKeeps(s.st, arr, accepted);
      var s2 := Append(s, arr, accepted).1;
      forall k | IsHeld(s2.deltas, k)
        ensures k >= 0 && U.Aligned(k, limit) && s2.deltas[k].value == U.Window(rows2, k, limit)
      {
        if k == key && IsHeld(s.deltas, key) {
          assert U.Window(rows, k, limit) == rows[k..];
          assert rows[k..] + [row] == U.Window(rows2, k, limit);
        } else {
          assert IsHeld(s.deltas, k);
          if k < key {
            U.AlignedGap(k, key, limit);
            assert U.Window(rows2, k, limit) == U.Window(rows, k, limit);
          } else {
            U.AlignedGap(key, k, limit);
          }
        }
      }
    }
  }

  /** `insert(index, value)`: the index is ignored, the row appended and
      nothing returned; the flag is the IndexError of an empty value in
      cache mode. */
  function Insert(s: Snap, index: int, value: Row, accepted: bool): (bool, Snap) {
    var (answer, s1) := Append(s, value, accepted);
    (answer == IndexError, s1)
  }

  /** Inserting into a valid list at any position puts the new row at the
      end of the table. */
  lemma InsertAppends(s: Snap, index: int, value: Row)
    requires Valid(s)
    ensures !Insert(s, index, value, true).0
    ensures Insert(s, index, value, true).1.st.rows == s.st.rows + [NewRow(s.st.columns, value, s.st.nextId)]
    ensures Valid(Insert(s, index, value, true).1)
  {
    AppendKeepsValid(s, value, true);
  }

  /** `extend(rows)`: the rows are persisted and handed to the chunks by the
      same loop as in the newer list (which ends only when `Fillable`
      holds, and `ExtendAfterClearStalls` shows a list where it does not); the closing `self.dbtable.get_init_list()` names a method
      the table does not have, so the call always ends in AttributeError
      with this state. */
  function Extend(s: Snap, batch: seq<Row>): Snap
    requires U.Fillable(s.deltas, s.st.length, s.st.limit)
  {
    var start := s.st.length;
    var (st1, created) := AppendedAll(s.st, batch);
    s.(st := st1, deltas := U.DistributeAsWritten(s.deltas, s.st.limit, start, created, 0))
  }

  /** A valid list can always be extended (the loop ends). */
  lemma ValidFillable(s: Snap)
    requires Valid(s)
    ensures U.Fillable(s.deltas, s.st.length, s.st.limit)
  {
    var limit := s.st.limit;
    var len := s.st.length;
    U.KeyBounds(len, limit);
    var key := U.Key(len, limit);
    if IsHeld(s.deltas, key) {
      assert U.Resident(s.deltas, key) == U.Window(s.st.rows, key, limit);
    }
    forall k | k in s.deltas && k > key && s.deltas[k].Some?
      ensures s.deltas[k].value == []
    {
      if IsHeld(s.deltas, k) {
        U.AlignedGap(key, k, limit);
      }
    }
  }

  /** `clear()` with the chunk map reset, as the newer list does. */
  function Clear(s: Snap): (r: Snap)
    ensures r.st == Cleared(s.st) && r.cache == s.cache && r.update == s.update
    ensures forall k :: !IsHeld(r.deltas, k)
  {
    s.(st := Cleared(s.st), deltas := map[0 := None])
  }

  /** A cleared persistent list is valid and empty. */
  lemma ClearKeepsValid(s: Snap)
    requires s.cache.None? && WellFormed(s.st)
    ensures Valid(Clear(s)) && Len(Clear(s)) == 0
  {
  }

  /** `pop(index)`, a negative index counted from the end. */
  function Pop(s: Snap, index: int): (r: (U.Lookup, Snap))
    ensures |r.1.st.rows| <= |s.st.rows| && r.1.st.nextId == s.st.nextId
  {
    var i := if index < 0 then index + Len(s) else index;
    var (value, s1) := GetItem(s, i);
    var (_, s2) := DelItem(s1, i);
    (value, s2)
  }

  /** Popping a valid list at a position inside it returns that row and
      removes it from the table. */
  lemma PopKeepsValid(s: Snap, index: int)
    requires Valid(s) && -(|s.st.rows| as int) <= index < |s.st.rows|
    ensures var i := if index < 0 then index + |s.st.rows| else index;
      Pop(s, index).0 == U.Got(s.st.rows[i]) &&
      Pop(s, index).1.st.rows == s.st.rows[..i] + s.st.rows[i + 1..]
    ensures Valid(Pop(s, index).1)
  {
    var i := if index < 0 then index + |s.st.rows| else index;
    assert Len(s) == |s.st.rows|;
    GetItemMirrors(s, i);
    var s1 := GetItem(s, i).1;
    DelItemInRange(s1, i);
    assert Pop(s, index) == (GetItem(s, i).0, DelItem(s1, i).1);
  }

  /** `remove(value)`: delete at the position the row's last cell names; a
      last cell that is not an `Int` is taken as raising with nothing
      changed, as in the newer list. */
  function Remove(s: Snap, value: Row): (bool, Snap) {
    if value == [] then (true, s)
    else match value[|value| - 1]
      case Int(i) => DelItem(s, i)
      case _ => (true, s)
  }

  /** When IDs equal positions, removing a row of a valid list deletes it. */
  lemma RemoveByPosition(s: Snap, value: Row, i: int)
    requires Valid(s) && 0 <= i < |s.st.rows| && value != [] && value[|value| - 1] == Int(i)
    ensures !Remove(s, value).0 && Valid(Remove(s, value).1)
    ensures Remove(s, value).1.st.rows == s.st.rows[..i] + s.st.rows[i + 1..]
  {
    DelItemKeepsValid(s, i);
  }

  // ---------------------------------------------------------------------
  // The operations as the source writes them

  /** The cascade as written: the row before the next offset is taken as
      `read_rows(...)[0]`, which raises when the table has no such row. */
  function CascadeAsWritten(st: Store, d: U.Chunks, cur: int, c: seq<Row>, aliased: bool, limit: Pos): (bool, U.Chunks)
    decreases Above(d, cur)
  {
    if |c| != limit - 1 then (false, d)
    else
      var next := cur + limit;
      if IsHeld(d, next) then
        var nl := d[next].value;
        var d2 := Put(d, cur, c + [nl[0]], aliased)[next := Some(nl[1..])];
        AboveShrinks(d, d2, cur, next);
        CascadeAsWritten(st, d2, next, nl[1..], true, limit)
      else
        match ReadRows(st, next - 1, 1)
        case Some(rs) =>
          if rs == [] then (true, d) else (false, U.CleanCacheFrom(Put(d, cur, c + [rs[0]], aliased), next))
        case None => (true, d)
  }

  /** `__delitem__` as written: the position is passed to `delete_row`,
      which deletes by ID, before the slot is checked. */
  function DelItemAsWritten(s: Snap, index: int): (bool, Snap)
  {
    var (key, chunk, s1) := GetDeltaChunk(s, index);
    U.KeyBounds(index, s.st.limit);
    if !(chunk.Some? && chunk.value != []) then (false, s1)
    else
      var st2 := Deleted(s1.st, Int(index));
      var s2 := s1.(st := st2, update := Delete(index));
      if index - key >= |chunk.value| then (true, s2)
      else
        var rest := U.RemoveAt(chunk.value, index - key);
        var aliased := s2.cache.None?;
        var (raised, d) := CascadeAsWritten(st2, Put(s2.deltas, key, rest, aliased), key, rest, aliased, s.st.limit);
        (raised, s2.(deltas := d))
  }

  /** `pop(index)` as written: the element at `index` is read and then
      deleted, with the index used as given. */
  function PopAsWritten(s: Snap, index: int): (U.Lookup, Snap) {
    var (value, s1) := GetItem(s, index);
    var (_, s2) := DelItem(s1, index);
    (value, s2)
  }

  /** `append` as written: the passed cells, not the stored row, join the
      chunk, whether or not the store answered. */
  function AppendAsWritten(s: Snap, arr: Row, accepted: bool): (Answer, Snap)
  {
    if s.cache.Some? then
      var s1 := s.(cache := Some(s.cache.value + [arr]));
      (if arr == [] then IndexError else Cell(arr[|arr| - 1]), s1)
    else
      var index := Len(s);
      var (st1, row) := Appended(s.st, arr, accepted);
      var key := U.Key(index, s.st.limit);
      if IsHeld(s.deltas, key) then
        (Returned(row), s.(st := st1, deltas := s.deltas[key := Some(s.deltas[key].value + [arr])], update := Add(index, arr)))
      else (Returned(row), s.(st := st1))
  }

  /** `clear()` as written: only the table is cleared. */
  function ClearAsWritten(s: Snap): Snap {
    s.(st := Cleared(s.st))
  }

  // ---------------------------------------------------------------------
  // Inputs that show the discrepancies

  /** Two rows with IDs 0 and 1 filling the one held chunk of size 2. */
  function FullPage(): Snap {
    Snap(Store(2, 0, [[Int(0)], [Int(1)]], 2, 2), None, map[0 := Some([[Int(0)], [Int(1)]])],
         Opened(2, 2, Some([[Int(0)], [Int(1)]])))
  }

  lemma FullPageValid()
    ensures Valid(FullPage())
  {
    var s := FullPage();
    forall k | IsHeld(s.deltas, k)
      ensures k >= 0 && U.Aligned(k, 2) && s.deltas[k].value == U.Window(s.st.rows, k, 2)
    {
      assert k == 0;
    }
  }

  /** Deleting the last row of a full last chunk: the row is deleted, then
      the read of the row before the next offset finds none and IndexError
      is raised. */
  lemma DelItemRaisesAtEnd()
    ensures Valid(FullPage())
    ensures DelItemAsWritten(FullPage(), 1).0
    ensures DelItemAsWritten(FullPage(), 1).1.st.rows == [[Int(0)]]
  {
    FullPageValid();
    var s := FullPage();
    var r0, r1 := [Int(0)], [Int(1)];
    assert U.Key(1, 2) == 0;
    assert GetDeltaChunk(s, 1) == (0, Some([r0, r1]), s);
    assert RemoveId([r0, r1], Int(1)) == [r0] by {
      assert [r0, r1][1..] == [r1];
      assert RemoveId([r1], Int(1)) == [];
    }
    var st2 := Deleted(s.st, Int(1));
    assert st2.rows == [r0];
    assert U.RemoveAt([r0, r1], 1) == [r0];
    assert !IsHeld(s.deltas[0 := Some([r0])], 2);
    assert ReadRows(st2, 1, 1) == Some([]);
  }

  /** The same deletion with the read allowed to find nothing succeeds. */
  lemma DelItemAtEnd()
    ensures !DelItem(FullPage(), 1).0 && Valid(DelItem(FullPage(), 1).1)
    ensures DelItem(FullPage(), 1).1.st.rows == [[Int(0)]]
  {
    FullPageValid();
    DelItemKeepsValid(FullPage(), 1);
  }

  /** One row whose ID is 5, its chunk held. */
  function LoneRow(): Snap {
    Snap(Store(2, 0, [[Int(5)]], 6, 1), None, map[0 := Some([[Int(5)]])], Opened(1, 2, Some([[Int(5)]])))
  }

  lemma LoneRowValid()
    ensures Valid(LoneRow())
  {
    var s := LoneRow();
    forall k | IsHeld(s.deltas, k)
      ensures k >= 0 && U.Aligned(k, 2) && s.deltas[k].value == U.Window(s.st.rows, k, 2)
    {
      assert k == 0;
    }
  }

  /** Deleting position 0 deletes ID 0, which no row has: the row stays in
      the table, but the counter drops to 0. */
  lemma DelItemDeletesById()
    ensures Valid(LoneRow())
    ensures DelItemAsWritten(LoneRow(), 0).1.st.rows == [[Int(5)]]
    ensures DelItemAsWritten(LoneRow(), 0).1.st.length == 0
  {
    LoneRowValid();
    var s := LoneRow();
    assert U.Key(0, 2) == 0;
    assert GetDeltaChunk(s, 0) == (0, Some([[Int(5)]]), s);
    assert RemoveId([[Int(5)]], Int(0)) == [[Int(5)]];
    assert U.RemoveAt([[Int(5)]], 0) == [];
  }

  /** Corrected, deleting position 0 of the lone row empties the table. */
  lemma DelItemLoneRow()
    ensures DelItem(LoneRow(), 0).1.st.rows == [] && Valid(DelItem(LoneRow(), 0).1)
  {
    LoneRowValid();
    DelItemKeepsValid(LoneRow(), 0);
  }

  /** On any valid list, `pop()` as written reads the chunk at key
      `-limit`, finds nothing, deletes nothing and returns None; corrected,
      it removes and returns the last row. */
  lemma PopDefaultDeletesNothing(s: Snap)
    requires Valid(s)
    ensures PopAsWritten(s, -1).0 == U.Nothing
    ensures PopAsWritten(s, -1).1.st == s.st
    ensures |s.st.rows| > 0 ==>
      Pop(s, -1).0 == U.Got(s.st.rows[|s.st.rows| - 1]) &&
      Pop(s, -1).1.st.rows == s.st.rows[..|s.st.rows| - 1]
  {
    GetItemMirrors(s, -1);
    var s1 := GetItem(s, -1).1;
    GetDeltaChunkMirrors(s1, -1);
    if |s.st.rows| > 0 {
      PopKeepsValid(s, -1);
      assert s.st.rows[|s.st.rows| - 1 + 1..] == [];
    }
  }

  /** One row `["a", 0]` with one data column, its chunk held. */
  function OneCell(): Snap {
    Snap(Store(2, 1, [[Str("a"), Int(0)]], 1, 1), None, map[0 := Some([[Str("a"), Int(0)]])],
         Opened(1, 2, Some([[Str("a"), Int(0)]])))
  }

  lemma OneCellValid()
    ensures Valid(OneCell())
  {
    var s := OneCell();
    forall k | IsHeld(s.deltas, k)
      ensures k >= 0 && U.Aligned(k, 2) && s.deltas[k].value == U.Window(s.st.rows, k, 2)
    {
      assert k == 0;
    }
  }

  /** Appending `["b"]` stores `["b", 1]` but the chunk gets `["b"]`, which
      is what position 1 then reads. */
  lemma AppendStoresCells()
    ensures Valid(OneCell())
    ensures AppendAsWritten(OneCell(), [Str("b")], true).1.st.rows == [[Str("a"), Int(0)], [Str("b"), Int(1)]]
    ensures GetItem(AppendAsWritten(OneCell(), [Str("b")], true).1, 1).0 == U.Got([Str("b")])
  {
    OneCellValid();
    var s := OneCell();
    var a, b := [Str("a"), Int(0)], [Str("b"), Int(1)];
    assert NewRow(1, [Str("b")], 1) == b;
    assert U.Key(1, 2) == 0;
    assert IsHeld(s.deltas, 0);
    assert [a] + [b] == [a, b];
    assert [a] + [[Str("b")]] == [a, [Str("b")]];
    var s1 := AppendAsWritten(s, [Str("b")], true).1;
    assert s1.st.rows == [a, b] && s1.st.length == 2;
    assert s1.deltas[0] == Some([a, [Str("b")]]);
    assert GetDeltaChunk(s1, 1) == (0, Some([a, [Str("b")]]), s1);
  }

  /** Appending the stored row, position 1 reads that row. */
  lemma AppendStoresRow()
    ensures GetItem(Append(OneCell(), [Str("b")], true).1, 1).0 == U.Got([Str("b"), Int(1)])
  {
    OneCellValid();
    var s := OneCell();
    assert NewRow(1, [Str("b")], 1) == [Str("b"), Int(1)];
    AppendKeepsValid(s, [Str("b")], true);
    GetItemMirrors(Append(s, [Str("b")], true).1, 1);
  }

  /** After `clear` and one append, position 0 reads the row that was
      cleared, from the chunk `clear` left behind. */
  lemma ClearLeavesChunks()
    ensures var s1 := Append(ClearAsWritten(OneCell()), [Str("b")], true).1;
      s1.st.rows == [[Str("b"), Int(1)]] && GetItem(s1, 0).0 == U.Got([Str("a"), Int(0)])
  {
    var s := ClearAsWritten(OneCell());
    var a, b := [Str("a"), Int(0)], [Str("b"), Int(1)];
    assert NewRow(1, [Str("b")], 1) == b;
    assert U.Key(0, 2) == 0;
    assert IsHeld(s.deltas, 0);
    assert [] + [b] == [b];
    assert [a] + [b] == [a, b];
    var s1 := Append(s, [Str("b")], true).1;
    assert s1.st.rows == [b] && s1.st.length == 1;
    assert s1.deltas[0] == Some([a, b]);
    assert GetDeltaChunk(s1, 0) == (0, Some([a, b]), s1);
  }

  /** `clear` on a full first page leaves that chunk held while the table
      is empty, so `extend` finds `can_fill` 0 at offset 0 on every turn
      and never ends. */
  lemma ExtendAfterClearStalls(rows: seq<Row>, n: nat)
    requires rows != []
    ensures var s1 := ClearAsWritten(FullPage());
      !U.Fillable(s1.deltas, s1.st.length, s1.st.limit) &&
      U.Turns(s1.deltas, s1.st.limit, s1.st.length, rows, 0, |rows|, n) == (s1.deltas, 0, 0, |rows|)
  {
    var s1 := ClearAsWritten(FullPage());
    assert s1.st.length == 0 && s1.st.limit == 2 && U.Key(0, 2) == 0;
    assert U.IsResident(s1.deltas, 0) && |s1.deltas[0].value| == 2;
    U.FullChunkStalls(s1.deltas, 2, 0, rows, 0, |rows|, n);
  }

  /** With the chunks dropped by `clear`, `extend` ends within as many
      turns as it has rows. */
  lemma ExtendAfterClearEnds(rows: seq<Row>)
    ensures var s1 := Clear(FullPage());
      Valid(s1) && s1.st.rows == [] &&
      U.Turns(s1.deltas, s1.st.limit, s1.st.length, rows, 0, |rows|, |rows|).3 <= 0
  {
    FullPageValid();
    ClearKeepsValid(FullPage());
    var s1 := Clear(FullPage());
    ValidFillable(s1);
    U.FillableLoopEnds(s1.deltas, s1.st.limit, s1.st.length, rows, 0, |rows|);
  }

  /** With the chunks reset, position 0 reads the new row. */
  lemma ClearThenAppend()
    ensures var s1 := Append(Clear(OneCell()), [Str("b")], true).1;
      GetItem(s1, 0).0 == U.Got([Str("b"), Int(1)])
  {
    var s := Clear(OneCell());
    ClearKeepsValid(OneCell());
    assert NewRow(1, [Str("b")], 1) == [Str("b"), Int(1)];
    AppendKeepsValid(s, [Str("b")], true);
    GetItemMirrors(Append(s, [Str("b")], true).1, 0);
  }
}
