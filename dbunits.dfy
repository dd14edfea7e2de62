/** The paginated list over a persistent node table (`Dblist` of
    unisi/dbunits.py), as state-transition functions. The list sees the
    table as chunks of `limit` rows keyed by the offset of their first row;
    the chunks it has read are kept in `deltas`. Every change is persisted
    through the table handle and queued as a patch for the table's viewers.
    A list may instead be backed by an explicit row cache. */
module DbUnitsModel {
  import opened Values
  import opened Kdb

  /** A patch queued in `dbupdates` for the table's viewers, all of type
      `'action'`. */
  datatype Patch =
    | Update(index: int, data: Row)                                    // update 'update'
    | Delete(index: int)                                               // update 'delete', exclude
    | Add(index: int, data: Row)                                       // update 'add'
    | BulkUpdate(index: int, chunk: Option<seq<Row>>, length: int)     // update 'updates' of extend
    | LengthUpdate(length: int)                                        // update 'updates' of clear

  /** `delta_list`: chunk offset to chunk; `clear` leaves a `None` chunk at 0,
      and a failed read stores `None` too. */
  type Chunks = map<int, Option<seq<Row>>>

  /** Everything one list operation reads or changes: the table, the
      optional cache, the chunks and the patches queued for this table. */
  datatype Snap = Snap(st: Store, cache: Option<seq<Row>>, deltas: Chunks, queue: seq<Patch>)

  /** What indexing the list gives: a row, Python's `None`, or an IndexError. */
  datatype Lookup = Got(row: Row) | Nothing | Raised

  // ---------------------------------------------------------------------
  // Chunk keys

  /** `index // limit * limit`: the offset of the chunk holding `index`. */
  function Key(index: int, limit: Pos): (k: int)
    ensures index >= 0 ==> k >= 0
  {
    index / limit * limit
  }

  predicate Aligned(k: int, limit: Pos) {
    Key(k, limit) == k
  }

  lemma MulLe(a: int, b: int, c: nat)
    requires a <= b
    ensures a * c <= b * c
  {
  }

  lemma DivUnique(x: int, limit: Pos, q: int)
    requires q * limit <= x < q * limit + limit
    ensures x / limit == q
  {
    var d := x / limit;
    assert x == d * limit + x % limit;
    if d < q {
      MulLe(d + 1, q, limit);
    } else if d > q {
      MulLe(q + 1, d, limit);
    }
  }

  /** The chunk of `index` starts at or before it and ends after it. */
  lemma KeyBounds(index: int, limit: Pos)
    ensures Key(index, limit) <= index < Key(index, limit) + limit
    ensures Aligned(Key(index, limit), limit)
    ensures index >= 0 ==> Key(index, limit) >= 0
    ensures index < 0 ==> Key(index, limit) < 0
  {
    var q := index / limit;
    assert index == q * limit + index % limit;
    DivUnique(q * limit, limit, q);
    if index >= 0 {
      assert q >= 0;
    }
  }

  /** Every index of an aligned chunk's range has that chunk's key. */
  lemma KeyWithin(k: int, x: int, limit: Pos)
    requires Aligned(k, limit) && k <= x < k + limit
    ensures Key(x, limit) == k
  {
    DivUnique(x, limit, k / limit);
  }

  /** Distinct aligned offsets are at least one chunk apart. */
  lemma AlignedGap(a: int, b: int, limit: Pos)
    requires Aligned(a, limit) && Aligned(b, limit) && a < b
    ensures a + limit <= b
  {
    var p := a / limit;
    var q := b / limit;
    assert p < q;
    assert (p + 1) * limit <= q * limit;
  }

  lemma AlignedNext(k: int, limit: Pos)
    requires Aligned(k, limit)
    ensures Aligned(k + limit, limit)
  {
    KeyWithin(k + limit, k + limit, limit) by {
      DivUnique(k + limit, limit, k / limit + 1);
    }
  }

  // ---------------------------------------------------------------------
  // Python indexing and slicing

  /** For bounds that are not negative, Python slicing is `Slice`. */
  lemma PySliceNatural<T>(s: seq<T>, lo: nat, hi: nat)
    ensures PySlice(s, lo, hi) == Slice(s, lo, hi)
  {
  }

  // ---------------------------------------------------------------------
  // Slices of the row sequence

  lemma SliceConcat<T>(s: seq<T>, a: nat, b: nat, c: nat)
    requires a <= b <= c
    ensures Slice(s, a, b) + Slice(s, b, c) == Slice(s, a, c)
  {
    var l := Slice(s, a, b) + Slice(s, b, c);
    var r := Slice(s, a, c);
    assert |l| == |r|;
    forall i | 0 <= i < |l|
      ensures l[i] == r[i]
    {
      if i < |Slice(s, a, b)| {
        assert l[i] == s[a + i];
      } else {
        assert l[i] == Slice(s, b, c)[i - |Slice(s, a, b)|];
      }
    }
  }

  /** A slice that ends within a prefix sees only that prefix. */
  lemma SlicePrefix<T>(s: seq<T>, t: seq<T>, lo: nat, hi: nat)
    requires hi <= |s| <= |t| && s == t[..|s|]
    ensures Slice(t, lo, hi) == Slice(s, lo, hi)
  {
  }

  /** A slice of a suffix is the shifted slice of the whole. */
  lemma SliceShift<T>(s: seq<T>, base: nat, lo: nat, hi: nat)
    requires base <= |s|
    ensures Slice(s[base..], lo, hi) == Slice(s, base + lo, base + hi)
  {
  }

  /** A slice that reaches the end of the sequence. */
  lemma SliceToEnd<T>(s: seq<T>, lo: nat, hi: nat, hi2: nat)
    requires |s| <= hi && |s| <= hi2
    ensures Slice(s, lo, hi) == Slice(s, lo, hi2)
  {
  }

  /** The rows of the chunk at offset `k`. */
  function Window(rows: seq<Row>, k: nat, limit: Pos): seq<Row> {
    Slice(rows, k, k + limit)
  }

  // ---------------------------------------------------------------------
  // The list's state

  /** `len(self)`: the cache's length, or the table's counter. */
  function Len(s: Snap): int {
    if s.cache.Some? then |s.cache.value| else s.st.length
  }

  /** A chunk the list holds (a `None` entry is not one). */
  predicate IsResident(deltas: Chunks, k: int) {
    k in deltas && deltas[k].Some?
  }

  /** The rows held at `k`, empty when none are. */
  function Resident(deltas: Chunks, k: int): seq<Row> {
    if IsResident(deltas, k) then deltas[k].value else []
  }

  /** Every chunk the list holds starts at a chunk offset and is exactly the
      table's rows there. */
  ghost predicate MirrorsRows(deltas: Chunks, rows: seq<Row>, limit: Pos) {
    forall k :: IsResident(deltas, k) ==>
      k >= 0 && Aligned(k, limit) && deltas[k].value == Window(rows, k, limit)
  }

  /** The invariant of a persistent list: no cache, the table's counter is
      its row count, and every held chunk mirrors the table. */
  ghost predicate Valid(s: Snap) {
    && s.cache.None?
    && WellFormed(s.st)
    && Synced(s.st)
    && MirrorsRows(s.deltas, s.st.rows, s.st.limit)
  }

  /** `Dblist.__init__`: a cache wins and its first chunk is held at 0;
      otherwise the given first chunk is; with neither, AttributeError. */
  function Init(st: Store, initList: Option<seq<Row>>, cache: Option<seq<Row>>): (r: Option<Snap>)
    ensures r.None? <==> initList.None? && cache.None?
    ensures r.Some? ==> r.value.st == st && r.value.cache == cache && r.value.queue == [] && r.value.deltas.Keys == {0}
    ensures cache.Some? ==> r.value.deltas[0] == Some(PySlice(cache.value, 0, st.limit))
    ensures cache.None? && initList.Some? ==> r.value.deltas[0] == initList
  {
    if cache.Some? then Some(Snap(st, cache, map[0 := Some(PySlice(cache.value, 0, st.limit))], []))
    else if initList.None? then None
    else Some(Snap(st, None, map[0 := initList], []))
  }

  /** A table opened by `init_list` (its first chunk read from the store)
      gives a valid list. */
  lemma InitValid(st: Store)
    requires WellFormed(st) && Synced(st)
    ensures Init(st, ReadRows(st, 0, st.limit), None).Some?
    ensures Valid(Init(st, ReadRows(st, 0, st.limit), None).value)
  {
    var s := Init(st, ReadRows(st, 0, st.limit), None).value;
    KeyBounds(0, st.limit);
    forall k | IsResident(s.deltas, k)
      ensures k >= 0 && Aligned(k, st.limit) && s.deltas[k].value == Window(st.rows, k, st.limit)
    {
      assert k == 0;
    }
  }

  // ---------------------------------------------------------------------
  // get_delta_chunk

  /** `get_delta_chunk(index)`: the chunk key and chunk for `index`, reading
      and holding the chunk when it is not held yet. */
  function GetDeltaChunk(s: Snap, index: int): (r: (int, Option<seq<Row>>, Snap))
    ensures index >= Len(s) ==> r == (-1, None, s)
    ensures index < Len(s) ==> r.0 == Key(index, s.st.limit)
    ensures r.2.st == s.st && r.2.cache == s.cache && r.2.queue == s.queue
    ensures s.cache.Some? && index < Len(s) ==>
      r.1 == Some(PySlice(s.cache.value, r.0, r.0 + s.st.limit)) && r.2 == s
    ensures s.cache.None? && index < Len(s) && IsResident(s.deltas, r.0) ==> r.1 == s.deltas[r.0] && r.2 == s
    ensures s.cache.None? && index < Len(s) && !IsResident(s.deltas, r.0) ==>
      r.1 == ReadRows(s.st, r.0, 0) && r.2.deltas == s.deltas[r.0 := r.1]
  {
    if index >= Len(s) then (-1, None, s)
    else
      var key := Key(index, s.st.limit);
      if s.cache.Some? then (key, Some(PySlice(s.cache.value, key, key + s.st.limit)), s)
      else if IsResident(s.deltas, key) then (key, s.deltas[key], s)
      else
        var lst := ReadRows(s.st, key, 0);
        (key, lst, s.(deltas := s.deltas[key := lst]))
  }

  /** A chunk is read from the table at most once: asking again for the
      same index finds it held and changes nothing. */
  lemma GetDeltaChunkOnce(s: Snap, index: int)
    requires GetDeltaChunk(s, index).1.Some?
    ensures GetDeltaChunk(GetDeltaChunk(s, index).2, index) == GetDeltaChunk(s, index)
  {
  }

  /** In a valid list every index below the length finds the chunk that
      mirrors the table, and the list stays valid. */
  lemma GetDeltaChunkMirrors(s: Snap, index: int)
    requires Valid(s)
    ensures Valid(GetDeltaChunk(s, index).2)
    ensures 0 <= index < |s.st.rows| ==>
      GetDeltaChunk(s, index).1 == Some(Window(s.st.rows, Key(index, s.st.limit), s.st.limit))
    ensures index < 0 ==> GetDeltaChunk(s, index).1.None?
  {
    var limit := s.st.limit;
    KeyBounds(index, limit);
    var (key, chunk, s1) := GetDeltaChunk(s, index);
    if index < |s.st.rows| && !IsResident(s.deltas, key) {
      forall k | IsResident(s1.deltas, k)
        ensures k >= 0 && Aligned(k, limit) && s1.deltas[k].value == Window(s1.st.rows, k, limit)
      {
        if k != key {
          assert IsResident(s.deltas, k);
        }
      }
    }
  }

  // ---------------------------------------------------------------------
  // __getitem__, __setitem__

  /** `self[index]`: the cache's element, or the element of the index's
      chunk when that chunk has rows. */
  function GetItem(s: Snap, index: int): (Lookup, Snap)
  {
    if s.cache.Some? then
      var c := s.cache.value;
      (match PyIndex(|c|, index) case Some(p) => Got(c[p]) case None => Raised, s)
    else
      var (key, chunk, s1) := GetDeltaChunk(s, index);
      KeyBounds(index, s.st.limit);
      if chunk.Some? && chunk.value != [] then
        (if index - key < |chunk.value| then Got(chunk.value[index - key]) else Raised, s1)
      else (Nothing, s1)
  }

  /** Reading a valid list gives the table's row at that position, and
      `None` outside `0 <= index < len`; nothing but the held chunks changes. */
  lemma GetItemMirrors(s: Snap, index: int)
    requires Valid(s)
    ensures Valid(GetItem(s, index).1)
    ensures GetItem(s, index).1.st == s.st && GetItem(s, index).1.queue == s.queue
    ensures 0 <= index < |s.st.rows| ==> GetItem(s, index).0 == Got(s.st.rows[index])
    ensures !(0 <= index < |s.st.rows|) ==> GetItem(s, index).0 == Nothing
  {
    GetDeltaChunkMirrors(s, index);
    KeyBounds(index, s.st.limit);
    if 0 <= index < |s.st.rows| {
      var key := Key(index, s.st.limit);
      assert Window(s.st.rows, key, s.st.limit)[index - key] == s.st.rows[index];
    }
  }

  /** `self[index] = value`: a cache is written like a list; otherwise the
      chunk slot (when the chunk has rows) is overwritten, the row is
      persisted by its ID, and an `update` patch is queued. The flag is an
      IndexError: a cache index out of range, a slot beyond the chunk, or
      an empty row (which has no ID). */
  function SetItem(s: Snap, index: int, value: Row): (bool, Snap)
  {
    if s.cache.Some? then
      var c := s.cache.value;
      match PyIndex(|c|, index)
      case Some(p) => (false, s.(cache := Some(c[p := value])))
      case None => (true, s)
    else
      var (key, chunk, s1) := GetDeltaChunk(s, index);
      KeyBounds(index, s.st.limit);
      var held := chunk.Some? && chunk.value != [];
      if held && index - key >= |chunk.value| then (true, s1)
      else
        var s2 := if held then s1.(deltas := s1.deltas[key := Some(chunk.value[index - key := value])]) else s1;
        if value == [] then (true, s2)
        else (false, s2.(st := Assigned(s2.st, value), queue := s2.queue + [Update(index, value)]))
  }

  /** Writing a valid list a row with the ID of the row it replaces (its
      data cells set) overwrites exactly that row in the table, keeps the
      list valid and queues one `update` patch. */
  lemma SetItemKeepsValid(s: Snap, index: int, value: Row)
    requires Valid(s) && 0 <= index < |s.st.rows|
    requires |value| == s.st.columns + 1 && LastCell(value) == LastCell(s.st.rows[index])
    requires AssignableCells(value, s.st.columns)
    ensures !SetItem(s, index, value).0
    ensures SetItem(s, index, value).1.st.rows == s.st.rows[index := value]
    ensures SetItem(s, index, value).1.queue == s.queue + [Update(index, value)]
    ensures Valid(SetItem(s, index, value).1)
  {
    var limit := s.st.limit;
    GetDeltaChunkMirrors(s, index);
    KeyBounds(index, limit);
    var (key, chunk, s1) := GetDeltaChunk(s, index);
    var rows := s.st.rows;
    var rows2 := rows[index := value];
    var s3 := SetItem(s, index, value).1;
    assert s3.st == Assigned(s.st, value);
    AssignedAt(s.st, index, value);
    AssignedKeeps(s.st, value);
    assert chunk == s1.deltas[key] == Some(Window(rows, key, limit));
    SetRowMirrors(s1.deltas, rows, index, value, limit);
    assert s3.deltas == s1.deltas[key := Some(chunk.value[index - key := value])];
  }

  /** Writing a row into the table and into the held chunk of its index
      keeps the chunks mirroring the table. */
  lemma SetRowMirrors(d: Chunks, rows: seq<Row>, index: nat, value: Row, limit: Pos)
    requires MirrorsRows(d, rows, limit) && index < |rows|
    requires IsResident(d, Key(index, limit))
    ensures var key := Key(index, limit);
      index - key < |d[key].value| &&
      MirrorsRows(d[key := Some(d[key].value[index - key := value])], rows[index := value], limit)
  {
    KeyBounds(index, limit);
    var key := Key(index, limit);
    var rows2 := rows[index := value];
    var d3 := d[key := Some(d[key].value[index - key := value])];
    forall k | IsResident(d3, k)
      ensures k >= 0 && Aligned(k, limit) && d3[k].value == Window(rows2, k, limit)
    {
      assert IsResident(d, k);
      if k == key {
        var w := Window(rows, key, limit);
        assert d3[k].value == w[index - key := value];
        assert w[index - key := value] == Window(rows2, k, limit);
      } else if k < key {
        AlignedGap(k, key, limit);
        assert Window(rows2, k, limit) == Window(rows, k, limit);
      } else {
        AlignedGap(key, k, limit);
        assert Window(rows2, k, limit) == Window(rows, k, limit);
      }
    }
  }

  /** In cache mode a list behaves like a Python list under `self[i] = v`:
      that element reads `v` back and every other element is unchanged. */
  lemma CacheSetGet(s: Snap, i: int, v: Row, j: int)
    requires s.cache.Some? && -(|s.cache.value| as int) <= i < |s.cache.value|
    ensures !SetItem(s, i, v).0
    ensures GetItem(SetItem(s, i, v).1, i).0 == Got(v)
    ensures PyIndex(|s.cache.value|, j) != PyIndex(|s.cache.value|, i) ==>
      GetItem(SetItem(s, i, v).1, j).0 == GetItem(s, j).0
    ensures Len(SetItem(s, i, v).1) == Len(s) && SetItem(s, i, v).1.st == s.st
  {
  }

  // ---------------------------------------------------------------------
  // clean_cache_from, __delitem__

  /** `clean_cache_from(k)`: keep exactly the chunks keyed below `k`. */
  function CleanCacheFrom(deltas: Chunks, from: int): (r: Chunks)
    ensures forall k :: k in r <==> k in deltas && k < from
    ensures forall k :: k in r ==> r[k] == deltas[k]
  {
    map k | k in deltas && k < from :: deltas[k]
  }

  /** Python's `del chunk[p]`. */
  function RemoveAt(c: seq<Row>, p: nat): (r: seq<Row>)
    requires p < |c|
    ensures |r| == |c| - 1
    ensures forall i :: 0 <= i < |r| ==> r[i] == if i < p then c[i] else c[i + 1]
  {
    c[..p] + c[p + 1..]
  }

  /** Store the edited chunk object: in cache mode the chunk is a slice copy
      and the edit is lost. */
  function PutChunk(s: Snap, key: int, c: seq<Row>): Snap {
    if s.cache.None? then s.(deltas := s.deltas[key := Some(c)]) else s
  }

  /** The first held row of the chunk at `next`, when it has rows. */
  function NextFirst(deltas: Chunks, next: int): seq<Row> {
    if IsResident(deltas, next) && deltas[next].value != [] then [deltas[next].value[0]] else []
  }

  /** The row that refills a chunk that lost one row: the first held row of
      the next chunk when it has rows, else (as the older list module does)
      the one table row at `next - 1`. */
  function Refill(st: Store, deltas: Chunks, next: int): seq<Row> {
    if NextFirst(deltas, next) != [] then NextFirst(deltas, next)
    else match ReadRows(st, next - 1, 1) case Some(rs) => rs case None => []
  }

  /** The chunk edit of `__delitem__` once the deletion is persisted: slot
      `p` leaves chunk `c` at `key`; a chunk that was full takes the refill
      row and every chunk from the next offset on is dropped. `readStore`
      says whether a missing next chunk is made up for from the table. */
  function ShiftChunks(s2: Snap, key: int, c: seq<Row>, p: nat, readStore: bool): (r: Snap)
    requires p < |c|
    ensures r.st == s2.st && r.cache == s2.cache && r.queue == s2.queue
  {
    var rest := RemoveAt(c, p);
    var next := key + s2.st.limit;
    if |rest| + 1 == s2.st.limit then
      var refill := if readStore then Refill(s2.st, s2.deltas, next) else NextFirst(s2.deltas, next);
      var s3 := PutChunk(s2, key, rest + refill);
      s3.(deltas := CleanCacheFrom(s3.deltas, next))
    else PutChunk(s2, key, rest)
  }

  /** `del self[index]`: when the index's chunk has rows, persist the
      deletion of that row (by its ID), queue a `delete` patch and remove
      it from the chunk; a chunk that was full is refilled from what
      follows it and every later chunk is dropped. The flag is an
      IndexError for a slot beyond the chunk. */
  function DelItem(s: Snap, index: int): (r: (bool, Snap))
    ensures |r.1.st.rows| <= |s.st.rows| && r.1.st.nextId == s.st.nextId && r.1.cache == s.cache
    ensures r.1.queue == s.queue || r.1.queue == s.queue + [Delete(index)]
  {
    var (key, chunk, s1) := GetDeltaChunk(s, index);
    KeyBounds(index, s.st.limit);
    if !(chunk.Some? && chunk.value != []) then (false, s1)
    else if index - key >= |chunk.value| then (true, s1)
    else
      var c := chunk.value;
      var p := index - key;
      var s2 := s1.(st := Deleted(s1.st, LastCell(c[p])), queue := s1.queue + [Delete(index)]);
      (false, ShiftChunks(s2, key, c, p, true))
  }

  /** Deleting from a valid list removes exactly the row at that position
      from the table, keeps the list valid and queues one `delete` patch;
      outside `0 <= index < len` nothing is deleted. */
  lemma DelItemKeepsValid(s: Snap, index: int)
    requires Valid(s)
    ensures !DelItem(s, index).0
    ensures Valid(DelItem(s, index).1)
    ensures 0 <= index < |s.st.rows| ==>
      DelItem(s, index).1.st.rows == s.st.rows[..index] + s.st.rows[index + 1..] &&
      DelItem(s, index).1.queue == s.queue + [Delete(index)]
    ensures !(0 <= index < |s.st.rows|) ==> DelItem(s, index).1.st == s.st && DelItem(s, index).1.queue == s.queue
  {
    GetDeltaChunkMirrors(s, index);
    var limit := s.st.limit;
    KeyBounds(index, limit);
    if 0 <= index < |s.st.rows| {
      DelItemInRange(s, index);
    }
  }

  lemma DelItemInRange(s: Snap, index: int)
    requires Valid(s) && 0 <= index < |s.st.rows|
    ensures !DelItem(s, index).0
    ensures Valid(DelItem(s, index).1)
    ensures DelItem(s, index).1.st.rows == s.st.rows[..index] + s.st.rows[index + 1..]
    ensures DelItem(s, index).1.queue == s.queue + [Delete(index)]
  {
    GetDeltaChunkMirrors(s, index);
    var limit := s.st.limit;
    KeyBounds(index, limit);
    var rows := s.st.rows;
    var key := Key(index, limit);
    var s1 := GetDeltaChunk(s, index).2;
    var w := Window(rows, key, limit);
    assert GetDeltaChunk(s, index) == (key, Some(w), s1);
    assert w[index - key] == rows[index];
    DeletedAtPosition(s.st, index);
    DelItemFromChunk(s, index, key, w);
    var s2 := s1.(st := Deleted(s.st, LastCell(rows[index])), queue := s.queue + [Delete(index)]);
    var r := ShiftChunks(s2, key, w, index - key, true);
    assert DelItem(s, index) == (false, r);
    assert s2.st.limit == limit && s2.cache.None?;
    ShiftMirrors(s2, rows, index, key, w);
  }

  /** Shifting the chunks after a deletion from the chunk `w` at `key`
      leaves a mirror of the table without the deleted row. */
  lemma ShiftMirrors(s2: Snap, rows: seq<Row>, index: nat, key: int, w: seq<Row>)
    requires s2.cache.None? && index < |rows| && s2.st.rows == rows[..index] + rows[index + 1..]
    requires MirrorsRows(s2.deltas, rows, s2.st.limit)
    requires key == Key(index, s2.st.limit) && w == Window(rows, key, s2.st.limit)
    requires 0 <= index - key < |w|
    ensures MirrorsRows(ShiftChunks(s2, key, w, index - key, true).deltas, s2.st.rows, s2.st.limit)
  {
    KeyBounds(index, s2.st.limit);
    if |w| == s2.st.limit {
      ShiftFullChunk(s2, rows, index);
    } else {
      ShiftShortChunk(s2, rows, index);
    }
  }

  /** `DelItem` once the index's chunk `w` is known to hold the index. */
  lemma DelItemFromChunk(s: Snap, index: int, key: int, w: seq<Row>)
    requires GetDeltaChunk(s, index) == (key, Some(w), GetDeltaChunk(s, index).2)
    requires 0 <= index - key < |w|
    ensures var s1 := GetDeltaChunk(s, index).2;
      DelItem(s, index) == (false, ShiftChunks(s1.(st := Deleted(s.st, LastCell(w[index - key])), queue := s.queue + [Delete(index)]),
                                               key, w, index - key, true))
  {
  }

  /** Chunks before the deleted position's chunk are not affected. */
  lemma DelItemEarlierChunks(rows: seq<Row>, index: nat, k: nat, key: int, limit: Pos)
    requires index < |rows| && key == Key(index, limit) && Aligned(k, limit) && k < key
    ensures Window(rows[..index] + rows[index + 1..], k, limit) == Window(rows, k, limit)
  {
    KeyBounds(index, limit);
    AlignedGap(k, key, limit);
  }

  /** Deleting from a full chunk: it is refilled with the row now at its
      last position and every later chunk is dropped. */
  lemma ShiftFullChunk(s2: Snap, rows: seq<Row>, index: nat)
    requires s2.cache.None? && index < |rows| && s2.st.rows == rows[..index] + rows[index + 1..]
    requires MirrorsRows(s2.deltas, rows, s2.st.limit)
    requires |Window(rows, Key(index, s2.st.limit), s2.st.limit)| == s2.st.limit
    requires Key(index, s2.st.limit) >= 0
    ensures var key := Key(index, s2.st.limit);
      MirrorsRows(ShiftChunks(s2, key, Window(rows, key, s2.st.limit), index - key, true).deltas,
                  s2.st.rows, s2.st.limit)
  {
    var limit := s2.st.limit;
    KeyBounds(index, limit);
    var key := Key(index, limit);
    FullChunkRefilled(s2, rows, index, key);
    ShiftChunksFull(s2, key, Window(rows, key, limit), index - key);
    FullChunkMirrors(s2.deltas, rows, index, key, limit);
  }

  /** The full chunk without the deleted row, refilled with the row after
      it, is the shortened table's window. */
  lemma FullChunkRefilled(s2: Snap, rows: seq<Row>, index: nat, key: nat)
    requires index < |rows| && s2.st.rows == rows[..index] + rows[index + 1..]
    requires MirrorsRows(s2.deltas, rows, s2.st.limit)
    requires key == Key(index, s2.st.limit) && |Window(rows, key, s2.st.limit)| == s2.st.limit
    ensures RemoveAt(Window(rows, key, s2.st.limit), index - key) + Refill(s2.st, s2.deltas, key + s2.st.limit)
         == Window(s2.st.rows, key, s2.st.limit)
  {
    var limit := s2.st.limit;
    KeyBounds(index, limit);
    RemoveAtWindow(rows, index, key, limit);
    RefillIsNextRow(s2, rows, index, key);
    JoinRefill(s2.st.rows, key, limit);
  }

  /** A chunk one short of its window, with the next row added, is the window. */
  lemma JoinRefill(rows: seq<Row>, key: nat, limit: Pos)
    ensures Slice(rows, key, key + limit - 1) + Slice(rows, key + limit - 1, key + limit) == Window(rows, key, limit)
  {
    SliceConcat(rows, key, key + limit - 1, key + limit);
  }

  /** The chunk edit of a full chunk, read off `ShiftChunks`. */
  lemma ShiftChunksFull(s2: Snap, key: int, c: seq<Row>, p: nat)
    requires s2.cache.None? && p < |c| == s2.st.limit
    ensures ShiftChunks(s2, key, c, p, true).deltas ==
      CleanCacheFrom(s2.deltas[key := Some(RemoveAt(c, p) + Refill(s2.st, s2.deltas, key + s2.st.limit))], key + s2.st.limit)
  {
  }

  /** Removing slot `p` of the chunk at `key` leaves it one short of the
      shortened table's window there. */
  lemma RemoveAtWindow(rows: seq<Row>, index: nat, key: nat, limit: Pos)
    requires index < |rows| && key <= index < key + limit
    ensures RemoveAt(Window(rows, key, limit), index - key)
         == Slice(rows[..index] + rows[index + 1..], key, key + limit - 1)
  {
    var rows2 := rows[..index] + rows[index + 1..];
    var l := RemoveAt(Window(rows, key, limit), index - key);
    var r := Slice(rows2, key, key + limit - 1);
    assert |l| == |r|;
    forall i | 0 <= i < |l|
      ensures l[i] == r[i]
    {
    }
  }

  /** The refill row of a full chunk is the table's row just past it. */
  lemma RefillIsNextRow(s2: Snap, rows: seq<Row>, index: nat, key: nat)
    requires index < |rows| && s2.st.rows == rows[..index] + rows[index + 1..]
    requires MirrorsRows(s2.deltas, rows, s2.st.limit)
    requires key == Key(index, s2.st.limit) && |Window(rows, key, s2.st.limit)| == s2.st.limit
    ensures Refill(s2.st, s2.deltas, key + s2.st.limit) == Slice(s2.st.rows, key + s2.st.limit - 1, key + s2.st.limit)
  {
    var limit := s2.st.limit;
    KeyBounds(index, limit);
    var next := key + limit;
    var rows2 := s2.st.rows;
    if NextFirst(s2.deltas, next) != [] {
      AlignedNext(key, limit);
      assert s2.deltas[next].value == Window(rows, next, limit);
      assert s2.deltas[next].value[0] == rows[next] == rows2[next - 1];
    }
  }

  lemma FullChunkMirrors(d: Chunks, rows: seq<Row>, index: nat, key: int, limit: Pos)
    requires MirrorsRows(d, rows, limit) && index < |rows| && key == Key(index, limit)
    ensures key >= 0
    ensures MirrorsRows(CleanCacheFrom(d[key := Some(Window(rows[..index] + rows[index + 1..], key, limit))], key + limit),
                        rows[..index] + rows[index + 1..], limit)
  {
    KeyBounds(index, limit);
    var rows2 := rows[..index] + rows[index + 1..];
    var d3 := CleanCacheFrom(d[key := Some(Window(rows2, key, limit))], key + limit);
    forall k | IsResident(d3, k)
      ensures k >= 0 && Aligned(k, limit) && d3[k].value == Window(rows2, k, limit)
    {
      if k != key {
        assert IsResident(d, k) && k < key + limit;
        if k > key {
          AlignedGap(key, k, limit);
        }
        DelItemEarlierChunks(rows, index, k, key, limit);
      }
    }
  }

  /** Deleting from the last, short chunk: later chunks are empty and stay so. */
  lemma ShiftShortChunk(s2: Snap, rows: seq<Row>, index: nat)
    requires s2.cache.None? && index < |rows| && s2.st.rows == rows[..index] + rows[index + 1..]
    requires MirrorsRows(s2.deltas, rows, s2.st.limit)
    requires |Window(rows, Key(index, s2.st.limit), s2.st.limit)| < s2.st.limit
    requires Key(index, s2.st.limit) >= 0
    ensures var key := Key(index, s2.st.limit);
      MirrorsRows(ShiftChunks(s2, key, Window(rows, key, s2.st.limit), index - key, true).deltas,
                  s2.st.rows, s2.st.limit)
  {
    var limit := s2.st.limit;
    KeyBounds(index, limit);
    var key := Key(index, limit);
    var rows2 := s2.st.rows;
    var w := Window(rows, key, limit);
    var p := index - key;
    assert |rows| < key + limit;
    assert RemoveAt(w, p) == Window(rows2, key, limit);
    var d3 := ShiftChunks(s2, key, w, p, true).deltas;
    assert d3 == s2.deltas[key := Some(Window(rows2, key, limit))];
    forall k | IsResident(d3, k)
      ensures k >= 0 && Aligned(k, limit) && d3[k].value == Window(rows2, k, limit)
    {
      if k != key {
        assert IsResident(s2.deltas, k);
        if k > key {
          AlignedGap(key, k, limit);
        } else {
          DelItemEarlierChunks(rows, index, k, key, limit);
        }
      }
    }
  }

  // ---------------------------------------------------------------------
  // append, insert, extend, clear, pop, remove

  /** `append(arr)`: a cache appends `arr` and returns it. Otherwise the
      row is persisted (`accepted` is whether the store answered with the
      new row); when it was, the row joins the chunk that covers its
      position if that chunk is held, an `add` patch is queued and the new
      row is returned. */
  function Append(s: Snap, arr: Row, accepted: bool): (r: (Option<Row>, Snap))
    ensures s.cache.None? ==> (r.0.Some? <==> accepted)
    ensures s.cache.None? && r.0.Some? ==>
      r.1.st.rows == s.st.rows + [r.0.value] && LastCell(r.0.value) == Int(s.st.nextId) &&
      r.1.queue == s.queue + [Add(s.st.length, r.0.value)]
    ensures s.cache.None? && r.0.None? ==> r.1 == s
  {
    if s.cache.Some? then (Some(arr), s.(cache := Some(s.cache.value + [arr])))
    else
      var index := Len(s);
      var (st1, row) := Appended(s.st, arr, accepted);
      if row.None? then (None, s.(st := st1))
      else
        var key := Key(index, s.st.limit);
        var deltas := if IsResident(s.deltas, key) then s.deltas[key := Some(s.deltas[key].value + [row.value])] else s.deltas;
        (row, s.(st := st1, deltas := deltas, queue := s.queue + [Add(index, row.value)]))
  }

  /** Appending to a valid list adds the store's new row at the end of the
      table, keeps the list valid, queues one `add` patch and returns the
      row; a row the store refuses changes nothing. */
  lemma AppendKeepsValid(s: Snap, arr: Row, accepted: bool)
    requires Valid(s)
    ensures Valid(Append(s, arr, accepted).1)
    ensures accepted ==>
      var row := NewRow(s.st.columns, arr, s.st.nextId);
      Append(s, arr, accepted).0 == Some(row) &&
      Append(s, arr, accepted).1.st.rows == s.st.rows + [row] &&
      Append(s, arr, accepted).1.queue == s.queue + [Add(|s.st.rows|, row)]
    ensures !accepted ==> Append(s, arr, accepted) == (None, s)
  {
    if accepted {
      var limit := s.st.limit;
      var rows := s.st.rows;
      var row := NewRow(s.st.columns, arr, s.st.nextId);
      var rows2 := rows + [row];
      var key := Key(|rows|, limit);
      KeyBounds(|rows|, limit);
      AppendedKeeps(s.st, arr, accepted);
      var s2 := Append(s, arr, accepted).1;
      forall k | IsResident(s2.deltas, k)
        ensures k >= 0 && Aligned(k, limit) && s2.deltas[k].value == Window(rows2, k, limit)
      {
        assert IsResident(s.deltas, k);
        if k == key {
          assert Window(rows, k, limit) == rows[k..];
          assert rows[k..] + [row] == Window(rows2, k, limit);
        } else if k < key {
          AlignedGap(k, key, limit);
          assert Window(rows2, k, limit) == Window(rows, k, limit);
        } else {
          AlignedGap(key, k, limit);
        }
      }
    }
  }

  /** In cache mode `append` behaves like a Python list: one more element,
      the appended one last, the others unchanged. */
  lemma CacheAppendGet(s: Snap, arr: Row, accepted: bool, j: int)
    requires s.cache.Some? && 0 <= j < Len(s)
    ensures Append(s, arr, accepted).0 == Some(arr)
    ensures Len(Append(s, arr, accepted).1) == Len(s) + 1
    ensures GetItem(Append(s, arr, accepted).1, Len(s)).0 == Got(arr)
    ensures GetItem(Append(s, arr, accepted).1, j).0 == GetItem(s, j).0
  {
  }

  /** `insert(index, value)`: the index is ignored and the row appended. */
  function Insert(s: Snap, index: int, value: Row, accepted: bool): Snap {
    Append(s, value, accepted).1
  }

  /** Inserting into a valid list at any position puts the new row at the
      end of the table. */
  lemma InsertAppends(s: Snap, index: int, value: Row)
    requires Valid(s)
    ensures Insert(s, index, value, true).st.rows == s.st.rows + [NewRow(s.st.columns, value, s.st.nextId)]
    ensures Valid(Insert(s, index, value, true))
  {
    AppendKeepsValid(s, value, true);
  }

  /** The rows `extend` hands to the chunk at `start`'s key: as many as
      fit before the next chunk offset. */
  function CanFill(start: int, limit: Pos): (n: int)
    ensures 1 <= n <= limit
    ensures Key(start, limit) + limit == start + n
  {
    KeyBounds(start, limit);
    Key(start, limit) + limit - start
  }

  /** The `extend` loop: the new rows, from `i` on, are added chunk by
      chunk from position `start`. A held chunk is extended; a missing one
      is created only when it starts exactly at `start` (a chunk starting
      before it would lack the rows in between). */
  function Distribute(deltas: Chunks, limit: Pos, start: int, rows: seq<Row>, i: nat): Chunks
    decreases |rows| - i
  {
    if i >= |rows| then deltas
    else
      var key := Key(start, limit);
      var n := CanFill(start, limit);
      Distribute(Place(deltas, key, start, Slice(rows, i, i + n)), limit, start + n, rows, i + n)
  }

  /** One turn of the `extend` loop: `piece` joins the held chunk `key`, or
      becomes that chunk when it is missing and starts at `start`. */
  function Place(deltas: Chunks, key: int, start: int, piece: seq<Row>): Chunks {
    if IsResident(deltas, key) then deltas[key := Some(deltas[key].value + piece)]
    else if start == key then deltas[key := Some(piece)]
    else deltas
  }

  /** `extend(rows)`: persist the rows, add them to the chunks, and queue
      one `updates` patch with the chunk at the old length and the new
      length. */
  function Extend(s: Snap, batch: seq<Row>): (r: Snap)
    ensures |r.st.rows| == |s.st.rows| + |batch| && r.st.rows[..|s.st.rows|] == s.st.rows
    ensures forall i :: |s.st.rows| <= i < |r.st.rows| ==> LastCell(r.st.rows[i]) == Int(s.st.nextId + i - |s.st.rows|)
    ensures |r.queue| == |s.queue| + 1 && r.queue[..|s.queue|] == s.queue
  {
    var start := s.st.length;
    var s1 := Distributed(s, batch);
    var (delta, data, s2) := GetDeltaChunk(s1, start);
    s2.(queue := s2.queue + [BulkUpdate(delta, data, |batch| + start)])
  }

  /** The rows of `extend` persisted and handed to the chunks. */
  function Distributed(s: Snap, batch: seq<Row>): Snap
  {
    var (st1, created) := AppendedAll(s.st, batch);
    s.(st := st1, deltas := Distribute(s.deltas, s.st.limit, s.st.length, created, 0))
  }

  /** What the `extend` loop keeps: chunks before `start`'s chunk mirror
      the final rows, the chunk of `start` holds the rows up to `start`, and
      later chunks are still empty. */
  ghost predicate DistInv(deltas: Chunks, rows: seq<Row>, start: nat, limit: Pos) {
    forall k :: IsResident(deltas, k) ==>
      k >= 0 && Aligned(k, limit) &&
      deltas[k].value == (if k < Key(start, limit) then Window(rows, k, limit)
                          else if k == Key(start, limit) then Slice(rows, k, start)
                          else [])
  }

  lemma {:induction false} DistributeMirrors(deltas: Chunks, limit: Pos, start: nat, rows: seq<Row>,
                                             base: nat, i: nat)
    requires base <= |rows| && start == base + i
    requires DistInv(deltas, rows, start, limit)
    ensures MirrorsRows(Distribute(deltas, limit, start, rows[base..], i), rows, limit)
    decreases |rows| - base - i
  {
    var created := rows[base..];
    if i >= |created| {
      DistDone(deltas, rows, start, limit);
    } else {
      var key := Key(start, limit);
      var n := CanFill(start, limit);
      DistUnfold(deltas, limit, start, rows, base, i);
      DistStep(deltas, rows, start, limit);
      DistributeMirrors(Place(deltas, key, start, Slice(rows, start, key + limit)), limit, start + n, rows, base, i + n);
    }
  }

  /** One turn of the loop over the new rows `rows[base..]`, from `i` on,
      places the rows from `start` up to the end of its chunk. */
  lemma DistUnfold(deltas: Chunks, limit: Pos, start: nat, rows: seq<Row>, base: nat, i: nat)
    requires base <= |rows| && start == base + i && i < |rows[base..]|
    ensures var key := Key(start, limit);
      Distribute(deltas, limit, start, rows[base..], i)
      == Distribute(Place(deltas, key, start, Slice(rows, start, key + limit)), limit, start + CanFill(start, limit), rows[base..], i + CanFill(start, limit))
  {
    var key := Key(start, limit);
    var n := CanFill(start, limit);
    SliceShift(rows, base, i, i + n);
  }

  /** Once every new row is placed, the held chunks mirror the rows. */
  lemma DistDone(deltas: Chunks, rows: seq<Row>, start: nat, limit: Pos)
    requires |rows| <= start && DistInv(deltas, rows, start, limit)
    ensures MirrorsRows(deltas, rows, limit)
  {
    var key := Key(start, limit);
    KeyBounds(start, limit);
    forall k | IsResident(deltas, k)
      ensures k >= 0 && Aligned(k, limit) && deltas[k].value == Window(rows, k, limit)
    {
      if k == key {
        SliceToEnd(rows, k, start, k + limit);
      } else if k > key {
        AlignedGap(key, k, limit);
      }
    }
  }

  /** One turn of the loop keeps its invariant, at the next chunk start. */
  lemma DistStep(deltas: Chunks, rows: seq<Row>, start: nat, limit: Pos)
    requires DistInv(deltas, rows, start, limit)
    ensures var key := Key(start, limit);
      DistInv(Place(deltas, key, start, Slice(rows, start, key + limit)), rows, start + CanFill(start, limit), limit)
  {
    var key := Key(start, limit);
    KeyBounds(start, limit);
    var next := start + CanFill(start, limit);
    var deltas2 := Place(deltas, key, start, Slice(rows, start, key + limit));
    SliceConcat(rows, key, start, key + limit);
    AlignedNext(key, limit);
    KeyWithin(key + limit, next, limit);
    forall k | IsResident(deltas2, k)
      ensures k >= 0 && Aligned(k, limit) &&
        deltas2[k].value == (if k < Key(next, limit) then Window(rows, k, limit)
                             else if k == Key(next, limit) then Slice(rows, k, next)
                             else [])
    {
      if k != key {
        assert IsResident(deltas, k);
        if k > key {
          AlignedGap(key, k, limit);
        }
      }
    }
  }

  /** Before the `extend` loop its invariant holds: chunks mirroring the
      rows mirror them as a prefix of the extended rows. */
  lemma DistStart(deltas: Chunks, rows: seq<Row>, rows2: seq<Row>, limit: Pos)
    requires MirrorsRows(deltas, rows, limit) && |rows| <= |rows2| && rows == rows2[..|rows|]
    ensures DistInv(deltas, rows2, |rows|, limit)
  {
    var len := |rows|;
    KeyBounds(len, limit);
    var key := Key(len, limit);
    forall k | IsResident(deltas, k)
      ensures k >= 0 && Aligned(k, limit) &&
        deltas[k].value == (if k < key then Window(rows2, k, limit)
                            else if k == key then Slice(rows2, k, len)
                            else [])
    {
      if k < key {
        AlignedGap(k, key, limit);
        SlicePrefix(rows, rows2, k, k + limit);
      } else if k == key {
        SlicePrefix(rows, rows2, k, len);
        SliceToEnd(rows, k, len, k + limit);
      } else {
        AlignedGap(key, k, limit);
      }
    }
  }

  /** Extending a valid list adds the new rows at the end of the table in
      order, keeps the list valid, and queues one `updates` patch carrying
      the chunk of the old length as the table now has it, and the new
      length. */
  lemma ExtendKeepsValid(s: Snap, batch: seq<Row>)
    requires Valid(s)
    ensures Extend(s, batch).st.rows == s.st.rows + CreatedRows(s.st.columns, batch, s.st.nextId)
    ensures Valid(Extend(s, batch))
    ensures var rows2 := Extend(s, batch).st.rows;
      var len := |s.st.rows|;
      Extend(s, batch).queue == s.queue + [
        if batch == [] then BulkUpdate(-1, None, len)
        else BulkUpdate(Key(len, s.st.limit), Some(Window(rows2, Key(len, s.st.limit), s.st.limit)), len + |batch|)]
  {
    DistributedValid(s, batch);
    GetDeltaChunkMirrors(Distributed(s, batch), |s.st.rows|);
  }

  /** The persisted and distributed rows keep the list valid. */
  lemma DistributedValid(s: Snap, batch: seq<Row>)
    requires Valid(s)
    ensures Distributed(s, batch).st.rows == s.st.rows + CreatedRows(s.st.columns, batch, s.st.nextId)
    ensures Distributed(s, batch).st.length == s.st.length + |batch|
    ensures Distributed(s, batch).cache == s.cache && Distributed(s, batch).queue == s.queue
    ensures Valid(Distributed(s, batch))
  {
    var limit := s.st.limit;
    var rows := s.st.rows;
    var len := |rows|;
    var (st1, created) := AppendedAll(s.st, batch);
    var rows2 := st1.rows;
    assert rows2 == rows + created && rows2[len..] == created;
    AppendedAllKeeps(s.st, batch);
    DistStart(s.deltas, rows, rows2, limit);
    DistributeMirrors(s.deltas, limit, len, rows2, len, 0);
  }

  /** `clear(detach)`: empty the table, leave a `None` chunk at 0 and queue
      an `updates` patch with length 0. */
  function Clear(s: Snap): (r: Snap)
    ensures r.st == Cleared(s.st) && r.cache == s.cache
    ensures r.deltas == map[0 := None] && r.queue == s.queue + [LengthUpdate(0)]
  {
    s.(st := Cleared(s.st), deltas := map[0 := None], queue := s.queue + [LengthUpdate(0)])
  }

  /** A cleared persistent list is valid and empty, and reads nothing. */
  lemma ClearKeepsValid(s: Snap, index: int)
    requires s.cache.None? && WellFormed(s.st)
    ensures Valid(Clear(s)) && Len(Clear(s)) == 0
    ensures GetItem(Clear(s), index).0 == Nothing
  {
  }

  /** `pop(index)` as written: the element at `index` is read and then
      deleted, with the index used as given. */
  function PopAsWritten(s: Snap, index: int): (Lookup, Snap) {
    var (value, s1) := GetItem(s, index);
    var (_, s2) := DelItem(s1, index);
    (value, s2)
  }

  /** `pop(index)` with a negative index counted from the end, as for a
      Python list. */
  function Pop(s: Snap, index: int): (r: (Lookup, Snap))
    ensures |r.1.st.rows| <= |s.st.rows| && r.1.st.nextId == s.st.nextId
  {
    var i := if index < 0 then index + Len(s) else index;
    var (value, s1) := GetItem(s, i);
    var (_, s2) := DelItem(s1, i);
    (value, s2)
  }

  /** `remove(value)`: the last cell of the value (its ID) is the position
      deleted; an empty value raises IndexError. A last cell that is not an
      `Int` is taken as raising with nothing changed, although Python would
      use a bool as 0 or 1, and a float only raises once the row is gone. */
  function Remove(s: Snap, value: Row): (r: (bool, Snap))
    ensures |r.1.st.rows| <= |s.st.rows| && r.1.st.nextId == s.st.nextId
    ensures value == [] || !value[|value| - 1].Int? ==> r == (true, s)
  {
    if value == [] then (true, s)
    else match value[|value| - 1]
      case Int(i) => DelItem(s, i)
      case _ => (true, s)
  }

  /** Popping a valid list at a position inside it (negative ones counted
      from the end) returns that row and removes it from the table. */
  lemma PopKeepsValid(s: Snap, index: int)
    requires Valid(s) && -(|s.st.rows| as int) <= index < |s.st.rows|
    ensures var i := if index < 0 then index + |s.st.rows| else index;
      Pop(s, index).0 == Got(s.st.rows[i]) &&
      Pop(s, index).1.st.rows == s.st.rows[..i] + s.st.rows[i + 1..]
    ensures Valid(Pop(s, index).1)
  {
    var i := if index < 0 then index + |s.st.rows| else index;
    assert Len(s) == |s.st.rows|;
    GetItemMirrors(s, i);
    var s1 := GetItem(s, i).1;
    DelItemInRange(s1, i);
    assert Pop(s, index) == (GetItem(s, i).0, DelItem(s1, i).1);
  }

  /** Removing a row whose ID equals its position (true until the first
      deletion) deletes that row. */
  lemma RemoveByPosition(s: Snap, value: Row, i: int)
    requires Valid(s) && value != [] && value[|value| - 1] == Int(i) && 0 <= i < |s.st.rows|
    ensures !Remove(s, value).0
    ensures Remove(s, value).1.st.rows == s.st.rows[..i] + s.st.rows[i + 1..]
    ensures Valid(Remove(s, value).1)
  {
    DelItemKeepsValid(s, i);
  }

  // ---------------------------------------------------------------------
  // The operations as the source writes them

  /** `__delitem__` as written: the position is passed to `delete_row`,
      which deletes by ID, and a full chunk is refilled only from a held
      next chunk. */
  function DelItemAsWritten(s: Snap, index: int): (r: (bool, Snap))
    ensures |r.1.st.rows| <= |s.st.rows| && r.1.st.nextId == s.st.nextId && r.1.cache == s.cache
    ensures r.1.queue == s.queue || r.1.queue == s.queue + [Delete(index)]
  {
    var (key, chunk, s1) := GetDeltaChunk(s, index);
    KeyBounds(index, s.st.limit);
    if !(chunk.Some? && chunk.value != []) then (false, s1)
    else
      var s2 := s1.(st := Deleted(s1.st, Int(index)), queue := s1.queue + [Delete(index)]);
      if index - key >= |chunk.value| then (true, s2)
      else (false, ShiftChunks(s2, key, chunk.value, index - key, false))
  }

  /** `append` as written: after the row is persisted, the chunk covering
      its position is fetched (reading it from the table, which already
      holds the new row, when it is not held) and the row is appended to it. */
  function AppendAsWritten(s: Snap, arr: Row, accepted: bool): (Option<Row>, Snap)
  {
    if s.cache.Some? then (Some(arr), s.(cache := Some(s.cache.value + [arr])))
    else
      var index := Len(s);
      var (st1, row) := Appended(s.st, arr, accepted);
      var (key, lst, s2) := GetDeltaChunk(s.(st := st1), index);
      if lst.Some? && row.Some? then
        (row, s2.(deltas := s2.deltas[key := Some(lst.value + [row.value])], queue := s2.queue + [Add(index, row.value)]))
      else (None, s2)
  }

  /** What the `extend` loop as written needs in order to end: the chunk of
      `start` holds no more rows than precede `start` in it, and every held
      chunk after it is empty. (Otherwise `can_fill` can reach 0 and the
      source loops forever: see `FullChunkStalls`.) */
  predicate Fillable(deltas: Chunks, start: int, limit: Pos) {
    && |Resident(deltas, Key(start, limit))| <= start - Key(start, limit)
    && forall k :: k in deltas && k > Key(start, limit) && deltas[k].Some? ==> deltas[k].value == []
  }

  /** An offset at or below `x` is at or below `x`'s chunk. */
  lemma AlignedBelow(a: int, x: int, limit: Pos)
    requires Aligned(a, limit) && a <= x
    ensures a <= Key(x, limit)
  {
    KeyBounds(x, limit);
    if Key(x, limit) < a {
      AlignedGap(Key(x, limit), a, limit);
    }
  }

  lemma FillableCanFill(deltas: Chunks, start: int, limit: Pos)
    requires Fillable(deltas, start, limit)
    ensures limit - |Resident(deltas, Key(start, limit))| >= 1
  {
    KeyBounds(start, limit);
  }

  lemma FillableNext(deltas: Chunks, start: int, limit: Pos, c: seq<Row>)
    requires Fillable(deltas, start, limit)
    ensures Fillable(deltas[Key(start, limit) := Some(c)],
                     start + limit - |Resident(deltas, Key(start, limit))|, limit)
  {
    var key := Key(start, limit);
    var next := start + limit - |Resident(deltas, key)|;
    KeyBounds(start, limit);
    KeyBounds(next, limit);
    AlignedNext(key, limit);
    AlignedBelow(key + limit, next, limit);
    var d2 := deltas[key := Some(c)];
    assert Resident(d2, Key(next, limit)) == Resident(deltas, Key(next, limit));
  }

  /** A valid list can always be extended by the loop as written. */
  lemma ValidFillable(s: Snap)
    requires Valid(s)
    ensures Fillable(s.deltas, s.st.length, s.st.limit)
  {
    var limit := s.st.limit;
    var len := s.st.length;
    KeyBounds(len, limit);
    var key := Key(len, limit);
    forall k | k in s.deltas && k > key && s.deltas[k].Some?
      ensures s.deltas[k].value == []
    {
      AlignedGap(key, k, limit);
    }
  }

  /** The `extend` loop as written: a missing chunk is created even when it
      starts before `start`, and it is filled with `limit` rows. */
  function DistributeAsWritten(deltas: Chunks, limit: Pos, start: int, rows: seq<Row>, i: nat): Chunks
    requires Fillable(deltas, start, limit)
    decreases |rows| - i
  {
    if i >= |rows| then deltas
    else
      var key := Key(start, limit);
      var list := Resident(deltas, key);
      var canFill := limit - |list|;
      FillableCanFill(deltas, start, limit);
      FillableNext(deltas, start, limit, list + Slice(rows, i, i + canFill));
      DistributeAsWritten(Topped(deltas, limit, start, rows, i), limit, start + canFill, rows, i + canFill)
  }

  /** One round of the loop as written: the chunk holding `start` is
      topped up with at least one row and the rest is distributed from the
      next offset on. */
  lemma DistributeAsWrittenStep(deltas: Chunks, limit: Pos, start: int, rows: seq<Row>, i: nat, canFill: int)
    requires Fillable(deltas, start, limit) && i < |rows|
    requires canFill == limit - |Resident(deltas, Key(start, limit))|
    ensures canFill >= 1
    ensures Fillable(Topped(deltas, limit, start, rows, i), start + canFill, limit)
    ensures DistributeAsWritten(deltas, limit, start, rows, i)
         == DistributeAsWritten(Topped(deltas, limit, start, rows, i), limit, start + canFill, rows, i + canFill)
  {
    var key := Key(start, limit);
    FillableCanFill(deltas, start, limit);
    FillableNext(deltas, start, limit, Resident(deltas, key) + Slice(rows, i, i + canFill));
  }

  /** The chunk holding `start` topped up to `limit` rows from row `i` on. */
  function Topped(deltas: Chunks, limit: Pos, start: int, rows: seq<Row>, i: nat): Chunks
    requires Fillable(deltas, start, limit)
  {
    FillableCanFill(deltas, start, limit);
    var key := Key(start, limit);
    var canFill := limit - |Resident(deltas, key)|;
    deltas[key := Some(Resident(deltas, key) + Slice(rows, i, i + canFill))]
  }

  lemma ToppedFillable(deltas: Chunks, limit: Pos, start: int, rows: seq<Row>, i: nat, canFill: int)
    requires Fillable(deltas, start, limit)
    requires canFill == limit - |Resident(deltas, Key(start, limit))|
    ensures Fillable(Topped(deltas, limit, start, rows, i), start + canFill, limit)
  {
    var key := Key(start, limit);
    FillableCanFill(deltas, start, limit);
    FillableNext(deltas, start, limit, Resident(deltas, key) + Slice(rows, i, i + canFill));
  }

  /** `extend` as written. */
  function ExtendAsWritten(s: Snap, batch: seq<Row>): Snap
    requires Fillable(s.deltas, s.st.length, s.st.limit)
  {
    var start := s.st.length;
    var (st1, created) := AppendedAll(s.st, batch);
    var s1 := s.(st := st1, deltas := DistributeAsWritten(s.deltas, s.st.limit, start, created, 0));
    var (delta, data, s2) := GetDeltaChunk(s1, start);
    s2.(queue := s2.queue + [BulkUpdate(delta, data, |created| + start)])
  }

  /** One turn of the `extend` loop as written, from any state: the chunk
      holding `start` (a new empty one when none is held) is given
      `can_fill` more rows, and `start`, `i_rows` and `len_rows` move by
      `can_fill`. The result is the new chunks, `start`, `i_rows` and
      `len_rows`. */
  function LoopTurn(deltas: Chunks, limit: Pos, start: int, rows: seq<Row>, i: int, lenRows: int): (r: (Chunks, int, int, int))
    ensures r.1 - start == r.2 - i == lenRows - r.3
    ensures IsResident(r.0, Key(start, limit))
    ensures forall k :: k != Key(start, limit) ==> (k in r.0 <==> k in deltas) && (k in deltas ==> r.0[k] == deltas[k])
  {
    var key := Key(start, limit);
    var list := Resident(deltas, key);
    var canFill := if IsResident(deltas, key) then limit - |list| else limit;
    var added := if canFill != 0 then PySlice(rows, i, i + canFill) else [];
    (deltas[key := Some(list + added)], start + canFill, i + canFill, lenRows - canFill)
  }

  /** `n` turns of the loop, which stops early once `len_rows` is no longer
      positive. */
  function Turns(deltas: Chunks, limit: Pos, start: int, rows: seq<Row>, i: int, lenRows: int, n: nat): (Chunks, int, int, int)
    decreases n
  {
    if n == 0 || lenRows <= 0 then (deltas, start, i, lenRows)
    else
      var (d, s, j, l) := LoopTurn(deltas, limit, start, rows, i, lenRows);
      Turns(d, limit, s, rows, j, l, n - 1)
  }

  lemma TurnsStep(deltas: Chunks, limit: Pos, start: int, rows: seq<Row>, i: int, lenRows: int, n: nat)
    requires n > 0 && lenRows > 0
    ensures var t := LoopTurn(deltas, limit, start, rows, i, lenRows);
      Turns(deltas, limit, start, rows, i, lenRows, n) == Turns(t.0, limit, t.1, rows, t.2, t.3, n - 1)
  {
  }

  /** Where the loop can extend, a turn is the step `DistributeAsWritten`
      takes: the chunk of `start` topped up, and at least one row handed out. */
  lemma LoopTurnTops(deltas: Chunks, limit: Pos, start: int, rows: seq<Row>, i: nat, lenRows: int)
    requires Fillable(deltas, start, limit)
    ensures var canFill := limit - |Resident(deltas, Key(start, limit))|;
      canFill >= 1 &&
      LoopTurn(deltas, limit, start, rows, i, lenRows)
        == (Topped(deltas, limit, start, rows, i), start + canFill, i + canFill, lenRows - canFill)
  {
    var key := Key(start, limit);
    var canFill := limit - |Resident(deltas, key)|;
    FillableCanFill(deltas, start, limit);
    PySliceNatural(rows, i, i + canFill);
  }

  /** Where the loop can extend, it ends within as many turns as there are
      rows left to hand out. */
  lemma {:induction false} FillableLoopEnds(deltas: Chunks, limit: Pos, start: int, rows: seq<Row>, i: nat, n: nat)
    requires Fillable(deltas, start, limit) && i + n >= |rows|
    ensures Turns(deltas, limit, start, rows, i, |rows| - i, n).3 <= 0
    decreases n
  {
    if n == 0 || |rows| - i <= 0 {
      assert Turns(deltas, limit, start, rows, i, |rows| - i, n) == (deltas, start, i, |rows| - i);
    } else {
      var key := Key(start, limit);
      var canFill := limit - |Resident(deltas, key)|;
      var topped := Topped(deltas, limit, start, rows, i);
      LoopTurnTops(deltas, limit, start, rows, i, |rows| - i);
      TurnsStep(deltas, limit, start, rows, i, |rows| - i, n);
      ToppedFillable(deltas, limit, start, rows, i, canFill);
      var t := LoopTurn(deltas, limit, start, rows, i, |rows| - i);
      assert t == (topped, start + canFill, i + canFill, |rows| - (i + canFill));
      FillableLoopEnds(topped, limit, start + canFill, rows, i + canFill, n - 1);
      assert Turns(deltas, limit, start, rows, i, |rows| - i, n) == Turns(t.0, limit, t.1, rows, t.2, t.3, n - 1);
    }
  }

  /** When the chunk holding `start` is already full, a turn finds
      `can_fill` 0 and changes nothing, so the loop never ends: after any
      number of turns `len_rows` is still positive. */
  lemma {:induction false} FullChunkStalls(deltas: Chunks, limit: Pos, start: int, rows: seq<Row>, i: int, lenRows: int, n: nat)
    requires IsResident(deltas, Key(start, limit)) && |deltas[Key(start, limit)].value| == limit
    requires lenRows > 0
    ensures Turns(deltas, limit, start, rows, i, lenRows, n) == (deltas, start, i, lenRows)
    decreases n
  {
    if n > 0 {
      var key := Key(start, limit);
      assert Resident(deltas, key) + [] == deltas[key].value;
      assert deltas[key := deltas[key]] == deltas;
      assert LoopTurn(deltas, limit, start, rows, i, lenRows) == (deltas, start, i, lenRows);
      FullChunkStalls(deltas, limit, start, rows, i, lenRows, n - 1);
    }
  }

  // ---------------------------------------------------------------------
  // Inputs that show the discrepancies

  /** A one-row table whose only row has ID 5, as after earlier deletions. */
  function LoneRow(): Snap {
    Snap(Store(2, 0, [[Int(5)]], 6, 1), None, map[0 := Some([[Int(5)]])], [])
  }

  lemma LoneRowValid()
    ensures Valid(LoneRow())
  {
    var s := LoneRow();
    forall k | IsResident(s.deltas, k)
      ensures k >= 0 && Aligned(k, 2) && s.deltas[k].value == Window(s.st.rows, k, 2)
    {
      assert k == 0;
    }
  }

  /** Deleting position 0 deletes ID 0, which no row has: the row stays in
      the table, but the counter drops to 0. */
  lemma DelItemDeletesById()
    ensures Valid(LoneRow())
    ensures DelItemAsWritten(LoneRow(), 0).1.st.rows == [[Int(5)]]
    ensures DelItemAsWritten(LoneRow(), 0).1.st.length == 0
  {
    LoneRowValid();
    var s := LoneRow();
    assert Key(0, 2) == 0 && IsResident(s.deltas, 0);
    assert GetDeltaChunk(s, 0) == (0, Some([[Int(5)]]), s);
    assert RemoveId([[Int(5)]], Int(0)) == [[Int(5)]];
    var s2 := s.(st := Deleted(s.st, Int(0)), queue := s.queue + [Delete(0)]);
    assert s2.st.rows == [[Int(5)]] && s2.st.length == 0;
    assert DelItemAsWritten(s, 0).1 == ShiftChunks(s2, 0, [[Int(5)]], 0, false);
  }

  /** Corrected, deleting position 0 of the lone row empties the table. */
  lemma DelItemLoneRow()
    ensures DelItem(LoneRow(), 0).1.st.rows == [] && Valid(DelItem(LoneRow(), 0).1)
  {
    LoneRowValid();
    DelItemKeepsValid(LoneRow(), 0);
  }

  /** Three rows with IDs 0, 1, 2 and page size 2; only the first chunk is held. */
  function ThreeRows(): Snap {
    Snap(Store(2, 0, [[Int(0)], [Int(1)], [Int(2)]], 3, 3), None, map[0 := Some([[Int(0)], [Int(1)]])], [])
  }

  lemma ThreeRowsValid()
    ensures Valid(ThreeRows())
  {
    var s := ThreeRows();
    forall k | IsResident(s.deltas, k)
      ensures k >= 0 && Aligned(k, 2) && s.deltas[k].value == Window(s.st.rows, k, 2)
    {
      assert k == 0;
    }
  }

  /** Deleting row 0 leaves the held first chunk one row short when the next
      chunk is not held: reading position 1 then raises IndexError although
      the table has a row there. */
  lemma DelItemLeavesShortChunk()
    ensures Valid(ThreeRows())
    ensures GetItem(DelItemAsWritten(ThreeRows(), 0).1, 1).0 == Raised
    ensures DelItemAsWritten(ThreeRows(), 0).1.st.rows == [[Int(1)], [Int(2)]]
  {
    ThreeRowsValid();
    DelRowZeroAsWritten();
    var s2 := DelItemAsWritten(ThreeRows(), 0).1;
    assert Key(1, 2) == 0;
    assert GetDeltaChunk(s2, 1) == (0, Some([[Int(1)]]), s2);
  }

  /** The snapshot left by deleting row 0 of `ThreeRows` as written: the
      first chunk holds one row and nothing else is held. */
  lemma DelRowZeroAsWritten()
    ensures DelItemAsWritten(ThreeRows(), 0).1.st.rows == [[Int(1)], [Int(2)]]
    ensures DelItemAsWritten(ThreeRows(), 0).1.st.length == 2
    ensures DelItemAsWritten(ThreeRows(), 0).1.st.limit == 2
    ensures DelItemAsWritten(ThreeRows(), 0).1.cache.None?
    ensures IsResident(DelItemAsWritten(ThreeRows(), 0).1.deltas, 0)
    ensures DelItemAsWritten(ThreeRows(), 0).1.deltas[0] == Some([[Int(1)]])
  {
    var s := ThreeRows();
    var r0, r1, r2 := [Int(0)], [Int(1)], [Int(2)];
    assert Key(0, 2) == 0;
    assert GetDeltaChunk(s, 0) == (0, Some([r0, r1]), s);
    assert RemoveAt([r0, r1], 0) == [r1];
    assert NextFirst(s.deltas, 2) == [];
    assert RemoveId(s.st.rows, Int(0)) == [r1, r2] by {
      assert s.st.rows[1..] == [r1, r2];
      RemoveAbsentId([r1, r2], Int(0));
    }
    var t := s.(st := Deleted(s.st, Int(0)), queue := s.queue + [Delete(0)]);
    assert DelItemAsWritten(s, 0) == (false, ShiftChunks(t, 0, [r0, r1], 0, false));
    assert [r1] + [] == [r1];
    assert PutChunk(t, 0, [r1] + []) == t.(deltas := s.deltas[0 := Some([r1])]);
    var s2 := DelItemAsWritten(s, 0).1;
    assert s2.deltas == CleanCacheFrom(s.deltas[0 := Some([r1])], 2);
  }

  /** With the refill read from the table, position 1 reads the table's row. */
  lemma DelItemRefillsChunk()
    ensures GetItem(DelItem(ThreeRows(), 0).1, 1).0 == Got([Int(2)])
  {
    ThreeRowsValid();
    var s := ThreeRows();
    DelItemKeepsValid(s, 0);
    var s3 := DelItem(s, 0).1;
    assert s3.st.rows == [[Int(1)], [Int(2)]];
    GetItemMirrors(s3, 1);
  }

  /** Extending three rows by one when the chunk at offset 2 is not held:
      the new chunk at 2 gets the new row alone, so position 2 reads the new
      row instead of the table's third row. */
  lemma ExtendMisplacesRows()
    ensures Valid(ThreeRows()) && Fillable(ThreeRows().deltas, 3, 2)
    ensures ExtendAsWritten(ThreeRows(), [[]]).st.rows[2] == [Int(2)]
    ensures GetItem(ExtendAsWritten(ThreeRows(), [[]]), 2).0 == Got([Int(3)])
    ensures GetItem(Extend(ThreeRows(), [[]]), 2).0 == Got([Int(2)])
  {
    ThreeRowsValid();
    ValidFillable(ThreeRows());
    var s2 := ExtendThreeRowsAsWritten();
    assert Key(2, 2) == 2;
    assert GetDeltaChunk(s2, 2) == (2, Some([[Int(3)]]), s2);
    ExtendThreeRows();
  }

  /** The corrected `extend` keeps the table's third row at position 2. */
  lemma ExtendThreeRows()
    ensures GetItem(Extend(ThreeRows(), [[]]), 2).0 == Got([Int(2)])
  {
    ThreeRowsValid();
    ExtendKeepsValid(ThreeRows(), [[]]);
    GetItemMirrors(Extend(ThreeRows(), [[]]), 2);
  }

  /** The state `extend` leaves, as written, after one row is added to
      `ThreeRows()`: a chunk at offset 2 that holds only the new row. */
  lemma ExtendThreeRowsAsWritten() returns (s2: Snap)
    ensures Fillable(ThreeRows().deltas, 3, 2)
    ensures s2 == ExtendAsWritten(ThreeRows(), [[]])
    ensures s2.st.rows == [[Int(0)], [Int(1)], [Int(2)], [Int(3)]] && s2.cache.None?
    ensures 2 in s2.deltas && s2.deltas[2] == Some([[Int(3)]])
  {
    ThreeRowsValid();
    var s := ThreeRows();
    ValidFillable(s);
    var row := [Int(3)];
    assert NewRow(0, [], 3) == row;
    var created := CreatedRows(0, [[]], 3);
    assert created == [row];
    assert Key(3, 2) == 2 && Key(5, 2) == 4;
    assert Resident(s.deltas, 2) == [];
    assert Slice(created, 0, 2) == created;
    assert Resident(s.deltas, 2) + Slice(created, 0, 2) == created;
    var d := s.deltas[2 := Some(created)];
    assert Fillable(d, 5, 2);
    assert DistributeAsWritten(d, 2, 5, created, 2) == d;
    assert DistributeAsWritten(s.deltas, 2, 3, created, 0) == d;
    var st1 := AppendedAll(s.st, [[]]).0;
    assert st1.rows == s.st.rows + [row] && st1.length == 4;
    var s1 := s.(st := st1, deltas := d);
    assert GetDeltaChunk(s1, 3) == (2, Some(created), s1);
    s2 := ExtendAsWritten(s, [[]]);
    assert s2 == s1.(queue := s1.queue + [BulkUpdate(2, Some(created), 4)]);
  }

  /** An empty table just cleared: its first chunk is `None`. */
  function Emptied(): Snap {
    Snap(Store(2, 0, [], 0, 0), None, map[0 := None], [])
  }

  /** The first append after `clear` reads the chunk that already has the
      new row and appends the row again. */
  lemma AppendRereadsRow()
    ensures Valid(Emptied())
    ensures var s1 := AppendAsWritten(Emptied(), [], true).1;
      s1.cache.None? && s1.st == Store(2, 0, [[Int(0)]], 1, 1) &&
      0 in s1.deltas && s1.deltas[0] == Some([[Int(0)], [Int(0)]])
  {
    var s := Emptied();
    var z := [Int(0)];
    assert NewRow(0, [], 0) == z;
    assert Key(0, 2) == 0;
    var st1 := Appended(s.st, [], true).0;
    assert Appended(s.st, [], true) == (st1, Some(z));
    assert st1.rows == [z] && st1.length == 1;
    assert !IsResident(s.deltas, 0);
    assert Slice([z], 0, 2) == [z];
    assert ReadRows(st1, 0, 0) == Some([z]);
    var g := s.(st := st1, deltas := s.deltas[0 := Some([z])]);
    assert GetDeltaChunk(s.(st := st1), 0) == (0, Some([z]), g);
    assert [z] + [z] == [z, z];
    assert AppendAsWritten(s, [], true) == (Some(z), g.(deltas := g.deltas[0 := Some([z, z])], queue := g.queue + [Add(0, z)]));
  }

  /** So after two appends position 1 reads the first row instead of the
      second. */
  lemma AppendDuplicatesRow()
    ensures var s1 := AppendAsWritten(Emptied(), [], true).1;
      GetItem(AppendAsWritten(s1, [], true).1, 1).0 == Got([Int(0)]) &&
      AppendAsWritten(s1, [], true).1.st.rows == [[Int(0)], [Int(1)]]
  {
    AppendRereadsRow();
    var z, one := [Int(0)], [Int(1)];
    assert NewRow(0, [], 1) == one;
    assert Key(1, 2) == 0;
    var s1 := AppendAsWritten(Emptied(), [], true).1;
    var st2 := Appended(s1.st, [], true).0;
    assert Appended(s1.st, [], true) == (st2, Some(one));
    assert st2.rows == [z, one] && st2.length == 2;
    assert GetDeltaChunk(s1.(st := st2), 1) == (0, Some([z, z]), s1.(st := st2));
    assert [z, z] + [one] == [z, z, one];
    var g := s1.(st := st2);
    assert AppendAsWritten(s1, [], true) == (Some(one), g.(deltas := g.deltas[0 := Some([z, z, one])], queue := g.queue + [Add(1, one)]));
    var s2 := AppendAsWritten(s1, [], true).1;
    assert 0 in s2.deltas && s2.deltas[0] == Some([z, z, one]) && s2.st == st2;
    assert GetDeltaChunk(s2, 1) == (0, Some([z, z, one]), s2);
  }

  /** After `clear` and one append the chunk at 0 holds the new row twice,
      a full chunk at offset 1, so the list is no longer one the `extend`
      loop can finish: a following `extend` finds `can_fill` 0 on every
      turn and never ends. */
  lemma ExtendAfterAppendStalls(rows: seq<Row>, n: nat)
    requires rows != []
    ensures var s1 := AppendAsWritten(Emptied(), [], true).1;
      !Fillable(s1.deltas, s1.st.length, s1.st.limit) &&
      Turns(s1.deltas, s1.st.limit, s1.st.length, rows, 0, |rows|, n) == (s1.deltas, s1.st.length, 0, |rows|)
  {
    AppendRereadsRow();
    var s1 := AppendAsWritten(Emptied(), [], true).1;
    assert Key(1, 2) == 0;
    FullChunkStalls(s1.deltas, 2, 1, rows, 0, |rows|, n);
  }

  /** With the corrected `append`, the same steps leave a valid list, and
      `extend` ends within as many turns as it has rows. */
  lemma ExtendAfterAppendEnds(rows: seq<Row>)
    ensures var s1 := Append(Emptied(), [], true).1;
      Valid(s1) && s1.st.rows == [[Int(0)]] &&
      Turns(s1.deltas, s1.st.limit, s1.st.length, rows, 0, |rows|, |rows|).3 <= 0
  {
    AppendRereadsRow();
    assert NewRow(0, [], 0) == [Int(0)];
    AppendKeepsValid(Emptied(), [], true);
    var s1 := Append(Emptied(), [], true).1;
    ValidFillable(s1);
    FillableLoopEnds(s1.deltas, s1.st.limit, s1.st.length, rows, 0, |rows|);
  }

  /** Appending only to a held chunk, the second row reads back as itself. */
  lemma AppendTwiceAfterClear()
    ensures var s1 := Append(Emptied(), [], true).1;
      GetItem(Append(s1, [], true).1, 1).0 == Got([Int(1)])
  {
    var s := Emptied();
    var z, one := [Int(0)], [Int(1)];
    assert NewRow(0, [], 0) == z && NewRow(0, [], 1) == one;
    AppendKeepsValid(s, [], true);
    var t1 := Append(s, [], true).1;
    AppendKeepsValid(t1, [], true);
    var t2 := Append(t1, [], true).1;
    assert t2.st.rows == [z, one];
    GetItemMirrors(t2, 1);
  }

  /** `pop()` with its default index -1 asks for chunk -2, whose read fails:
      it returns `None` and deletes nothing. */
  lemma PopDefaultDeletesNothing()
    ensures Valid(LoneRow())
    ensures PopAsWritten(LoneRow(), -1).0 == Nothing
    ensures PopAsWritten(LoneRow(), -1).1.st == LoneRow().st
  {
    LoneRowValid();
    var s := LoneRow();
    assert Key(-1, 2) == -2;
    assert !IsResident(s.deltas, -2);
    var s1 := s.(deltas := s.deltas[-2 := None]);
    assert GetDeltaChunk(s, -1) == (-2, None, s1);
    assert GetItem(s, -1) == (Nothing, s1);
    assert !IsResident(s1.deltas, -2);
    assert s1.deltas[-2 := None] == s1.deltas;
    assert GetDeltaChunk(s1, -1) == (-2, None, s1);
    assert DelItem(s1, -1) == (false, s1);
  }

  // ---------------------------------------------------------------------
  // index2node_relation

  /** `at_iter(fields, n)`: the `n`-th field, or None. */
  function AtIter<T>(xs: seq<T>, times: int): (r: Option<T>)
    ensures r.Some? <==> 0 <= times < |xs|
    ensures r.Some? ==> r.value == xs[times]
  {
    if 0 <= times < |xs| then Some(xs[times]) else None
  }
}
