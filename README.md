# UNISI core, modelled in Dafny

UNISI is a Python framework for web user interfaces. A program declares
screens made of blocks, blocks made of units (edits, selects, tables,
graphs, buttons and so on), and handlers. The framework keeps one `User`
object per browser session. It sends the screen, routes each request to
the addressed unit's handler, collects the units that changed, and sends
them back as update messages. Tables may be persistent. Their rows then
live in a graph database and reach the client through a paginated delta
list (`Dblist`), which queues incremental patches for every session
showing the table.

This project models the in-memory bookkeeping of that core and proves
properties about it:

- `values.dfy` (`Values`): Python values, as far as the proxies need
  them. This covers lists, dicts and objects, item and attribute paths,
  and reading or writing along a path.
- `common.dfy` (`Common`): `flatten`, `index_of`, `compose_handlers`,
  `equal_dicts`, `set_defaults`, `pretty4`, `delete_unit`, and the
  `Message` class with `set_updates`, `fill_paths4` and `contains`.
- `kdb.py` becomes `kdb.dfy` (`Kdb`): column type inference, building
  the Cypher `SET` clause, relation names, and a `Dbtable` class over an
  abstract row store whose length counter is kept as the source keeps it.
- `dbunits.py` becomes two files:
  - `dbunits.dfy` (`DbUnitsModel`): the delta list as a function of its
    state, with the invariant that the held chunks mirror the table;
  - `dblist.dfy` (`DbUnits`): the `Dblist` class, whose every method is
    proved against that function.
- `dbelements.py` is modelled the same way, by `dbelements_model.dfy`
  (`DbElementsModel`) and `dbelements.dfy` (`DbElements`).
- `units.dfy` (`Units`): `Unit` and `ChangedProxy` as classes that report
  changes to a change log standing for the user, plus `smart_complete`
  and the widget default rules.
- `guielements.dfy` (`Gui`): the older widgets, whose `mutate` shares the
  attribute dictionary.
- `users.dfy` (`Users`): element addressing, `process_element`, screen
  switching, the reflection group, `prepare_result` and the database
  patch fan-out.
- `autotest.dfy` (`Autotest`): `check_block`, `check_module` and the
  `Recorder`.
- `containers.dfy` (`Containers`): `ParamBlock`, `scroll_list`, `find`,
  the placement of the content scaler, `llm` dependency resolution and
  the `Dialog` layout.
- `tables.dfy` (`Tables`): selection, table defaults, `calc_headers`, row
  deletion and appending, and link editing.
- `graphs.dfy` (`Graphs`): the `Graph` defaults, `Node`/`Edge`, `unit2image`, and the `Net`
  class, covering its state indexing, cache invalidation, converter and
  `make_topology`.
- `voicecom.dfy` (`VoiceCommands`): the command word tables and the
  `VoiceCom` class in text mode.
- `proxy.dfy` (`Client`): the test client. This covers the `Event` flags,
  element lookup, message building, and the `Proxy` class's reply
  processing.
- `utils.dfy` (`Utils`): the URL and path helpers.

Python's semantics are written out where they matter. A dict is kept in
insertion order where iteration order shows. A list index may be
negative. Truthiness is `not x`. A `TypeError`, `IndexError` or
`AttributeError` is a `None` or a `raised` flag, and `Event` is a 16-bit
flag set. The database, the socket and handler bodies are parameters of
the model.

Where the repository's description and its code differ, the model follows
the code, except where a row under "## Findings" shows the code to be
wrong. There the behaviour as written has a member of its own, and the
classes and the other members use the corrected definition; the rows of
those members say "corrected". In cache mode, `Dblist.__delitem__` still
deletes from the database and queues a patch, but removes nothing from
the cache (unisi/dbunits.py:92-105). The text-mode `right` command only
moves while the cursor is before the last character
(unisi/voicecom.py:358-360). The `delete` command as written has the same
guard; the model's `delete` removes the character at the cursor instead.

## Model

| member | source | states |
|---|---|---|
| Values.SetItemThenGet | unisi/units.py:34-36 | an item written through a proxy reads back at the same key |
| Values.SetItemLength | unisi/units.py:34-36 | writing an item keeps a list's length and grows a dict only by a new key |
| Values.DelItemLength | unisi/units.py:47-49 | deleting an item through a proxy shortens the wrapped value by exactly one |
| Values.AtConcat | unisi/units.py:38-42 | reading through nested proxies along `p + q` is reading along `p`, then along `q` |
| Values.RebuildThenFollow | unisi/units.py:27-35 | a part written back where it was read from reads back as written |
| Values.FollowThenRebuild | unisi/units.py:27-35 | every part that can be read through a proxy can be written back |
| Values.UpdateAtSucceeds | unisi/units.py:34-36 | a write at a proxy path succeeds exactly when the path leads somewhere and the change applies there |
| Values.UpdateAtChanges | unisi/units.py:34-36 | after a write at a path, reading the path gives the changed part |
| Values.PyIndex | unisi/graphs.py:93-94 | `lst[i]` reads position `i`, or `i + n` for a negative `i`, and raises exactly outside `-n <= i < n` |
| Values.EntryIndex | unisi/units.py:34-36 | a dict key is found at its first entry, and -1 exactly when no entry has it |
| Common.FlattenAppend | unisi/common.py:7-12 | `flatten` keeps the order of leaves across a concatenation |
| Common.FlattenLeaves | unisi/common.py:7-12 | a flat list of leaves flattens to itself |
| Common.FlattenGroup | unisi/common.py:7-12 | one more level of nesting does not change the flattened leaves |
| Common.IndexOf | unisi/common.py:14-18 | `index_of` is -1 exactly when the target is absent, otherwise the first position holding it |
| Common.FirstSignal | unisi/common.py:26-29 | the first handler result that is `UpdateScreen` or `Redesign`; no earlier result is one |
| Common.ComposeHandlers | unisi/common.py:23-37 | corrected (every handler is called with `obj`): the composition stops at the first screen signal and returns it; otherwise it runs every handler and returns the union of their units, or None when it is empty |
| Common.ComposeRebindsObj | unisi/common.py:24-32 | as written, results that are not lists leave the object the next handler gets alone, and a list result makes the next handler run on its last unit instead |
| Common.ObjAfterNoLists | unisi/common.py:24-32 | as written, the handlers after results without lists all run on the original object |
| Common.Flatten | unisi/common.py:7-12 | a leading leaf is the first item flattened and a trailing leaf the last, list levels being dropped in between |
| Common.DeleteUnit | unisi/common.py:163-176 | when no unit has the name the layout is returned unchanged, and deleting never lengthens the top level |
| Common.EqualDictsIsEquality | unisi/common.py:39-40 | `equal_dicts` holds exactly when the two dicts are equal |
| Common.FirstDefaultSnoc | unisi/common.py:64-67 | a default appended to the defaults only matters for a key not defaulted before |
| Common.SetDefaults | unisi/common.py:64-67 | every attribute not yet set receives its default; attributes already set keep their values |
| Common.Pretty4 | unisi/common.py:69-73 | one leading `_` dropped, every `_` a space, the first character upper-cased; IndexError when nothing is left |
| Common.UpdatesOf | unisi/common.py:118-119 | one update entry per unit, in order, without a path |
| Common.Visible | unisi/common.py:121-134 | only updates whose unit has a path on the screen remain, each with that path |
| Common.Message.constructor | unisi/common.py:111-116 | a message without a user holds its type and one path-less update per unit |
| Common.Message.SetUpdates | unisi/common.py:118-119 | the updates are replaced by one entry per unit |
| Common.Message.FillPaths | unisi/common.py:121-134 | resolvable updates get their path, the others are removed and reported |
| Common.Message.Contains | unisi/common.py:136-140 | true exactly when the unit itself is the data of an update |
| Common.DeleteUnitRemovesFirst | unisi/common.py:163-176 | `delete_unit` reports whether a unit of that name exists and removes exactly the first one in flattened order |
| Common.RemoveFirstAppendFound | unisi/common.py:163-176 | removing the first named unit from a concatenation whose first part holds one leaves the second part as it was |
| Common.RemoveFirstAppendMissing | unisi/common.py:163-176 | when the first part holds no unit of that name, the first named unit of the second part is removed and the first part is kept |
| Common.FirstDefaultMissing | unisi/common.py:64-67 | a key no default names receives no default |
| Common.ReplaceUnderscores | unisi/common.py:72 | the result has the same length, with every `_` a space and every other character kept |
| Utils.Find | unisi/utils.py:72-73 | `str.find`: -1 exactly when the character is absent, otherwise its first position |
| Utils.RFind | unisi/utils.py:75-76 | `str.rfind`: -1 exactly when the character is absent, otherwise its last position |
| Utils.UnescapeNoEscape | unisi/utils.py:72-76 | a string without `%20` is left as it is |
| Utils.UnescapeJoin | unisi/utils.py:72-76 | a `%20` after text without `%` becomes one space |
| Utils.Unescape | unisi/utils.py:72-76 | replacing `%20` by a space shortens the string by an even number of characters |
| Utils.UrlToFilepath | unisi/utils.py:72-73 | the path is no longer than the URL, shorter when the URL has a `/`, and the whole URL unescaped when it has none |
| Utils.UrlToFilename | unisi/utils.py:75-76 | the file name is no longer than the URL, shorter when the URL has a `/`, and the whole URL unescaped when it has none |
| Utils.FilepathAfterFirstSlash | unisi/utils.py:72-73 | `url2filepath` is the unescaped part after the first `/` |
| Utils.FilepathWithoutSlash | unisi/utils.py:72-73 | `url2filepath` of a string without `/` is the whole string, unescaped |
| Utils.FilenameAfterLastSlash | unisi/utils.py:75-76 | `url2filename` is the unescaped part after the last `/` |
| Utils.UploadPath | unisi/utils.py:78-79 | `upload_path` is the upload directory, the separator and the file path, in that order |
| Utils.UploadPathRoundTrip | unisi/utils.py:75-79 | with `/` as separator, the file name of an upload path is the uploaded name |
| Utils.FilenameToUrl | unisi/utils.py:65-70 | `filename2url` never lengthens the name; IndexError where it indexes past the end |
| Utils.FilenameToUrlRelative | unisi/utils.py:65-70 | an absolute file under the application directory gives its path relative to that directory |
| Utils.FilenameToUrlKeepsRelative | unisi/utils.py:65-70 | a relative name is returned unchanged |
| Kdb.EqualFieldsDictsIffLoweredEqual | unisi/kdb.py:9-10 | two field dicts agree exactly when their lower-cased forms are equal |
| Kdb.KuzuDataType | unisi/kdb.py:20-39 | a value has no column type exactly when it is not storable; the number types are those of ints and floats, a bool is BOOLEAN |
| Kdb.JoinCommaAppend | unisi/kdb.py:43-50 | `", ".join` of two non-empty runs is the two joins separated by a comma |
| Kdb.DictToCypherSetAppend | unisi/kdb.py:43-50 | the SET clause has one item per property, in order, separated by commas |
| Kdb.DictToCypherSetString | unisi/kdb.py:43-50 | a string property is quoted: `SET alias.key = 'value'` |
| Kdb.InferUntypedStep | unisi/kdb.py:98-101 | a NULL or untyped cell leaves the inferred column types unchanged |
| Kdb.InferTypedStep | unisi/kdb.py:100-109 | a typed cell either sets the column type, keeps it, or widens INT64 and DOUBLE to DOUBLE; the new type fits every cell seen |
| Kdb.InferNoneSeen | unisi/kdb.py:110-113 | a column without a type after all rows has no typed cell |
| Kdb.InferDone | unisi/kdb.py:96-114 | once every row is seen and every column is typed, the types describe the rows |
| Kdb.InferRow | unisi/kdb.py:98-109 | one row of the inference keeps its invariant, or stops on a cell outside the headers or a type conflict |
| Kdb.InferColumnTypes | unisi/kdb.py:92-114 | the inference yields types exactly when the headers are given, every cell fits its column without conflict and every column has a typed cell; each other outcome names its cause |
| Kdb.DefaultIndexName2 | unisi/kdb.py:176-177 | the relation name is the table id, `2`, then the link table |
| Kdb.DefaultIndexName2Injective | unisi/kdb.py:176-177 | different link tables of one table get different relation names |
| Kdb.Slice | unisi/kdb.py:274-279 | SKIP and LIMIT give the rows from `skip`, at most `limit` of them |
| Kdb.ReadRows | unisi/kdb.py:274-279 | `read_rows` fails exactly on a negative skip, otherwise returns the rows in ID order from `skip`, at most the limit (the table's when 0) |
| Kdb.InitLength | unisi/kdb.py:263-272 | `init_list`'s length is the number of stored rows, whether the first page was short or full |
| Kdb.NewRow | unisi/kdb.py:308-316 | a created row has the given cells, NULL for missing columns, then the new ID |
| Kdb.CreatedRows | unisi/kdb.py:318-336 | `append_rows` creates one row per input row, in order, with consecutive IDs |
| Kdb.RemoveId | unisi/kdb.py:285-288 | deleting by ID never adds rows |
| Kdb.Overwrite | unisi/kdb.py:281-283 | `assign_row` replaces the data cells it is given and keeps the others |
| Kdb.RemoveAbsentId | unisi/kdb.py:285-288 | deleting an ID no row carries removes nothing |
| Kdb.RemoveUniqueId | unisi/kdb.py:285-288 | deleting a unique ID removes exactly the row carrying it |
| Kdb.DeletedAtPosition | unisi/kdb.py:285-288 | in a well-formed store, deleting the ID of the row at a position removes just that row and keeps the counter equal to the row count |
| Kdb.DeletedAbsent | unisi/kdb.py:285-288 | deleting an absent ID removes nothing but still lowers the counter |
| Kdb.AppendedKeeps | unisi/kdb.py:308-316 | `append_row` keeps the store well formed and the counter in step, and an accepted row is appended last |
| Kdb.AppendedAllKeeps | unisi/kdb.py:318-336 | `append_rows` keeps the store well formed and the counter in step |
| Kdb.AssignedKeeps | unisi/kdb.py:281-283 | `assign_row` keeps the store well formed, its length and its counter |
| Kdb.SeenNextRow | unisi/kdb.py:97-98 | the cells seen before the next row are those of all earlier rows |
| Kdb.SeenNextCell | unisi/kdb.py:98-99 | one more cell adds exactly that cell, when it is typed, to the cells seen |
| Kdb.InferInvNextRow | unisi/kdb.py:97-109 | finishing a row carries the inference invariant to the start of the next row |
| Kdb.InferCell | unisi/kdb.py:98-109 | one cell keeps the inference invariant, or stops because a cell lies outside the headers or two types conflict |
| Kdb.InferRows | unisi/kdb.py:97-109 | the loop over the rows ends with the invariant over all of them, or stops only on a cell outside the headers or a type conflict |
| Kdb.OtherIdsDiffer | unisi/kdb.py:285-288 | in a well-formed store no other row carries a row's ID |
| Kdb.DropRowWellFormed | unisi/kdb.py:285-288 | dropping one row and lowering the counter keeps the store well formed |
| Kdb.AssignedAt | unisi/kdb.py:281-283 | assigning a row that carries the ID of a row replaces exactly that row |
| Kdb.Dbtable.constructor | unisi/kdb.py:163-171 | opening a table sets its fields and a length equal to the stored row count |
| Kdb.Dbtable.FetchRows | unisi/kdb.py:274-279 | the rows read are those of the read specification |
| Kdb.Dbtable.AssignRow | unisi/kdb.py:281-283 | IndexError exactly on an empty row; otherwise the stored row with that ID is overwritten |
| Kdb.Dbtable.DeleteRow | unisi/kdb.py:285-288 | the row with that ID is removed and the counter is lowered |
| Kdb.Dbtable.Clear | unisi/kdb.py:299-306 | every row is removed and the counter is 0 |
| Kdb.Dbtable.AppendRow | unisi/kdb.py:308-316 | an accepted row is created with the next ID and returned, and the counter grows by one |
| Kdb.Dbtable.AppendRows | unisi/kdb.py:318-336 | one row per input is created and the counter grows by their number |
| DbUnitsModel.KeyBounds | unisi/dbunits.py:52-66 | the chunk key of an index starts at or before it, is a multiple of the limit, and the index lies within that chunk |
| DbUnitsModel.KeyWithin | unisi/dbunits.py:52-66 | every index in an aligned chunk's range has that chunk's key |
| DbUnitsModel.AlignedGap | unisi/dbunits.py:52-66 | distinct chunk keys are at least one chunk apart |
| DbUnitsModel.SliceConcat | unisi/dbunits.py:52-66 | adjacent windows of the table join into one |
| DbUnitsModel.Init | unisi/dbunits.py:16-25 | a cache wins and its first chunk is held at 0; otherwise the given first chunk is; with neither, AttributeError |
| DbUnitsModel.InitValid | unisi/dbunits.py:16-25 | a list opened with the first page of its table mirrors the table |
| DbUnitsModel.GetDeltaChunk | unisi/dbunits.py:52-66 | past the length there is no chunk; otherwise the key of the index's chunk, the chunk from the cache, from the held chunks, or read from the table and then held |
| DbUnitsModel.GetDeltaChunkOnce | unisi/dbunits.py:52-66 | a chunk is read at most once: asking again finds it held and changes nothing |
| DbUnitsModel.GetDeltaChunkMirrors | unisi/dbunits.py:52-66 | in a valid list every index below the length finds the chunk mirroring the table, and the list stays valid |
| DbUnitsModel.GetItemMirrors | unisi/dbunits.py:68-74 | reading a valid list gives the table's row at that position and None outside it; only held chunks change |
| DbUnitsModel.SetItemKeepsValid | unisi/dbunits.py:76-86 | writing a row with the replaced row's ID overwrites exactly that row, keeps the list valid and queues one `update` patch |
| DbUnitsModel.CacheSetGet | unisi/dbunits.py:76-86 | in cache mode `self[i] = v` behaves as on a Python list: that element reads back, the others are unchanged |
| DbUnitsModel.CleanCacheFrom | unisi/dbunits.py:88-90 | exactly the chunks keyed below the bound are kept |
| DbUnitsModel.RemoveAt | unisi/dbunits.py:92-105 | `del chunk[p]` shifts the later rows down by one |
| DbUnitsModel.DelItemKeepsValid | unisi/dbunits.py:92-105 | deleting inside the list removes that row from the table, queues one `delete` patch and keeps the list valid; outside it nothing is deleted |
| DbUnitsModel.DelItem | unisi/dbunits.py:92-105 | corrected (deletes by the row's ID, refills a full chunk): deleting never adds rows or reuses IDs, keeps the mode, and queues at most the one `delete` patch |
| DbUnitsModel.DelItemAsWritten | unisi/dbunits.py:92-105 | as written, deleting never adds rows or reuses IDs, keeps the mode, and queues at most the one `delete` patch |
| DbUnitsModel.DelItemInRange | unisi/dbunits.py:92-105 | deleting at a position inside a valid list removes exactly that row |
| DbUnitsModel.DelItemEarlierChunks | unisi/dbunits.py:92-105 | chunks before the deleted row's chunk are unaffected |
| DbUnitsModel.ShiftFullChunk | unisi/dbunits.py:98-105 | deleting from a full chunk refills it with the row now at its end and drops every later chunk, and the chunks still mirror the table |
| DbUnitsModel.FullChunkMirrors | unisi/dbunits.py:98-105 | the refilled chunk with later chunks dropped mirrors the table after the deletion |
| DbUnitsModel.ShiftShortChunk | unisi/dbunits.py:98-105 | deleting from the last, short chunk leaves the chunks mirroring the table |
| DbUnitsModel.AppendKeepsValid | unisi/dbunits.py:134-146 | an accepted append adds the store's new row last, queues one `add` patch and returns the row; a refused row changes nothing |
| DbUnitsModel.Append | unisi/dbunits.py:134-146 | corrected (the new row held once): without a cache a row is returned exactly when the store accepts it; it is then the table's new last row, with the next ID, and an `add` patch is queued; a refused row changes nothing |
| DbUnitsModel.CacheAppendGet | unisi/dbunits.py:134-146 | in cache mode `append` behaves as on a Python list: one more element, the new one last, the others unchanged |
| DbUnitsModel.InsertAppends | unisi/dbunits.py:174-175 | `insert` at any position appends the new row at the end of the table |
| DbUnitsModel.CanFill | unisi/dbunits.py:148-172 | `extend` hands each chunk as many rows as fit before the next chunk key |
| DbUnitsModel.DistributeMirrors | unisi/dbunits.py:148-172 | distributing the new rows over the chunks keeps them mirroring the table |
| DbUnitsModel.ExtendKeepsValid | unisi/dbunits.py:148-172 | `extend` adds the rows last in order, keeps the list valid and queues one `updates` patch with the chunk of the old length and the new length |
| DbUnitsModel.Extend | unisi/dbunits.py:148-172 | corrected (the held chunks keep mirroring the table): the rows are added after the old ones with consecutive new IDs, and one patch is queued |
| DbUnitsModel.Clear | unisi/dbunits.py:186-190 | the table is emptied, a None chunk is held at 0 and an `updates` patch with length 0 is queued |
| DbUnitsModel.ClearKeepsValid | unisi/dbunits.py:186-190 | a cleared list is valid and empty, and reads nothing |
| DbUnitsModel.PopKeepsValid | unisi/dbunits.py:181-184 | popping inside the list, negative positions counted from the end, returns that row and removes it from the table |
| DbUnitsModel.Pop | unisi/dbunits.py:181-184 | corrected (a negative index counts from the end): popping never adds rows or reuses IDs |
| DbUnitsModel.RemoveByPosition | unisi/dbunits.py:177-179 | removing a row whose ID equals its position deletes that row |
| DbUnitsModel.Remove | unisi/dbunits.py:177-179 | an empty value or one whose last cell is not an integer raises and changes nothing; removing never adds rows or reuses IDs |
| DbUnitsModel.ValidFillable | unisi/dbunits.py:148-172 | a valid list can always be extended by the chunk loop |
| DbUnitsModel.DelItemDeletesById | unisi/dbunits.py:92-105 | as written, deleting position 0 deletes ID 0, which no row has; the row stays and the counter drops to 0 |
| DbUnitsModel.DelItemLoneRow | unisi/dbunits.py:92-105 | corrected, deleting position 0 of that table removes its row and keeps the list consistent |
| DbUnitsModel.DelItemLeavesShortChunk | unisi/dbunits.py:92-105 | as written, deleting row 0 leaves the first chunk one row short when the next chunk is not held, and reading position 1 raises IndexError |
| DbUnitsModel.DelItemRefillsChunk | unisi/dbunits.py:92-105 | with the refill read from the table, position 1 reads the table's row |
| DbUnitsModel.ExtendMisplacesRows | unisi/dbunits.py:148-172 | as written, extending when the chunk of the old length is not held puts the new row alone in a new chunk, so position 2 reads the wrong row |
| DbUnitsModel.AppendRereadsRow | unisi/dbunits.py:134-146 | as written, the first append after `clear` reads the chunk that already has the new row and appends it again |
| DbUnitsModel.AppendDuplicatesRow | unisi/dbunits.py:134-146 | as written, after two appends position 1 reads the first row instead of the second |
| DbUnitsModel.AppendTwiceAfterClear | unisi/dbunits.py:134-146 | appending only to a held chunk, the second row reads back as itself |
| DbUnitsModel.PopDefaultDeletesNothing | unisi/dbunits.py:181-184 | as written, `pop()` with the default -1 returns None and deletes nothing |
| DbUnitsModel.AtIter | unisi/dbunits.py:10-13 | `at_iter` is the n-th item when there is one, None otherwise |
| DbUnits.AtIter | unisi/dbunits.py:10-13 | the loop returns the field met at step `times`, which is the n-th field or None |
| DbUnits.Index2NodeRelation | unisi/dbunits.py:110-117 | a cell index below the node's field count names that node field; the ID cell names nothing; a later index names the matching link field |
| DbUnits.Dblist.constructor | unisi/dbunits.py:16-25 | the list's state is the one the open specification gives |
| DbUnits.Dblist.Length | unisi/dbunits.py:107-108 | `len` is the cache's length or the table's counter, which is the row count of a valid list |
| DbUnits.Dblist.GetDeltaChunk | unisi/dbunits.py:52-66 | the key, chunk and new state are those of the chunk specification |
| DbUnits.Dblist.Get | unisi/dbunits.py:68-74 | the row and new state are those of the read specification |
| DbUnits.Dblist.Set | unisi/dbunits.py:76-86 | the error and new state are those of the write specification |
| DbUnits.Dblist.CleanCacheFrom | unisi/dbunits.py:88-90 | the held chunks become those keyed below the bound; nothing else changes |
| DbUnits.Dblist.Delete | unisi/dbunits.py:92-105 | corrected (deletes by the row's ID and refills a full chunk from the table): the error and new state are those of the delete specification |
| DbUnits.Dblist.Append | unisi/dbunits.py:134-146 | corrected (holds the new row once): the row returned and new state are those of the append specification |
| DbUnits.Dblist.Extend | unisi/dbunits.py:148-172 | corrected (the held chunks keep mirroring the table): the new state is that of the extend specification |
| DbUnits.Dblist.HandOut | unisi/dbunits.py:155-168 | corrected (the held chunks keep mirroring the table): the chunks become those the extend specification hands the new rows to, from the old length on |
| DbUnits.Dblist.Insert | unisi/dbunits.py:174-175 | corrected (holds the new row once): the new state is that of appending the row |
| DbUnits.Dblist.Remove | unisi/dbunits.py:177-179 | corrected (deletes by the row's ID and refills a full chunk): the error and new state are those of deleting at the row's last cell |
| DbUnits.Dblist.Pop | unisi/dbunits.py:181-184 | corrected (a negative index counts from the end): the row and new state are those of the pop specification |
| DbUnits.Dblist.Clear | unisi/dbunits.py:186-190 | the new state is that of the clear specification |
| DbUnits.Dblist.ShiftAfterDelete | unisi/dbunits.py:92-105 | corrected (refills a full chunk from the table): the chunk shift after a deletion leaves the state the shift specification gives |
| DbUnits.Open | unisi/dbunits.py:16-25 | AttributeError exactly when neither a first chunk nor a cache is given; otherwise a fresh list in the opened state |
| DbElements.Dblist.constructor | unisi/dbelements.py:2-13 | the list's state is the one the open specification gives |
| DbElements.Dblist.Length | unisi/dbelements.py:102-103 | `len` is the cache's length or the table's counter, which is the row count of a valid list |
| DbElements.Dblist.GetDeltaChunk | unisi/dbelements.py:44-57 | the key, chunk and new state are those of the chunk specification; a held empty chunk is read again |
| DbElements.Dblist.Get | unisi/dbelements.py:59-64 | the row and new state are those of the read specification |
| DbElements.Dblist.Set | unisi/dbelements.py:66-74 | the error and new state are those of the write specification |
| DbElements.Dblist.CleanCacheFrom | unisi/dbelements.py:76-78 | the held chunks become those keyed below the bound; nothing else changes |
| DbElements.Dblist.Delete | unisi/dbelements.py:80-100 | corrected (deletes by the row's ID and needs no row after the last chunk): the error and new state are those of the delete specification |
| DbElements.Dblist.Append | unisi/dbelements.py:105-116 | corrected (the chunk holds the stored row with its ID): the row returned and new state are those of the append specification |
| DbElements.Dblist.Extend | unisi/dbelements.py:118-140 | the rows are stored and chunked as the extend specification says, and the call ends in AttributeError |
| DbElements.Dblist.Insert | unisi/dbelements.py:142-143 | corrected (the chunk holds the stored row with its ID): the error and new state are those of appending the row |
| DbElements.Dblist.Remove | unisi/dbelements.py:145-147 | corrected (deletes by the row's ID): the error and new state are those of deleting at the row's last cell |
| DbElements.Dblist.Pop | unisi/dbelements.py:149-152 | corrected (a negative index counts from the end): the row and new state are those of the pop specification |
| DbElements.Dblist.Clear | unisi/dbelements.py:154-156 | corrected (the held chunks are dropped): the new state is that of the clear specification |
| DbElements.Dblist.RunCascade | unisi/dbelements.py:88-99 | corrected (needs no row after the last chunk): the cascade loop leaves the held chunks the cascade specification gives, the cache and the patch untouched |
| DbElements.Dblist.FillChunk | unisi/dbelements.py:126-139 | one round of the `extend` loop fills the chunk of the current offset with the next rows, creating it when absent, and reports how many slots it had free |
| DbElements.Open | unisi/dbelements.py:2-13 | AttributeError exactly when neither a first chunk nor a cache is given; otherwise a fresh list in the opened state |
| DbElementsModel.Init | unisi/dbelements.py:2-13 | as in the newer list, plus an `init` patch recording the length, the page size and the first chunk |
| DbElementsModel.InitValid | unisi/dbelements.py:2-13 | a list opened with its table's first page is valid and its `init` patch carries the row count |
| DbElementsModel.GetDeltaChunk | unisi/dbelements.py:44-57 | past the length there is no chunk; otherwise the chunk from the cache, from the held chunks, or read from the table, a held empty chunk being read again |
| DbElementsModel.GetDeltaChunkMirrors | unisi/dbelements.py:44-57 | in a valid list every index below the length finds the chunk mirroring the table |
| DbElementsModel.GetItemMirrors | unisi/dbelements.py:59-64 | reading a valid list gives the table's row at that position, and None outside it |
| DbElementsModel.SetItemKeepsValid | unisi/dbelements.py:66-74 | writing a row with the replaced row's ID overwrites exactly that row, keeps the list valid and records one `update` patch |
| DbElementsModel.CascadeMirrors | unisi/dbelements.py:86-99 | when the cascade over the following chunks ends, every non-empty held chunk mirrors the table |
| DbElementsModel.CascadeShort | unisi/dbelements.py:86-99 | a current chunk more than one row short is the table's end, so the cascade stops there and every non-empty held chunk mirrors the table |
| DbElementsModel.CascadeStep | unisi/dbelements.py:90-94 | moving the first row of the next held chunk to the current one keeps the cascade invariant |
| DbElementsModel.CascadeCloses | unisi/dbelements.py:95-99 | when the next chunk is not held, the cascade ends with every non-empty held chunk mirroring the table |
| DbUnitsModel.RemoveAtWindow | unisi/dbelements.py:80-89 | removing a slot of a chunk leaves it one short of the shortened table's window |
| DbUnitsModel.Key | unisi/dbunits.py:156 | the chunk offset of a non-negative index is non-negative |
| DbUnitsModel.AlignedNext | unisi/dbunits.py:100 | the offset one chunk further is again a chunk offset |
| DbUnitsModel.AlignedBelow | unisi/dbunits.py:156 | a chunk offset at or below an index is at or below that index's chunk |
| DbUnitsModel.SetRowMirrors | unisi/dbunits.py:76-86 | writing a row into the table and into the held chunk of its index keeps the chunks mirroring the table |
| DbUnitsModel.ShiftChunks | unisi/dbunits.py:98-105 | the chunk shift after a deletion changes only the held chunks |
| DbUnitsModel.DelItemFromChunk | unisi/dbunits.py:92-105 | deleting at a slot of the chunk deletes that row's ID from the table, queues a `delete` patch and shifts the chunks |
| DbUnitsModel.ShiftMirrors | unisi/dbunits.py:98-105 | the chunk shift after deleting a row leaves the held chunks mirroring the shortened table |
| DbUnitsModel.ShiftChunksFull | unisi/dbunits.py:100-105 | deleting from a full chunk refills it with the next row and drops every chunk from the next offset on |
| DbUnitsModel.FullChunkRefilled | unisi/dbunits.py:98-103 | the full chunk without the deleted row, refilled, is the shortened table's window |
| DbUnitsModel.RefillIsNextRow | unisi/dbunits.py:101-103 | the refill of a full chunk is the shortened table's row just past that chunk |
| DbUnitsModel.JoinRefill | unisi/dbunits.py:100-103 | a chunk one row short of its window, with the next row added, is the window |
| DbUnitsModel.DistStart | unisi/dbunits.py:148-155 | before the `extend` loop its invariant holds for the extended rows |
| DbUnitsModel.DistUnfold | unisi/dbunits.py:155-169 | one turn of the loop places the rows from the current offset to the end of its chunk, then goes on |
| DbUnitsModel.DistStep | unisi/dbunits.py:155-169 | one turn of the loop keeps its invariant, at the next chunk start |
| DbUnitsModel.DistDone | unisi/dbunits.py:155-169 | once every new row is placed, the held chunks mirror the extended table |
| DbUnitsModel.DistributedValid | unisi/dbunits.py:148-169 | the persisted and distributed rows keep the list valid, the new rows created last and the counter grown by their number |
| DbUnitsModel.FillableCanFill | unisi/dbunits.py:158-163 | in a list the loop can extend, each turn has at least one free slot |
| DbUnitsModel.FillableNext | unisi/dbunits.py:156-169 | after one turn the loop can still extend from the next offset |
| DbUnitsModel.DistributeAsWrittenStep | unisi/dbunits.py:155-169 | one turn of the loop as written fills the current chunk, advances by at least one row and leaves a list it can go on extending |
| DbUnitsModel.LoopTurn | unisi/dbunits.py:155-169 | one turn of the `extend` loop as written, from any state, moves `start`, `i_rows` and `len_rows` by the same `can_fill`, leaves the chunk of `start` held and every other chunk as it was |
| DbUnitsModel.LoopTurnTops | unisi/dbunits.py:155-169 | where the loop can extend, a turn hands out at least one row and tops up the chunk of `start`, as `DistributeAsWritten` does |
| DbUnitsModel.ToppedFillable | unisi/dbunits.py:155-169 | after a turn that tops up the chunk of `start`, the loop can still extend from the next offset |
| DbUnitsModel.FillableLoopEnds | unisi/dbunits.py:155-169 | where the loop can extend, it ends within as many turns as there are rows left to hand out |
| DbUnitsModel.FullChunkStalls | unisi/dbunits.py:155-169 | as written, when the chunk of `start` already holds `limit` rows, a turn finds `can_fill` 0 and changes nothing, so after any number of turns `len_rows` is still positive: the loop never ends |
| DbUnitsModel.ExtendAfterAppendStalls | unisi/dbunits.py:134-169 | as written, after `clear` and one `append` the list is not one the loop can extend, and a following `extend` of any rows never ends |
| DbUnitsModel.ExtendAfterAppendEnds | unisi/dbunits.py:134-169 | corrected (the chunk holds the new row once): the same steps leave a valid list of one row, and the `extend` loop ends within as many turns as it has rows |
| DbUnitsModel.LoneRowValid | unisi/dbunits.py:16-25 | the example list of one row is valid |
| DbUnitsModel.ThreeRowsValid | unisi/dbunits.py:16-25 | the example list of three rows, first chunk held, is valid |
| DbUnitsModel.DelRowZeroAsWritten | unisi/dbunits.py:92-105 | as written, deleting row 0 of the three-row list leaves a first chunk of one row and the table's other two rows |
| DbUnitsModel.ExtendThreeRowsAsWritten | unisi/dbunits.py:148-169 | as written, extending the three-row list by one row creates a chunk at offset 2 holding only the new row |
| DbUnitsModel.ExtendThreeRows | unisi/dbunits.py:148-169 | corrected, position 2 still reads the table's third row after the extension |
| DbElementsModel.DelItemKeepsValid | unisi/dbelements.py:80-100 | corrected (deletes by the row's ID): deleting inside the list removes exactly that row, keeps the list valid and records one `delete` patch; outside it nothing is deleted |
| DbElementsModel.DelItem | unisi/dbelements.py:80-100 | corrected (deletes by the row's ID, no row needed after the last chunk): deleting never adds rows or reuses IDs, keeps the mode, and records a `delete` patch or none |
| DbElementsModel.DelItemInRange | unisi/dbelements.py:80-100 | corrected (deletes by the row's ID): deleting at a position inside a valid list removes exactly that row |
| DbElementsModel.AppendKeepsValid | unisi/dbelements.py:105-116 | an accepted append adds the store's new row last and keeps the list valid; the `add` patch is recorded when the row's chunk is held |
| DbElementsModel.Append | unisi/dbelements.py:105-116 | corrected (the chunk holds the stored row): a cache takes the value; otherwise the store's row is the answer, present exactly when accepted, and then the table's new last row with the next ID; a refused row changes nothing |
| DbElementsModel.InsertAppends | unisi/dbelements.py:142-143 | `insert` at any position appends the new row at the end of the table |
| DbElementsModel.ValidFillable | unisi/dbelements.py:118-140 | a valid list can always be extended by the chunk loop |
| DbElementsModel.Clear | unisi/dbelements.py:154-156 | the table is emptied and no chunk stays held |
| DbElementsModel.ClearKeepsValid | unisi/dbelements.py:154-156 | a cleared list is valid and empty |
| DbElementsModel.ExtendAfterClearStalls | unisi/dbelements.py:125-156 | as written, `clear` on a list with a full first page leaves that chunk held, and a following `extend` of any rows never ends |
| DbElementsModel.ExtendAfterClearEnds | unisi/dbelements.py:125-156 | corrected (`clear` drops the chunks): the same steps leave a valid, empty list, and the `extend` loop ends within as many turns as it has rows |
| DbElementsModel.PopKeepsValid | unisi/dbelements.py:149-152 | corrected (a negative index counts from the end): popping inside the list returns that row and removes it from the table |
| DbElementsModel.Pop | unisi/dbelements.py:149-152 | corrected (a negative index counts from the end): popping never adds rows or reuses IDs |
| DbElementsModel.RemoveByPosition | unisi/dbelements.py:145-147 | removing a row whose ID equals its position deletes that row |
| DbElementsModel.DelItemRaisesAtEnd | unisi/dbelements.py:95-97 | as written, deleting the last row of a full last chunk deletes it and then raises IndexError |
| DbElementsModel.DelItemAtEnd | unisi/dbelements.py:95-97 | with an empty read allowed, the same deletion succeeds |
| DbElementsModel.AppendStoresCells | unisi/dbelements.py:105-116 | as written, the chunk receives the cells without the ID, and position 1 reads them |
| DbElementsModel.AppendStoresRow | unisi/dbelements.py:105-116 | with the stored row held, position 1 reads the stored row |
| DbElementsModel.ClearLeavesChunks | unisi/dbelements.py:154-156 | as written, after `clear` and one append position 0 reads the cleared row |
| DbElementsModel.ClearThenAppend | unisi/dbelements.py:154-156 | with the chunks reset, position 0 reads the new row |
| DbElementsModel.Advance | unisi/dbelements.py:90-94 | one cascade step moves the first row of the next chunk to the end of the current one and keeps the same chunk offsets |
| DbElementsModel.AboveShrinks | unisi/dbelements.py:88-93 | moving on to the next chunk leaves fewer held offsets above, so the cascade ends |
| DbElementsModel.CascadeAdvances | unisi/dbelements.py:88-94 | a cascade whose current chunk is one short and whose next chunk is held goes on from the next chunk after one step |
| DbElementsModel.CascadeMoves | unisi/dbelements.py:90-94 | after one step the current chunk is the table's window and the next chunk lacks only its last row |
| DbElementsModel.CascadeClosesWindow | unisi/dbelements.py:95-99 | the row read from the table completes the current chunk's window, and the chunks from the next offset on are dropped |
| DbElementsModel.SetRowHeldMirror | unisi/dbelements.py:66-74 | writing a row into the table and into its held chunk keeps the held chunks mirroring the table |
| DbElementsModel.DelItemFromChunk | unisi/dbelements.py:80-89 | corrected (deletes by the row's ID): deleting at a slot of the chunk deletes that row's ID from the table, records a `delete` patch and cascades from the shortened chunk |
| DbElementsModel.DelItemCascInv | unisi/dbelements.py:85-88 | right after the slot is removed, the cascade's invariant holds at the index's chunk |
| DbElementsModel.FullPageValid | unisi/dbelements.py:2-13 | the example list with one full page held is valid |
| DbElementsModel.OneCellValid | unisi/dbelements.py:2-13 | the example list of one row held is valid |
| DbElementsModel.LoneRowValid | unisi/dbelements.py:2-13 | the example list of one row, whose ID is 5, is valid |
| DbElementsModel.DelItemDeletesById | unisi/dbelements.py:80-85 | as written, `del dl[0]` on a row whose ID is 5 deletes no row, but the length drops to 0 |
| DbElementsModel.DelItemLoneRow | unisi/dbelements.py:80-100 | corrected, deleting position 0 of that table removes its row and keeps the list valid |
| DbElementsModel.PopDefaultDeletesNothing | unisi/dbelements.py:149-152 | as written, `pop()` on any valid list returns None and deletes nothing; corrected, it returns and removes the last row |
| Units.RegisterExactlyUnprefixed | unisi/units.py:87-89 | a change is registered exactly when there is no property or the property does not start with `_` |
| Units.StateOfWrite | unisi/units.py:164-165 | writing a public attribute shows in a unit's state as that write (a handler as `true`); writing a `_` attribute leaves the state unchanged |
| Units.Unit.constructor | unisi/units.py:77-85 | a new unit holds exactly the attributes its constructor sets, has no proxies and no change callback |
| Units.Unit.MarkChanged | unisi/units.py:87-101 | calling `_mark_changed` raises exactly when no callback is installed; otherwise the user's log grows by the report of a non-`_` property and by nothing else |
| Units.Unit.SetAttr | unisi/units.py:107-111 | `setattr` raises exactly for an empty name; otherwise it writes the value, drops the proxy for that name and appends one report, made before the write, for a public name when reactive |
| Units.Unit.SetReactivity | unisi/units.py:91-101 | when the unit has no `id` and is not reactive yet (or `override`), every public container attribute not yet wrapped gets a fresh proxy rooted at it and the callback reporting to `user` is installed; otherwise the callback is cleared; the attributes stay |
| Units.Unit.Mutate | unisi/units.py:113-119 | mutating a unit into itself changes nothing; otherwise it takes `obj`'s attributes, proxies and callback, reports each public attribute once, in some order, and then one report without a property |
| Units.Unit.SetEach | unisi/units.py:115-117 | the loop of `mutate` sets every attribute of the source and reports the public ones, each exactly once |
| Units.Unit.Accept | unisi/units.py:121-125 | with a `changed` handler nothing in the unit changes; otherwise `value` is set and reported |
| Units.Unit.Step | unisi/units.py:107-111 | one `setattr` of `mutate`'s loop writes the value and reports it exactly when the name is public |
| Units.Unit.SetNext | unisi/units.py:115-117 | one turn of `mutate`'s loop sets one more attribute of the source and reports it after the earlier reports when it is public |
| Units.ChangedProxy.constructor | unisi/units.py:10-12 | a proxy stands for the object at its attribute and path of its unit, with no own fields |
| Units.ChangedProxy.Update | unisi/units.py:34-35 | the write lands on the wrapped object inside the unit's attributes, raising exactly where Python would, and reports nothing |
| Units.ChangedProxy.Write | unisi/units.py:30-36 | a write that succeeds is reported once, without a property; a write that raises leaves attributes and log as they were |
| Units.ChangedProxy.SetItem | unisi/units.py:34-36 | `proxy[key] = x` makes the wrapped object read `x` at `key`, then reports once |
| Units.ChangedProxy.DelItem | unisi/units.py:47-49 | `del proxy[key]` shortens the wrapped object by one, then reports once; a missing key raises with nothing changed |
| Units.ChangedProxy.SetAttr | unisi/units.py:27-32 | a `_` name is stored on the proxy itself with no report; any other name is written on the wrapped object and reported |
| Units.ChangedProxy.GetItem | unisi/units.py:38-42 | a container item comes back as a fresh proxy for that item reporting to the same unit, an atomic item as it is, a missing one raises |
| Units.ChangedProxy.Lookup | unisi/units.py:14-25 | reading a modifying method reports once; a container field comes back wrapped; nothing else reports |
| Units.ChangedProxy.GetAttrAsWritten | unisi/units.py:24 | a field read through a proxy comes back wrapped with the proxy as its unit, so writes through it cannot report |
| Units.ChangedProxy.GetAttr | unisi/units.py:14-25 | with the wrapped field reporting to the proxy's own unit, writes through nested proxies report |
| Units.ChangedProxy.Append | unisi/units.py:14-25 | `proxy.append(x)` on a reactive list reports once and leaves the list extended by `x`; on a non-list or unreactive proxy it raises with attributes unchanged |
| Units.ChangedProxy.IAdd | unisi/units.py:63-68 | `proxy += other` extends a list by the items of `other` after one report and raises TypeError on anything else with nothing reported |
| Units.ChangedProxy.Notify | unisi/units.py:22-49 | a proxy's report adds the unit's mark to the user's log, and raises exactly when the proxy does not mark a unit or the unit has no callback |
| Units.FindSub | unisi/units.py:181 | `find` gives the first position at which `u` occurs, and -1 exactly when it occurs nowhere |
| Units.Dedup | unisi/units.py:176 | the dictionary keys hold every item of the list once, in order of first occurrence |
| Units.Matches | unisi/units.py:181 | the candidates are exactly the items that contain the input, with their match position |
| Units.SortCands | unisi/units.py:182 | sorting by (position, lower-cased text) gives a sorted permutation of the candidates |
| Units.SortCandsDistinct | unisi/units.py:182 | sorting keeps the items distinct |
| Units.CompletionsPrefix | unisi/units.py:183-184 | the output is the first `max_output_length` of the sorted matches, or all of them when they fit |
| Units.CompletionsMatch | unisi/units.py:181 | every completion is an item of the list that contains the input |
| Units.CompletionsOrdered | unisi/units.py:182-185 | completions are distinct and ordered by match position, then lower-cased text |
| Units.CompletionsComplete | unisi/units.py:181-184 | a matching item is left out only when the output is full and every kept entry ranks no later than it |
| Units.SmartCompleteSpec | unisi/units.py:175-186 | input shorter than the minimum gives nothing; otherwise the completions are distinct items containing the lower-cased input, at most the maximum, in rank order, and no matching item is missing unless the output is full |
| Units.SmartComplete | unisi/units.py:175-186 | input shorter than the minimum completes to nothing, and no more than the maximum is returned |
| Units.Completions | unisi/units.py:180-185 | the kept entries are some of the matches, at most the maximum of them |
| Units.BaseAttrs | unisi/units.py:77-85 | the base constructor sets `name`, `value` and `changed` from the positional arguments and then every keyword argument, which overrides them |
| Units.EditDefaults | unisi/units.py:189-201 | without a type, an int or float value gives type `number` and anything else `string`; a missing value becomes `''`, or `0` for a number; other attributes are kept |
| Units.SelectDefaults | unisi/units.py:288-292 | options default to `[]` and value to None; without a type, more than three options give `select` and fewer `radio`; unsized options raise |
| Units.SwitchDefaults | unisi/units.py:283-285 | value `False` and type `switch` are filled in only when missing |
| Units.TreeDefaults | unisi/units.py:295-297 | options `[]`, value None and type `tree` are filled in only when missing |
| Units.RangeDefaults | unisi/units.py:211-217 | value `1.0` when missing, type `range` always, and without explicit options the window `[value-10, value+10, 1]`, which raises for a non-number value |
| Units.Constructed | unisi/units.py:77-85 | construction fails on an empty keyword name; a constructed widget always has a `name` |
| Units.EditStartsAtZero | unisi/units.py:191 | an Edit widget starts with cursor position `x == 0` |
| Units.Create | unisi/units.py:75-85 | a created widget is a fresh, non-reactive unit holding exactly the constructed attributes, and creation fails exactly where construction raises |
| Units.NestedAppendAsWritten | unisi/units.py:24 | `unit.data.xs.append(1)` through a nested proxy raises instead of reporting |
| Units.NestedAppendReported | unisi/units.py:14-25 | with the corrected lookup the nested append happens and is reported to the user once |
| Units.ReportsSnoc | unisi/units.py:107-111 | one more public attribute set adds its report after the earlier ones |
| Units.EnumeratesSnoc | unisi/units.py:115-117 | one more attribute name not yet listed extends the list of names set so far |
| Units.WrittenDropShortens | unisi/units.py:47-49 | a deletion through a proxy leaves the part at its path one shorter |
| Units.DataUnit | unisi/units.py:91-101 | the example reactive unit holds an object whose `xs` is an empty list, behind a proxy that marks the unit |
| Units.ShiftOccurs | unisi/units.py:181 | past the first character, a match in a string is a match one position earlier in its tail |
| Units.StrLeTotal | unisi/units.py:182 | any two lower-cased texts compare one way or the other |
| Units.StrLeTrans | unisi/units.py:182 | the text order is transitive |
| Units.KeyLeTotal | unisi/units.py:182 | any two candidates compare one way or the other by (position, lower-cased text) |
| Units.KeyLeTrans | unisi/units.py:182 | the sort key order is transitive |
| Units.InsertCand | unisi/units.py:182 | inserting a candidate into the sorted list adds it and nothing else |
| Units.InsertCandSorted | unisi/units.py:182 | inserting a candidate keeps the list sorted by the key |
| Units.InsertCandDistinct | unisi/units.py:182 | inserting a candidate for a new item keeps the items distinct |
| Units.ItemsOf | unisi/units.py:185 | the output lists each kept candidate's item, in order |
| Units.TruncatedPrefix | unisi/units.py:183-184 | the truncation keeps a prefix of at most `max_output_length` entries, and all of them when they fit |
| Units.Shift | unisi/units.py:216-217 | `value - 10` and `value + 10` are defined exactly for a number |
| Units.ChangeLog.constructor | unisi/units.py:98-101 | a new change log, standing for the user that receives `_mark_changed` calls, holds no calls |
| Gui.GraphDefaults | unisi/guielements.py:142-150 | type `graph` always; the default graph value when the value is missing or falsy; `[]` for missing nodes and edges; everything else kept |
| Gui.TreeDefaults | unisi/guielements.py:171-177 | type `tree` always; options `{}` and value None only when missing |
| Gui.TextDefaults | unisi/guielements.py:54-58 | the value becomes the (possibly renamed) name, type `string`, not editable |
| Gui.VideoDefaults | unisi/guielements.py:106-112 | type `video` always; the name as URL and no ratio only when missing |
| Gui.ButtonAttrs | unisi/guielements.py:70-76 | the name, then the keywords; type `command` when missing; a truthy handler becomes `changed` |
| Gui.Constructed | unisi/guielements.py:2-9 | every widget keeps the base attributes and a name; construction fails only for a Select whose options have no length |
| Gui.Widget.constructor | unisi/guielements.py:2-13 | a new widget owns a fresh dictionary with the base attributes |
| Gui.Widget.Get | unisi/guielements.py:18-19 | an attribute read succeeds exactly when the attribute is present, giving its value |
| Gui.Widget.SetAttr | unisi/guielements.py:11-13 | a write updates exactly that key of the shared dictionary |
| Gui.Widget.Mutate | unisi/guielements.py:15-16 | after `mutate` both widgets share one dictionary, `obj`'s |
| Gui.Widget.Accept | unisi/guielements.py:18-22 | with a `changed` handler the attributes stay; otherwise `value` is set |
| Gui.Create | unisi/guielements.py:1-177 | creation fails exactly where construction raises; otherwise a fresh widget holds the constructed attributes |
| Gui.MutateShares | unisi/guielements.py:15-16 | after `a.mutate(b)`, writes through either widget are read back through the other |
| Gui.AttrDict.constructor | unisi/guielements.py:2-13 | a new instance dictionary holds the given attributes |
| Users.BlocksOf | unisi/users.py:187-190 | an open dialog with content comes before the screen's blocks; otherwise the blocks are the screen's |
| Users.FirstNamed | unisi/users.py:195-198 | the first unit with the requested name, or -1 exactly when none has it |
| Users.PathInBlocks | unisi/users.py:208-214 | the path names the first block that is the unit or holds it; None exactly when no block is or holds it |
| Users.FirstNamedDistinct | unisi/users.py:195-198 | among distinct names, looking up a unit's name finds that unit |
| Users.FindInBlocksAt | unisi/users.py:199-206 | with unique block names, a request for a block (and an element of it) is answered from that block |
| Users.FindPathThenElement | unisi/users.py:192-217 | with unique, non-empty names, `find_element` of the path `find_path` gives for a unit is that unit |
| Users.FindElement | unisi/users.py:192-206 | a toolbar request finds a toolbar unit exactly when one has the requested name, and then one with that name |
| Users.FindPath | unisi/users.py:208-217 | a found path has one or two names and ends with the unit's name; there is none exactly when no block is or holds the unit and the toolbar lacks it |
| Users.FoundInBlocksHasPath | unisi/users.py:199-214 | whatever the block search finds has a path |
| Users.FoundHasPath | unisi/users.py:192-217 | whatever `find_element` finds, `find_path` resolves |
| Users.ProcessElement | unisi/users.py:287-306 | a registered truthy handler runs; otherwise a callable attribute named by the event runs (answered for `complete`, `append`, `get`), a declared attribute or `changed` sets the value, and any other event is an error |
| Users.VisibleUnits | unisi/common.py:121-134 | a filled message keeps exactly the units that have a path, each with its path |
| Users.FoldedUnits | unisi/users.py:219-244 | a message built from pending units shows exactly those of them with a path |
| Users.PickAsWritten | unisi/users.py:249-252 | the loop as written stops at the first module with the requested name that is not the current one |
| Users.Pick | unisi/users.py:249-250 | the first module with the requested name, or -1 when none has it |
| Users.SwitchAsWrittenRefusesCurrent | unisi/users.py:246-265 | as written, a screen request is refused as unknown exactly when every module with that name is already shown |
| Users.CurrentScreenUnknown | unisi/users.py:246-265 | requesting the only screen, already shown, answers "Unknown screen" as written and changes nothing when corrected |
| Users.SwitchFindsNamed | unisi/users.py:246-265 | corrected, a request for a name some module has succeeds and shows a module with that name |
| Users.Switch | unisi/users.py:246-265 | corrected, a switch moves only to a module whose name was requested, reports a shown unit exactly when it moves, and answers unknown only when no module has the name |
| Users.Peers | unisi/users.py:49-55 | `broadcast` addresses exactly the other sessions that show the same screen module |
| Users.User.constructor | unisi/users.py:16-40 | a session joining `share` takes its screens, handlers and screen module and joins its group, which becomes `[share, self]` when new; without `share` it starts empty and alone |
| Users.User.Delete | unisi/users.py:96-105 | the session leaves the table; a group of two is cleared, from a larger one this session is removed, and removing a non-member raises |
| Users.User.Audience | unisi/users.py:49-55 | the recipients are the group members other than this session showing the same screen module |
| Users.User.RegisterChangedUnit | unisi/users.py:179-185 | a change is kept exactly when it does not echo the request being processed (with `value` read as `changed`); nothing else changes |
| Users.User.Blocks | unisi/users.py:187-190 | the blocks exist exactly when a screen is loaded, an open dialog with content first |
| Users.User.PrepareResult | unisi/users.py:219-244 | a changed screen or a redesign returns the screen marked for reload; otherwise the pending units and the result fold into one message without units off the screen; the pending set is always cleared |
| Users.User.ScreenProcess | unisi/users.py:246-265 | corrected (the screen already shown is not unknown): a screen request switches to the first module with that name and reports its screen as changed, a request for the screen already shown changes nothing, and an unknown name is an error |
| Users.User.Result4Message | unisi/users.py:152-169 | corrected (the screen already shown is not unknown): with an open dialog, a request without element closes it and goes to its handler, any other is routed to the element; without a dialog the request is processed; the request is remembered; the dialog a handler opens becomes the active one only when a handler ran, and otherwise the open dialog stays while the request names an element |
| Users.User.Process | unisi/users.py:267-286 | without an open dialog, a screen request switches as the switch specification says and answers, a voice request goes to the assistant, any other request is routed to its element; nothing but the screen and the changed units moves |
| Users.User.ReflectAsWritten | unisi/users.py:57-64 | as written, reflecting without a request in a shared session raises |
| Users.User.Reflect | unisi/users.py:57-64 | nothing is sent alone or for a screen request; otherwise a truthy result is sent and the addressed element unless the result message carries it |
| Users.User.ReflectSends | unisi/users.py:57-64 | for a request in a group, the element sent is the one `find_element` finds, and never one the result already carries |
| Users.User.CalcDbSharing | unisi/users.py:337-345 | for every table and screen, the placements list exactly the elements showing that table there, with their blocks, in order |
| Users.NewMessage | unisi/users.py:228-229 | a new update message holds the pending units that have a path |
| Users.ProgressReflection | unisi/users.py:66-70 | in a shared session `progress` raises as written, and when corrected sends its message to the group |
| Users.ShareLists | unisi/users.py:337-345 | building the share table placement by placement lists exactly the places showing each table on each screen, in order |
| Users.FanOut | unisi/users.py:347-360 | every non-empty patch goes to every session showing its table, once per element showing it, addressed to that element; an `exclude` patch skips its own session |
| Users.PeerSound | unisi/users.py:347-360 | what a session is sent of a patch is that patch, tagged with one of its places |
| Users.FanOutSound | unisi/users.py:347-360 | a session never gets back a patch it excluded, and every message sent comes from one patch for one of its places |
| Users.FanOutComplete | unisi/users.py:347-360 | every place showing the table on every session's screen gets every non-empty patch not excluded for it |
| Users.DataOfCons | unisi/users.py:232-234 | the units of an update list with one more entry in front are that entry's unit and the units of the rest |
| Users.ListOf | unisi/users.py:229 | the changed-unit set becomes a list holding each of its units exactly once |
| Users.FoldPending | unisi/users.py:231-236 | without pending changes only the paths are filled in; otherwise the updates become the pending units and the message's own, each with its path |
| Users.PlacesOf | unisi/users.py:337-345 | the places listed for a table on a screen are at most the placements there are |
| Users.ToPlaces | unisi/users.py:355-359 | a patch goes to a session once per place that shows its table there, tagged with that place |
| Users.ToPeers | unisi/users.py:351-359 | what a patch sends is what it sends to each session in turn |
| Users.ToPatches | unisi/users.py:347-359 | what a table's patches send is what each of them sends |
| Users.PatchesSound | unisi/users.py:347-360 | a session is never sent back a patch it excluded, and every message sent comes from one of the table's patches |
| Users.Group.constructor | unisi/users.py:28-35 | a new reflection list holds no session |
| Users.Sessions.constructor | unisi/common.py:109 | `Unishare.sessions` starts empty |
| Autotest.Verdicts | unisi/autotest.py:140-155 | the scan of a block's elements gives one verdict per element, or raises |
| Autotest.VerdictsRaise | unisi/autotest.py:140-155 | an element scan that raises on a prefix raises on the whole block |
| Autotest.ScanStep | unisi/autotest.py:140-155 | one more element adds its verdict and, when it has a problem, exactly one error line |
| Autotest.ScanRaises | unisi/autotest.py:140-155 | an element whose check raises makes the whole block check raise |
| Autotest.Visit | unisi/autotest.py:141-155 | one pass of the loop gives the element's verdict and the updated hashes and names, raising exactly where the judgement raises |
| Autotest.ScanElements | unisi/autotest.py:140-155 | the loop yields exactly the specified error lines and `hash_elements`, or raises exactly when the specification does |
| Autotest.CheckBlock | unisi/autotest.py:129-155 | `check_block` gives the specified errors: a missing or non-string name first, then one line per problem element |
| Autotest.ScanState | unisi/autotest.py:140-155 | after the scan, `hash_elements` holds the earlier hashes and those of the block's elements, and `child_names` the names of the accepted elements |
| Autotest.VerdictsPrefix | unisi/autotest.py:140-155 | the verdicts on a prefix start the verdicts on the whole, each judged in the state its prefix left |
| Autotest.ReusedExactly | unisi/autotest.py:142-144 | an element is reported as already used exactly when it was seen before, in an earlier block or earlier in this one |
| Autotest.DuplicateSound | unisi/autotest.py:150-151 | a duplicated-name error is only given for a unit not of type `line` whose name an earlier accepted element has |
| Autotest.DuplicateComplete | unisi/autotest.py:150-151 | every new unit not of type `line` that repeats an earlier accepted element's name is reported duplicated |
| Autotest.ModuleChecked | unisi/autotest.py:156-183 | a module's error list, when not empty, starts with its header line |
| Autotest.BlocksRaise | unisi/autotest.py:172-179 | a block scan that raises on a prefix raises on the whole module |
| Autotest.VisitEntry | unisi/autotest.py:173-179 | one pass of the module loop is one specified block step |
| Autotest.ScanEntries | unisi/autotest.py:172-179 | the module loop yields exactly the specified errors, or raises exactly when the specification does |
| Autotest.CheckModule | unisi/autotest.py:156-183 | `check_module` gives the specified error list |
| Autotest.BlocksPrefix | unisi/autotest.py:172-179 | the errors of a prefix of the blocks start the errors of the whole |
| Autotest.BlockNames | unisi/autotest.py:172-178 | the block names only grow, and every Block met first has its name taken |
| Autotest.DuplicateBlockReported | unisi/autotest.py:175-176 | a Block whose name is already taken, by a Block met first earlier or from the start, is reported as a duplicated block name |
| Autotest.ToolbarReserved | unisi/autotest.py:167-176 | `toolbar` is reserved: a Block of that name is reported as a duplicated block name |
| Autotest.HeaderFirst | unisi/autotest.py:180-182 | no errors gives an empty list; otherwise the header, naming the screen or `Unknown`, comes first and only there |
| Autotest.Recorder.constructor | unisi/autotest.py:19-20 | a new recorder records nothing and has no file |
| Autotest.Recorder.Accept | unisi/autotest.py:22-27 | the first message after `start` is skipped, each later one appended with its response, and a recorder never started raises |
| Autotest.Recorder.Start | unisi/autotest.py:44-53 | with a file name the buffer holds just the opening screen and the next message is skipped; without one the buffer is empty |
| Autotest.Recorder.Stop | unisi/autotest.py:29-42 | a test is created only when more than the opening screen was recorded; recording stops either way |
| Autotest.RecordSession | unisi/autotest.py:22-53 | after `start`, the buffer is the opening screen followed by every later message with its response, in order, the first one skipped |
| Autotest.JudgeState | unisi/autotest.py:137-153 | judging one element records its hash, and adds its name exactly when the element is accepted |
| Autotest.KeysOfSnoc | unisi/autotest.py:137-140 | the hashes of a longer element list are those of the shorter one plus the new element's |
| Autotest.CleanNamesSnoc | unisi/autotest.py:152-153 | the accepted names grow by the new element's name exactly when it has no problem |
| Autotest.ReportedNoHeaders | unisi/autotest.py:139-151 | no error line of a block scan is a screen header line |
| Autotest.BlockNoHeaders | unisi/autotest.py:129-154 | `check_block` never yields a screen header line |
| Autotest.BlocksNoHeaders | unisi/autotest.py:172-179 | the block loop of `check_module` never yields a screen header line, so the header added afterwards stands alone |
| Autotest.TakenStep | unisi/autotest.py:175-176 | a Block whose name is already taken gets the duplicated-block-name line |
| Autotest.TakenBefore | unisi/autotest.py:167-178 | a name taken at the start or by a Block met first stays taken until later blocks are scanned |
| Containers.ParamWidget | unisi/containers.py:101-124 | a bool gives a Switch, a string or number an Edit, and a pair of value and options a Range (three numbers), a `select` Select (a list or tuple) or a Tree (a dict); anything else raises ValueError |
| Containers.WidgetBuilt | unisi/containers.py:101-124 | every supported parameter yields a widget named by the pretty name, holding the current value, of the type the value's shape selects, with the options given |
| Containers.Rows | unisi/containers.py:125-129 | a new row starts whenever the count placed so far is a multiple of `row`; nothing is placed for no parameters |
| Containers.RowsStep | unisi/containers.py:125-129 | one more widget opens a new row exactly when the count is a multiple of `row`, and otherwise joins the last row |
| Containers.RowsLast | unisi/containers.py:125-129 | the last row holds the widgets placed since the count last was a multiple of `row` |
| Containers.RowsFull | unisi/containers.py:125-129 | no row holds more than `row` widgets, and every row but the last holds exactly that many |
| Containers.RowsFlatten | unisi/containers.py:125-129 | laying widgets out in rows keeps them all, in order |
| Containers.ParamValues | unisi/containers.py:131-132 | `params` of freshly built parameters maps exactly their names |
| Containers.ParamValuesAt | unisi/containers.py:131-132 | with distinct names, `params` maps each parameter to the current value its widget starts with |
| Containers.ParamBlock.Params | unisi/containers.py:131-132 | `params` maps every name to its element's value and raises exactly when some element has no value |
| Containers.ParamBlock.constructor | unisi/containers.py:89-99 | a block holds its name, its layout and its widgets by name |
| Containers.WidgetFor | unisi/containers.py:101-124 | a parameter gets a fresh widget showing it exactly when its name has a pretty form and its value is supported |
| Containers.NameMapAll | unisi/containers.py:123 | `name2elem` maps every parameter name to the widget built for it |
| Containers.FilledAll | unisi/containers.py:126-132 | a block filled for all parameters maps each name to its widget and reports each parameter's current value |
| Containers.ShownAll | unisi/containers.py:89-129 | widgets for every parameter with a row width mean the construction is accepted, each widget showing its parameter |
| Containers.Rejected | unisi/containers.py:101-125 | a parameter that cannot be shown, or a zero row width, makes the construction raise |
| Containers.Build | unisi/containers.py:101-124 | the widget for one parameter is built, fresh, exactly when the parameter can be shown, and earlier widgets keep their attributes |
| Containers.NewParamBlock | unisi/containers.py:89-129 | construction succeeds exactly when every parameter can be shown and `row != 0`; the block's layout is the arguments (or `[[]]`) followed by the widgets in rows, `name2elem` maps each name to its widget, and `params` reports the current values |
| Containers.ScrollList | unisi/containers.py:69-71 | the scroll list is the second layout entry when it is a list, and `[]` otherwise |
| Containers.WithScrollList | unisi/containers.py:73-75 | setting the scroll list leaves the first entry (or `[]`) followed by the new list |
| Containers.ScrollListRoundTrip | unisi/containers.py:69-75 | the getter reads back what the setter stored, and a second setting replaces the first |
| Containers.ScrollListLayout | unisi/containers.py:73-75 | setting the scroll list keeps the head of the layout and shows the new list after it |
| Containers.FirstMatch | unisi/containers.py:83-86 | the first element that is the unit or has the name, or -1 exactly when none does |
| Containers.Find | unisi/containers.py:83-86 | `find` returns the first matching element of the flattened layout, and None exactly when there is none |
| Containers.FindUnit | unisi/containers.py:83-86 | finding a unit that is in the layout returns that very unit |
| Containers.AddScalerAsWritten | unisi/containers.py:13-20 | as written: an empty layout becomes `[[scaler]]`, a first row gets the scaler appended, and otherwise the first entry becomes `[value, scaler]`, which holds the layout itself |
| Containers.CycleDiverges | unisi/common.py:7-12 | two lists that begin with each other cannot be flattened on any recursion budget |
| Containers.ScalerAsWrittenDiverges | unisi/containers.py:20-22 | with a unit first in the layout, the placement as written leaves a layout that `flatten` never finishes |
| Containers.WithScaler | unisi/containers.py:13-20 | corrected: the first entry is replaced by `[value[0], scaler]`, the rest of the layout kept |
| Containers.ScalerPlaced | unisi/containers.py:13-20 | the corrected layout shows the first entry, the scaler and then the rest, and leaves the scroll list alone |
| Containers.Normalized | unisi/containers.py:35-37 | a table's `llm` dictionary keeps its fields, a single dependency wrapped in a list |
| Containers.Others | unisi/containers.py:25-27 | `llm = True` depends on exactly the other units of the layout that are not commands |
| Containers.Emitters | unisi/containers.py:42-45 | every dependency gets the dependent unit's `emit` as a changed handler |
| Containers.RaiseKept | unisi/containers.py:23-48 | once the `llm` resolution loop raises, the whole construction raises |
| Containers.ResolveLlm | unisi/containers.py:23-48 | the resolution loop over the flattened layout gives the specified `llm` state, or raises where the source does |
| Containers.NewDialog | unisi/containers.py:134-142 | a dialog holds its question, commands and icon; with content its value is an empty row followed by the content, without it is empty; either way it shows exactly the content's elements |
| Containers.ScalarBuilt | unisi/containers.py:103-106 | a bool, string or number parameter yields a widget named by the pretty name that holds the value |
| Containers.CompositeBuilt | unisi/containers.py:107-119 | a pair of value and options yields a widget named by the pretty name that holds the current value |
| Containers.PlaceIn | unisi/containers.py:125-129 | placing a widget keeps every earlier row and either opens a new row holding it alone or appends it to the last row |
| Containers.PlaceAfter | unisi/containers.py:97-129 | the rows are placed after the arguments, which stay in front untouched |
| Containers.NewRowFull | unisi/containers.py:125-129 | a new row opened after a full last row keeps every row within `row` widgets and all but the last full |
| Containers.GrownRowFull | unisi/containers.py:125-129 | appending to a last row that is not full keeps the rows within `row` widgets and all but the last full |
| Containers.FlattenNewRow | unisi/containers.py:125-129 | a widget in a new row comes last in the flattened layout |
| Containers.FlattenGrownRow | unisi/containers.py:125-129 | a widget appended to the last row comes last in the flattened layout |
| Containers.NamesOf | unisi/containers.py:123 | the names recorded for the first `n` parameters include each of their names |
| Containers.NameIndex | unisi/containers.py:123 | every recorded name belongs to one of the first `n` parameters |
| Containers.NameMap | unisi/containers.py:123 | `name2elem` after `n` widgets has exactly the first `n` parameter names as keys |
| Containers.NameMapStep | unisi/containers.py:123 | building one more widget records it under its parameter's name, and the other entries stay |
| Containers.NameMapAt | unisi/containers.py:123 | with distinct names, each parameter's name maps to the widget built for it |
| Containers.ParamsAt | unisi/containers.py:131-132 | a block whose widgets hold the parameters' current values reports those values under their names |
| Containers.ParamsRead | unisi/containers.py:131-132 | `params` reads back the value every widget holds, under its name |
| Containers.HoldingStep | unisi/containers.py:101-129 | building one more widget leaves the earlier widgets' attributes as they were |
| Containers.ShownKept | unisi/containers.py:101-129 | a further widget that shows its parameter extends the list of widgets that each show theirs |
| Containers.BuildWidgets | unisi/containers.py:101-129 | the loop succeeds exactly when every parameter can be shown and `row != 0`; then it yields one widget per parameter, each showing it, laid out in rows after the arguments, with `name2elem` mapping each name to its widget |
| Containers.ResolvedStep | unisi/containers.py:23-48 | resolving one more element applies one loop step to the state reached before |
| Containers.ResolvedRaise | unisi/containers.py:23-48 | once resolving a prefix raises, resolving it with one more element raises too |
| Containers.ResolveOne | unisi/containers.py:24-48 | one pass of the resolution loop gives the specified step for that element |
| Containers.PyList.constructor | unisi/containers.py:13-20 | a list object holds the given items |
| Tables.CleanSelection | unisi/tables.py:173-175 | cleaning gives an empty list exactly for a list or tuple selection, and None otherwise |
| Tables.SelectedList | unisi/tables.py:170-171 | the selection is empty exactly for None or an empty list, and a single value stands for itself |
| Tables.SelectionMeaning | unisi/tables.py:169-175 | a scalar selection selects itself, a list its items, None nothing; a cleaned selection selects nothing, and cleaning twice is cleaning once |
| Tables.WithTableDefaults | unisi/tables.py:72-73 | `headers`, `type`, `value` (None), `rows`, `editing` and `dense` are set only when missing |
| Tables.WithPersistentDefaults | unisi/tables.py:80-82 | a persistent table gets `filter` (whether it links), `ids` false and an empty `search`, only when missing |
| Tables.WithEditDefaults | unisi/tables.py:158-159 | the delete, append and modify handlers are set only when missing |
| Tables.NewTable | unisi/tables.py:67-159 | construction raises exactly for a persistent table without a database or `ids` on a non-persistent one; otherwise every given attribute is kept and the defaults fill the rest |
| Tables.PrettyAll | unisi/tables.py:184 | the headers built from the fields are their pretty names, one per field, and raise where `pretty4` does |
| Tables.Marked | unisi/tables.py:192-193 | the link headers are the relation mark followed by each link field's pretty name |
| Tables.InsertAt | unisi/tables.py:188-191 | `list.insert` adds exactly one entry |
| Tables.Table.CalcHeaders | unisi/tables.py:182-195 | the header row becomes the specified layout, raising exactly where a pretty name does; a raise on a node field leaves the headers as they were, one on a relation field leaves the base headers with the ID column inserted |
| Tables.HeadersLayout | unisi/tables.py:182-190 | the base headers keep their order around the `ID` column (or the excluded `✘ID` under `filter`), which is inserted after the node fields; without `ids` or `filter` the row is the base alone |
| Tables.Table.DeleteRow | unisi/tables.py:31-48 | no selection deletes nothing; a list selection deletes its rows in descending order and then clears to `[]`, a single one deletes its row and clears to None; a failing deletion raises with the earlier ones done |
| Tables.Table.AppendRow | unisi/tables.py:50-64 | the appended row holds one None per header and is what `rows` grows by |
| Tables.Table.constructor | unisi/tables.py:66-74 | a new table holds the given headers, fields, link, flags, value and rows |
| Tables.DeleteInTurn | unisi/tables.py:43-44 | the positions are deleted in turn, stopping at the first that raises |
| Tables.Positions | unisi/tables.py:170-171 | a selection names one position per selected item, each its integer, or fails where an item is not an integer |
| Tables.SortDesc | unisi/tables.py:42 | `sort(reverse=True)` gives a descending permutation of the positions |
| Tables.SortDescStrict | unisi/tables.py:42 | distinct positions sort strictly descending |
| Tables.KeepDelete | unisi/tables.py:42-44 | deleting a position above every position already gone is keeping the rows outside both |
| Tables.DeleteDescending | unisi/tables.py:42-44 | deleting strictly descending positions in range one at a time keeps exactly the rows at the other positions |
| Tables.DeleteSelectionKeepsOthers | unisi/tables.py:41-45 | a list selection of distinct positions in range deletes exactly those rows, in whatever order they were selected |
| Tables.DeleteSelection | unisi/tables.py:41-47 | a selection that is not positions deletes nothing; a deletion never adds rows, and a complete one removes one row per selected position |
| Tables.DeleteAll | unisi/tables.py:41-45 | deleting in turn never adds rows, and when every position is in range exactly one row goes per position |
| Tables.DeleteSingle | unisi/tables.py:46-48 | a single selected position deletes exactly that row |
| Tables.LinkChange | unisi/tables.py:126-141 | links are edited only with one linked row selected and no filter; in edit mode the deselected ids are unlinked and the newly selected linked, otherwise a warning is returned |
| Tables.LinkChangeSyncs | unisi/tables.py:132-138 | after the edit the linked ids are exactly the new selection, and nothing is both unlinked and linked |
| Tables.TableDefaultsNamed | unisi/tables.py:72-73 | the table defaults cover `headers`, `rows`, `type` and `value` (None), and none of `link`, `filter`, `edit` or `delete` |
| Tables.InsertedLayout | unisi/tables.py:186-189 | `list.insert` at a position keeps the entries before it, puts the new one there and shifts the rest by one |
| Tables.LayoutIdColumn | unisi/tables.py:186-190 | the `ID` column, or `✘ID` under `filter` alone, sits after the node fields with the base around it; with neither flag the row is the base |
| Tables.LayoutRelations | unisi/tables.py:191-195 | under `filter` the relation headers follow the base and the ID column, and with `ids` the relation's `ID` comes last |
| Tables.HeadersRelations | unisi/tables.py:182-195 | under `filter`, the marked link headers follow the ID column exactly when the headers are the node fields, and with `ids` the relation's `ID` comes last |
| Tables.Headers | unisi/tables.py:182-195 | without declared headers, a node field without a pretty name makes the row fail; a row has the base headers, one ID column with `ids` or `filter`, the marked links under `filter` when the headers are the node fields, and the relation's ID with both |
| Tables.AllIndices | unisi/tables.py:41-44 | a list selection names positions exactly when every item is an integer, one position per item |
| Tables.IntListPositions | unisi/tables.py:41-44 | a list of integers names those very positions |
| Tables.DescCons | unisi/tables.py:42 | a head at or above every later item keeps a list descending |
| Tables.StrictCons | unisi/tables.py:42 | a head above every later item keeps a list strictly descending |
| Tables.HeadBounds | unisi/tables.py:42 | the head of a descending list bounds its tail, which stays descending |
| Tables.StrictTail | unisi/tables.py:42-44 | the tail of a strictly descending list is strictly descending and below its head |
| Tables.InsertDescItems | unisi/tables.py:42 | inserting into the sorted list adds the item and nothing else |
| Tables.InsertDescSorted | unisi/tables.py:42 | inserting keeps the list descending, and strictly so for an item not yet in a strictly descending list |
| Tables.SortDescSameSet | unisi/tables.py:42 | sorting keeps the set of positions |
| Tables.Keep | unisi/tables.py:42-44 | the rows kept after deletions are at most the rows there were |
| Tables.KeepNone | unisi/tables.py:42-44 | deleting no position keeps every row |
| Tables.KeepBelow | unisi/tables.py:42-44 | positions at or past the end delete nothing |
| Graphs.GraphDefaults | unisi/graphs.py:39-45 | type `graph`, the empty graph value and empty node and edge lists are filled in only where missing; attributes already set, a falsy value included, are kept |
| Graphs.NewNode | unisi/graphs.py:8-20 | a node has type `image` exactly when it is given an image |
| Graphs.NewEdge | unisi/graphs.py:22-33 | an edge joins the given source and target |
| Graphs.NodeEdgeAttributes | unisi/graphs.py:8-33 | a falsy optional attribute of a node or edge is left out, and reading it with its default gives back what was passed |
| Graphs.Unit2Image | unisi/graphs.py:49-76 | every unit of the net is drawn with a non-empty icon |
| Graphs.Unit2ImageDistinguishes | unisi/graphs.py:49-76 | units drawn with the same icon are of the same class, an edit and a text counting as one, and agree on being a number edit and on being a table rather than a chart |
| Graphs.NodeFor | unisi/graphs.py:131-132 | a unit's node is an image node with its unit's icon, white, of size 15 |
| Graphs.DedupSpec | unisi/graphs.py:126-143 | the net's unit array holds each unit of the topology exactly once |
| Graphs.IndexTopology | unisi/graphs.py:122-143 | the loop lists the units in order of first appearance (a source before its targets), one node per unit, and one edge of indices per link |
| Graphs.IndexingSound | unisi/graphs.py:122-143 | the indexed net holds every unit of the topology exactly once, and each edge holds the `index_of` of its link's ends |
| Graphs.DistinctIndex | unisi/common.py:14-18 | in a list without repeats, `index_of` finds each item at its place |
| Graphs.SelectionIndices | unisi/graphs.py:145-146 | each selected unit is sent as its index in the net, -1 exactly when it is not there |
| Graphs.EdgeIndices | unisi/graphs.py:147 | each selected edge is sent as the indices of its ends, with no other attribute |
| Graphs.UnitsAt | unisi/graphs.py:93 | the selected indices read back as the units at those positions, with Python's negative indexing, raising for an index out of range |
| Graphs.SelectionRoundTrip | unisi/graphs.py:93-146 | sending back the indices the state gave for selected units gives back those units |
| Graphs.AbsentUnitReadsAsLast | unisi/graphs.py:93-146 | a selected unit missing from the net is sent as -1 and reads back as the last unit of the net |
| Graphs.EdgesAtAreLinks | unisi/graphs.py:94 | edge positions sent back by the client stand for the topology's links |
| Graphs.Net.constructor | unisi/graphs.py:81-102 | a new net holds its topology and value with nothing cached |
| Graphs.Net.GetState | unisi/graphs.py:121-149 | the nodes and edges are rebuilt only when missing and the value indices only when missing; what is cached stays |
| Graphs.Net.SpecificChangedRegister | unisi/graphs.py:104-114 | a `_` property, or `value` while the converter runs, is not a change; any other named property drops the cached nodes and value; no property is a change that keeps them |
| Graphs.Net.ChangedConverter | unisi/graphs.py:89-102 | the client's selection is stored and read back into units and edges through the cached arrays, raising when they are missing or an index is out of range; without the net's own `changed` handler the result becomes the value without counting as a change, with one the value stays and only the handler's raising is reported; the converter flag stays set exactly when something raised |
| Graphs.Net.MakeTopologyAsWritten | unisi/graphs.py:151-169 | as written, the new topology drops the caches only when the net is reactive; otherwise they stay |
| Graphs.Net.MakeTopology | unisi/graphs.py:151-169 | the new topology is the one `dive` builds, with the cached nodes and value dropped |
| Graphs.Net.ElementsAsWritten | unisi/graphs.py:116-119 | as written, `elements` always raises AttributeError |
| Graphs.Net.Elements | unisi/graphs.py:116-119 | `elements` gives the net's units, each once, in index order |
| Graphs.MakeTopologyLeavesStaleNodes | unisi/graphs.py:151-169 | a non-reactive net keeps nodes cached for an empty topology after a block linked to one unit becomes its topology |
| Graphs.BlockOfOne | unisi/graphs.py:153-163 | the topology of a block holding one unit links the block to that unit |
| Graphs.Touch | unisi/graphs.py:47 | reading the default dictionary at a key creates its entry and adds no link |
| Graphs.Link | unisi/graphs.py:158-163 | `topo[k][c] = {}` adds exactly the link from `k` to `c` |
| Graphs.DiveLinks | unisi/graphs.py:153-165 | the topology `make_topology` builds links exactly the parent-child pairs of the shape |
| Graphs.UnionLinksEach | unisi/graphs.py:155-159 | a list of units becomes one union unit linked to each of them |
| Graphs.Pairs | unisi/graphs.py:126-140 | the edges from one source pair it with each target, in order |
| Graphs.DedupSnoc | unisi/graphs.py:126-137 | one more unit joins the unit array exactly when it is not there yet |
| Graphs.VisitGrows | unisi/graphs.py:127-132 | a unit new to the array gets the next node, and the edges built so far keep their meaning |
| Graphs.EdgesForGrow | unisi/graphs.py:133-140 | growing the unit array keeps every edge pointing at the same units |
| Graphs.EdgesForSnoc | unisi/graphs.py:140 | an edge between the indices of two units stands for the link between them |
| Graphs.LinksSnoc | unisi/graphs.py:133-140 | one more target adds one unit seen and one link made |
| Graphs.TouchEmpty | unisi/graphs.py:158-163 | the first reading of an empty topology at a unit adds it with no targets |
| Graphs.LinkFirst | unisi/graphs.py:158-163 | the first link from a unit is its only target |
| Graphs.LinkSetSnoc | unisi/graphs.py:153-165 | one more topology entry adds exactly its source's links to each of its targets |
| Graphs.DiveItemsLinks | unisi/graphs.py:153-165 | diving into a list of items links the node to each item's own node and adds the items' links |
| Graphs.Dive | unisi/graphs.py:153-165 | diving never reuses a serial of a union unit, and a list stands for a new union unit |
| Graphs.DiveItems | unisi/graphs.py:157-164 | diving into the items keeps the node and never reuses a serial |
| Graphs.ItemEdgesSingles | unisi/graphs.py:158-163 | when every item is a single unit, the node is linked to exactly those units |
| VoiceCommands.SynMapOwner | unisi/voicecom.py:52-54 | a word is mapped by the synonym loop exactly when some entry lists it, and to the last entry that does |
| VoiceCommands.CommandTableMeaning | unisi/voicecom.py:51-60 | a word is a command word exactly when it is a root command, a mode action or a synonym; a root command or action stands for itself, a synonym for the last command listing it |
| VoiceCommands.OwnerAt | unisi/voicecom.py:52-54 | a synonym belongs to the entry listing it when no later entry lists it |
| VoiceCommands.SynonymsResolved | unisi/voicecom.py:29-39 | with the module's tables "run" and "execute" end as `push` (not `enter`), "back" as `backspace`, "is" as `value`, "okay" as `ok` and "cancel" as `reset` |
| VoiceCommands.ExtRootCommandsValue | unisi/voicecom.py:41-56 | the extended root commands are the root commands followed by the synonyms of root commands, in definition order |
| VoiceCommands.BuildCommandTables | unisi/voicecom.py:51-60 | the module loops build exactly the command table and the extended root list |
| VoiceCommands.AddActions | unisi/voicecom.py:59-60 | every mode action is added as a command standing for itself |
| VoiceCommands.AddSynonyms | unisi/voicecom.py:53-54 | every synonym of a command is mapped to that command |
| VoiceCommands.ModuleTables | unisi/voicecom.py:29-60 | the tables the module builds at import are the command table and extended root list above |
| VoiceCommands.SortWordsSorted | unisi/voicecom.py:159 | sorting words gives a sorted permutation |
| VoiceCommands.CommandsForSorted | unisi/voicecom.py:150-160 | a mode's command list is sorted and holds the mode's actions, the root commands and their synonyms |
| VoiceCommands.RootCommandsEverywhere | unisi/voicecom.py:152 | every root command is offered in every mode |
| VoiceCommands.ModeOf | unisi/voicecom.py:183-190 | a `string` unit selects text mode, a `range` unit number mode, any other its own type |
| VoiceCommands.PutWord | unisi/voicecom.py:240-253 | with the cursor at -1 the word is appended (after a space unless the text is empty) and the cursor goes to the end; otherwise the word and a space are inserted at the cursor, which moves after them |
| VoiceCommands.PutWordKeepsText | unisi/voicecom.py:250-253 | inserting at a cursor keeps the text around it and leaves the cursor just after the word and its space |
| VoiceCommands.PutWordAtEnd | unisi/voicecom.py:244-249 | a word put at the end becomes the text's last word |
| VoiceCommands.Delete | unisi/voicecom.py:364-366 | corrected, `delete` removes the character at the cursor when there is one, and otherwise changes nothing |
| VoiceCommands.DeleteAsWrittenMisses | unisi/voicecom.py:364-366 | as written, `delete` keeps a last character under the cursor, and with the cursor at -1 it duplicates the text but for its last character |
| VoiceCommands.DeleteRemovesAtCursor | unisi/voicecom.py:364-366 | `delete` removes exactly one character, the one at the cursor |
| VoiceCommands.CursorCommands | unisi/voicecom.py:353-374 | corrected (`delete` removes the character at the cursor): the text commands keep the cursor within the text; `backspace` removes the character before the cursor and `space` inserts a space at it |
| VoiceCommands.UndoRestoresWord | unisi/voicecom.py:371-373 | `undo` after a word was typed gives back the text and cursor saved before it |
| VoiceCommands.DialogCommandsSorted | unisi/voicecom.py:325-328 | corrected, a dialog's command list is sorted and holds the extended root commands and `close` |
| VoiceCommands.DialogCommandsAsWrittenUnsorted | unisi/voicecom.py:326-328 | as written, the dialog's command list is not sorted: `stop` comes before `reset` |
| VoiceCommands.DialogCommands | unisi/voicecom.py:325-328 | corrected, the dialog offers one command more than the extended root commands, and `close` among them |
| VoiceCommands.Word2Command | unisi/voicecom.py:51-60 | every root command and every mode action is its own command, whatever synonym names it |
| VoiceCommands.TextCommand | unisi/voicecom.py:350-374 | corrected (`delete` removes the character at the cursor): exactly the text commands have a meaning in text mode; `left` and `right` keep the text, `space` lengthens it by one and `clean` empties it |
| VoiceCommands.CachedCommands | unisi/voicecom.py:150-160 | the command list of a mode comes from the cache when there is a non-empty entry, otherwise it is built and cached; either way it is the mode's sorted list |
| VoiceCommands.RootSynonymsStep | unisi/voicecom.py:51-56 | the extended root commands gain an entry's synonyms exactly when the entry is a root command |
| VoiceCommands.RootSynonymsFirstThree | unisi/voicecom.py:29-56 | the root synonyms among the first three synonym entries are `select`, `choose`, `set` |
| VoiceCommands.RootSynonymsFirstSix | unisi/voicecom.py:29-56 | the root synonyms among the first six synonym entries add `menu` |
| VoiceCommands.ActionsStep | unisi/voicecom.py:59-60 | one more mode adds its actions, each standing for itself |
| VoiceCommands.InsertWordItems | unisi/voicecom.py:159 | inserting a word into the sorted list adds it and nothing else |
| VoiceCommands.InsertWordSorted | unisi/voicecom.py:159 | inserting a word keeps the list sorted |
| VoiceCommands.SliceInRange | unisi/voicecom.py:244-253 | a Python slice within the text is the plain subsequence |
| VoiceCommands.VoiceCom.constructor | unisi/voicecom.py:64-70 | corrected (the dialog commands sorted): a new assistant starts reset: root mode, empty buffer, no unit, an empty cache, and the dialog's or the screen's options |
| VoiceCommands.VoiceCom.SelectCommands | unisi/voicecom.py:150-161 | the commands become the mode's sorted list, cached under the mode |
| VoiceCommands.VoiceCom.SetMode | unisi/voicecom.py:145-175 | `set_mode` sets the mode, clears the buffer, the saved text and the chosen element, and shows the mode's commands, options and prompt |
| VoiceCommands.VoiceCom.ShowMode | unisi/voicecom.py:162-175 | the input names the mode, the prompt and options are the mode's, and no element is chosen |
| VoiceCommands.VoiceCom.ActivateUnit | unisi/voicecom.py:177-197 | the previous unit is deactivated; a new unit is activated and focused and selects its mode, with its text and cursor saved for a text or number unit; without a unit the extended root commands are offered |
| VoiceCommands.VoiceCom.Reset | unisi/voicecom.py:322-341 | corrected (the dialog commands sorted): back to root mode with an empty buffer and no unit; a dialog offers its sorted element names and the dialog commands, otherwise the screen's units and the extended root commands |
| VoiceCommands.VoiceCom.Stop | unisi/voicecom.py:203-205 | the assistant block leaves the screen |
| VoiceCommands.VoiceCom.HearTextWord | unisi/voicecom.py:228-253 | a command word heard twice in a row undoes its first typing and is run; any other word is typed in after the text and cursor are saved |
| VoiceCommands.VoiceCom.TextContextCommand | unisi/voicecom.py:348-376 | corrected (`delete` removes the character at the cursor): a text command edits the unit's text and cursor as specified, and any other command is answered as out of context with the text unchanged |
| VoiceCommands.VoiceCom.RunCommand | unisi/voicecom.py:305-320 | corrected (`delete` removes the character at the cursor): `root` and `reset` reset the assistant, `screen` switches to screen mode, `stop` hides it, any other command goes to the unit, and without a unit it is out of context |
| VoiceCommands.VoiceCom.ProcessTextWord | unisi/voicecom.py:216-253 | corrected (`delete` removes the character at the cursor): the input shows the word; an empty word changes nothing more; a word is typed into the text or, said twice, run as a command |
| VoiceCommands.VoiceCom.Enter | unisi/voicecom.py:184-196 | activating a unit focuses it, selects its mode's commands and saves the text and cursor of a text or number unit |
| VoiceCommands.VoiceCom.Release | unisi/voicecom.py:178-180 | the current unit, if any, is deactivated and unfocused, and none is current afterwards |
| VoiceCommands.VoiceCom.Offer | unisi/voicecom.py:325-334 | corrected (the dialog commands sorted): a dialog offers its command list and its sorted element names; otherwise the extended root commands and the screen's unit names |
| VoiceCommands.Unit.constructor | unisi/voicecom.py:183-196 | a unit the assistant can edit starts inactive and unfocused, with the cursor at 0 |
| Client.CompositeEvents | unisi/proxy.py:7-20 | each composite event is the union of its simple ones, and a new screen carries the update bit but not the progress bit |
| Client.Put | unisi/proxy.py:160-161 | writing a dictionary key makes it read back the value and leaves every other key as it was |
| Client.Name2BlockLookup | unisi/proxy.py:160-162 | every block of a screen is found under its name (the last one when names repeat), and `toolbar` holds the toolbar |
| Client.Named | unisi/proxy.py:59-61 | the elements with a given name are exactly the searched elements that have it |
| Client.ScanUnique | unisi/proxy.py:58-66 | the search loop returns the element exactly when one is so named, None when none or several are |
| Client.Element | unisi/proxy.py:55-66 | `element` gives the element only when exactly one searched element has the name; without a screen, or for an unknown block name, it raises |
| Client.OfTypes | unisi/proxy.py:70-74 | the filter keeps exactly the elements of the listed types, all of them when no types are given |
| Client.Elements | unisi/proxy.py:68-75 | `elements` gives the filtered elements of the block, or of every block of the screen, raising without a screen |
| Client.FirstMatch | unisi/proxy.py:79-82 | the first block holding a matching element, or past the end when none does |
| Client.BlockName | unisi/proxy.py:77-82 | `block_name` is the name of the first block holding the element (by name or by value), None exactly when no block holds it |
| Client.MakeMessage | unisi/proxy.py:98-104 | the message is None exactly for an event other than `changed` the element does not declare; otherwise it names the element, its block, the event and the value; a name that finds no unique element raises |
| Client.Processed | unisi/proxy.py:149-184 | corrected (classified by the reply's own type, `update` not raising): no reply is no event; a screen is stored under its name with its block table; a dialog is kept; `complete` changes no field; an error, warning or info reply is a message and a progress reply is progress, each with the update bit when it carries updates; an `update` reply is an update and leaves the screens alone |
| Client.ProcessAsWrittenMisclassifies | unisi/proxy.py:174-183 | as written an `info` reply is reported as unknown instead of a message, and a `progress` reply lacks the progress bit |
| Client.ProcessAsWrittenRaisesOnUpdates | unisi/proxy.py:171-189 | as written, an `update` reply or an `info` reply with updates raises AttributeError in `update`; corrected, it is an update event and the cached screens are kept |
| Client.Classified | unisi/proxy.py:174-183 | a reply other than screen, dialog, complete, append or update carries the update bit exactly when it has updates, the message bit exactly for error, warning and info, the progress bit exactly for progress, and is unknown otherwise |
| Client.Interacted | unisi/proxy.py:106-112 | `interact` takes at least the first reply and no more than are sent |
| Client.ProgressThenMessage | unisi/proxy.py:106-112 | a progress reply keeps the exchange going, and the following info reply is its outcome |
| Client.ByNameLookup | unisi/proxy.py:160 | the block table built from the screen finds each name's last block |
| Client.InteractedStep | unisi/proxy.py:106-112 | after a reply that reports progress the exchange goes on with the next reply, otherwise it ends with that reply |
| Client.Proxy.constructor | unisi/proxy.py:30-41 | corrected (replies classified by their own type): a new client with nothing cached takes in the server's first reply |
| Client.Proxy.Process | unisi/proxy.py:149-184 | corrected (replies classified by their own type, with updates taken in): `process` leaves the fields and returns the event as specified |
| Client.Proxy.Interact | unisi/proxy.py:106-112 | corrected (replies classified by their own type): the loop takes replies in while they report progress, and returns the event field afterwards |
| Client.Proxy.SetScreen | unisi/proxy.py:129-137 | corrected (replies classified by their own type): a cached screen answers true with nothing sent; a name not in the menu answers false; otherwise the screen is requested and the answer is whether the reply was a screen |
| Client.Proxy.DialogResponse | unisi/proxy.py:143-147 | corrected (replies classified by their own type): without a dialog the event becomes invalid; otherwise the exchange with the server decides it |

## Left out

- Network and transport: the websocket and HTTP layers are not modelled. This covers `create_connection`, `upload` and `command_upload` in unisi/proxy.py, and the server side. `Proxy.request` gets the reply as a parameter instead of receiving it.
- `Proxy.update` (unisi/proxy.py:186-200): as written it reads `message.updates` from a decoded JSON dict and raises AttributeError, which `Client.ProcessedAsWritten` models. How the corrected `update` would patch the cached screen is not modelled. `set_value`, `commands`, `dialog_commands` and `close` only wrap the request and the socket.
- Concurrency, `multimon`, the reloader and the server loop are not modelled: they schedule work and do not change the state modelled here.
- Kuzu query execution is not modelled: `Dbtable` keeps its rows in a sequence, ordered by ID, and queries become reads of that sequence. Schema migration, `update_cell` beyond the row store, and index creation are not modelled.
- Handlers, `emit` (the LLM call), `PandaTable` (pandas) and `jsonpickle` are calls into code outside the core. They are parameters or results of the model.
- `DbUnitsModel`, `DbElementsModel`: only the corrected `pop` counts a negative index from the end. Reading, writing and deleting take a negative index as the source does: its chunk key is negative and no chunk is found. Chunk sizes are positive, because Python would raise `ZeroDivisionError` for a zero limit.
- `DbElementsModel.Extend`: the source ends in an `AttributeError`, because `Dbtable` has no `get_init_list`. The model keeps the state reached before it and sets the raised flag.
- Voice assistant: not modelled are `find_most_similar_sequence` (fuzzy matching), `word_to_number`, number mode with its float edits, the command-mode handler, the non-text branches of `process_word` and `context_command`, `calc_interactive_units` and `select_elem`.
- `Graphs.Net`: the net's own `changed` handler is user code. `Graphs.Net.ChangedConverter` takes whether the net has one and whether it raised; what the handler does to the net, and the result it returns, are not modelled. `__str__` of nodes and edges, and `compact_view`, are not modelled.
- Tables: not modelled are the link branches of `delete` and `append` (database link operations), persistent rows in `delete` and `append`, float coercion in `accept_cell_value`, and `compact_view`.
- `Range` and the content scaler's scaling arithmetic work on floats and are not modelled. Only the scaler's placement in the block is.
- `autotest.test` and `run_tests` read and write files and are not modelled. `check_block`, `check_module` and the recorder are.
- The user's `log` and `monitor`, `load_screen`, `set_clean`, `update_menu` and `run_process` are not modelled: they are I/O, import machinery or thread scheduling.
- `smart_complete` in unisi/guielements.py is the same function as in unisi/units.py, and `Units.SmartComplete` models both. The `Edit` and `Select` defaults of the old widgets reuse `Units.EditDefaults` and `Units.SelectDefaults`.
- `Users.User.PrepareResult`: requires a loaded screen, because the source resolves element paths through the screen.
- `Containers.Walk`: the walk over nested values takes a fuel bound. A value nested deeper than the fuel is treated as a leaf.
- `Common.ScreenType`, `Common.VoiceType`, `Units.ChangedProxy.Equals` and `Units.ChangedProxy.Length` are plain predicates and functions used by the other members. They carry no contract of their own.
- Client.Processed: an `update` reply, or another reply with updates, is taken as an update event without patching the cached screen, because the corrected `update` is not modelled (see above).
- Units.SmartCompleteSpec: lower-casing folds ASCII letters only (`Values.Lower`); Python's `str.lower` folds every letter with a lower-case form.
- Common.Pretty4: upper-casing folds ASCII letters only (`Common.Upper`); Python's `str.upper` folds every letter.
- Kdb.EqualFieldsDictsIffLoweredEqual: the lower-casing of field names folds ASCII letters only, as in `Values.Lower`.
- Units.ChangedProxy: a proxy reaches its part of the unit's value by a path of keys from the unit. A proxy kept after that attribute was reassigned still follows the path to the new value, whereas in unisi/units.py:10-25 it keeps the old object.
- DbUnits.Dblist.Delete: follows the corrected `DbUnitsModel.DelItem`, not the code as written (see Findings).
- DbUnits.Dblist.ShiftAfterDelete: follows the corrected `DbUnitsModel.DelItem`, not the code as written (see Findings).
- DbUnits.Dblist.Append: follows the corrected `DbUnitsModel.Append`, not the code as written (see Findings).
- DbUnits.Dblist.Extend: follows the corrected `DbUnitsModel.Extend`, not the code as written (see Findings).
- DbUnits.Dblist.HandOut: follows the corrected `DbUnitsModel.Extend`, not the code as written (see Findings).
- DbUnits.Dblist.Insert: follows the corrected `DbUnitsModel.Append`, not the code as written (see Findings).
- DbUnits.Dblist.Remove: follows the corrected `DbUnitsModel.DelItem`, not the code as written (see Findings).
- DbUnits.Dblist.Pop: follows the corrected `DbUnitsModel.Pop`, not the code as written (see Findings).
- DbElements.Dblist.Delete: follows the corrected `DbElementsModel.DelItem`, not the code as written (see Findings).
- DbElements.Dblist.Append: follows the corrected `DbElementsModel.Append`, not the code as written (see Findings).
- DbElements.Dblist.Insert: follows the corrected `DbElementsModel.Append`, not the code as written (see Findings).
- DbElements.Dblist.Remove: follows the corrected `DbElementsModel.DelItem`, not the code as written (see Findings).
- DbElements.Dblist.Pop: follows the corrected `DbElementsModel.Pop`, not the code as written (see Findings).
- DbElements.Dblist.Clear: follows the corrected `DbElementsModel.Clear`, not the code as written (see Findings).
- DbElements.Dblist.RunCascade: follows the corrected `DbElementsModel.DelItem`, not the code as written (see Findings).
- DbElementsModel.DelItemKeepsValid: follows the corrected `DbElementsModel.DelItem`, not the code as written (see Findings).
- DbElementsModel.DelItemInRange: follows the corrected `DbElementsModel.DelItem`, not the code as written (see Findings).
- DbElementsModel.DelItemFromChunk: follows the corrected `DbElementsModel.DelItem`, not the code as written (see Findings).
- DbElementsModel.PopKeepsValid: follows the corrected `DbElementsModel.Pop`, not the code as written (see Findings).
- Users.User.ScreenProcess: follows the corrected `Users.Switch`, not the code as written (see Findings).
- Users.User.Result4Message: follows the corrected `Users.Switch`, not the code as written (see Findings).
- Users.User.Process: follows the corrected `Users.Switch`, not the code as written (see Findings).
- VoiceCommands.VoiceCom.constructor: follows the corrected `VoiceCommands.DialogCommands`, not the code as written (see Findings).
- VoiceCommands.VoiceCom.Reset: follows the corrected `VoiceCommands.DialogCommands`, not the code as written (see Findings).
- VoiceCommands.VoiceCom.Offer: follows the corrected `VoiceCommands.DialogCommands`, not the code as written (see Findings).
- VoiceCommands.TextCommand: follows the corrected `VoiceCommands.Delete`, not the code as written (see Findings).
- VoiceCommands.CursorCommands: follows the corrected `VoiceCommands.Delete`, not the code as written (see Findings).
- VoiceCommands.VoiceCom.TextContextCommand: follows the corrected `VoiceCommands.Delete`, not the code as written (see Findings).
- VoiceCommands.VoiceCom.RunCommand: follows the corrected `VoiceCommands.Delete`, not the code as written (see Findings).
- VoiceCommands.VoiceCom.ProcessTextWord: follows the corrected `VoiceCommands.Delete`, not the code as written (see Findings).
- Client.Proxy.constructor: follows the corrected `Client.Processed`, not the code as written (see Findings).
- Client.Proxy.Process: follows the corrected `Client.Processed`, not the code as written (see Findings).
- Client.Proxy.Interact: follows the corrected `Client.Processed`, not the code as written (see Findings).
- Client.Proxy.SetScreen: follows the corrected `Client.Processed`, not the code as written (see Findings).
- Client.Proxy.DialogResponse: follows the corrected `Client.Processed`, not the code as written (see Findings).
- Common.ComposeHandlers: follows the intended call of every handler with `obj`, not the rebinding as written (see Findings).
- DbUnitsModel.ExtendAsWritten: requires `Fillable`, which leaves out the lists on which the loop as written never ends. Such lists are reachable (`DbUnitsModel.ExtendAfterAppendStalls`), and the loop on them is modelled turn by turn by `DbUnitsModel.LoopTurn` (see Findings).
- DbUnitsModel.DistributeAsWritten: requires `Fillable` for the same reason as `DbUnitsModel.ExtendAsWritten`.
- DbElementsModel.Extend: requires `Fillable`, which leaves out the lists on which the loop never ends. `clear` on a full first page reaches one (`DbElementsModel.ExtendAfterClearStalls`, see Findings).
- DbElements.Dblist.Extend: requires `Fillable` for the same reason as `DbElementsModel.Extend`.
- DbUnitsModel.Remove: Python's numeric equality (`1 == 1.0 == True`) is not modelled. A bool last cell is used by the source as position 0 or 1. With a float last cell the source deletes the row and queues the patch before `del chunk[1.0]` raises TypeError. The model treats every last cell that is not an `Int` as raising with nothing changed.
- DbElementsModel.Remove: as `DbUnitsModel.Remove`, a bool or float last cell is treated as raising with nothing changed.
- Tables.Positions: a selection mixing integers and floats, such as `[3, 0.5]`, makes the source delete row 3 before `del rows[0.5]` raises; `Positions` refuses such a selection as a whole, so nothing is deleted. Bools are taken as 0 and 1, as in Python.
- Values.EntryIndex: keys are compared as values, so a key `1.0` or `True` does not find the entry with key `1`, as it would in a Python dict.
- Units.Unit.Mutate: the attributes are a map, so the order of the reports is left open; Python reports them in the order of `obj.__dict__`, which is the order in which they were first set.

## Findings

| source | as written | input that shows it | evidently intended | confidence | as-written member | corrected member |
|---|---|---|---|---|---|---|
| unisi/dbunits.py:92-105 | `__delitem__` passes the row's position to `Dbtable.delete_row`, which deletes by ID (unisi/kdb.py:285-288), and always decrements the length | a table with one row, whose ID is 5; `del dl[0]` deletes no row, but the length drops to 0 | delete the row at that position | not executed | DbUnitsModel.DelItemAsWritten, DbUnitsModel.DelItemDeletesById | DbUnitsModel.DelItem, DbUnitsModel.DelItemKeepsValid, DbUnitsModel.DelItemLoneRow, DbUnits.Dblist.Delete, DbUnits.Dblist.Remove |
| unisi/dbunits.py:92-105 | deleting from a full chunk whose next chunk is not held leaves the chunk one row short | limit 2, three rows, only chunk 0 held; after `del dl[0]`, reading `dl[1]` raises IndexError | pull the first row of the next chunk into the held chunk | not executed | DbUnitsModel.DelItemAsWritten, DbUnitsModel.DelItemLeavesShortChunk | DbUnitsModel.DelItem, DbUnitsModel.DelItemRefillsChunk, DbUnits.Dblist.Delete, DbUnits.Dblist.ShiftAfterDelete |
| unisi/dbunits.py:148-172 | `extend`, when the chunk at the old length is not held and the old length is not a multiple of the limit, starts an empty chunk at that key; the loop at unisi/dbelements.py:125-138 does the same | limit 2, three rows, chunk 2 not held; after `extend` with one row, `dl[2]` reads the new row | the held chunks keep mirroring the table | not executed | DbUnitsModel.ExtendAsWritten, DbUnitsModel.ExtendMisplacesRows, DbElementsModel.Extend, DbElements.Dblist.Extend | DbUnitsModel.Extend, DbUnitsModel.ExtendKeepsValid, DbUnits.Dblist.Extend, DbUnits.Dblist.HandOut |
| unisi/dbunits.py:155-169 | `extend` takes `can_fill` from the length of the held chunk; when that chunk already holds `limit` rows, `can_fill` is 0, neither `start` nor `len_rows` moves, and the loop never ends | limit 2: `clear()`, one `append` (whose chunk then holds the row twice), then `extend` with one row | every turn hands out at least one row | not executed | DbUnitsModel.LoopTurn, DbUnitsModel.FullChunkStalls, DbUnitsModel.ExtendAfterAppendStalls | DbUnitsModel.FillableLoopEnds, DbUnitsModel.ValidFillable, DbUnitsModel.ExtendAfterAppendEnds, DbUnitsModel.Extend |
| unisi/dbelements.py:125-138 | the same loop; as `clear` keeps the held chunks, a full first page stays held at offset 0 of an empty table, and `extend` finds `can_fill` 0 there forever | limit 2, two rows held at 0: `clear()`, then `extend` with one row | every turn hands out at least one row | not executed | DbUnitsModel.FullChunkStalls, DbElementsModel.ExtendAfterClearStalls | DbElementsModel.Clear, DbElementsModel.ValidFillable, DbElementsModel.ExtendAfterClearEnds |
| unisi/dbunits.py:134-146 | `append` reads the last chunk from the database after the row was stored, then appends the row again | two appends to an emptied list; position 1 then reads the first row | hold the new row once | not executed | DbUnitsModel.AppendAsWritten, DbUnitsModel.AppendRereadsRow, DbUnitsModel.AppendDuplicatesRow | DbUnitsModel.Append, DbUnitsModel.AppendTwiceAfterClear, DbUnits.Dblist.Append, DbUnits.Dblist.Insert |
| unisi/dbunits.py:181-184 | `pop()` uses the default index -1 as it is; its chunk key is -2, the read finds nothing, and nothing is deleted | `pop()` on a one-row list returns None | remove and return the last row | not executed | DbUnitsModel.PopAsWritten, DbUnitsModel.PopDefaultDeletesNothing | DbUnitsModel.Pop, DbUnitsModel.PopKeepsValid, DbUnits.Dblist.Pop |
| unisi/dbelements.py:95-97 | deleting from a full last chunk reads `read_rows(...)[0]` past the end of the table | limit 2, two rows; `del dl[1]` | no refill when no row follows | not executed | DbElementsModel.DelItemAsWritten, DbElementsModel.DelItemRaisesAtEnd | DbElementsModel.DelItem, DbElementsModel.DelItemAtEnd, DbElements.Dblist.Delete, DbElements.Dblist.RunCascade |
| unisi/dbelements.py:105-116 | `append` stores the cells without their ID in the held chunk | `append(["b"])` to a list holding `["a", 0]`; position 1 reads `["b"]` | hold the row with its new ID, as the database stores it | not executed | DbElementsModel.AppendAsWritten, DbElementsModel.AppendStoresCells | DbElementsModel.Append, DbElementsModel.AppendStoresRow, DbElements.Dblist.Append, DbElements.Dblist.Insert |
| unisi/dbelements.py:154-156 | `clear` empties the table but keeps the held chunks | `clear()` then `append(["b"])`; position 0 reads the cleared row | drop the held chunks | not executed | DbElementsModel.ClearAsWritten, DbElementsModel.ClearLeavesChunks | DbElementsModel.Clear, DbElementsModel.ClearThenAppend, DbElements.Dblist.Clear |
| unisi/units.py:24 | a nested proxy is given the proxy as its `_unit`, which has no `_mark_changed` | `unit.data.xs.append(1)` | report the change to the owning unit | not executed | Units.ChangedProxy.GetAttrAsWritten, Units.NestedAppendAsWritten | Units.ChangedProxy.GetAttr, Units.NestedAppendReported |
| unisi/users.py:246-265 | the `for ... else` answers "Unknown screen" when the requested screen is the current one | a request to switch to the screen already shown | leave the screen as it is | not executed | Users.SwitchAsWritten, Users.SwitchAsWrittenRefusesCurrent, Users.CurrentScreenUnknown | Users.Switch, Users.SwitchFindsNamed, Users.User.ScreenProcess, Users.User.Result4Message, Users.User.Process |
| unisi/users.py:57-58 | `progress` calls `reflect(None, msg)`, and `reflect` reads `None.screen_type` (unisi/users.py:66-70) when the session is shared | `progress("x")` for a user with a reflection | send the message to the reflections without reading the request | not executed | Users.User.ReflectAsWritten, Users.ProgressReflection | Users.User.Reflect, Users.ProgressReflection |
| unisi/graphs.py:116-119 | `elements` returns `self.narray`, an attribute never set (the cache is `_narray`) | any `net.elements` | return the cached node and edge array | not executed | Graphs.Net.ElementsAsWritten | Graphs.Net.Elements |
| unisi/graphs.py:151-169 | the final `specific_changed_register()` call passes no property, so no cache is dropped | a non-reactive net whose nodes were cached for an empty topology, then linked to one unit | drop the node cache built from the old topology | not executed | Graphs.Net.MakeTopologyAsWritten, Graphs.MakeTopologyLeavesStaleNodes | Graphs.Net.MakeTopology |
| unisi/voicecom.py:326-328 | the dialog commands are collected but never sorted | the dialog list offers "stop" before "reset" | commands in sorted order, as the other command lists are | not executed | VoiceCommands.DialogCommandsAsWritten, VoiceCommands.DialogCommandsAsWrittenUnsorted | VoiceCommands.DialogCommands, VoiceCommands.DialogCommandsSorted, VoiceCommands.VoiceCom.constructor, VoiceCommands.VoiceCom.Reset, VoiceCommands.VoiceCom.Offer |
| unisi/voicecom.py:364-366 | the guard `x < len(value) - 1` never deletes the last character; with the cursor at -1 the slice doubles the text | text "ab": cursor 1 leaves "ab"; cursor -1 gives "aab" | delete the character at the cursor | not executed | VoiceCommands.DeleteAsWritten, VoiceCommands.DeleteAsWrittenMisses | VoiceCommands.Delete, VoiceCommands.DeleteRemovesAtCursor, VoiceCommands.TextCommand, VoiceCommands.CursorCommands, VoiceCommands.VoiceCom.TextContextCommand, VoiceCommands.VoiceCom.RunCommand, VoiceCommands.VoiceCom.ProcessTextWord |
| unisi/proxy.py:174-183 | the reply type is compared through the builtin `type`, and the second test is an `if`, not an `elif` | an `info` reply; a `progress` reply | classify `info`, `progress` and the others by the reply's own type | not executed | Client.ClassifiedAsWritten, Client.ProcessedAsWritten, Client.ProcessAsWrittenMisclassifies | Client.Classified, Client.Processed, Client.ProgressThenMessage, Client.Proxy.constructor, Client.Proxy.Process, Client.Proxy.Interact, Client.Proxy.SetScreen, Client.Proxy.DialogResponse |
| unisi/containers.py:13-20 | the scaler is placed with `self.value[0] = [self.value, scaler]`, which makes the list contain itself | a layout whose first item is a unit, with a content scaler; `flatten` of the layout | put the old first row beside the scaler | not executed | Containers.AddScalerAsWritten, Containers.ScalerAsWrittenDiverges | Containers.WithScaler, Containers.ScalerPlaced |
| unisi/dbelements.py:80-85 | `__delitem__` passes the row's position to `Dbtable.delete_row`, which deletes by ID (unisi/kdb.py:285-288), and always decrements the length | a table with one row, whose ID is 5; `del dl[0]` deletes no row, but the length drops to 0 | delete the row at that position | not executed | DbElementsModel.DelItemAsWritten, DbElementsModel.DelItemDeletesById | DbElementsModel.DelItem, DbElementsModel.DelItemLoneRow, DbElementsModel.DelItemKeepsValid, DbElementsModel.DelItemInRange, DbElementsModel.DelItemFromChunk, DbElements.Dblist.Delete, DbElements.Dblist.Remove |
| unisi/dbelements.py:149-152 | `pop()` uses the default index -1 as it is; its chunk key is minus the limit, the read finds nothing, and nothing is deleted | `pop()` on any list returns None | remove and return the last row | not executed | DbElementsModel.PopAsWritten, DbElementsModel.PopDefaultDeletesNothing | DbElementsModel.Pop, DbElementsModel.PopKeepsValid, DbElements.Dblist.Pop |
| unisi/proxy.py:171-189 | `process` hands `update` replies, and other replies with updates, to `update`, which reads `message.updates` as an attribute of the decoded dict | an `update` reply | take the updates in and report an update event | not executed | Client.ProcessedAsWritten, Client.ProcessAsWrittenRaisesOnUpdates | Client.Processed, Client.Proxy.Process |
| unisi/common.py:31-32 | `for obj in flatten(result)` reuses the composed handler's parameter `obj`, so later handlers are called with the last unit of a list result | two handlers, the first returning `[u]`: the second is called with `u` | call every handler with the original object | not executed | Common.ObjAfter, Common.ComposeRebindsObj | Common.ComposeHandlers |
