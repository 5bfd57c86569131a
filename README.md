# PLAMA map records, refresh cycle and placement bar — a Dafny model

PLAMA is a desktop map of "agents". Every agent is a folder below `obiekty/`
whose `mapa_dane.txt` says where its icon stands (`xy=`), which icon it uses
(`ikona=`), how large it is (`rozmiar=`) and what state its process is in
(`proces=`). Connections between agents live in `linie/<folder>/linia_dane*`
files (`xy1=`, `xy2=`, `proces=`). The map window regenerates two summary
files from those folders: `obraz.txt`, one object per line, and
`polaczenie.txt`, one connection per line. It draws what the summaries hold,
and when an icon is dragged it writes the new position back into the source
line it came from. A double click on the map leaves a sensor file
`mapa/sensory/2xlp.txt`. The placement bar (`pasek`) watches that file.
While it is switched on, every new double-click point copies the template
folder of the selected slot into `obiekty/` as a new object standing there.

This project models that core in Dafny:

- `wrappers.dfy` (`Wrappers`): `Option` and `Parsed`. `Parsed` is either a value or the token a `float()`/`int()` call choked on.
- `text.dfy` (`Text`): the Python string operations the code relies on.
  - `strip`, `lower`, `split`, `join` and `splitlines`;
  - `re.split(r'[\s,]+')` and `replace(',', ' ').split()`.
- `numbers.dfy` (`Numbers`): number handling.
  - `float()` of decimal tokens, kept as exact decimals;
  - `str()` of such a float;
  - banker's `round()`;
  - `int()`.
- `sorting.dfy` (`Sorting`): `sorted()` as a stable sort, and Python's order on strings.
- `fs.dfy` (`Fs`): the folder tree.
  - Entries are kept in creation order, which is the order `iterdir()` lists them in.
  - The `Disk` class holds the tree and is changed in place.
- `records.dfy` (`Records`): `parse_source_file` (its three formats), `parse_line_source_file` and the parsing in `load_line_display_data`.
- `snapshot.dfy` (`Snapshot`): the text `write_obraz` and `write_polaczenie` produce, and the round trips through the parsers.
- `matching.dfy` (`Matching`):
  - `find_files_with_xy`;
  - `update_xy_in_files`, as a method over the `Disk`;
  - the nearest-source join of `load_display_data`.
- `repository.dfy` (`Repository`):
  - `load_source_data` and `load_line_source_data`, which refill the two caches (an insertion-ordered dict model);
  - the rebuild of both summaries.
- `window.dfy` (`Window`): `_sources_signature` and the `MainWindow` class.
  - Its `_prime_sources_and_obraz`, `_maybe_regenerate_obraz` and `refresh` update the window's fields.
- `sensors.dfy` (`Sensors`): the content `MapView._sensor_write` writes.
- `pasek.dfy` (`PlacementBar`): `mapa/auto_start/pasek/dodaj.py`.
  - `RX_START`, `next_obj_name`, `write_xy` and `copytree`;
  - the `Pasek` class with `read_slot`, `read_stan`, `toggle_stan`, `scan_folders`, the slot click and `handle_logic`.

Behaviour as the code has it. Where a prose description of the program says otherwise, the model follows the code:

- A coordinate token that is not a number makes `float()` raise. In a single-line or multi-line source file, and in `obraz.txt`, the whole file then yields nothing: it is not read as 0.
- A missing `rozmiar` is written back as `1.0` (`str(max(0.01, 1.0))`), not `1`.
- The multi-line heuristic requires `=` on every line, blank lines included.
- `find_files_with_xy` accepts a line only when both differences are strictly below 0.1.
- The drag release calls `find_files_with_xy(x, y, None)` and then `(x, y, "")`. Both search every agent folder.
- The first `MainWindow.refresh` definition (mapa/PLAMA.py:1405-1410) is dead code: the later one replaces it.
- `update_xy_in_files` writes `'\n'.join(lines)`, so a rewritten file loses its final line break. A match numbered 0 would address the last line, as `lines[-1]` does.

## Model

| member | source | states |
|---|---|---|
| Records.KeyValueSpec | mapa/PLAMA.py:124-126 | a part gives an assignment exactly when it holds `=`; the key comes out lowercased, the value stripped |
| Records.DictDomain | mapa/PLAMA.py:122-126 | a key is in the dict exactly when some assignment sets it |
| Records.DictLastWins | mapa/PLAMA.py:122-126 | for a key set more than once, the dict holds the last value set |
| Records.DictValueFrom | mapa/PLAMA.py:122-126 | every value in the dict was assigned to its key by one of the parts |
| Records.FieldsDomain | mapa/PLAMA.py:121-126 | a key is in a line's dict exactly when one of its parts carries it |
| Records.FieldsLastWins | mapa/PLAMA.py:121-126 | a duplicated key takes the value of the last part carrying it |
| Records.FieldsStripped | mapa/PLAMA.py:126 | every value of the dict is stripped |
| Records.NonBlank | mapa/PLAMA.py:121 | the kept parts are parts of the line and none of them is blank |
| Records.ParseXYOfInts | mapa/PLAMA.py:128-131 | `"X Y"` written from integers is read back as exactly those integers |
| Records.ParseXYEmpty | mapa/PLAMA.py:130-131 | an empty xy value puts the point at the origin |
| Records.ParseXYZero | mapa/PLAMA.py:128 | the default `"0 0"` for a missing xy key puts the point at the origin |
| Records.CommaToPoint | mapa/PLAMA.py:134 | every comma becomes a point and every other character is kept |
| Records.ClampValue | mapa/PLAMA.py:141 | the size is at least 0.01: it is the value itself when that is at least 0.01, else 0.01 |
| Records.AtLeastHundredth | mapa/PLAMA.py:141 | the integer test the clamp uses agrees with `value >= 0.01` |
| Records.SizeTextValue | mapa/PLAMA.py:141 | the size text `str(max(0.01, size))` parses, and reads back as the clamped size |
| Records.SizeTextStable | mapa/PLAMA.py:141 | a written size text is one the size rule leaves unchanged when it is read again |
| Records.DefaultSizeText | mapa/PLAMA.py:132-141 | an absent size is written `1.0` |
| Records.LenientSizeIsSizeText | mapa/PLAMA.py:132-136 | in `obraz.txt` and multi-line mode the size is always a clamped size text, even for a bad value |
| Records.StrictSizeIsSizeText | mapa/PLAMA.py:197 | in single-line mode a size that parses is a clamped size text |
| Records.RecordLine | mapa/PLAMA.py:180-201 | a parsed line record carries its line number, its raw line, its file and agent, and is not multi-line |
| Records.RecordLineNormalised | mapa/PLAMA.py:138-145 | every record read from a line has a clamped size text, a stripped icon and a lowercase `proces` |
| Records.BadSize | mapa/PLAMA.py:132-136 | a bad `rozmiar` makes a single-line record raise, while `obraz.txt` mode falls back to `1.0` |
| Records.CollectShape | mapa/PLAMA.py:116-119 | each non-blank line yields one item, in file order, read with its 1-based line number (blank lines counted) |
| Records.CollectOk | mapa/PLAMA.py:116-145 | the loop finishes exactly when every non-blank line can be read |
| Records.CollectExact | mapa/PLAMA.py:116-145 | when every line is non-blank and reads as given, the loop returns exactly those items |
| Records.MultiLineRecord | mapa/PLAMA.py:151-177 | a multi-line record has line number 1, the lines joined by `\n` as raw line, and is multi-line |
| Records.MultiLineNormalised | mapa/PLAMA.py:165-177 | the multi-line record is normalised (clamped size text, stripped icon, lowercase `proces`) |
| Records.MultiLineShape | mapa/PLAMA.py:149-177 | a file the heuristic calls multi-line gives exactly one normalised record, numbered 1, holding all its lines |
| Records.RecordLinesShape | mapa/PLAMA.py:178-201 | `obraz.txt` and single-line files give one normalised record per non-blank line, numbered from 1 with blanks counted, in order |
| Records.ParseSourceFileNormalised | mapa/PLAMA.py:104-203 | in every mode every record is normalised and belongs to the file and agent it was read for |
| Records.ParseSourceFileOk | mapa/PLAMA.py:178-201 | a line-per-record file parses without error exactly when each non-blank line does |
| Records.ReadUntilErrorPrefix | mapa/PLAMA.py:345-369 | the connections read are those of the lines before the first line that raises |
| Records.ReadUntilErrorExact | mapa/PLAMA.py:347-367 | when every line is non-blank and reads, each gives its connection, in order |
| Records.ReadUntilErrorAll | mapa/PLAMA.py:347-367 | when no line raises, every non-blank line gives exactly one connection |
| Records.PointOf | mapa/PLAMA.py:281-288 | an absent or empty `xy1`/`xy2` value is the origin |
| Records.ParseLineSourceFile | mapa/PLAMA.py:268-293 | a connection file gives exactly one connection, tagged with its file and folder, with a lowercase `proces` |
| Records.ConnectionLine | mapa/PLAMA.py:347-367 | a connection read from `polaczenie.txt` has a lowercase `proces` |
| Snapshot.ObrazLines | mapa/PLAMA.py:255-259 | one summary line per record, in the order of the records |
| Snapshot.ObrazLineChars | mapa/PLAMA.py:259 | a summary line holds no line break and is not blank |
| Snapshot.ObrazLineRead | mapa/PLAMA.py:250-259 | an `obraz.txt` line reads back as its record: the point rounded to integers, icon, size and state as written |
| Snapshot.ObrazRoundTrip | mapa/PLAMA.py:250-259 | parsing what `write_obraz` wrote gives one record per record written, in order, numbered from 1, the point rounded |
| Snapshot.ObrazFixpoint | mapa/PLAMA.py:250-259 | writing what was read back from `obraz.txt` writes the same text again |
| Snapshot.RereadSnapshotable | mapa/PLAMA.py:115-146 | a record read back from `obraz.txt` can be written and read again |
| Snapshot.PolaczenieLines | mapa/PLAMA.py:331-335 | one line per connection, in order |
| Snapshot.PolaczenieLineRead | mapa/PLAMA.py:326-335 | a `polaczenie.txt` line reads back as its connection with both ends rounded |
| Snapshot.PolaczenieRoundTrip | mapa/PLAMA.py:326-370 | reading what `write_polaczenie` wrote gives every connection written, in order, rounded |
| Snapshot.RecordLineSnapshotable | mapa/PLAMA.py:115-146 | a record read from one line without breaks can be written to `obraz.txt` and read back |
| Snapshot.CollectSnapshotable | mapa/PLAMA.py:115-201 | every record read line by line, from `obraz.txt` or a single-line file, can be written to `obraz.txt` and read back |
| Snapshot.MultiLineSnapshotable | mapa/PLAMA.py:149-176 | the record of a multi-line file can be written and read back exactly when neither its icon nor its state holds `\|` |
| Snapshot.ParseSourceFileSnapshotable | mapa/PLAMA.py:115-203 | the records of a file read line by line can all be written and read back; a multi-line record can exactly when its icon and state hold no `\|` |
| Snapshot.LineSourceSnapshotable | mapa/PLAMA.py:268-293 | a connection file's connection can be written to `polaczenie.txt` and read back exactly when its state holds no `\|` |
| Snapshot.ObrazReadNoPipe | mapa/PLAMA.py:115-146 | no icon read from `obraz.txt` holds `\|` |
| Snapshot.MultiLinePipeLost | mapa/PLAMA.py:149-176 | a multi-line file `ikona=a\|b` gives an object whose `obraz.txt` line does not read back as written |
| Numbers.Round | mapa/PLAMA.py:256 | `round(v)` is within one half of `v` |
| Numbers.RoundOfInteger | mapa/PLAMA.py:256 | rounding an integer gives it back |
| Numbers.IntToStringParse | mapa/PLAMA.py:259 | `float(str(i))` is `i` |
| Numbers.FloatTextRoundTrip | mapa/PLAMA.py:141 | `float(str(x))` is `x` for every decimal the size can hold |
| Numbers.IntToStringParseInt | mapa/auto_start/pasek/dodaj.py:106 | `int(str(i))` is `i` |
| Matching.SearchXY | mapa/PLAMA.py:504-518 | a line yields a point only if it mentions `xy=`, has an `xy` key and that value has at least two words |
| Matching.MatchLine | mapa/PLAMA.py:499-530 | a match names its file, 1-based line, agent and the stripped non-empty line, whose point is strictly within 0.1 of the target on both axes |
| Matching.Scan | mapa/PLAMA.py:499-530 | the matches of a file are exactly its matching lines, in increasing line order |
| Matching.LineFound | mapa/PLAMA.py:499-527 | a stripped line naming a point within 0.1 of the target on both axes is found, as it stands |
| Matching.PointLineFound | mapa/PLAMA.py:519-527 | the line `xy=X Y` written for a point is found by a search for that point rounded |
| Matching.PointSearch | mapa/PLAMA.py:513-517 | the search reads the rounded point from `xy=X Y` |
| Matching.Suffix | mapa/PLAMA.py:485 | a suffix is empty or a dot followed by at least one character |
| Matching.AddNew | mapa/PLAMA.py:489-492 | a location is listed exactly when it was listed before or is a new `.txt` file |
| Matching.DataFiles | mapa/PLAMA.py:484-486 | a file of `mapa_dane/` is searched exactly when it is a file with suffix `.txt` or none |
| Matching.TextFiles | mapa/PLAMA.py:489-490 | an entry of the agent folder is searched exactly when it is a `.txt` file |
| Matching.Dirs | mapa/PLAMA.py:469-470 | an entry of `obiekty` is searched exactly when it is a folder |
| Matching.LocationsSpec | mapa/PLAMA.py:474-492 | listing an agent folder raises exactly when the folder is missing or `mapa_dane` is not a folder; otherwise a file is listed exactly when it is `mapa_dane.txt`, a data file of `mapa_dane/` or a `.txt` file of the folder |
| Matching.FilesMatches | mapa/PLAMA.py:495-533 | every match lies in one of the files searched and says what that line of the file holds |
| Matching.FilesMatchesComplete | mapa/PLAMA.py:495-533 | every matching line of every readable file listed is among the matches |
| Matching.LocationMatchFound | mapa/PLAMA.py:474-533 | every matching line of a file the folder's listing holds is among that folder's matches |
| Matching.SearchFrom | mapa/PLAMA.py:472-533 | every match is a line of the tree, and a single searched folder gives matches of that agent only |
| Matching.ListedUpToAll | mapa/PLAMA.py:472-536 | the folders before and at position i all list without raising |
| Matching.SearchFromIncludes | mapa/PLAMA.py:472-536 | the matches of every folder searched before the first one whose listing raises are among the matches of the search |
| Matching.SearchedAgents | mapa/PLAMA.py:460-470 | with an agent given, at most its own folder, and none when it is missing; otherwise exactly the folders of `obiekty` |
| Matching.FindFilesWithXY | mapa/PLAMA.py:454-538 | every match is a line in the tree strictly within 0.1 of the target; with an agent given only that agent is searched, and none when its folder is missing |
| Matching.FindFilesWithXYComplete | mapa/PLAMA.py:454-538 | every matching line of every file searched, in every agent folder up to the first listing that raises, is returned |
| Matching.RewriteParts | mapa/PLAMA.py:558-566 | every part whose stripped lowercase text starts with `xy=` becomes the new xy part; every other part is kept verbatim |
| Matching.RewriteLineParts | mapa/PLAMA.py:558-567 | the rewritten line splits back into the rewritten parts |
| Matching.RewriteLineNoBreak | mapa/PLAMA.py:567 | the rewrite adds no line break |
| Matching.RewriteReadsBack | mapa/PLAMA.py:556-568 | after the rewrite the line's `xy` key reads as the new point rounded |
| Matching.RewriteKeepsSpacedXY | mapa/PLAMA.py:558-567 | a part that sets `xy` but is not written `xy=` is kept, and when it is the last such part the line still reads as its old point |
| Matching.LineIndex | mapa/PLAMA.py:552-553 | line `n` of the file is index `n - 1` whenever the guard lets it through |
| Matching.UpdatedTextLines | mapa/PLAMA.py:550-570 | reading the file back: the matched line rewritten and every other line unchanged |
| Matching.Writes | mapa/PLAMA.py:544-577 | the count is at most the number of matches |
| Matching.UpdateXYInFiles | mapa/PLAMA.py:540-577 | the disk ends as the sequence of per-match edits leaves it, and the count is at most the number of matches |
| Matching.UpdateXYInFile | mapa/PLAMA.py:545-571 | one match: the file is written back with the edited text and one write counted when the edit applies, and nothing changes otherwise |
| Matching.WritesKeepOthers | mapa/PLAMA.py:544-577 | a file no match names is left as it was |
| Matching.OneWrite | mapa/PLAMA.py:549-571 | one match writes exactly the edited text to its file and counts one |
| Matching.Nearest | mapa/PLAMA.py:600-614 | the pick is one of the sources |
| Matching.NearestSpec | mapa/PLAMA.py:604-614 | none is picked exactly when no source lies within 0.51 on both axes; otherwise the pick lies within it, has the smallest `dx + dy`, and the first wins ties |
| Matching.NearestSource | mapa/PLAMA.py:600-614 | the best-so-far loop computes that pick |
| Matching.Joined | mapa/PLAMA.py:596-622 | at most one shown object per summary record, each joined to a source and given its agent folder |
| Matching.LoadDisplayData | mapa/PLAMA.py:583-627 | the loop returns the summary records joined to their nearest sources |
| Matching.JoinAll | mapa/PLAMA.py:596-622 | the loop over the parsed records gives each record joined to its nearest source, dropping those with none near enough |
| Matching.JoinedWithin | mapa/PLAMA.py:609-619 | every shown record lies within 0.51 of its source on both axes |
| Matching.JoinedAll | mapa/PLAMA.py:596-622 | when every record has a source near enough, none is dropped and each keeps its own fields |
| Matching.RereadsNear | mapa/PLAMA.py:594-609 | a record read back from `obraz.txt` lies within the tolerance of the record it was written from |
| Matching.ObrazShowsAll | mapa/PLAMA.py:583-627 | when `obraz.txt` was written from the cached sources, every object is shown, with its written fields |
| Repository.Assign | mapa/PLAMA.py:241 | a dict assignment adds at most one key |
| Repository.AssignLookup | mapa/PLAMA.py:241 | after `d[k] = v`, `k` holds `v` and every other key what it held |
| Repository.AssignFresh | mapa/PLAMA.py:241 | a new key goes last |
| Repository.CacheLastWins | mapa/PLAMA.py:238-241 | the value a key ends with is the last one stored under it |
| Repository.CacheFresh | mapa/PLAMA.py:238-242 | with no key stored twice, the cache values are the loaded items in load order |
| Repository.AgentRecords | mapa/PLAMA.py:217-245 | the records of an agent folder come from its `mapa_dane.txt`, carry its name and are normalised |
| Repository.AgentRecordLines | mapa/PLAMA.py:233-242 | the records of one agent come in strictly increasing line order |
| Repository.SourceCacheValues | mapa/PLAMA.py:205-248 | `SOURCE_CACHE.values()` after a load is the list `load_source_data` returned |
| Repository.Cfgs | mapa/PLAMA.py:306-309 | only files whose lowercase name starts with `linia_dane` are read, each once |
| Repository.CfgRecords | mapa/PLAMA.py:314-323 | a configuration file gives at most one connection, tagged with its file and folder |
| Repository.DirLineKeys | mapa/PLAMA.py:302-321 | within one folder no two connections share a cache key, and all carry the folder's name |
| Repository.LineCacheValues | mapa/PLAMA.py:295-324 | `LINE_SOURCE_CACHE.values()` after a load is the list `load_line_source_data` returned |
| Repository.WriteSnapshot | mapa/PLAMA.py:252-262 | after the write the summary file holds exactly the text written |
| Repository.RebuiltOk | mapa/PLAMA.py:1460-1466 | a rebuild gets to the end exactly when both folders load |
| Repository.RebuiltSummaries | mapa/PLAMA.py:1460-1466 | after a rebuild the two summaries hold the texts written for the loaded records and connections |
| Repository.RebuiltCachesValues | mapa/PLAMA.py:1460-1466 | after a rebuild the object cache holds the loaded objects and the connection cache the loaded connections, or is empty when they fail to load; when the objects fail to load the object cache is empty and the connection cache is left as it was |
| Repository.LineSourceDataAfterWrite | mapa/PLAMA.py:1461-1464 | writing `obraz.txt` does not change what the connections load as |
| Repository.WriteObraz | mapa/PLAMA.py:250-262 | the disk afterwards holds the summary text of the records |
| Repository.WritePolaczenie | mapa/PLAMA.py:326-338 | the disk afterwards holds the summary text of the connections |
| Repository.Caches.LoadSourceData | mapa/PLAMA.py:205-248 | returns the records of every agent folder and refills `SOURCE_CACHE` with them, keyed, from empty |
| Repository.Caches.AddSources | mapa/PLAMA.py:238-242 | each record is stored under its key, in turn |
| Repository.Caches.LoadLineSourceData | mapa/PLAMA.py:295-324 | returns the connections of every line folder and refills `LINE_SOURCE_CACHE` with them, keyed, from empty |
| Repository.Caches.LoadLineDir | mapa/PLAMA.py:302-321 | an entry that is not a folder gives nothing; a folder's configuration files are read in name order and each connection is stored under its key |
| Repository.Caches.AddLines | mapa/PLAMA.py:318-321 | each connection is stored under its key, in turn |
| Window.Utf8Size | mapa/PLAMA.py:1491 | the byte size of a text lies between its length and four times it |
| Window.StatOrderIsOrder | mapa/PLAMA.py:1503 | tuple comparison on signature entries is a total order |
| Window.SignatureSorted | mapa/PLAMA.py:1482-1503 | the signature is sorted and holds every entry of the walk as often as the walk gives it |
| Window.SignatureOrderFree | mapa/PLAMA.py:1482-1503 | the order in which folders list their entries does not change the signature |
| Window.SignatureSeesDataFile | mapa/PLAMA.py:1485-1491 | every agent's `mapa_dane.txt` is in the signature with its time and size |
| Window.SignatureSeesLineFile | mapa/PLAMA.py:1493-1500 | every `linia_dane*` file is in the signature with its time and size |
| Window.SignatureAfterWrite | mapa/PLAMA.py:1482-1503 | writing a file at the top level, outside `obiekty` and `linie`, leaves the signature as it was |
| Window.RebuiltSignature | mapa/PLAMA.py:1506-1520 | rewriting the summaries does not change the signature they were rebuilt for |
| Window.RebuiltShowsAll | mapa/PLAMA.py:1458-1479 | after a rebuild every loaded object is shown, its point rounded |
| Window.RebuiltShowsConnections | mapa/PLAMA.py:1458-1479 | after a rebuild every loaded connection is shown, its ends rounded |
| Window.MainWindow.constructor | mapa/PLAMA.py:1413-1466 | the window rebuilds the summaries, records their times and asks for a first drawing; the object cache holds the loaded objects, the connection cache the loaded connections (empty when they fail to load), and a failed object load leaves the object cache empty |
| Window.MainWindow.Rebuild | mapa/PLAMA.py:1460-1466 | loads and writes both summaries; on success the caches hold what was loaded, and when the objects fail to load the object cache is empty and the connection cache as it was |
| Window.MainWindow.Settle | mapa/PLAMA.py:1522-1531 | a successful rebuild records the signature, the new summary times and a pending redraw |
| Window.MainWindow.Prime | mapa/PLAMA.py:1458-1479 | after a successful rebuild the window is settled with a redraw pending; after a failed one its fields are unchanged; either way the caches are as the rebuild leaves them |
| Window.MainWindow.MaybeRegenerate | mapa/PLAMA.py:1506-1533 | nothing changes while the signature matches the last one; otherwise the summaries are rebuilt, the caches are as the rebuild leaves them, and on success the new signature is kept so the next call does nothing |
| Window.MainWindow.RenderScene | mapa/PLAMA.py:1562-1585 | the scene shows the joined objects of `obraz.txt` and the connections of `polaczenie.txt` |
| Window.MainWindow.Refresh | mapa/PLAMA.py:1536-1559 | nothing happens while dragging; otherwise a changed summary or a pending redraw redraws the scene, after which nothing is pending |
| Sensors.SensorFileName | mapa/PLAMA.py:1216-1224 | every kind, listed or not, is written to `<kind>.txt` |
| Sensors.WrittenKeys | mapa/PLAMA.py:1228-1229 | only keys given a value are written |
| Sensors.WrittenKeysSpec | mapa/PLAMA.py:1228-1229 | exactly the keys with a non-empty value are written, each once, in the fixed order |
| Sensors.SensorContentReadBack | mapa/PLAMA.py:1228-1229 | read back line by line, the file gives one `key=value` line per written key, or one empty line when there is none |
| Sensors.DoubleClickContent | mapa/PLAMA.py:1036-1045 | a double left click writes the stamp, event, button and `start=X Y` lines, each ended by a line break |
| PlacementBar.SpaceRun | mapa/auto_start/pasek/dodaj.py:49 | `\s*` takes the longest run of blanks |
| PlacementBar.DigitRun | mapa/auto_start/pasek/dodaj.py:49 | `\d*` takes the longest run of digits |
| PlacementBar.IntPrefix | mapa/auto_start/pasek/dodaj.py:49 | `-?\d+` takes at least one character of the text |
| PlacementBar.SearchFromFound | mapa/auto_start/pasek/dodaj.py:49 | a match found begins a line: the start of the text or just after a `\n` |
| PlacementBar.StartLineMatches | mapa/auto_start/pasek/dodaj.py:49 | a line `start=X Y` matches with exactly X and Y |
| PlacementBar.SkipLine | mapa/auto_start/pasek/dodaj.py:49 | a line not starting with `s` cannot hold the match, and the search goes on after it |
| PlacementBar.TwoClickStart | mapa/auto_start/pasek/dodaj.py:159-164 | the point a double click writes into `2xlp.txt` is the point the bar reads from it |
| PlacementBar.ClickPointOfDoubleClick | mapa/auto_start/pasek/dodaj.py:159-164 | the point read from a `2xlp.txt` written by a double click is the clicked point |
| PlacementBar.ObjNumberOfName | mapa/auto_start/pasek/dodaj.py:55-62 | the name `dodany obiekt N` is read back as number N |
| PlacementBar.MaxNumberBound | mapa/auto_start/pasek/dodaj.py:58-62 | no object folder has a larger number than the maximum |
| PlacementBar.MaxNumberAttained | mapa/auto_start/pasek/dodaj.py:58-62 | the maximum is 0 or the number of one of the folders |
| PlacementBar.NextNameFresh | mapa/auto_start/pasek/dodaj.py:54-63 | the next name is the name of no folder already in `obiekty` |
| PlacementBar.NextObjName | mapa/auto_start/pasek/dodaj.py:54-63 | the loop returns `dodany obiekt N+1` for the largest number N found |
| PlacementBar.EntryNumber | mapa/auto_start/pasek/dodaj.py:59-62 | a folder named `dodany obiekt N` counts as N, any other entry as 0 |
| PlacementBar.ReplaceXY | mapa/auto_start/pasek/dodaj.py:69 | the substitution keeps the number of lines |
| PlacementBar.XYReplaced | mapa/auto_start/pasek/dodaj.py:66-69 | when `xy=` occurs, every line starting with `xy=` becomes `xy=X Y` and every other line is unchanged |
| PlacementBar.XYInsideOnly | mapa/auto_start/pasek/dodaj.py:66-72 | when `xy=` occurs only inside lines, nothing is replaced or appended: the content is only stripped |
| PlacementBar.XYAppended | mapa/auto_start/pasek/dodaj.py:68-72 | without `xy=`, the point is added as the last line and the text ends in exactly one line break |
| PlacementBar.WriteXY | mapa/auto_start/pasek/dodaj.py:65-72 | the data file afterwards holds the rewritten content; a folder in its place makes it fail with nothing changed |
| PlacementBar.Copies | mapa/auto_start/pasek/dodaj.py:173 | every copied entry lies below the destination |
| PlacementBar.CopiesFrom | mapa/auto_start/pasek/dodaj.py:173 | every written entry is an entry of the template, not ignored, at the same place below the destination |
| PlacementBar.CopiesHas | mapa/auto_start/pasek/dodaj.py:173 | every entry of the template that is not ignored is copied |
| PlacementBar.CopiesDistinct | mapa/auto_start/pasek/dodaj.py:173 | the copy writes no path twice |
| PlacementBar.CopyTreeRead | mapa/auto_start/pasek/dodaj.py:173 | after the copy each copied path holds what the template held there |
| PlacementBar.CopyTreeElsewhere | mapa/auto_start/pasek/dodaj.py:173 | outside the destination the copy changes nothing |
| PlacementBar.AddedObject | mapa/auto_start/pasek/dodaj.py:170-174 | on a rooted tree, a new object is a new folder in `obiekty`: its data file is the template's with the point set, or only the point when the template has no data file; other files are the template's; nothing else changes |
| PlacementBar.AddObjectOn | mapa/auto_start/pasek/dodaj.py:170-174 | naming, copying and writing the point leave the disk as the add-object step does |
| PlacementBar.SlotMapSound | mapa/auto_start/pasek/dodaj.py:123-137 | each bound folder is a visible folder whose slot file holds that slot |
| PlacementBar.SlotMapLast | mapa/auto_start/pasek/dodaj.py:126-132 | the last folder listed that claims a slot is the one bound to it |
| PlacementBar.SlotMapHas | mapa/auto_start/pasek/dodaj.py:126-132 | every visible folder with a readable slot file binds its slot |
| PlacementBar.SlotFoldersInBase | mapa/auto_start/pasek/dodaj.py:123-137 | every bound folder is a folder of the bar |
| PlacementBar.Unassigned | mapa/auto_start/pasek/dodaj.py:146-150 | the pick is the first visible folder without a slot file; none means there is no such folder |
| PlacementBar.WrittenSlotReads | mapa/auto_start/pasek/dodaj.py:215 | a slot number written to `slot.txt` is what `slot.txt` reads as |
| PlacementBar.SlotReadSettles | mapa/auto_start/pasek/dodaj.py:104-109 | after `read_slot` the slot file reads as the slot returned (0 after a repair) |
| PlacementBar.StanReadSettles | mapa/auto_start/pasek/dodaj.py:111-114 | reading the state again writes nothing more and gives the same answer |
| PlacementBar.StanReadElsewhere | mapa/auto_start/pasek/dodaj.py:111-114 | reading the state touches no file but `stan.txt` |
| PlacementBar.ToggleFlips | mapa/auto_start/pasek/dodaj.py:116-117 | after a toggle the state reads `off` if it was `on`, else `on` |
| PlacementBar.ToggleTwice | mapa/auto_start/pasek/dodaj.py:116-117 | two toggles bring back a state that was `on` or `off` |
| PlacementBar.ReassignCopiesSlot | mapa/auto_start/pasek/dodaj.py:155 | the new folder's slot file holds what the bar's `slot.txt` held |
| PlacementBar.ReassignDropsOld | mapa/auto_start/pasek/dodaj.py:152-154 | the folder bound to the selected slot before the signal is gone after it |
| PlacementBar.ReassignKeepsFolder | mapa/auto_start/pasek/dodaj.py:151-156 | the folder given the slot survives as a folder of the bar |
| PlacementBar.ReassignBindsSlot | mapa/auto_start/pasek/dodaj.py:151-156 | the new folder gets the slot that the bar's `slot.txt` holds (the selected slot only while `slot.txt` still holds it), and the next scan binds that slot |
| PlacementBar.FolderKept | mapa/auto_start/pasek/dodaj.py:146-154 | the folder without a slot file is never the one deleted |
| PlacementBar.PlaceOnlyOnNewPoint | mapa/auto_start/pasek/dodaj.py:159-176 | no object is added unless the bar is on, a point is read, one was seen before, the point moved and the slot has a template; otherwise only the point is remembered |
| PlacementBar.PlaceOnNewPoint | mapa/auto_start/pasek/dodaj.py:166-176 | on a rooted tree, a moved point with a template adds an object whose data file is the template's with the point set, or only the point when the template has none; the point is remembered only when that succeeded, and the step does not raise |
| PlacementBar.Pasek.constructor | mapa/auto_start/pasek/dodaj.py:78-102 | when `read_slot` succeeds, the bar starts with the slot it returns, a first scan, no point seen and the signal file's current time |
| PlacementBar.Pasek.Open | mapa/auto_start/pasek/dodaj.py:78-109 | no bar is made exactly when `read_slot` raises, and then the disk is unchanged; otherwise the bar is as the constructor makes it |
| PlacementBar.Pasek.ReadSlot | mapa/auto_start/pasek/dodaj.py:104-109 | returns the parsed slot, or writes `0` and returns 0 when the file is missing or does not parse |
| PlacementBar.Pasek.ReadStan | mapa/auto_start/pasek/dodaj.py:111-114 | creates `stan.txt` holding `off` when missing, and returns the stripped state |
| PlacementBar.Pasek.ToggleStan | mapa/auto_start/pasek/dodaj.py:116-117 | writes `off` when the state is `on` and `on` otherwise |
| PlacementBar.Pasek.ScanFolders | mapa/auto_start/pasek/dodaj.py:123-137 | the slot table is rebuilt from the folders' slot files |
| PlacementBar.Pasek.SelectSlot | mapa/auto_start/pasek/dodaj.py:212-217 | a click on a slot selects it, writes it to `slot.txt` and scans again |
| PlacementBar.Pasek.FindNewFolder | mapa/auto_start/pasek/dodaj.py:146-150 | the loop finds the first visible folder without a slot file |
| PlacementBar.Pasek.Rebind | mapa/auto_start/pasek/dodaj.py:151-156 | the selected slot's folder is deleted, `slot.txt` is copied into the new folder, and the folders are scanned again |
| PlacementBar.Pasek.Signal | mapa/auto_start/pasek/dodaj.py:141-156 | acts only on a new signal time, and then deletes the selected slot's folder and gives the first folder without a slot file a copy of `slot.txt`; false when that copy raises |
| PlacementBar.Pasek.Place | mapa/auto_start/pasek/dodaj.py:158-178 | the add-on-new-point step, with the bar's fields and disk updated as it describes; false exactly when `read_stan` raises |
| PlacementBar.Pasek.PlaceOn | mapa/auto_start/pasek/dodaj.py:165-176 | a point different from the last one seen, with a template for the selected slot, adds an object standing there and is remembered only if the copy succeeded; any other point is just remembered |
| PlacementBar.HandleStepRaises | mapa/auto_start/pasek/dodaj.py:119-159 | a tick raises exactly when the slot copy raises or `stan.txt` is a folder after the signal step; a raise in the signal step ends the tick with the disk as the signal step left it |
| PlacementBar.Pasek.HandleLogic | mapa/auto_start/pasek/dodaj.py:119-178 | one tick: the signal step, then the placement step unless the signal step raised; false exactly when either step raised |

## Left out

- Qt: painting, widgets, the scene items, the timers and the screen geometry. `_render_scene` is modelled by the data it draws.
- `MapItem.mouseReleaseEvent` (mapa/PLAMA.py:817-840), the drag release, is not modelled as one operation. Its steps are modelled: the two searches, the xy rewrite, the reload, the `obraz.txt` rewrite and the `dragging` flag.
- The other mouse, context-menu and temporary-line handling, the option menus, `_resolve_agent_dir_from_xy` and the icon loading.
- Process launching (`_start_manager`, `_run_option`, `QProcess`, `subprocess`) and the manager script.
- Logging, the sensor lock, and the temporary-file-then-`os.replace` write. A sensor file is modelled by its content only.
- Clocks are parameters. A modification time is an integer `now` supplied by the caller, and the double-click stamp is a parameter string.
- Numbers.ParseNumber: `float()` is modelled for decimal tokens only (sign, digits, optional point and digits). Exponents, `inf`, `nan`, underscores and IEEE rounding are not modelled. Values are exact decimals, so a float that would print in exponent form or lose precision is outside the model.
- Numbers.ParseInt: `int()` accepts only ASCII digits with an optional sign. Underscores and other Unicode digits are not modelled. The same holds for the `\d` of `RX_START` and `ObjNumber` (mapa/auto_start/pasek/dodaj.py:49, 55): Python also matches non-ASCII digits there, the model only `0`-`9`.
- Snapshot.ObrazRoundTrip: holds only for records whose icon and state hold no `|` and no line break. Records read line by line always qualify (Snapshot.CollectSnapshotable). A multi-line file does not split its values at `|`, and its record qualifies exactly when its icon and state hold none (Snapshot.MultiLineSnapshotable); Snapshot.MultiLinePipeLost shows one that does not read back. Window.RebuiltShowsAll carries the same condition.
- Snapshot.PolaczenieRoundTrip: holds only for connections whose state holds no `|`; `parse_line_source_file` does not split values at `|` (Snapshot.LineSourceSnapshotable). Window.RebuiltShowsConnections carries the same condition.
- PlacementBar.SignalStep: the signal time is read from a file only. The code's `exists()` and `stat()` also accept a folder named `sygnał.txt`, so there a folder would signal; in the model it never does.
- PlacementBar.Pasek.HandleLogic: a false result marks a tick whose exception leaves `tick()` uncaught (the slot copy at mapa/auto_start/pasek/dodaj.py:155, or `read_stan` on a folder at :159). What happens next is not modelled: under PyQt5's default hook the application ends, and `update()` does not run. The model keeps the bar and its disk as they were at the raise, and the caller sees the flag.
- PlacementBar.AddedObject: requires a rooted tree (Fs.Rooted), where every entry below the top level sits in an existing folder. Every real disk is rooted. The model's flat list of entries also admits trees that are not; in such a tree the object's data file could find an entry already standing under the new folder.
- PlacementBar.PlaceOnNewPoint: requires a rooted tree, for the same reason as PlacementBar.AddedObject.
- Matching.RewriteReadsBack: requires that no later part sets `xy`. The code rewrites only parts written `xy=`, so a later `xy =3 4` is kept and the line still reads as 3 4 (Matching.RewriteKeepsSpacedXY), while `update_xy_in_files` still counts the file as updated.
- Text.Lower: lowercases ASCII letters only.
- File reading with `errors="replace"`/`"ignore"` is not modelled: file contents are the text Python reads. Newline translation on read is not modelled either, so `write_xy` splits the text on `\n` as it stands.
- Window.RawSignature: only regular files are stat-ed. The code would also stat a folder named `mapa_dane.txt`; that case is not modelled.
- Filesystem errors other than "a folder where a file is expected" or "a file where a folder is expected" are not modelled. Permissions, a full disk and races with other processes are left out.
- `find_root` and the module-level path constants are fixed paths in the model.
