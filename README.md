# JGI file-request planner — a Dafny model

`request-JGI-API.py` takes a list of IMG taxon ids. For each taxon it asks the
JGI file portal for a search result and records a row of files:

- the scaffold assembly;
- the raw reads;
- the metagenome bins, joined with `;`.

It also records a row of attribution metadata: PI, institution, project ids,
coordinates and an external-sequencing flag. It then reads the file table back.
From it the program estimates the download volume, lists the file ids to
request with their sizes, and, when asked to, cuts that list greedily into
download batches of at most 10 TiB each. There are two exceptions: a file
larger than the ceiling travels alone in a batch of its own, and the first
batch is empty when the first file alone is larger than the ceiling.

This project models that core in Dafny and proves what it promises.

| file | module | what it models |
|---|---|---|
| `wrappers.dfy` | `Wrappers` | `Option`, with `GetOr` for `dict.get(key, default)` |
| `text.dfy` | `Text` | the string operations used: `isdigit`, `int`, `str`, `lower`, `strip`, `in`, `endswith`, `";".join`, `split(";")` |
| `document.dfy` | `Document` | the JSON search result, as datatypes with optional fields, and the `get` chains the program reads |
| `extractor.dfy` | `Extractor` | `parse_json_data`: an imperative method with the two nested loops, proved equal to a fold `Resolve` of the loop bodies |
| `extractor_properties.dfy` | `ExtractorProperties` | what each field of the record is, stated without the loop: last match, sticky size, bins in order, last coordinate pair, JAMO id, external flag |
| `attribution.dfy` | `Attribution` | `extract_additional_metadata`: the ordered dict of ten keys, its defaults, the `update`, the nested lookups and the PI name |
| `aggregator.dfy` | `Aggregator` | `extract_file_ids` and the byte sum of `calculate_total_file_size` over the six columns they read |
| `batcher.dfy` | `Batcher` | `split_file_ids`: a loop proved equal to a greedy fold, and the properties of its batches |
| `rows.dfy` | `Rows` | the two output rows `main` writes, their headers and placeholders, and what the readers recover from a written row |

How the imperative parts are specified:

- `ParseJsonData`, `ExtractFileIds`, `TotalFileSize` and `SplitFileIds` are
  methods with the loops of the source.
- `ParseJsonData` keeps its sixteen locals in one `State` value. Its inner
  loop body is the method `ParseFile`; the row loop of `ExtractFileIds` has
  the bodies `AppendRow` and `AppendBins`.
- Each `ensures` ties the method's result to a specification function: a fold
  defined from the end, so that the loop invariant is "locals = fold of the
  prefix".
- Lemmas then state the properties of those functions.

## Model

| member | source | states |
|---|---|---|
| Extractor.ParseJsonData | request-JGI-API.py:18-90 | the nested loops over organisms and files compute exactly the record `ParseSpec` describes |
| Extractor.ParseFile | request-JGI-API.py:46-82 | one pass of the inner loop body updates the locals exactly as one step of the fold does |
| ExtractorProperties.ResolvedSlot | request-JGI-API.py:51-61 | assembly and raw-reads name, id and status come from the last matching file. The size comes from the last matching file with a positive size, else it is 0. With no match, the slot keeps its initial values |
| ExtractorProperties.SwitchedOffSlot | request-JGI-API.py:51-57 | a switched-off category keeps its initial values whatever the document |
| ExtractorProperties.BinFiles | request-JGI-API.py:63 | the files the bins rule selects are exactly those that are bins files, when bins are switched on |
| ExtractorProperties.ResolvedBins | request-JGI-API.py:63-84 | the four bins lists are parallel and hold one entry per selected file, in document order. Every size is non-negative. `bin_count` is their length, or 0 when bins are off |
| ExtractorProperties.ResolvedCoordinates | request-JGI-API.py:69-82 | latitude and longitude come as a pair from the last file that has a complete pair, `gold_data` winning over `sow_segment`. They stay "N/A" when no file has one |
| ExtractorProperties.ResolvedJamoId | request-JGI-API.py:38-40 | the JAMO id is the `_id` of the last truthy `top_hit`, or "id-not-found" |
| ExtractorProperties.ResolvedExternal | request-JGI-API.py:41-43 | the external flag is "yes" exactly when some truthy top hit's program name lower-cases to "metagenome" |
| ExtractorProperties.ExternalNeverReset | request-JGI-API.py:42-43 | once "yes", the flag stays "yes" whatever organisms follow |
| ExtractorProperties.HitJamoId | request-JGI-API.py:37-40 | from any starting state, the JAMO id after the organisms is the `_id` of the last truthy top hit, or the starting id when there is none |
| ExtractorProperties.HitExternal | request-JGI-API.py:37-43 | from any starting state, the external flag after the organisms is "yes" when some truthy top hit is a metagenome, and otherwise the starting flag |
| ExtractorProperties.SlotLastMatch | request-JGI-API.py:51-61 | after the file loop, a slot's name, id and status are those of the last file that matches its rule |
| ExtractorProperties.CoordinatesLastPair | request-JGI-API.py:69-82 | after the file loop, the coordinates are the pair of the last file that has a complete pair |
| ExtractorProperties.BinsAppended | request-JGI-API.py:63-67 | the file loop keeps the four bins lists parallel, leaves the earlier entries alone and appends one entry per bins file, in order |
| ExtractorProperties.VisitFilesSplits | request-JGI-API.py:45-82 | the file loop never reads or writes the JAMO id or the external flag |
| ExtractorProperties.ResolvedSizesNonNegative | request-JGI-API.py:54-66 | every recorded size is non-negative |
| ExtractorProperties.NoOrganisms | request-JGI-API.py:19-36 | a document without organisms yields the initial values and a bin count of 0 |
| Attribution.ExtractAdditionalMetadata | request-JGI-API.py:92-129 | the result always has the ten keys in their fixed order. Without organisms every value is "N/A". Otherwise the values are the first organism's attributes |
| Attribution.DefaultsLookup | request-JGI-API.py:94-105 | in the starting dict, `get` finds "N/A" for each of the ten keys and nothing for any other key |
| Attribution.UpdateOverwrites | request-JGI-API.py:117-127 | updating a dict with distinct keys, using pairs for the same keys in the same order, gives those pairs |
| Attribution.AttributeValues | request-JGI-API.py:107-127 | each of the ten values is looked up on its own path from the first organism, with an independent "N/A" default. `its_sp_id` comes from the first sequencing project |
| Attribution.FirstOrganismOnly | request-JGI-API.py:107-108 | organisms after the first are never read |
| Attribution.WithoutTopHit | request-JGI-API.py:109-127 | with no top hit, only `agg_id`, `kingdom` and `label` are taken from the organism. The rest are "N/A", and the PI name is "" |
| Attribution.NoNameParts | request-JGI-API.py:124 | with no name parts the PI name is the empty string, not "N/A" |
| Attribution.FullName | request-JGI-API.py:124 | with no middle name, a first and last name without surrounding white space are joined by one space |
| Attribution.FullNameMiddle | request-JGI-API.py:124 | with a non-empty middle name, the PI name is the first name, the stripped middle name and the last name, each separated by one space. A middle name of only white space therefore leaves two spaces |
| Attribution.AttributesKeys | request-JGI-API.py:94-127 | the attribution dict has the ten keys in their fixed order, each once |
| Attribution.LastNameOnly | request-JGI-API.py:124 | a last name alone is the whole PI name |
| Aggregator.AppendBins | request-JGI-API.py:178-183 | the zip loop appends exactly the bin pairs with a non-empty id and an all-digit size, in order |
| Aggregator.AppendRow | request-JGI-API.py:170-183 | the body of the row loop appends exactly that row's ids and sizes to the two lists |
| Aggregator.ExtractFileIds | request-JGI-API.py:164-185 | the two returned lists are the ids and sizes of every row's entries in table order. They have equal length, and every size is non-negative |
| Aggregator.TotalFileSize | request-JGI-API.py:145-160 | the loop sums, over every row, the all-digit assembly, raw-reads and bin sizes |
| Aggregator.EstimateCoversDownloads | request-JGI-API.py:145-185 | the bytes of the requested files never exceed the size estimate |
| Aggregator.BinEntriesExactly | request-JGI-API.py:178-183 | an entry is kept exactly when some zipped position has that id, non-empty, and that size, all digits |
| Aggregator.BinEntryWitness | request-JGI-API.py:180-183 | every kept bin entry comes from a zipped position with that id, non-empty, and that size, all digits |
| Aggregator.BinEntryKept | request-JGI-API.py:180-183 | every zipped position with a non-empty id and an all-digit size is kept |
| Aggregator.BinEntriesWithinSum | request-JGI-API.py:180-183 | the bytes of the kept bin entries never exceed the estimate's sum of the all-digit bin sizes |
| Aggregator.PlaceholderRow | request-JGI-API.py:170-183 | a row of "N/A" cells yields two requests for the id "N/A", each of size 0 |
| Text.DecimalRoundTrip | request-JGI-API.py:176 | `int(str(n)) == n` for every non-negative `n` |
| Text.SplitFieldJoin | request-JGI-API.py:178-179 | the reader's guarded `split(";")` undoes the writer's `join`, when no piece contains `;` and the pieces are not a single empty string |
| Text.SplitJoin | request-JGI-API.py:178 | `split` undoes `join` for pieces free of the separator |
| Text.JoinEmpty | request-JGI-API.py:88 | a join is empty exactly for no pieces or one empty piece |
| Text.LowerIdempotent | request-JGI-API.py:42 | the result of `lower` has no ASCII capital, so lower-casing it again changes nothing |
| Text.TrimStart | request-JGI-API.py:124 | removes exactly the leading white space |
| Text.TrimEnd | request-JGI-API.py:124 | removes exactly the trailing white space |
| Text.StripPadded | request-JGI-API.py:124 | stripping white space around a trimmed core gives the core |
| Text.NatToDecimal | request-JGI-API.py:89 | `str(n)` is a non-empty string of digits without a leading zero |
| Batcher.SplitFileIds | request-JGI-API.py:187-206 | the loop returns the ids of the greedy batches of the zipped (id, size) pairs |
| Batcher.ZipIds | request-JGI-API.py:193 | the ids of the zipped pairs are the input ids, cut to the length of the shorter list |
| Batcher.SplitCoversIds | request-JGI-API.py:187-206 | for id and size lists of equal length, the returned batches laid end to end are exactly the input ids, in order |
| Batcher.PackCovers | request-JGI-API.py:193-200 | the closed batches followed by the open one are exactly the files seen so far, and the open batch's size is its total |
| Batcher.PackWithin | request-JGI-API.py:194-200 | every closed batch of two or more files, and the open batch when it has two or more, stays within the ceiling |
| Batcher.PackNonEmpty | request-JGI-API.py:194-200 | no closed batch but the first is empty, and once a batch has been closed the open batch is not empty |
| Batcher.PackFirst | request-JGI-API.py:194-200 | the first closed batch is empty exactly when the first file alone exceeds the ceiling |
| Batcher.BatchesCoverFiles | request-JGI-API.py:187-206 | the batches laid end to end are exactly the zipped files, in order. No files, no batches |
| Batcher.BatchesWithinCeiling | request-JGI-API.py:194-200 | a batch of two or more files never exceeds `max_size_tb * 1024**4` bytes |
| Batcher.OnlyFirstBatchEmpty | request-JGI-API.py:194-203 | only the first batch can be empty. It is empty exactly when the first file alone exceeds the ceiling |
| Batcher.OversizedFileAlone | request-JGI-API.py:194-197 | with non-negative sizes, a file larger than the ceiling is alone in its batch |
| Batcher.BatchAtCeiling | request-JGI-API.py:194-200 | two 5 TiB files under the default 10 TiB form one batch of exactly 10 TiB, so a batch can reach the ceiling |
| Batcher.ThreeLargeFiles | request-JGI-API.py:187-206 | three 4 TiB files under the default 10 TiB give the batches `[a, b]` and `[c]` |
| Rows.OutputRow | request-JGI-API.py:242-247 | every file-table row, placeholder or not, has as many cells as the header and starts with the taxon |
| Rows.MetaRow | request-JGI-API.py:244-249 | every metadata row has as many cells as the header and starts with the taxon. The placeholder is "N/A" after the taxon. For a taxon without organisms it uses the corrected 16-cell placeholder of the Findings table, not the 17 cells line 249 writes |
| Rows.MetaPlaceholderTooWide | request-JGI-API.py:249 | the metadata placeholder as written is one cell wider than the header of lines 223-227 |
| Rows.MetaPlaceholder | request-JGI-API.py:249 | the corrected metadata placeholder has exactly one "N/A" per header after the taxon |
| Rows.CellAt | request-JGI-API.py:167-169 | under distinct headers, looking a cell up by column name finds that column |
| Rows.ReadOutputRow | request-JGI-API.py:170-179 | under the file-table header, the readers take columns 3, 4, 7, 8, 11 and 12 |
| Rows.WrittenRowReadsBack | request-JGI-API.py:170-183 | reading a written row requests the assembly and raw-reads files when their ids are non-empty, then every bin with a non-empty id, with the sizes the extractor recorded, provided no bin id contains `;` |
| Rows.WrittenFileRow | request-JGI-API.py:170-179 | reading back a written file row gives the six cells the record holds under those headers |
| Rows.BinsReadBack | request-JGI-API.py:178-183 | when no bin id contains `;`, the joined bin ids and sizes read back as exactly the bins with a non-empty id and a non-negative size, with those sizes |
| Rows.ReadBackDecimal | request-JGI-API.py:176 | `str(n)` passes `isdigit` exactly when `n` is non-negative, and then reads back as `n` |
| Rows.WrittenRowTotal | request-JGI-API.py:151-160 | the estimate of a written row is the assembly size, plus the raw-reads size, plus every bin size |
| Rows.PlaceholderReadsBack | request-JGI-API.py:170-176 | a placeholder file row is read back as two requests for the id "N/A" |
| Rows.MetaAttributeColumns | request-JGI-API.py:223-227 | in the metadata row written at line 244, each of the ten attribution values sits under the header named by its own key |
| Rows.MetaRecordColumns | request-JGI-API.py:223-227 | in the metadata row written at line 244, the JAMO id, bin count, coordinates and external flag sit under their own headers, although the row takes the record fields out of order |

Where the code and a description of the program disagree, the model follows the code:

- The raw-reads rule always requires the "Raw Data" display location. No switch turns that requirement off.
- The assembly and raw-reads name, id and status default to the empty string, not to the "N/A" placeholder.
- The size estimate is computed from the written table, not from the records.
- `split_file_ids` emits an empty leading batch when the first file alone exceeds the ceiling. `Batcher.OnlyFirstBatchEmpty` states this behaviour.
- The docstring of `split_file_ids` promises batches whose total is below `max_size_tb`. The loop closes a batch only when the next file would push the total past the ceiling, so a batch can equal the ceiling exactly. `Batcher.BatchAtCeiling` shows this for two 5 TiB files, and `Batcher.BatchesWithinCeiling` proves `<=`. In addition, a file larger than the ceiling forms a batch of its own that exceeds it (`Batcher.OversizedFileAlone`).

## Left out

- `fetch_json_data` is left out because it is an HTTP request. The model takes the search result as a parameter. A failed fetch is the empty object, `Document.Unavailable`.
- `execute_curl_command` is left out because it runs a subprocess. The curl command line it builds is also out.
- `user_confirmation` is left out because it reads the terminal. Whether the batcher runs is not modelled.
- The argument parsing, the file opening and the TSV reading and writing are left out because they are I/O. The model assumes the TSV writer and reader are lossless: a cell is read back as the string written, with no tabs or newlines inside cells.
- The division of the byte total by `1024**3` and the comparison with 10000 GB are left out because they use floating point. Only the integer byte sum is modelled, as `Aggregator.TotalFileSize`.
- `isdigit`, `lower` and `strip` are modelled on ASCII only. Any other Unicode digits, letters and white space are not modelled.
- The JSON values the program writes to the tables are modelled as strings, which is their TSV text. `file_size` is an integer. JSON `null` and values of an unexpected type are not modelled. Depending on the key, the program copies a `null` through as `None`, skips it as falsy, or raises; none of these behaviours is modelled.
- `Batcher.SplitFileIds`: `max_size_tb` is an integer; a fractional ceiling is not modelled.
- `Rows.Cell`: looks a name up under distinct headers only. With a repeated header, `csv.DictReader` would keep the last such column; the program's headers are distinct, and every lemma about `Cell` requires `Distinct`.
- `Rows.ReadOutputRow`: a row shorter than its header, whose missing cells `csv.DictReader` fills with `None`, is not modelled. Every row the program writes has the header's width.
- `Rows.WrittenRowReadsBack`: does not cover bin ids that contain `;`. Such ids split into extra pieces when read back.

## Findings

| source | as written | input that shows it | evidently intended | confidence | as-written member | corrected member |
|---|---|---|---|---|---|---|
| request-JGI-API.py:249 | the placeholder metadata row is the taxon followed by 12 + 4 = 16 cells of "N/A", 17 cells in all | any taxon whose search result has no organisms | 16 cells, one per metadata header, as the comment beside it claims | high (not executed) | Rows.MetaPlaceholderAsWritten, Rows.MetaPlaceholderTooWide | Rows.MetaPlaceholder, used by Rows.MetaRow |
