# batchsubs: the subtitle candidate pipeline, in Dafny

`batchsubs` downloads subtitles for every video file in a folder from
OpenSubtitles.org. For each video it searches for subtitles by the file's
hash and size. It keeps ten fields of each search record and ranks the
candidates by download count. It then picks the rank the user asked for
(`-c`, default 1) and queues that subtitle for one bulk download under a
path that records the rank actually used.

This project models that pipeline from `BatchSubs` in `src/batchsubs.py`:

- `py_values.dfy` (module `PyValues`): the Python values the pipeline
  handles: `None`, strings and ints in records, and the exceptions it can
  raise. It also holds Python 2's `int()` on strings, the decimal text
  `format` writes for an int, and list indexing with negative indices.
- `stable_sort.dfy` (module `StableSort`): `sorted(..., reverse=True)` on an
  integer key. It is defined as an insertion sort. The module proves that
  this sort has the properties Python promises: non-increasing order, and
  equal keys kept in their original order. It also proves that only one list
  has those properties, so the model gives the same result as Python's
  Timsort.
- `batchsubs.dfy` (module `BatchSubs`): the file filter, the projection
  `_clean_up`, the ranking and selection `_get_choice`, the save-path format,
  and the `download_list` dictionary. The class `BatchSubs` has the field
  `choice`. Its methods are `CleanUp` (`_clean_up`) and `GetChoice`
  (`_get_choice`, which writes `choice` when it clamps). `DownloadSubsInFolder`
  and `SelectForFiles` together model `download_subs_in_folder` up to the
  bulk download. The loop is written as its own method, `SelectForFiles`,
  and each of these methods is proved against the functions `Select`,
  `Cleaned` and `PlanDownloads`.

The model follows the code as written:

- The rank written back by a clamp stays in `self.choice` and is used for
  every later file. From a requested rank of at least 1, the rank after
  each file is at least 1 and never rises from one file to the next
  (`PlanDownloadsPrefixRanks`). Entry `k` of `download_list` is the
  subtitle picked for file `k` with the rank the earlier files left, and
  its save path carries the rank left after file `k`
  (`PlanDownloadsEntryRank`).
- A rank of 0 or below is not rejected. Python's negative indexing applies,
  so rank 0 picks the last candidate and leaves `self.choice` as it is
  (`SelectCases`).
- There is no separate error for a file without subtitles. An empty
  candidate list sets `self.choice` to 0, and the fallback `newlist[-1]`
  then raises IndexError (`SelectCases`).
- A download count that is `None` raises TypeError. One that is not a
  decimal number raises ValueError. Python computes every key before it
  sorts, so the first bad count in list order decides the exception
  (`RankIsStableSortByDownloads`).
- `download_list` is keyed by subtitle file id. If two videos choose the
  same subtitle file, the later save path replaces the earlier one
  (`ApplyLastWins`).
- Among download counts 5, 50 and 20, rank 2 picks the candidate with 20
  downloads: the sorted order is 50, 20, 5 and rank 2 reads index 1
  (`SelectExample`).
- `download_subs_in_folder` logs in but never logs out
  (src/batchsubs.py:141-175). The session is not part of the model.

Environment inputs become parameters:

- The directory listing is a sequence of names.
- The search service is a function `search(language, path)`. The file at
  that path determines the hash and size sent to the service.

## Model

| member | source | states |
|---|---|---|
| `PyValues.PyInt` | src/batchsubs.py:202 | `int(None)` raises TypeError (and only `None` does); an int converts to itself; a string is parsed as a base-10 integer |
| `PyValues.ParseDecimal` | src/batchsubs.py:202 | Python 2 `int()` on a string either gives a number or raises ValueError, never any other exception |
| `PyValues.IntToDecimal` | src/batchsubs.py:165-168 | the decimal text of an int is non-empty and ends in a digit; it starts with `-` exactly when the int is negative |
| `PyValues.NatToDecimal` | src/batchsubs.py:165-168 | the decimal text of a natural number is all digits, with no leading zero |
| `PyValues.NatToDecimalValue` | src/batchsubs.py:165-168 | the digits written for a natural number have that number as their value |
| `PyValues.IntToDecimalRoundTrip` | src/batchsubs.py:165-168 | `int(str(n)) == n` for every int `n`, negative ones included |
| `PyValues.ParseDigits` | src/batchsubs.py:202 | `int()` of a run of digits is its value, and with a leading `-` its negation |
| `PyValues.PyIndex` | src/batchsubs.py:206 | Python list indexing: an index in `[-n, n)` reads a position in range, counting from the end when negative; anything else raises IndexError |
| `PyValues.Str` | src/batchsubs.py:165-172 | how the format writes a record value: `None` as `None`, a string as itself, an int by `IntToDecimal` |
| `StableSort.InsertSorted` | src/batchsubs.py:202 | inserting into a non-increasing list keeps it non-increasing |
| `StableSort.InsertPermutes` | src/batchsubs.py:202 | inserting adds exactly the one element to the multiset |
| `StableSort.Insert` | src/batchsubs.py:202 | places an element in front of the first element whose key is not larger; `InsertSorted`, `InsertPermutes` and `InsertWithKey` state what that keeps |
| `StableSort.SortDesc` | src/batchsubs.py:202 | `sorted(..., reverse=True)` as an insertion sort; `SortDescIsStableSortDesc` and `StableSortDescUnique` show it is the list Python returns |
| `StableSort.InsertWithKey` | src/batchsubs.py:202 | an inserted element goes in front of every element with the same key |
| `StableSort.SortDescIsStableSortDesc` | src/batchsubs.py:202 | the sort is non-increasing by key, keeps each key's elements in input order, and is a permutation of its input with the same length |
| `StableSort.StableSortDescUnique` | src/batchsubs.py:202 | any two stable non-increasing sorts of one list are equal, so the model gives the same result as Python's `sorted` |
| `StableSort.SortedEqualKeysEqual` | src/batchsubs.py:202 | two non-increasing lists with the same elements per key, in the same order, are equal |
| `BatchSubs.Project` | src/batchsubs.py:190-195 | a cleaned record has exactly the ten allow-listed keys; each holds the input's value, or `None` where the input lacks the key |
| `BatchSubs.ProjectOnlyReadsAllowed` | src/batchsubs.py:190-195 | records that agree on the ten allow-listed keys clean to the same record |
| `BatchSubs.ProjectIdempotent` | src/batchsubs.py:195 | cleaning leaves a clean record unchanged, so cleaning twice equals cleaning once |
| `BatchSubs.Get` | src/batchsubs.py:195 | `elem.get(k, None)`: the value under the key, or `None` when it is missing; `Project` states the result per key |
| `BatchSubs.Cleaned` | src/batchsubs.py:189-198 | `_clean_up` returns a list of the same length, whose element `i` is the projection of input element `i` |
| `BatchSubs.CleanedHavePathFields` | src/batchsubs.py:165-172 | every record of a cleaned list has the fields the save path reads, so building the path never raises KeyError |
| `BatchSubs.Counts` | src/batchsubs.py:202 | either every record's `int(SubDownloadsCnt)`, in order, or the error of the first record whose count does not convert, after records that all convert |
| `BatchSubs.DownloadCount` | src/batchsubs.py:202 | `int(k['SubDownloadsCnt'])` raises KeyError exactly when the record lacks the key, and never IndexError; otherwise it is `int()` of the value |
| `BatchSubs.Rank` | src/batchsubs.py:202 | a successful ranking is a permutation of the candidates, with the same length |
| `BatchSubs.RankIsStableSortByDownloads` | src/batchsubs.py:202 | ranking succeeds exactly when every count converts; it then orders candidates by download count, non-increasing, with ties in original order; otherwise it fails with the first bad count's error |
| `BatchSubs.Select` | src/batchsubs.py:200-211 | a chosen subtitle is always one of the candidates |
| `BatchSubs.SelectCases` | src/batchsubs.py:204-209 | a bad count gives its error and leaves the rank alone; an empty list sets the rank to 0 and raises IndexError; rank `1..n` gives `sorted[rank-1]`; rank `1-n..0` counts from the end; any other rank on a non-empty list clamps to the last candidate and sets the rank to `n` |
| `BatchSubs.RankExample` | src/batchsubs.py:202 | download counts 5, 50, 20 rank as 50, 20, 5 |
| `BatchSubs.SelectExample` | src/batchsubs.py:204-209 | with those counts, rank 2 picks count 20 with the rank unchanged; rank 10 picks count 5 and sets the rank to 3 |
| `BatchSubs.ExtensionIsLastPart` | src/batchsubs.py:148 | `name.split('.')[-1]` is the longest suffix of the name with no dot: the whole name, or exactly what follows the last dot |
| `BatchSubs.ExtensionAfterLastDot` | src/batchsubs.py:148 | for any stem and any dot-free extension, the extension of `stem + "." + ext` is `ext` |
| `BatchSubs.NoDotExtension` | src/batchsubs.py:148 | a name without a dot is its own extension, so it is kept only if it equals the format |
| `BatchSubs.FilterByFormatKeeps` | src/batchsubs.py:148 | a directory entry is kept exactly when its extension equals the requested format, and nothing is added |
| `BatchSubs.FilterByFormatAppend` | src/batchsubs.py:148 | the filter keeps listing order: filtering a concatenation concatenates the filtered parts |
| `BatchSubs.FilterByFormatExample` | src/batchsubs.py:148 | from `ep1.mkv` and `ep1.srt` with format `mkv`, only `ep1.mkv` is kept |
| `BatchSubs.Extension` | src/batchsubs.py:148 | `name.split('.')[-1]`; `ExtensionIsLastPart` states which suffix it is |
| `BatchSubs.FilterByFormat` | src/batchsubs.py:148 | the comprehension over `listdir(folder)` that keeps names whose extension equals the format; `FilterByFormatKeeps` and `FilterByFormatAppend` state which names and in what order |
| `BatchSubs.JoinPath` | src/batchsubs.py:154 | `"/".join((folder, file_name))` is the folder, one `/`, then the file name, with that length |
| `BatchSubs.CleanHasPathFields` | src/batchsubs.py:190-191 | a clean record has the season, episode, language, file name, encoding and file id fields |
| `BatchSubs.PathHead` | src/batchsubs.py:165-167 | the part of the save path before the rank; `PathHeadShape` states its layout |
| `BatchSubs.PathTail` | src/batchsubs.py:168-172 | the part of the save path after the rank; `PathTailShape` states its layout |
| `BatchSubs.SavePath` | src/batchsubs.py:165-172 | the format string filled with the chosen subtitle's fields and `self.choice` after selection; `SavePathRank` states where the rank sits and that it reads back |
| `BatchSubs.SavePathRank` | src/batchsubs.py:165-172 | the save path lies in the folder, starts with `S`, and ends in `.srt`; the effective rank sits between the underscores after the episode, in decimal, and reads back as that rank |
| `BatchSubs.PathHeadShape` | src/batchsubs.py:165-167 | the path up to the rank is `folder/S{season}E{episode}_`, with that length |
| `BatchSubs.PathTailShape` | src/batchsubs.py:168-172 | the path after the rank starts with `_` and ends with `.srt` |
| `BatchSubs.ApplyKeys` | src/batchsubs.py:173 | after the assignments `download_list[id] = path`, the keys are the old keys plus the assigned ids |
| `BatchSubs.ApplyLastWins` | src/batchsubs.py:173 | for a repeated id, the last assignment's path wins |
| `BatchSubs.ApplyUntouched` | src/batchsubs.py:173 | a key that no assignment touches keeps its old path |
| `BatchSubs.Apply` | src/batchsubs.py:173 | the assignments `download_list[id] = save_path` in order; `ApplyKeys`, `ApplyLastWins` and `ApplyUntouched` state the resulting dictionary |
| `BatchSubs.PlanDownloads` | src/batchsubs.py:151-173 | the loop body per file: search, clean, select with the current rank, assign the save path; an exception ends the run with the rank it left; `PlanDownloadsComplete`, `PlanDownloadsEntryRank` and `PlanDownloadsPrefixRanks` state what a run gives |
| `BatchSubs.PlanDownloadsAppend` | src/batchsubs.py:151-173 | the loop over `a + b` is the loop over `a`, then, unless that raised, the loop over `b` started from the rank `a` left, its assignments after those of `a` |
| `BatchSubs.PlanDownloadsFirstEntry` | src/batchsubs.py:163-173 | in a run that finishes, the first file's subtitle is selected with the requested rank, and the first assignment maps its file id to the save path with the rank that selection left |
| `BatchSubs.PlanDownloadsEntryRank` | src/batchsubs.py:151-173 | in a run that finishes, assignment `k` belongs to file `k`: its subtitle is selected with the rank the earlier files left, and its save path carries the rank left after file `k` |
| `BatchSubs.PlanDownloadsPrefixRanks` | src/batchsubs.py:142-173 | the clamp is sticky: from a requested rank of at least 1, in a run through the first `j` files, the rank after `j` files is at least 1 and no larger than the rank after any earlier file, which is no larger than the requested rank |
| `BatchSubs.PlanDownloadsComplete` | src/batchsubs.py:152-173 | a run that finishes makes one assignment per kept file, and every kept file had at least one search result |
| `BatchSubs.PlanDownloadsRankNeverGrows` | src/batchsubs.py:142-164 | the rank written back is sticky: from a requested rank of at least 1, the rank stays between 0 and the requested rank; after a finished run it is at least 1 |
| `BatchSubs.BatchSubs.constructor` | src/batchsubs.py:137-139 | a new object starts with rank 1 |
| `BatchSubs.BatchSubs.CleanUp` | src/batchsubs.py:189-198 | the loop that appends one projected record per input record returns the cleaned list |
| `BatchSubs.BatchSubs.GetChoice` | src/batchsubs.py:200-211 | returns the selection and leaves `choice` as `Select` says: unchanged, clamped to the list length, or 0 on an empty list |
| `BatchSubs.BatchSubs.DownloadSubsInFolder` | src/batchsubs.py:141-175 | sets the rank, keeps the files of the requested format, and ends with the rank and the `download_list` that the run over those files gives, or the exception that ended the run |
| `BatchSubs.BatchSubs.SelectForFiles` | src/batchsubs.py:151-173 | the loop over the kept files builds `download_list` by the assignments of the run, reading and updating `choice` file by file |

## Left out

- Login, the session token and the XML-RPC client (`OpenSubtitlesExtended`, `search_subtitles`, `download_subtitles`) call a network service through a library outside this repository. The search is a function parameter here.
- `_download_subtitles` sends one bulk request and writes each decoded payload to its save path. That is network and filesystem I/O. `DownloadSubsInFolder` returns the dictionary it would be given.
- `_decode_unzip` is base64 decoding (RFC 4648 section 4) followed by gzip decompression (RFC 1952), done by Python's standard library. It is not modelled.
- `File(...).get_hash()` and `.size` hash the video file's contents. The file's path stands in for both, as an input to the search function.
- `listdir` is filesystem I/O. The directory listing is an input sequence.
- `CommandLineTool`, `BatchSubsTool` and `main` handle argument parsing. One consequence is not modelled: `-c` given without a number makes the rank `None`, and `number - 1` then raises TypeError. The model takes the rank as an int.
- `test()` is a manual script with fixed credentials and paths.
- `PyValues.PyInt`: values in records are modelled as `None`, strings and ints only. Other Python types (floats, booleans) are not modelled.
- `PyValues.ParseDecimal`: follows Python 2's `int()` on byte strings with ASCII white space. Unicode strings with non-ASCII digits or white space are not modelled.
- `PyValues.Str`: formatting a non-ASCII byte string into the unicode path template can raise UnicodeDecodeError under Python 2. The model does not capture that failure.
