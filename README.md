# MindMate Harmony Space mood backend: a Dafny model

This project models the logic inside the mood-journal backend `server.py`:

- **Mood analyzer** (`analyze_moods`). It reports the total entry count and the most frequent emotion. It also reports the top three triggers and the top three activities, and a trend message read from the mean intensity of the last three entries.
- **Suggestion catalog** (`get_suggestions_for_emotion`). This is a fixed table from emotion label to two self-care suggestions. Unknown labels fall back to `anxious`.
- **Mood-log store.** This is the read-modify-write list logic of the log, import, delete, stats, export and trend handlers.

Modules:

- `Wrappers` (`wrappers.dfy`): `Option`, which stands for a request field that may be absent.
- `MoodEntries` (`mood_entry.dfy`): the `MoodEntry` record. Intensity is an exact `real`.
- `Counting` (`counting.dfy`): Python's `Counter` and `most_common(n)`.
  - Keys stay in order of first occurrence.
  - `Rank` is a stable sort by descending count (it repeatedly takes the leftmost key of maximal count).
  - `IsTopRanking` specifies the result. `TopRankingUnique` proves that the specification admits exactly one answer.
- `LexOrder` (`lex_order.dfy`): Python's `<=` on `str`, that is, lexicographic order by code point. Dafny's own `<=` on sequences means "prefix of", so it is not used.
- `MoodAnalysis` (`analysis.dfy`): the specification function `Analyze` and the method `AnalyzeMoods`.
  - `AnalyzeMoods` is the source's algorithm, including the loop that extends the two pools entry by entry.
  - `AnalyzeMoods` is proved equal to `Analyze`.
  - The lemmas state what each field of the report means.
- `Suggestions` (`suggestions.dfy`): the catalog as a constant map, with its lookup and fallback.
- `Store` (`log_store.dfy`): the class `LogStore`. Its field `logs` stands for the contents of the backing JSON file.
  - Each handler is a method that reassigns `logs`, the way the source rewrites the file.
  - Pure functions specify the deletions: `RemoveAt` for `list.pop(i)`, `Retained` and `Removed` for the range filter. Lemmas about them state the sequence-surgery properties.

Two behaviours of the code worth knowing:

- A range delete with a missing or empty bound is not an error. It succeeds, deletes nothing and reports a count of 0 (server.py:396-407).
- Loading is fail-soft for a missing file, or any error while opening, reading or parsing it (server.py:22-28). The bare `except:` covers the whole `with open(...)` block, so the model's `Unparseable` case stands for all of these: a file that cannot be opened or read, a decoding error, or malformed JSON. A file that parses to something other than a list is not replaced by `[]`. The model's `Parsed` case covers only a file that parses to a list of entries.

## Model

| member | source | states |
|---|---|---|
| Counting.CountOf | server.py:48 | The count of a value is at most the pool length, and it is positive exactly when the value occurs. |
| Counting.CountOfIsMultiplicity | server.py:48 | The count of a value is its multiplicity in the pool, as a multiset. |
| Counting.Keys | server.py:58 | A Counter's keys are exactly the values of the pool. |
| Counting.KeysInOccurrenceOrder | server.py:58 | A Counter's keys come in order of first occurrence. |
| Counting.Rank | server.py:78 | Ranking permutes the keys: the result has the same multiset as the keys, so also the same length and the same members. |
| Counting.RankSorted | server.py:78 | A ranking is strictly ordered: higher count first, and on equal counts the earlier first occurrence first (a stable sort). |
| Counting.MostCommon | server.py:78-79 | `most_common(n)` gives at most n values, all from the pool, and at least one when the pool is non-empty and n > 0. With `MostCommonIsTopRanking` and `TopRankingUnique` it is the unique top-n ranking. |
| Counting.MostCommonIsTopRanking | server.py:78-79 | `most_common(n)` gives at most n distinct values from the pool, in rank order. It is shorter than n only when every value is included. No omitted value outranks an included one. |
| Counting.TopRankingDistinct | server.py:78-79 | A top ranking lists no value twice. |
| Counting.TopRankingUnique | server.py:78-79 | Exactly one list has these ranking properties, so they determine `most_common` completely. |
| Counting.TieBreakExample | server.py:78 | For the pool a, a, b, b, c the top three are a, b, c: the a/b tie goes to a, which occurs first. |
| MoodAnalysis.AnalyzeMoods | server.py:35-80 | The handler's algorithm, including the pool-building loop, returns exactly the specified report `Analyze(logs)`. |
| MoodAnalysis.Analyze | server.py:35-80 | The report's total is the number of entries, and a non-empty log's most common emotion is one of its labels. The top lists have at most 3 names each, all from the matching pool. `EmptyAnalysis`, `MostCommonEmotion`, `TopTriggersRanked`, `TopActivitiesRanked` and `TrendThresholds` give the rest of each field's meaning. |
| MoodAnalysis.EmptyAnalysis | server.py:37-44 | An empty log gives total 0, most common "N/A", the "start logging" trend and empty trigger and activity lists. |
| MoodAnalysis.AnalysisTotalAndTrend | server.py:75-77 | For a non-empty log the total is the number of entries, and the trend is the one `Trend` classifies. |
| MoodAnalysis.MostCommonEmotion | server.py:47-49 | For a non-empty log the most common emotion occurs in the log. It outranks every other label: a higher count, or an equal count and an earlier first occurrence. |
| MoodAnalysis.TopTriggersRanked | server.py:52-78 | `top_triggers` is the top-3 ranking of the trigger pool. |
| MoodAnalysis.TopActivitiesRanked | server.py:52-79 | `top_activities` is the top-3 ranking of the activity pool. |
| MoodAnalysis.Emotions | server.py:47 | The emotion list has one label per entry, in entry order. |
| MoodAnalysis.AllTriggers | server.py:52-56 | A name is in the trigger pool if and only if some entry lists it as a trigger. `AllTriggersAppend` gives the order. |
| MoodAnalysis.AllActivities | server.py:52-56 | A name is in the activity pool if and only if some entry lists it as an activity. `AllActivitiesAppend` gives the order. |
| MoodAnalysis.AllTriggersAppend | server.py:52-56 | The trigger pool of a concatenated log is the concatenation of the pools: entry order, then list order. |
| MoodAnalysis.AllActivitiesAppend | server.py:52-56 | The activity pool of a concatenated log is the concatenation of the pools: entry order, then list order. |
| MoodAnalysis.RecentAverage | server.py:62-64 | The average is the exact mean of the last three intensities. |
| MoodAnalysis.Trend | server.py:61-72 | The trend is one of the four messages, and it is "keep logging" exactly when there are fewer than 3 entries. `TrendThresholds` says which of the other three applies. |
| MoodAnalysis.TrendThresholds | server.py:62-72 | With fewer than 3 entries the trend is always "keep logging". Otherwise, with the mean of the last three intensities: above 0.7 gives "higher intensity", below 0.3 gives "managing well", anything else gives "balanced", each if and only if. |
| MoodAnalysis.TrendDependsOnlyOnRecent | server.py:62-72 | Two logs of length 3 or more whose last three intensities agree get the same trend. |
| Suggestions.CatalogShape | server.py:155-252 | The table has exactly the eight known emotions as keys, each with two different suggestions. |
| Suggestions.SuggestionsFor | server.py:153-254 | The lookup always returns two suggestions. A known emotion gets its own entry and any other label gets the "anxious" entry. |
| Suggestions.UnknownFallsBack | server.py:254 | An unknown label gets exactly the list that "anxious" gets. |
| Suggestions.IntensityIgnored | server.py:153-254 | The intensity argument never changes the result. |
| LexOrder.LexLe | server.py:398 | A prefix of a string is at or before it. `LexLeIsPythonOrder` gives the full rule. |
| LexOrder.LexLeIsPythonOrder | server.py:398 | `a <= b` on Python strings holds if and only if `a` is a prefix of `b`, or at the first position where they differ `a` has the smaller code point. |
| LexOrder.LexLeReflexive | server.py:398 | Python string `<=` is reflexive. |
| LexOrder.LexLeAntisymmetric | server.py:398 | Python string `<=` is antisymmetric. |
| LexOrder.LexLeTransitive | server.py:398 | Python string `<=` is transitive. |
| LexOrder.LexLeTotal | server.py:398 | Any two strings are comparable. |
| LexOrder.LexLtNotLe | server.py:398 | A string strictly below another is not at or above it. |
| Store.LoadMoodLogs | server.py:20-28 | A missing file, or one that cannot be opened, read or parsed, loads as the empty log. A parsed file loads as its entries. |
| Store.NewEntry | server.py:120-127 | A new entry takes the given timestamp and stores every field the request gives. Absent fields default to emotion "happy", intensity 0.5, empty text and empty trigger and activity lists. |
| Store.Truthy | server.py:396 | A date bound counts as given if and only if it is present and not the empty string, with an absent bound read as "". |
| Store.InRange | server.py:398 | A timestamp is in range when `start <= ts <= end` as Python compares strings. When `start <= end` fails, no timestamp is in range. |
| Store.RemoveAt | server.py:376 | `pop(i)` shortens the log by one and keeps only entries that were in it. `RemoveAtSpec` gives the positions and the multiset. |
| Store.RemoveAtSpec | server.py:374-381 | Deleting index i shortens the log by one. Entries before i stay in place and entries after i shift down by one. Exactly one copy of the deleted entry is lost. |
| Store.AppendThenRemoveLast | server.py:374-377 | Popping the position just appended restores the previous log. |
| Store.Retained | server.py:397-398 | The range filter never lengthens the log. |
| Store.RetainedMembers | server.py:396-398 | An entry is kept if and only if it was in the log and its timestamp is not within [start, end] as Python compares strings. |
| Store.RetainedAppend | server.py:397-398 | The filter distributes over concatenation, so kept entries keep their relative order. |
| Store.RangePartition | server.py:393-401 | Kept and deleted entries partition the log, as a multiset. The deleted count is the number of entries in range. |
| Store.OutsideIsKept | server.py:397-398 | A timestamp strictly before start or strictly after end is never deleted. |
| Store.InvertedRangeKeepsAll | server.py:396-398 | A range whose end precedes its start deletes nothing. |
| Store.RangeExample | server.py:393-401 | With timestamps t1 < t2 < t3, deleting [t1, t2] keeps exactly the t3 entry. |
| Store.LogStore.constructor | server.py:20-28 | The store opens on the fail-soft load of the backing file. |
| Store.LogStore.LogMood | server.py:114-145 | The log becomes old + [new entry]. The reported total is the old length + 1. The suggestions are those for the entry's emotion and intensity. |
| Store.LogStore.ImportData | server.py:313-342 | An absent `data` field is an empty list and an absent `replace` is false, so a request with no data and replace true empties the log. A payload that is not a list is rejected with the log unchanged. Replace makes the log exactly the imported list. Otherwise the log becomes old + imported, in order. The message counts and the new total are reported. |
| Store.LogStore.DeleteAll | server.py:357-364 | The log becomes empty. |
| Store.LogStore.DeleteSingle | server.py:365-387 | A missing index, or one outside 0 <= i < length, is an error that leaves the log unchanged. A valid index removes exactly the entry at i and returns it with the new total. |
| Store.LogStore.DeleteRange | server.py:388-407 | With both bounds non-empty, the log keeps exactly the entries outside [start, end], in order. Otherwise nothing changes. The reported count is old length minus new length. |
| Store.LogStore.DeleteData | server.py:350-412 | The action defaults to "all" and dispatches to the three deletions above. Any other action is an error that leaves the log unchanged. |
| Store.LogStore.Stats | server.py:420-441 | The total is the log length. First and last are absent for an empty log; otherwise they are the timestamps of the first and last stored entries. |
| Store.LogStore.Export | server.py:296-306 | The export holds the whole log, its length and the export time passed in. |
| Store.LogStore.AnalyzeTrends | server.py:256-266 | The trend handler reports exactly `Analyze` of the current log. |

## Left out

- The Flask layer: routing, `request.json`, `jsonify` and HTTP status codes. Static file and icon serving, CORS, and the startup banner and `app.run`. These are transport and framework calls. Handler outcomes are result datatypes instead.
- JSON reading and writing, `os.path.exists` and `os.path.getsize`. These are file I/O. The backing file is the `logs` field, and in the model the handlers' error paths do not write to it. A write that fails part-way is outside the model: `save_mood_logs` truncates the file before writing, so such a failure leaves a short file that the next load reads as empty.
- `file_exists` and `file_size_kb` in the stats reply, because they are properties of the file on disk.
- `datetime.now()`. The clock is a parameter: the entry timestamp of `LogMood` and the export date of `Export`.
- Floating-point arithmetic. Intensities are exact reals, so the average and the 0.7 and 0.3 thresholds compare exactly.
- The generic `except Exception` replies. No list operation modelled here raises; failures of the I/O and of the framework are outside the model.
- Concurrent requests racing on read-modify-write of the file. Each method is one request running alone.
- Entries with missing keys (`log.get('timestamp', '')`, `log.get('trigger_names', [])`, the `'unknown time'` fallback). Entries are total records.
- Request values of unexpected JSON types: a non-integer index, a non-string date, a non-boolean `replace`, an explicit `null` field. Each request field is either absent (`None`) or of the expected type.
- The defaults of the SupportiveAdvisor handler (emotion `anxious`, intensity 0.7), because that handler is plain route plumbing around the lookup. Its defaulted emotion gets the same list an unknown label would.
- The unused `subprocess` and `tempfile` imports.
