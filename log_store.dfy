/**
 * The mood-log store and the list logic of its request handlers. The backing
 * JSON file is the `logs` field: each handler reads it, changes it, and
 * writes it back whole, so a handler is a method that reassigns `logs`.
 */
module Store {
  import opened Wrappers
  import opened MoodEntries
  import opened LexOrder
  import opened MoodAnalysis
  import opened Suggestions

  /**
   * What reading the backing file yields. `Unparseable` stands for any error
   * while opening, reading or parsing an existing file.
   */
  datatype StoredFile = Missing | Unparseable | Parsed(entries: seq<MoodEntry>)

  /** Fail-soft load: a missing file, or one that fails to open, read or parse, reads as an empty log. */
  function LoadMoodLogs(file: StoredFile): (r: seq<MoodEntry>)
    ensures file.Parsed? ==> r == file.entries
    ensures !file.Parsed? ==> r == []
  {
    match file
    case Parsed(entries) => entries
    case _ => []
  }

  /** The fields of a log-mood request; `None` is a field left out of the request. */
  datatype MoodRequest = MoodRequest(
    emotionName: Option<string>,
    intensity: Option<real>,
    userInput: Option<string>,
    triggerNames: Option<seq<string>>,
    activityNames: Option<seq<string>>)

  const DEFAULT_EMOTION := "happy"
  const DEFAULT_INTENSITY: real := 0.5

  /** The entry a log-mood request creates at `timestamp`, with the handler's defaults. */
  function NewEntry(timestamp: string, req: MoodRequest): (e: MoodEntry)
    ensures e.timestamp == timestamp
    ensures req.emotionName.None? ==> e.emotionName == DEFAULT_EMOTION
    ensures req.intensity.None? ==> e.intensity == DEFAULT_INTENSITY
    ensures req.userInput.None? ==> e.userInput == ""
    ensures req.triggerNames.None? ==> e.triggerNames == []
    ensures req.activityNames.None? ==> e.activityNames == []
    ensures req.emotionName.Some? ==> e.emotionName == req.emotionName.value
    ensures req.intensity.Some? ==> e.intensity == req.intensity.value
    ensures req.userInput.Some? ==> e.userInput == req.userInput.value
    ensures req.triggerNames.Some? ==> e.triggerNames == req.triggerNames.value
    ensures req.activityNames.Some? ==> e.activityNames == req.activityNames.value
  {
    MoodEntry(
      timestamp,
      req.emotionName.GetOr(DEFAULT_EMOTION),
      req.intensity.GetOr(DEFAULT_INTENSITY),
      req.userInput.GetOr(""),
      req.triggerNames.GetOr([]),
      req.activityNames.GetOr([]))
  }

  datatype LogResult = LogResult(
    emotion: string, intensity: real, suggestions: seq<Suggestion>, totalLogs: nat)

  /** The `data` field of an import request: a list of entries, or anything else. */
  datatype ImportPayload = ImportList(entries: seq<MoodEntry>) | NotAList

  datatype ImportResult =
    | Replaced(imported: nat, totalEntries: nat)
    | Added(imported: nat, existing: nat, totalEntries: nat)
    | InvalidFormat

  datatype DeleteError = IndexRequired | InvalidIndex | InvalidAction

  datatype DeleteResult =
    | AllDeleted
    | EntryDeleted(removed: MoodEntry, totalEntries: nat)
    | RangeDeleted(deletedCount: nat, totalEntries: nat)
    | DeleteFailed(error: DeleteError)

  datatype StatsReport = StatsReport(
    totalEntries: nat, firstEntry: Option<string>, lastEntry: Option<string>)

  datatype ExportReport = ExportReport(
    data: seq<MoodEntry>, totalEntries: nat, exportDate: string)

  /** Python truthiness of an optional string: present and non-empty. */
  predicate Truthy(o: Option<string>)
    ensures Truthy(o) <==> o.GetOr("") != ""
  {
    o.Some? && o.value != ""
  }

  /** `start <= ts <= end` on Python strings. */
  predicate InRange(ts: string, start: string, end: string)
    ensures InRange(ts, start, end) ==> LexLe(start, end)
  {
    LexLeTransitive(start, ts, end);
    LexLe(start, ts) && LexLe(ts, end)
  }

  /** The log with position `i` taken out (`list.pop(i)`). */
  function RemoveAt(s: seq<MoodEntry>, i: nat): (r: seq<MoodEntry>)
    requires i < |s|
    ensures |r| == |s| - 1
    ensures forall e :: e in r ==> e in s
  {
    s[..i] + s[i + 1..]
  }

  /** The entries whose timestamp lies outside `[start, end]`, in their order. */
  function Retained(s: seq<MoodEntry>, start: string, end: string): (r: seq<MoodEntry>)
    ensures |r| <= |s|
  {
    if s == [] then []
    else (if InRange(s[0].timestamp, start, end) then [] else [s[0]]) + Retained(s[1..], start, end)
  }

  /** The entries whose timestamp lies inside `[start, end]`, in their order. */
  function Removed(s: seq<MoodEntry>, start: string, end: string): seq<MoodEntry>
  {
    if s == [] then []
    else (if InRange(s[0].timestamp, start, end) then [s[0]] else []) + Removed(s[1..], start, end)
  }

  /**
   * Removing position `i` shortens the log by one, keeps the entries before
   * `i` in place, shifts the ones after it down by one, and loses exactly
   * one copy of `s[i]`.
   */
  lemma RemoveAtSpec(s: seq<MoodEntry>, i: nat)
    requires i < |s|
    ensures |RemoveAt(s, i)| == |s| - 1
    ensures forall j :: 0 <= j < i ==> RemoveAt(s, i)[j] == s[j]
    ensures forall j :: i <= j < |s| - 1 ==> RemoveAt(s, i)[j] == s[j + 1]
    ensures multiset(RemoveAt(s, i)) + multiset{s[i]} == multiset(s)
  {
    assert s == s[..i] + [s[i]] + s[i + 1..];
  }

  /** Deleting the entry just appended restores the log. */
  lemma AppendThenRemoveLast(s: seq<MoodEntry>, e: MoodEntry)
    ensures RemoveAt(s + [e], |s|) == s
  {
    assert (s + [e])[..|s|] == s;
  }

  /** An entry is kept exactly when it was in the log and outside the range. */
  lemma {:induction false} RetainedMembers(s: seq<MoodEntry>, start: string, end: string)
    ensures forall e :: e in Retained(s, start, end) <==> e in s && !InRange(e.timestamp, start, end)
  {
    if s != [] {
      RetainedMembers(s[1..], start, end);
      assert s == [s[0]] + s[1..];
    }
  }

  /** Filtering a concatenation filters each part: the kept entries keep their order. */
  lemma {:induction false} RetainedAppend(a: seq<MoodEntry>, b: seq<MoodEntry>, start: string, end: string)
    ensures Retained(a + b, start, end) == Retained(a, start, end) + Retained(b, start, end)
  {
    if a == [] {
      assert a + b == b;
    } else {
      assert (a + b)[0] == a[0] && (a + b)[1..] == a[1..] + b;
      RetainedAppend(a[1..], b, start, end);
    }
  }

  /**
   * Every entry is either kept or deleted, so the deleted count is the number of
   * entries inside the range.
   */
  lemma {:induction false} RangePartition(s: seq<MoodEntry>, start: string, end: string)
    ensures |Retained(s, start, end)| + |Removed(s, start, end)| == |s|
    ensures multiset(Retained(s, start, end)) + multiset(Removed(s, start, end)) == multiset(s)
    ensures forall e :: e in Removed(s, start, end) ==> InRange(e.timestamp, start, end)
  {
    if s != [] {
      RangePartition(s[1..], start, end);
      assert s == [s[0]] + s[1..];
    }
  }

  /** A timestamp strictly before `start` or strictly after `end` is never deleted. */
  lemma OutsideIsKept(ts: string, start: string, end: string)
    ensures LexLt(ts, start) || LexLt(end, ts) ==> !InRange(ts, start, end)
  {
    if LexLt(ts, start) {
      LexLtNotLe(ts, start);
    }
    if LexLt(end, ts) {
      LexLtNotLe(end, ts);
    }
  }

  /** A range whose end comes before its start deletes nothing. */
  lemma {:induction false} InvertedRangeKeepsAll(s: seq<MoodEntry>, start: string, end: string)
    requires LexLt(end, start)
    ensures Retained(s, start, end) == s
  {
    if s != [] {
      InvertedRangeKeepsAll(s[1..], start, end);
      LexLeTransitive(start, s[0].timestamp, end);
      LexLtNotLe(end, start);
      assert !InRange(s[0].timestamp, start, end);
      assert s == [s[0]] + s[1..];
    }
  }

  /** With timestamps t1 < t2 < t3, deleting the range [t1, t2] keeps only the third entry. */
  lemma RangeExample(e1: MoodEntry, e2: MoodEntry, e3: MoodEntry)
    requires LexLt(e1.timestamp, e2.timestamp) && LexLt(e2.timestamp, e3.timestamp)
    ensures Retained([e1, e2, e3], e1.timestamp, e2.timestamp) == [e3]
  {
    LexLeReflexive(e1.timestamp);
    LexLeReflexive(e2.timestamp);
    OutsideIsKept(e3.timestamp, e1.timestamp, e2.timestamp);
    var t1, t2 := e1.timestamp, e2.timestamp;
    assert [e1, e2, e3][1..] == [e2, e3] && [e2, e3][1..] == [e3] && [e3][1..] == [];
    calc {
      Retained([e1, e2, e3], t1, t2);
      { assert InRange(t1, t1, t2); }
      Retained([e2, e3], t1, t2);
      { assert InRange(t2, t1, t2); }
      Retained([e3], t1, t2);
      [e3] + Retained([], t1, t2);
    }
  }

  class LogStore {
    /** The contents of the backing file, in stored (chronological) order. */
    var logs: seq<MoodEntry>

    /** Open the store on whatever the backing file holds. */
    constructor (file: StoredFile)
      ensures logs == LoadMoodLogs(file)
    {
      logs := LoadMoodLogs(file);
    }

    /** Log a mood (`mood_logger`): append the new entry and suggest for its emotion. */
    method LogMood(timestamp: string, req: MoodRequest) returns (r: LogResult)
      modifies this
      ensures logs == old(logs) + [NewEntry(timestamp, req)]
      ensures r.totalLogs == |old(logs)| + 1 == |logs|
      ensures r.emotion == logs[|logs| - 1].emotionName
      ensures r.intensity == logs[|logs| - 1].intensity
      ensures r.suggestions == SuggestionsFor(r.emotion, r.intensity)
    {
      var entry := NewEntry(timestamp, req);
      logs := logs + [entry];
      var suggestions := SuggestionsFor(entry.emotionName, entry.intensity);
      r := LogResult(entry.emotionName, entry.intensity, suggestions, |logs|);
    }

    /**
     * Import entries (`import_data`), replacing the log or appending to it.
     * An absent `data` field is an empty list; an absent `replace` is false.
     */
    method ImportData(payload: Option<ImportPayload>, replace: Option<bool>) returns (r: ImportResult)
      modifies this
      ensures payload.GetOr(ImportList([])).NotAList? ==> r == InvalidFormat && logs == old(logs)
      ensures payload.GetOr(ImportList([])).ImportList? && replace.GetOr(false) ==>
        logs == payload.GetOr(ImportList([])).entries &&
        r == Replaced(|payload.GetOr(ImportList([])).entries|, |logs|)
      ensures payload.GetOr(ImportList([])).ImportList? && !replace.GetOr(false) ==>
        logs == old(logs) + payload.GetOr(ImportList([])).entries &&
        r == Added(|payload.GetOr(ImportList([])).entries|, |old(logs)|, |logs|)
    {
      match payload.GetOr(ImportList([]))
      case NotAList =>
        r := InvalidFormat;
      case ImportList(imported) =>
        if replace.GetOr(false) {
          logs := imported;
          r := Replaced(|imported|, |logs|);
        } else {
          var existing := |logs|;
          logs := logs + imported;
          r := Added(|imported|, existing, |logs|);
        }
    }

    /** Delete every entry. */
    method DeleteAll() returns (r: DeleteResult)
      modifies this
      ensures logs == [] && r == AllDeleted
    {
      logs := [];
      r := AllDeleted;
    }

    /** Delete the entry at `index`; a missing or out-of-range index changes nothing. */
    method DeleteSingle(index: Option<int>) returns (r: DeleteResult)
      modifies this
      ensures index.None? ==> r == DeleteFailed(IndexRequired) && logs == old(logs)
      ensures index.Some? && !(0 <= index.value < |old(logs)|) ==>
        r == DeleteFailed(InvalidIndex) && logs == old(logs)
      ensures index.Some? && 0 <= index.value < |old(logs)| ==>
        logs == RemoveAt(old(logs), index.value) &&
        r == EntryDeleted(old(logs)[index.value], |logs|)
    {
      if index.None? {
        return DeleteFailed(IndexRequired);
      }
      var i := index.value;
      if 0 <= i < |logs| {
        var removed := logs[i];
        logs := RemoveAt(logs, i);
        r := EntryDeleted(removed, |logs|);
      } else {
        r := DeleteFailed(InvalidIndex);
      }
    }

    /**
     * Delete the entries whose timestamp lies in `[startDate, endDate]`; when
     * either bound is missing or empty nothing is deleted.
     */
    method DeleteRange(startDate: Option<string>, endDate: Option<string>) returns (r: DeleteResult)
      modifies this
      ensures Truthy(startDate) && Truthy(endDate) ==>
        logs == Retained(old(logs), startDate.value, endDate.value)
      ensures !(Truthy(startDate) && Truthy(endDate)) ==> logs == old(logs)
      ensures r == RangeDeleted(|old(logs)| - |logs|, |logs|)
    {
      var originalCount := |logs|;
      if Truthy(startDate) && Truthy(endDate) {
        logs := Retained(logs, startDate.value, endDate.value);
      }
      r := RangeDeleted(originalCount - |logs|, |logs|);
    }

    /** The delete handler (`delete_data`): the action defaults to "all". */
    method DeleteData(action: Option<string>, index: Option<int>,
                      startDate: Option<string>, endDate: Option<string>) returns (r: DeleteResult)
      modifies this
      ensures action.GetOr("all") == "all" ==> logs == [] && r == AllDeleted
      ensures action.GetOr("all") == "single" && index.None? ==>
        r == DeleteFailed(IndexRequired) && logs == old(logs)
      ensures action.GetOr("all") == "single" && index.Some? && !(0 <= index.value < |old(logs)|) ==>
        r == DeleteFailed(InvalidIndex) && logs == old(logs)
      ensures action.GetOr("all") == "single" && index.Some? && 0 <= index.value < |old(logs)| ==>
        logs == RemoveAt(old(logs), index.value) &&
        r == EntryDeleted(old(logs)[index.value], |logs|)
      ensures action.GetOr("all") == "range" ==>
        logs == (if Truthy(startDate) && Truthy(endDate)
                 then Retained(old(logs), startDate.value, endDate.value) else old(logs)) &&
        r == RangeDeleted(|old(logs)| - |logs|, |logs|)
      ensures action.GetOr("all") !in {"all", "single", "range"} ==>
        r == DeleteFailed(InvalidAction) && logs == old(logs)
    {
      var act := action.GetOr("all");
      if act == "all" {
        r := DeleteAll();
      } else if act == "single" {
        r := DeleteSingle(index);
      } else if act == "range" {
        r := DeleteRange(startDate, endDate);
      } else {
        r := DeleteFailed(InvalidAction);
      }
    }

    /** Store statistics (`data_stats`): count and the first and last timestamps in stored order. */
    method Stats() returns (r: StatsReport)
      ensures r.totalEntries == |logs|
      ensures logs == [] ==> r.firstEntry.None? && r.lastEntry.None?
      ensures logs != [] ==>
        r.firstEntry == Some(logs[0].timestamp) && r.lastEntry == Some(logs[|logs| - 1].timestamp)
    {
      if logs == [] {
        return StatsReport(0, None, None);
      }
      r := StatsReport(|logs|, Some(logs[0].timestamp), Some(logs[|logs| - 1].timestamp));
    }

    /** Export (`export_data`): the whole log, its size, and the export time passed in. */
    method Export(exportDate: string) returns (r: ExportReport)
      ensures r.data == logs && r.totalEntries == |logs| && r.exportDate == exportDate
    {
      r := ExportReport(logs, |logs|, exportDate);
    }

    /** Trend analysis (`trend_analyzer`) over the current log. */
    method AnalyzeTrends() returns (r: Report)
      ensures r == Analyze(logs)
    {
      r := AnalyzeMoods(logs);
    }
  }
}
