/**
 * The mood analyzer (`analyze_moods`): total count, most frequent emotion,
 * top-3 triggers and activities, and a trend read from the last three
 * intensities. Pure over a snapshot of the log.
 */
module MoodAnalysis {
  import opened MoodEntries
  import opened Counting

  const START_LOGGING := "Start logging moods to see trends"
  const KEEP_LOGGING := "Keep logging to see patterns emerge"
  const HIGHER_INTENSITY := "Your recent moods show higher intensity - consider self-care activities"
  const MANAGING_WELL := "Your mood intensity is lower - you're managing well!"
  const BALANCED := "Your moods are balanced - keep up the good work!"

  /** Number of ranked triggers and activities in a report. */
  const TOP_N: nat := 3

  datatype Report = Report(
    totalEntries: nat,
    mostCommon: string,
    trend: string,
    topTriggers: seq<string>,
    topActivities: seq<string>)

  /** The emotion labels in entry order. */
  function Emotions(logs: seq<MoodEntry>): (r: seq<string>)
    ensures |r| == |logs|
    ensures forall i :: 0 <= i < |logs| ==> r[i] == logs[i].emotionName
  {
    seq(|logs|, i requires 0 <= i < |logs| => logs[i].emotionName)
  }

  /** All trigger names: entry order, then list order within an entry. */
  function AllTriggers(logs: seq<MoodEntry>): (r: seq<string>)
    ensures forall e, x :: e in logs && x in e.triggerNames ==> x in r
    ensures forall x :: x in r ==> exists e :: e in logs && x in e.triggerNames
  {
    if logs == [] then []
    else
      var p := logs[..|logs| - 1];
      assert logs == p + [logs[|logs| - 1]];
      AllTriggers(p) + logs[|logs| - 1].triggerNames
  }

  /** All activity names: entry order, then list order within an entry. */
  function AllActivities(logs: seq<MoodEntry>): (r: seq<string>)
    ensures forall e, x :: e in logs && x in e.activityNames ==> x in r
    ensures forall x :: x in r ==> exists e :: e in logs && x in e.activityNames
  {
    if logs == [] then []
    else
      var p := logs[..|logs| - 1];
      assert logs == p + [logs[|logs| - 1]];
      AllActivities(p) + logs[|logs| - 1].activityNames
  }

  /** Sum of the intensities of `entries`. */
  function IntensitySum(entries: seq<MoodEntry>): real
  {
    if entries == [] then 0.0
    else entries[0].intensity + IntensitySum(entries[1..])
  }

  /** Average intensity of the last three entries (exact, not floating point). */
  function RecentAverage(logs: seq<MoodEntry>): (avg: real)
    requires |logs| >= 3
    ensures var n := |logs|;
      avg == (logs[n - 3].intensity + logs[n - 2].intensity + logs[n - 1].intensity) / 3.0
  {
    var n := |logs|;
    var recent := logs[n - 3..];
    assert recent[1..][1..][1..] == [];
    calc {
      IntensitySum(recent);
      recent[0].intensity + IntensitySum(recent[1..]);
      recent[0].intensity + (recent[1].intensity + IntensitySum(recent[1..][1..]));
      recent[0].intensity + (recent[1].intensity + (recent[2].intensity + IntensitySum(recent[1..][1..][1..])));
      logs[n - 3].intensity + logs[n - 2].intensity + logs[n - 1].intensity;
    }
    IntensitySum(recent) / (|recent| as real)
  }

  /** The trend text for a non-empty log. */
  function Trend(logs: seq<MoodEntry>): (t: string)
    ensures t in {KEEP_LOGGING, HIGHER_INTENSITY, MANAGING_WELL, BALANCED}
    ensures t == KEEP_LOGGING <==> |logs| < 3
  {
    if |logs| >= 3 then
      var avg := RecentAverage(logs);
      if avg > 0.7 then HIGHER_INTENSITY
      else if avg < 0.3 then MANAGING_WELL
      else BALANCED
    else KEEP_LOGGING
  }

  /** What `analyze_moods(logs)` returns. */
  function Analyze(logs: seq<MoodEntry>): (r: Report)
    ensures r.totalEntries == |logs|
    ensures logs != [] ==> r.mostCommon in Emotions(logs)
    ensures |r.topTriggers| <= TOP_N && |r.topActivities| <= TOP_N
    ensures forall x :: x in r.topTriggers ==> x in AllTriggers(logs)
    ensures forall x :: x in r.topActivities ==> x in AllActivities(logs)
  {
    if logs == [] then Report(0, "N/A", START_LOGGING, [], [])
    else
      var top := MostCommon(Emotions(logs), 1);
      Report(
        |logs|,
        if top != [] then top[0] else "N/A",
        Trend(logs),
        MostCommon(AllTriggers(logs), TOP_N),
        MostCommon(AllActivities(logs), TOP_N))
  }

  /**
   * `analyze_moods` as the source runs it: the trigger and activity pools are
   * built by one loop that extends them entry by entry.
   */
  method AnalyzeMoods(logs: seq<MoodEntry>) returns (r: Report)
    ensures r == Analyze(logs)
  {
    if logs == [] {
      return Report(0, "N/A", START_LOGGING, [], []);
    }
    var top := MostCommon(Emotions(logs), 1);
    var mostCommon := if top != [] then top[0] else "N/A";
    var allTriggers: seq<string> := [];
    var allActivities: seq<string> := [];
    for i := 0 to |logs|
      invariant allTriggers == AllTriggers(logs[..i])
      invariant allActivities == AllActivities(logs[..i])
    {
      assert logs[..i + 1][..i] == logs[..i];
      allTriggers := allTriggers + logs[i].triggerNames;
      allActivities := allActivities + logs[i].activityNames;
    }
    assert logs[..|logs|] == logs;
    r := Report(|logs|, mostCommon, Trend(logs),
                MostCommon(allTriggers, TOP_N), MostCommon(allActivities, TOP_N));
  }

  /** With no entries the report is the fixed "no data yet" one. */
  lemma EmptyAnalysis()
    ensures Analyze([]) == Report(0, "N/A", START_LOGGING, [], [])
  {
  }

  /** For a non-empty log the total is the number of entries and the trend is `Trend`. */
  lemma AnalysisTotalAndTrend(logs: seq<MoodEntry>)
    requires logs != []
    ensures Analyze(logs).totalEntries == |logs|
    ensures Analyze(logs).trend == Trend(logs)
  {
  }

  /**
   * The most common emotion occurs in the log and ranks ahead of every other
   * label: a strictly higher count, or an equal count and an earlier first
   * occurrence.
   */
  lemma MostCommonEmotion(logs: seq<MoodEntry>)
    requires logs != []
    ensures var em, mc := Emotions(logs), Analyze(logs).mostCommon;
      mc in em &&
      forall x :: x in em && x != mc ==> Before(em, mc, x)
  {
    var em := Emotions(logs);
    var top := MostCommon(em, 1);
    MostCommonIsTopRanking(em, 1);
    assert em[0] in em;
    assert |top| == 1;
    var mc := top[0];
    assert Analyze(logs).mostCommon == mc;
    forall x | x in em && x != mc ensures Before(em, mc, x) {
      assert x !in top;
    }
  }

  /** `top_triggers` is the top-3 ranking of the trigger pool. */
  lemma TopTriggersRanked(logs: seq<MoodEntry>)
    ensures IsTopRanking(AllTriggers(logs), Analyze(logs).topTriggers, TOP_N)
  {
    MostCommonIsTopRanking(AllTriggers(logs), TOP_N);
  }

  /** `top_activities` is the top-3 ranking of the activity pool. */
  lemma TopActivitiesRanked(logs: seq<MoodEntry>)
    ensures IsTopRanking(AllActivities(logs), Analyze(logs).topActivities, TOP_N)
  {
    MostCommonIsTopRanking(AllActivities(logs), TOP_N);
  }

  /** The trigger pool concatenates the entries' trigger lists in entry order. */
  lemma {:induction false} AllTriggersAppend(a: seq<MoodEntry>, b: seq<MoodEntry>)
    ensures AllTriggers(a + b) == AllTriggers(a) + AllTriggers(b)
    decreases |b|
  {
    if b != [] {
      var b' := b[..|b| - 1];
      assert (a + b)[..|a + b| - 1] == a + b';
      AllTriggersAppend(a, b');
    } else {
      assert a + b == a;
    }
  }

  /** The activity pool concatenates the entries' activity lists in entry order. */
  lemma {:induction false} AllActivitiesAppend(a: seq<MoodEntry>, b: seq<MoodEntry>)
    ensures AllActivities(a + b) == AllActivities(a) + AllActivities(b)
    decreases |b|
  {
    if b != [] {
      var b' := b[..|b| - 1];
      assert (a + b)[..|a + b| - 1] == a + b';
      AllActivitiesAppend(a, b');
    } else {
      assert a + b == a;
    }
  }

  /**
   * The trend with three or more entries follows the mean of the last three
   * intensities: above 0.7, below 0.3, or in between; with fewer entries it
   * is always the "keep logging" text.
   */
  lemma TrendThresholds(logs: seq<MoodEntry>)
    ensures |logs| < 3 ==> Trend(logs) == KEEP_LOGGING
    ensures |logs| >= 3 ==>
      var n := |logs|;
      var avg := (logs[n - 3].intensity + logs[n - 2].intensity + logs[n - 1].intensity) / 3.0;
      (Trend(logs) == HIGHER_INTENSITY <==> avg > 0.7) &&
      (Trend(logs) == MANAGING_WELL <==> avg < 0.3) &&
      (Trend(logs) == BALANCED <==> 0.3 <= avg <= 0.7)
  {
  }

  /** Nothing but the last three intensities and the length class affects the trend. */
  lemma TrendDependsOnlyOnRecent(l1: seq<MoodEntry>, l2: seq<MoodEntry>)
    requires |l1| >= 3 && |l2| >= 3
    requires l1[|l1| - 3].intensity == l2[|l2| - 3].intensity
    requires l1[|l1| - 2].intensity == l2[|l2| - 2].intensity
    requires l1[|l1| - 1].intensity == l2[|l2| - 1].intensity
    ensures Trend(l1) == Trend(l2)
  {
  }
}
