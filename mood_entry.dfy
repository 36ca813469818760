/** One mood journal record, as stored in the backing file. */
module MoodEntries {

  /**
   * A mood entry. `intensity` is conventionally in [0, 1] but is neither
   * validated nor clamped; it is an exact real here rather than a float.
   */
  datatype MoodEntry = MoodEntry(
    timestamp: string,
    emotionName: string,
    intensity: real,
    userInput: string,
    triggerNames: seq<string>,
    activityNames: seq<string>)
}
