/** The static self-care suggestion catalog (`get_suggestions_for_emotion`). */
module Suggestions {

  datatype Suggestion = Suggestion(title: string, content: string, kind: string)

  /** The emotion labels the catalog knows. */
  const KNOWN_EMOTIONS: set<string> :=
    {"anxious", "happy", "sad", "stressed", "calm", "angry", "excited", "tired"}

  /** Label used when the requested one is not in the catalog. */
  const FALLBACK_EMOTION := "anxious"

  const CATALOG: map<string, seq<Suggestion>> := map[
    "anxious" := [
      Suggestion("Box Breathing",
        "Breathe in for 4 seconds, hold for 4, out for 4, hold for 4. Repeat 5 times.", "breathing"),
      Suggestion("Progressive Muscle Relaxation",
        "Tense and release each muscle group, starting from your toes.", "exercise")],
    "happy" := [
      Suggestion("Gratitude Journal",
        "Write down 3 things you're grateful for today.", "journaling"),
      Suggestion("Share Your Joy",
        "Call a friend or family member and share what made you happy.", "social")],
    "sad" := [
      Suggestion("Self-Compassion Break",
        "Place your hand on your heart. Say: 'This is a moment of suffering. Suffering is part of life. May I be kind to myself.'", "affirmation"),
      Suggestion("Gentle Movement",
        "Take a short walk outside or do some light stretching.", "exercise")],
    "stressed" := [
      Suggestion("5-4-3-2-1 Grounding",
        "Name 5 things you see, 4 you can touch, 3 you hear, 2 you smell, 1 you taste.", "mindfulness"),
      Suggestion("Time Management",
        "Write down your top 3 priorities for today. Focus on one at a time.", "organization")],
    "calm" := [
      Suggestion("Mindful Meditation",
        "Sit quietly for 5 minutes, focusing on your breath.", "meditation"),
      Suggestion("Creative Expression",
        "Draw, write, or engage in any creative activity you enjoy.", "creative")],
    "angry" := [
      Suggestion("Physical Release",
        "Go for a brisk walk or do some physical exercise to release tension.", "exercise"),
      Suggestion("Cooling Breath",
        "Take deep breaths and count to 10 slowly before responding.", "breathing")],
    "excited" := [
      Suggestion("Channel Your Energy",
        "Use this positive energy to tackle a task you've been putting off.", "productivity"),
      Suggestion("Celebrate Mindfully",
        "Take a moment to savor this feeling and appreciate what led to it.", "mindfulness")],
    "tired" := [
      Suggestion("Power Nap",
        "Take a 15-20 minute nap to recharge your energy.", "rest"),
      Suggestion("Gentle Stretching",
        "Do some light stretches to wake up your body.", "exercise")]
  ]

  /** The catalog covers exactly the eight known emotions, two distinct suggestions each. */
  lemma CatalogShape()
    ensures CATALOG.Keys == KNOWN_EMOTIONS
    ensures forall e :: e in CATALOG ==> |CATALOG[e]| == 2 && CATALOG[e][0] != CATALOG[e][1]
  {
  }

  /**
   * Suggestions for `emotion`; `intensity` is accepted but not consulted.
   * Unknown labels get the fallback emotion's list.
   */
  function SuggestionsFor(emotion: string, intensity: real): (r: seq<Suggestion>)
    ensures |r| == 2
    ensures emotion in KNOWN_EMOTIONS ==> r == CATALOG[emotion]
    ensures emotion !in KNOWN_EMOTIONS ==> r == CATALOG[FALLBACK_EMOTION]
  {
    CatalogShape();
    if emotion in CATALOG then CATALOG[emotion] else CATALOG[FALLBACK_EMOTION]
  }

  /** Any label outside the catalog receives exactly the "anxious" suggestions. */
  lemma UnknownFallsBack(emotion: string, intensity: real, other: real)
    requires emotion !in KNOWN_EMOTIONS
    ensures SuggestionsFor(emotion, intensity) == SuggestionsFor("anxious", other)
  {
  }

  /** The intensity never changes the result. */
  lemma IntensityIgnored(emotion: string, i1: real, i2: real)
    ensures SuggestionsFor(emotion, i1) == SuggestionsFor(emotion, i2)
  {
  }
}
