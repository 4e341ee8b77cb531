/**
  The records the application passes between its parts: one spoken answer,
  the parsed analysis reply and the screen the application shows.
*/
module Types {

  /** One answered prompt: the stage label and the (trimmed) transcript. */
  datatype UserResponse = UserResponse(stage: string, transcript: string)

  /**
    One entry of the reply's `scores` object. The object is walked with
    `Object.entries`, and nothing checks which keys are present, so the model
    keeps the entries as an ordered list rather than three fixed fields. The
    list is the order `Object.entries` yields: integer-like keys first in
    ascending order, then the other keys in first-written order, a repeated
    key keeping its first position and its last value. Any such order is a
    list, so the model takes the list as given.
  */
  datatype ScoreEntry = ScoreEntry(key: string, value: int)

  /** One day of the improvement plan. */
  datatype RoadmapDay = RoadmapDay(day: int, task: string, whyItMatters: string)

  /** The parsed analysis reply. */
  datatype AnalysisResult = AnalysisResult(
    scores: seq<ScoreEntry>,
    pastMistakes: seq<string>,
    roadmap: seq<RoadmapDay>)

  /**
    What `JSON.parse` made of the cleaned reply: a falsy value that renders
    nothing (`null`, `false` or `""`; the application stores it and the
    result area stays empty) or a reply record.
  */
  datatype Parsed = Falsy | Record(result: AnalysisResult)

  /** The three top-level screens. */
  datatype AppState = HomeScreen | AssessmentScreen | ResultScreen
}
