/** The question and answer shapes that src/components/QuizEngine.jsx
    produces and the per-mode components of src/quizModes/ consume. */
module Questions {
  import opened Wrappers
  import opened Catalog
  import Modes

  /** A style offered as a choice (category match and description match). */
  datatype StyleOption = StyleOption(id: string, name: string, color: string, description: string, isCorrect: bool)

  /** A wine offered in the select-all question; `styleName`/`styleColor` fall
      back to "Unknown"/"#888" when the wine's style is not in the catalog. */
  datatype WineOption = WineOption(name: string, origin: string, styleName: string, styleColor: string, isCorrect: bool)

  /** A wine offered in the odd-one-out question. */
  datatype OddOption = OddOption(name: string, origin: string, styleId: string, styleName: string, isOdd: bool)

  /** A place offered in the origin question. */
  datatype OriginOption = OriginOption(origin: string, isCorrect: bool)

  datatype Question =
    | CategoryMatchQ(wine: TaggedWine, styleOptions: seq<StyleOption>, correctAnswer: string, hint: string)
    | WineSelectionQ(style: Style, wineOptions: seq<WineOption>, correctWines: seq<string>,
                     correctCount: nat, hint: string)
    | QuickFireQ(statement: string, isTrue: bool, wine: TaggedWine, correctStyle: Option<Style>, hint: string)
    | DescriptionMatchQ(description: string, style: Style, styleOptions: seq<StyleOption>,
                        correctAnswer: string, hint: string)
    | OddOneOutQ(oddOptions: seq<OddOption>, oddWine: string, mainStyle: Style, oddStyle: Style, hint: string)
    | OriginMatchQ(wine: TaggedWine, originOptions: seq<OriginOption>, correctOrigins: seq<string>, hint: string)

  /** The `mode` tag each question carries. */
  function ModeOf(q: Question): string
  {
    match q
    case CategoryMatchQ(_, _, _, _) => Modes.CategoryMatch
    case WineSelectionQ(_, _, _, _, _) => Modes.WineSelection
    case QuickFireQ(_, _, _, _, _) => Modes.QuickFire
    case DescriptionMatchQ(_, _, _, _, _) => Modes.DescriptionMatch
    case OddOneOutQ(_, _, _, _, _) => Modes.OddOneOut
    case OriginMatchQ(_, _, _, _) => Modes.OriginMatch
  }

  /** What the player gave: a chosen id, name or place; the selected wine
      names; a yes/no verdict; or nothing, when the QuickFire timer ran out. */
  datatype Answer = Picked(choice: string) | Selected(names: seq<string>) | Verdict(yes: bool) | NoAnswer

  /** The details object passed with an answer; an absent key is `None`. */
  datatype Details = Details(
    wineName: Option<string>,
    categoryId: Option<string>,
    selectedCategory: Option<string>,
    explanation: string)

  /** One `onAnswer(answer, isCorrect, details)` call. */
  datatype Report = Report(answer: Answer, isCorrect: bool, details: Details)
}
