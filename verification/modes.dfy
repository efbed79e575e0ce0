/** The quiz-mode identifiers the settings store and the question engine
    share. `pronunciation` is one of them, although no question generator
    exists for it. */
module Modes {

  const CategoryMatch: string := "category-match"
  const WineSelection: string := "wine-selection"
  const Pronunciation: string := "pronunciation"
  const QuickFire: string := "quick-fire"
  const DescriptionMatch: string := "description-match"
  const OddOneOut: string := "odd-one-out"
  const OriginMatch: string := "origin-match"

  /** The modes enabled in a fresh progress record, in settings order. */
  const DefaultEnabled: seq<string> :=
    [CategoryMatch, WineSelection, Pronunciation, QuickFire, DescriptionMatch, OddOneOut, OriginMatch]

  /** The modes the question engine can generate a question for. */
  predicate HasGenerator(mode: string) {
    mode == CategoryMatch || mode == WineSelection || mode == QuickFire
    || mode == DescriptionMatch || mode == OddOneOut || mode == OriginMatch
  }
}
