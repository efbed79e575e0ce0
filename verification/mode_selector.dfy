/** The quiz configuration screen of src/components/QuizModeSelector.jsx:
    toggling modes and categories, the two select-all buttons, and the
    start condition. */
module ModeSelector {
  import opened Seqs
  import opened Catalog

  /** The selections the screen edits, and its local select-all flag. */
  datatype Selector = Selector(modes: seq<string>, categories: seq<string>, selectAll: bool)

  /** The flag starts set exactly when as many modes are selected as enabled. */
  function Mount(enabledModes: seq<string>, modes: seq<string>, categories: seq<string>): (r: Selector)
    ensures r.selectAll <==> |modes| == |enabledModes|
    ensures r.modes == modes && r.categories == categories
  {
    Selector(modes, categories, |modes| == |enabledModes|)
  }

  /** `handleModeToggle`: drop a selected mode, append an unselected one; the
      select-all flag is left as it was. */
  function ToggleMode(s: Selector, mode: string): (r: Selector)
    ensures mode in r.modes <==> mode !in s.modes
    ensures forall m :: m != mode ==> (m in r.modes <==> m in s.modes)
    ensures mode !in s.modes ==> r.modes == s.modes + [mode]
    ensures r.categories == s.categories && r.selectAll == s.selectAll
  {
    s.(modes := Toggle(s.modes, mode))
  }

  /** `handleCategoryToggle`: the same toggle on the category list. */
  function ToggleCategory(s: Selector, id: string): (r: Selector)
    ensures id in r.categories <==> id !in s.categories
    ensures forall c :: c != id ==> (c in r.categories <==> c in s.categories)
    ensures id !in s.categories ==> r.categories == s.categories + [id]
    ensures r.modes == s.modes && r.selectAll == s.selectAll
  {
    s.(categories := Toggle(s.categories, id))
  }

  /** `handleSelectAllModes`: clear the modes when the flag is set, otherwise
      select every enabled mode; then flip the flag. */
  function SelectAllModes(s: Selector, enabledModes: seq<string>): (r: Selector)
    ensures s.selectAll ==> r.modes == []
    ensures !s.selectAll ==> r.modes == enabledModes
    ensures r.selectAll == !s.selectAll && r.categories == s.categories
  {
    Selector(if s.selectAll then [] else enabledModes, s.categories, !s.selectAll)
  }

  function CategoryIds(styles: seq<Style>): (r: seq<string>)
    ensures |r| == |styles|
    ensures forall i :: 0 <= i < |styles| ==> r[i] == styles[i].id
  {
    seq(|styles|, i requires 0 <= i < |styles| => styles[i].id)
  }

  /** `handleSelectAllCategories`: clear the categories when as many are
      selected as the catalog has (a count, not a comparison of ids),
      otherwise select every category id in catalog order. */
  function SelectAllCategories(s: Selector, styles: seq<Style>): (r: Selector)
    ensures |s.categories| == |styles| ==> r.categories == []
    ensures |s.categories| != |styles| ==> r.categories == CategoryIds(styles)
    ensures r.modes == s.modes && r.selectAll == s.selectAll
  {
    s.(categories := if |s.categories| == |styles| then [] else CategoryIds(styles))
  }

  /** `canStart`. */
  predicate CanStart(s: Selector) {
    |s.modes| > 0 && |s.categories| > 0
  }

  /** Toggling the same mode twice restores which modes are selected. */
  lemma ToggleModeTwice(s: Selector, mode: string)
    ensures forall m :: m in ToggleMode(ToggleMode(s, mode), mode).modes <==> m in s.modes
  {
  }

  /** Two presses of select-all modes restore the flag, and from a set flag
      end with every enabled mode selected. */
  lemma SelectAllModesTwice(s: Selector, enabledModes: seq<string>)
    ensures SelectAllModes(SelectAllModes(s, enabledModes), enabledModes).selectAll == s.selectAll
    ensures s.selectAll ==> SelectAllModes(SelectAllModes(s, enabledModes), enabledModes).modes == enabledModes
  {
  }

  /** After a select-all of categories that selected them, the next press
      clears them; with a non-empty catalog the first press enables starting
      whenever a mode is selected. */
  lemma SelectAllCategoriesToggles(s: Selector, styles: seq<Style>)
    requires |s.categories| != |styles|
    ensures SelectAllCategories(SelectAllCategories(s, styles), styles).categories == []
    ensures |styles| > 0 && |s.modes| > 0 ==> CanStart(SelectAllCategories(s, styles))
  {
  }

  /** Starting needs a mode and a category: clearing either list blocks it. */
  lemma ClearedSelectionCannotStart(s: Selector, enabledModes: seq<string>)
    requires s.selectAll
    ensures !CanStart(SelectAllModes(s, enabledModes))
  {
  }
}
