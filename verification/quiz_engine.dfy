/** Question generation, session assembly and the score/advance state of
    src/components/QuizEngine.jsx. Every `Math.random` the generators reach
    is an explicit draw in a `Draws` record. Where the component would throw
    (a property read on `undefined`) the generator yields `None`. */
module QuizEngine {
  import opened Wrappers
  import opened Seqs
  import opened Text
  import opened Sampler
  import opened Catalog
  import opened Questions
  import Modes

  /** The number of choices a question offers. */
  type OptionCount = n: int | 3 <= n <= 5 witness 3

  /** `optionCount`: 3 for "easy", 5 for "hard", 4 for anything else. */
  function GetOptionCount(difficulty: string): (n: OptionCount)
    ensures n == 3 <==> difficulty == "easy"
    ensures n == 5 <==> difficulty == "hard"
    ensures n == 4 <==> difficulty != "easy" && difficulty != "hard"
  {
    if difficulty == "easy" then 3 else if difficulty == "hard" then 5 else 4
  }

  /** `filteredStyles`: every style when no category is selected, otherwise
      the selected ones in catalog order; nothing before the catalog loads. */
  function FilteredStyles(data: Option<Catalog>, selected: seq<string>): (r: seq<Style>)
    ensures data.None? ==> r == []
    ensures data.Some? && |selected| == 0 ==> r == data.value.styles
    ensures data.Some? && |selected| > 0 ==>
              (forall s :: s in r <==> s in data.value.styles && s.id in selected)
              && |r| == Count(data.value.styles, (s: Style) => s.id in selected)
              && IsSubseq(r, data.value.styles)
  {
    match data
    case None => []
    case Some(c) =>
      if |selected| == 0 then c.styles
      else
        FilterMembers(c.styles, (s: Style) => s.id in selected);
        FilterSubseq(c.styles, (s: Style) => s.id in selected);
        Filter(c.styles, (s: Style) => s.id in selected)
  }

  /** The random draws one question may consume: up to three single picks,
      one coin, the oracle of one `getRandomItems` and of one final shuffle. */
  datatype Draws = Draws(first: nat, second: nat, third: nat, coin: bool, sample: seq<nat>, order: seq<nat>)

  const NoDraws: Draws := Draws(0, 0, 0, false, [], [])

  function StyleOpt(s: Style, correct: bool): StyleOption {
    StyleOption(s.id, s.name, s.color, s.description, correct)
  }

  function IsCorrectStyle(o: StyleOption): bool { o.isCorrect }

  function StyleOptionId(o: StyleOption): string { o.id }

  function StyleId(s: Style): string { s.id }

  /** Catalog style ids are told apart by their ids. */
  predicate UniqueStyleIds(styles: seq<Style>) {
    UniqueBy(styles, StyleId)
  }

  /** Exactly one option is marked correct, and it is the one whose id is `answer`. */
  predicate OneCorrect(options: seq<StyleOption>, answer: string) {
    && Count(options, IsCorrectStyle) == 1
    && (forall o :: o in options ==> (o.isCorrect <==> o.id == answer))
  }

  /** `getRandomItems(allStyles.filter(s => s.id !== id), optionCount - 1)`. */
  function Distractors(id: string, allStyles: seq<Style>, optionCount: OptionCount, d: Draws): (r: seq<Style>)
    ensures forall s :: s in r ==> s in allStyles && s.id != id
    ensures |r| <= optionCount - 1
    ensures var pool := Count(allStyles, OtherStyle(id));
            |r| == if optionCount - 1 < pool then optionCount - 1 else pool
  {
    var others := Filter(allStyles, OtherStyle(id));
    var r := GetRandomItems(others, optionCount - 1, d.sample);
    InSubMultiset(r, others);
    FilterMembers(allStyles, OtherStyle(id));
    r
  }

  function OtherStyle(id: string): Style -> bool {
    (s: Style) => s.id != id
  }

  /** Distinct catalog ids give distinct distractors. */
  lemma DistractorsUnique(id: string, allStyles: seq<Style>, optionCount: OptionCount, d: Draws)
    requires UniqueStyleIds(allStyles)
    ensures UniqueBy(Distractors(id, allStyles, optionCount, d), StyleId)
  {
    FilterUniqueBy(allStyles, OtherStyle(id), StyleId);
    SubMultisetUniqueBy(Distractors(id, allStyles, optionCount, d), Filter(allStyles, OtherStyle(id)), StyleId);
  }

  /** The unshuffled options: the correct style first, then the distractors. */
  function StyleOptionsOf(correct: Style, distractors: seq<Style>): (r: seq<StyleOption>)
    requires forall s :: s in distractors ==> s.id != correct.id
    ensures |r| == 1 + |distractors|
    ensures r[0] == StyleOpt(correct, true)
    ensures forall i :: 0 <= i < |distractors| ==> r[i + 1] == StyleOpt(distractors[i], false)
    ensures OneCorrect(r, correct.id)
    ensures forall o :: o in r && !o.isCorrect ==> exists s :: s in distractors && o == StyleOpt(s, false)
  {
    var wrong := seq(|distractors|, i requires 0 <= i < |distractors| => StyleOpt(distractors[i], false));
    var r := [StyleOpt(correct, true)] + wrong;
    CountNone(wrong, IsCorrectStyle);
    assert r[1..] == wrong;
    assert forall o :: o in wrong ==> !o.isCorrect && o.id != correct.id;
    forall o | o in r && !o.isCorrect ensures exists s :: s in distractors && o == StyleOpt(s, false) {
      var i :| 0 <= i < |wrong| && wrong[i] == o;
      assert distractors[i] in distractors;
    }
    r
  }

  /** Shuffling keeps exactly-one-correct. */
  lemma ShuffleOneCorrect(options: seq<StyleOption>, answer: string, rs: seq<nat>)
    requires OneCorrect(options, answer)
    ensures OneCorrect(Shuffle(options, rs), answer)
  {
    var r := Shuffle(options, rs);
    CountPermutation(r, options, IsCorrectStyle);
    assert forall o :: o in r ==> o in multiset(options);
  }

  /** The choices of a style question: the correct style plus
      `getRandomItems(other styles, optionCount - 1)`, shuffled. */
  function StyleChoices(correct: Style, allStyles: seq<Style>, optionCount: OptionCount, d: Draws): (r: seq<StyleOption>)
    ensures OneCorrect(r, correct.id)
    ensures StyleOpt(correct, true) in r
    ensures |r| <= optionCount
    ensures var pool := Count(allStyles, OtherStyle(correct.id));
            |r| == if optionCount < 1 + pool then optionCount else 1 + pool
    ensures forall o :: o in r && !o.isCorrect ==> exists s :: s in allStyles && s.id != correct.id && o == StyleOpt(s, false)
  {
    var distractors := Distractors(correct.id, allStyles, optionCount, d);
    var all := StyleOptionsOf(correct, distractors);
    var r := Shuffle(all, d.order);
    ShuffleOneCorrect(all, correct.id, d.order);
    ShuffleMembers(all, d.order);
    assert all[0] in all;
    assert |r| == 1 + |distractors|;
    r
  }

  /** With unique catalog ids the offered styles are all different. */
  lemma StyleChoicesUnique(correct: Style, allStyles: seq<Style>, optionCount: OptionCount, d: Draws)
    requires UniqueStyleIds(allStyles)
    ensures UniqueBy(StyleChoices(correct, allStyles, optionCount, d), StyleOptionId)
  {
    var distractors := Distractors(correct.id, allStyles, optionCount, d);
    var all := StyleOptionsOf(correct, distractors);
    DistractorsUnique(correct.id, allStyles, optionCount, d);
    assert UniqueBy(all, StyleOptionId) by {
      forall i, j | 0 <= i < j < |all| ensures all[i].id != all[j].id {
        if i == 0 {
          assert all[j] == StyleOpt(distractors[j - 1], false);
          assert distractors[j - 1] in distractors;
        } else {
          assert StyleId(distractors[i - 1]) != StyleId(distractors[j - 1]);
        }
      }
    }
    SubMultisetUniqueBy(Shuffle(all, d.order), all, StyleOptionId);
  }

  /** `generateCategoryMatchQuestion`: a random wine, its own style as the
      answer, and distractor styles; `None` when there is no wine or its style
      is not in the catalog. */
  function GenerateCategoryMatch(allWines: seq<TaggedWine>, allStyles: seq<Style>, optionCount: OptionCount, d: Draws)
    : (r: Option<Question>)
    ensures |allWines| == 0 ==> r.None?
    ensures r.Some? ==> r.value.CategoryMatchQ?
    ensures r.Some? ==> var q := r.value;
              && q.wine in allWines
              && q.correctAnswer == q.wine.styleId
              && OneCorrect(q.styleOptions, q.correctAnswer)
              && |q.styleOptions| <= optionCount
              && q.hint == "This wine originates from " + q.wine.origin + "."
    ensures |allWines| > 0 && (forall w :: w in allWines ==> FindStyle(allStyles, w.styleId).Some?) ==> r.Some?
  {
    match GetRandomItem(allWines, d.first)
    case None => None
    case Some(wine) =>
      match FindStyle(allStyles, wine.styleId)
      case None => None
      case Some(correct) =>
        Some(CategoryMatchQ(wine, StyleChoices(correct, allStyles, optionCount, d), correct.id,
                            "This wine originates from " + wine.origin + "."))
  }

  /** A style question offers its answer and `optionCount - 1` other
      catalog styles, or every other style when there are fewer. */
  lemma CategoryMatchSize(allWines: seq<TaggedWine>, allStyles: seq<Style>, optionCount: OptionCount, d: Draws)
    ensures var r := GenerateCategoryMatch(allWines, allStyles, optionCount, d);
            r.Some? ==> var pool := Count(allStyles, OtherStyle(r.value.correctAnswer));
                        |r.value.styleOptions| == if optionCount < 1 + pool then optionCount else 1 + pool
  {
    match GetRandomItem(allWines, d.first)
    case None =>
    case Some(wine) =>
      match FindStyle(allStyles, wine.styleId)
      case None =>
      case Some(correct) =>
        var choices := StyleChoices(correct, allStyles, optionCount, d);
        assert GenerateCategoryMatch(allWines, allStyles, optionCount, d)
            == Some(CategoryMatchQ(wine, choices, correct.id, "This wine originates from " + wine.origin + "."));
  }

  function WineName(w: Wine): string { w.name }

  /** `generateDescriptionMatchQuestion`: a random filtered style's description,
      that style as the answer, and distractor styles. */
  function GenerateDescriptionMatch(filtered: seq<Style>, allStyles: seq<Style>, optionCount: OptionCount, d: Draws)
    : (r: Option<Question>)
    ensures r.None? <==> |filtered| == 0
    ensures r.Some? ==> r.value.DescriptionMatchQ?
    ensures r.Some? ==> var q := r.value;
              && q.style in filtered
              && q.description == q.style.description
              && q.correctAnswer == q.style.id
              && OneCorrect(q.styleOptions, q.correctAnswer)
              && |q.styleOptions| <= optionCount
              && q.hint == "Examples of this style include "
                           + Join(Map(q.style.wines[..if |q.style.wines| < 2 then |q.style.wines| else 2], WineName), ", ") + "."
  {
    match GetRandomItem(filtered, d.first)
    case None => None
    case Some(style) =>
      var examples := Join(Map(style.wines[..if |style.wines| < 2 then |style.wines| else 2], WineName), ", ");
      Some(DescriptionMatchQ(style.description, style, StyleChoices(style, allStyles, optionCount, d), style.id,
                             "Examples of this style include " + examples + "."))
  }

  /** The same option count for a description question. */
  lemma DescriptionMatchSize(filtered: seq<Style>, allStyles: seq<Style>, optionCount: OptionCount, d: Draws)
    ensures var r := GenerateDescriptionMatch(filtered, allStyles, optionCount, d);
            r.Some? ==> var pool := Count(allStyles, OtherStyle(r.value.correctAnswer));
                        |r.value.styleOptions| == if optionCount < 1 + pool then optionCount else 1 + pool
  {
    match GetRandomItem(filtered, d.first)
    case None =>
    case Some(style) =>
      var choices := StyleChoices(style, allStyles, optionCount, d);
      assert GenerateDescriptionMatch(filtered, allStyles, optionCount, d).value.styleOptions == choices;
  }

  function IsCorrectWine(o: WineOption): bool { o.isCorrect }

  function IsWrongWine(o: WineOption): bool { !o.isCorrect }

  function NotOfStyle(id: string): TaggedWine -> bool {
    (w: TaggedWine) => w.styleId != id
  }

  /** An option for a wine of the asked style. */
  function RightWineOpt(w: Wine, style: Style): WineOption {
    WineOption(w.name, w.origin, style.name, style.color, true)
  }

  /** An option for a wine of another style: `wineStyle?.name || 'Unknown'`
      and `wineStyle?.color || '#888'`. */
  function WrongWineOpt(w: TaggedWine, allStyles: seq<Style>): (o: WineOption)
    ensures o.name == w.name && !o.isCorrect
  {
    match FindStyle(allStyles, w.styleId)
    case Some(s) =>
      WineOption(w.name, w.origin, if s.name != "" then s.name else "Unknown",
                 if s.color != "" then s.color else "#888", false)
    case None => WineOption(w.name, w.origin, "Unknown", "#888", false)
  }

  function OptionName(o: WineOption): string { o.name }

  /** One correct option per wine of the style, in catalog order. */
  function RightOptions(style: Style): (r: seq<WineOption>)
    ensures |r| == |style.wines|
    ensures Count(r, IsWrongWine) == 0
    ensures forall o :: o in r ==> o.isCorrect && exists w :: w in style.wines && w.name == o.name
    ensures forall w :: w in style.wines ==> RightWineOpt(w, style) in r
  {
    var r := seq(|style.wines|, i requires 0 <= i < |style.wines| => RightWineOpt(style.wines[i], style));
    CountNone(r, IsWrongWine);
    forall o | o in r ensures o.isCorrect && exists w :: w in style.wines && w.name == o.name {
      var i :| 0 <= i < |r| && r[i] == o;
      assert style.wines[i] in style.wines;
    }
    forall w | w in style.wines ensures RightWineOpt(w, style) in r {
      var i :| 0 <= i < |style.wines| && style.wines[i] == w;
      assert r[i] == RightWineOpt(w, style);
    }
    r
  }

  /** One wrong option per sampled wine, in sample order. */
  function WrongOptions(sample: seq<TaggedWine>, allStyles: seq<Style>): (r: seq<WineOption>)
    ensures |r| == |sample|
    ensures Count(r, IsWrongWine) == |sample|
    ensures forall o :: o in r ==> !o.isCorrect && exists w :: w in sample && w.name == o.name
  {
    var r := seq(|sample|, i requires 0 <= i < |sample| => WrongWineOpt(sample[i], allStyles));
    CountAll(r, IsWrongWine);
    forall o | o in r ensures !o.isCorrect && exists w :: w in sample && w.name == o.name {
      var i :| 0 <= i < |r| && r[i] == o;
      assert sample[i] in sample;
    }
    r
  }

  /** The unshuffled select-all options: every wine of the style, then the
      sampled wines of other styles. */
  function SelectionOptions(style: Style, sample: seq<TaggedWine>, allStyles: seq<Style>): (r: seq<WineOption>)
    ensures |r| == |style.wines| + |sample|
    ensures Count(r, IsWrongWine) == |sample|
    ensures forall o :: o in r && o.isCorrect ==> exists w :: w in style.wines && w.name == o.name
    ensures forall o :: o in r && !o.isCorrect ==> exists w :: w in sample && w.name == o.name
    ensures forall w :: w in style.wines ==> RightWineOpt(w, style) in r
  {
    var right := RightOptions(style);
    var wrong := WrongOptions(sample, allStyles);
    CountAppend(right, wrong, IsWrongWine);
    right + wrong
  }

  /** The options of a wine-selection question: all the style's wines and
      up to four wines of other styles, shuffled and cut to eight. */
  function ShownOptions(style: Style, allWines: seq<TaggedWine>, allStyles: seq<Style>, d: Draws)
    : (options: seq<WineOption>)
    ensures |options| <= 8
    ensures Count(options, IsWrongWine) <= 4
    ensures forall o :: o in options && o.isCorrect ==> exists w :: w in style.wines && w.name == o.name
    ensures forall o :: o in options && !o.isCorrect ==>
              exists w :: w in allWines && w.styleId != style.id && w.name == o.name
    ensures var others := Count(allWines, NotOfStyle(style.id));
            var total := |style.wines| + (if others < 4 then others else 4);
            |options| == if total < 8 then total else 8
    ensures var others := Count(allWines, NotOfStyle(style.id));
            |style.wines| + (if others < 4 then others else 4) <= 8 ==>
              forall w :: w in style.wines ==> RightWineOpt(w, style) in options
  {
    var others := Filter(allWines, NotOfStyle(style.id));
    var sample := GetRandomItems(others, Min(4, |others|), d.sample);
    var all := SelectionOptions(style, sample, allStyles);
    var shuffled := Shuffle(all, d.order);
    var options := SliceTo(shuffled, 8);
    SelectionShown(style, all, d.order, options);
    CountPrefix(shuffled, |options|, IsWrongWine);
    CountPermutation(shuffled, all, IsWrongWine);
    PrefixMembers(all, shuffled, options);
    FilterMembers(allWines, NotOfStyle(style.id));
    InSubMultiset(sample, others);
    options
  }

  /** `generateWineSelectionQuestion`: a random filtered style and its shown
      options; only the correct wines that survive the cut are expected. */
  function GenerateWineSelection(allWines: seq<TaggedWine>, filtered: seq<Style>, allStyles: seq<Style>, d: Draws)
    : (r: Option<Question>)
    ensures r.None? <==> |filtered| == 0
    ensures r.Some? ==> r.value.WineSelectionQ?
    ensures r.Some? ==> var q := r.value;
              && q.style in filtered
              && |q.wineOptions| <= 8
              && Count(q.wineOptions, IsWrongWine) <= 4
              && q.correctCount == |q.correctWines| == Count(q.wineOptions, IsCorrectWine)
              && (forall n :: n in q.correctWines <==> exists o :: o in q.wineOptions && o.isCorrect && o.name == n)
              && (forall o :: o in q.wineOptions && o.isCorrect ==> exists w :: w in q.style.wines && w.name == o.name)
              && (forall o :: o in q.wineOptions && !o.isCorrect ==>
                    exists w :: w in allWines && w.styleId != q.style.id && w.name == o.name)
              && q.hint == Split(q.style.description, '.')[0] + "."
    ensures r.Some? ==> r.value.wineOptions == ShownOptions(r.value.style, allWines, allStyles, d)
    ensures r.Some? ==> var q := r.value;
              forall w :: w in q.style.wines && RightWineOpt(w, q.style) in q.wineOptions ==> w.name in q.correctWines
  {
    match GetRandomItem(filtered, d.first)
    case None => None
    case Some(style) =>
      var options := ShownOptions(style, allWines, allStyles, d);
      var correctOptions := Filter(options, IsCorrectWine);
      var correctWines := Map(correctOptions, OptionName);
      CorrectNames(options, correctOptions, correctWines);
      ExpectedNames(style, options, correctWines);
      Some(WineSelectionQ(style, options, correctWines, |correctWines|, Split(style.description, '.')[0] + "."))
  }

  /** Cutting the shuffled options at eight keeps them all when they fit. */
  lemma SelectionShown(style: Style, all: seq<WineOption>, order: seq<nat>, options: seq<WineOption>)
    requires options == SliceTo(Shuffle(all, order), 8)
    requires forall w :: w in style.wines ==> RightWineOpt(w, style) in all
    ensures |options| == if |all| < 8 then |all| else 8
    ensures |all| <= 8 ==> forall w :: w in style.wines ==> RightWineOpt(w, style) in options
  {
    ShuffleMembers(all, order);
    assert |all| <= 8 ==> options == Shuffle(all, order);
  }

  /** A shown wine of the asked style is among the expected names. */
  lemma ExpectedNames(style: Style, options: seq<WineOption>, correctWines: seq<string>)
    requires forall n :: n in correctWines <==> exists o :: o in options && o.isCorrect && o.name == n
    ensures forall w :: w in style.wines && RightWineOpt(w, style) in options ==> w.name in correctWines
  {
    forall w | w in style.wines && RightWineOpt(w, style) in options ensures w.name in correctWines {
      var o := RightWineOpt(w, style);
      assert o in options && o.isCorrect && o.name == w.name;
    }
  }

  lemma PrefixMembers(all: seq<WineOption>, shuffled: seq<WineOption>, options: seq<WineOption>)
    requires multiset(shuffled) == multiset(all)
    requires |options| <= |shuffled| && options == shuffled[..|options|]
    ensures forall o :: o in options ==> o in all
  {
    assert forall o :: o in options ==> o in shuffled;
    assert forall o :: o in shuffled ==> o in multiset(all);
  }

  lemma CorrectNames(options: seq<WineOption>, correctOptions: seq<WineOption>, correctWines: seq<string>)
    requires correctOptions == Filter(options, IsCorrectWine)
    requires correctWines == Map(correctOptions, OptionName)
    ensures forall n :: n in correctWines <==> exists o :: o in options && o.isCorrect && o.name == n
  {
    FilterMembers(options, IsCorrectWine);
    forall n | n in correctWines ensures exists o :: o in options && o.isCorrect && o.name == n {
      var i :| 0 <= i < |correctWines| && correctWines[i] == n;
      assert correctOptions[i] in correctOptions;
    }
    forall n | exists o :: o in options && o.isCorrect && o.name == n ensures n in correctWines {
      var o :| o in options && o.isCorrect && o.name == n;
      assert o in correctOptions;
      var i :| 0 <= i < |correctOptions| && correctOptions[i] == o;
      assert correctWines[i] == n;
    }
  }

  /** `${wine.name} is a ${style.name.toLowerCase().replace(' wine', '')}`. */
  function StatementFor(wine: TaggedWine, style: Style): string {
    wine.name + " is a " + ReplaceFirst(Lower(style.name), " wine", "")
  }

  /** `generateQuickFireQuestion`: the coin (`Math.random() > 0.5`) decides
      between a true statement naming the wine's own style and a false one
      naming a different style. */
  function GenerateQuickFire(allWines: seq<TaggedWine>, allStyles: seq<Style>, d: Draws): (r: Option<Question>)
    ensures |allWines| == 0 ==> r.None?
    ensures r.Some? ==> r.value.QuickFireQ?
    ensures r.Some? ==> var q := r.value;
              && q.wine in allWines
              && q.isTrue == d.coin
              && q.correctStyle == FindStyle(allStyles, q.wine.styleId)
              && (q.isTrue ==> q.correctStyle.Some? && q.statement == StatementFor(q.wine, q.correctStyle.value))
              && (!q.isTrue ==> exists s :: s in allStyles && s.id != q.wine.styleId && q.statement == StatementFor(q.wine, s))
              && q.hint == "Think about wines from " + q.wine.origin + "."
    ensures |allWines| > 0 && (forall w :: w in allWines ==> FindStyle(allStyles, w.styleId).Some?) &&
              (d.coin || (forall w :: w in allWines ==> exists s :: s in allStyles && s.id != w.styleId)) ==>
              r.Some?
  {
    match GetRandomItem(allWines, d.first)
    case None => None
    case Some(wine) =>
      var correctStyle := FindStyle(allStyles, wine.styleId);
      var hint := "Think about wines from " + wine.origin + ".";
      if d.coin then
        match correctStyle
        case None => None
        case Some(cs) => Some(QuickFireQ(StatementFor(wine, cs), true, wine, correctStyle, hint))
      else
        var wrongStyles := Filter(allStyles, OtherStyle(wine.styleId));
        FilterMembers(allStyles, OtherStyle(wine.styleId));
        match GetRandomItem(wrongStyles, d.second)
        case None => None
        case Some(wrong) => Some(QuickFireQ(StatementFor(wine, wrong), false, wine, correctStyle, hint))
  }

  function HasThreeWines(s: Style): bool { |s.wines| >= 3 }

  function IsOdd(o: OddOption): bool { o.isOdd }

  function MainOpt(w: Wine, s: Style): OddOption { OddOption(w.name, w.origin, s.id, s.name, false) }

  function OddOpt(w: Wine, s: Style): OddOption { OddOption(w.name, w.origin, s.id, s.name, true) }

  const OddOneOutHint: string :=
    "Three wines share the same style category. Look for the one from a different category."

  /** The unshuffled odd-one-out options: three wines of the main style, then the odd wine. */
  function OddOptions(mainWines: seq<Wine>, main: Style, odd: Wine, oddStyle: Style): (r: seq<OddOption>)
    ensures |r| == |mainWines| + 1
    ensures Count(r, IsOdd) == 1
    ensures forall o :: o in r && o.isOdd ==> o == OddOpt(odd, oddStyle)
    ensures forall o :: o in r && !o.isOdd ==> o.styleId == main.id && Wine(o.name, o.origin) in mainWines
  {
    var mains := seq(|mainWines|, i requires 0 <= i < |mainWines| => MainOpt(mainWines[i], main));
    CountNone(mains, IsOdd);
    CountAppend(mains, [OddOpt(odd, oddStyle)], IsOdd);
    assert forall o :: o in mains ==> !o.isOdd && o.styleId == main.id && Wine(o.name, o.origin) in mainWines;
    mains + [OddOpt(odd, oddStyle)]
  }

  /** The odd-one-out question once its styles and wines are drawn. */
  function BuildOddOneOut(main: Style, mainWines: seq<Wine>, oddStyle: Style, odd: Wine, order: seq<nat>): (q: Question)
    requires |mainWines| == 3 && odd in oddStyle.wines
    requires forall w :: w in mainWines ==> w in main.wines
    ensures q.OddOneOutQ? && q.mainStyle == main && q.oddStyle == oddStyle
    ensures |q.oddOptions| == 4
    ensures Count(q.oddOptions, IsOdd) == 1
    ensures forall o :: o in q.oddOptions && o.isOdd ==>
              o.name == q.oddWine && o.styleId == oddStyle.id && Wine(o.name, o.origin) in oddStyle.wines
    ensures forall o :: o in q.oddOptions && !o.isOdd ==> o.styleId == main.id && Wine(o.name, o.origin) in main.wines
    ensures q.hint == OddOneOutHint
  {
    var all := OddOptions(mainWines, main, odd, oddStyle);
    var options := Shuffle(all, order);
    CountPermutation(options, all, IsOdd);
    ShuffleMembers(all, order);
    assert forall o :: o in options ==> o in all;
    OddOneOutQ(options, odd.name, main, oddStyle, OddOneOutHint)
  }

  /** `generateOddOneOutQuestion`: three wines of a style with at least three
      wines, and one wine of another filtered style. */
  function GenerateOddOneOut(filtered: seq<Style>, d: Draws): (r: Option<Question>)
    ensures (forall s :: s in filtered ==> |s.wines| < 3) ==> r.None?
    ensures r.Some? ==> r.value.OddOneOutQ?
    ensures r.Some? ==> var q := r.value;
              && q.mainStyle in filtered && |q.mainStyle.wines| >= 3
              && q.oddStyle in filtered && q.oddStyle.id != q.mainStyle.id
              && |q.oddOptions| == 4
              && Count(q.oddOptions, IsOdd) == 1
              && (forall o :: o in q.oddOptions && o.isOdd ==>
                    o.name == q.oddWine && o.styleId == q.oddStyle.id && Wine(o.name, o.origin) in q.oddStyle.wines)
              && (forall o :: o in q.oddOptions && !o.isOdd ==>
                    o.styleId == q.mainStyle.id && Wine(o.name, o.origin) in q.mainStyle.wines)
              && q.hint == OddOneOutHint
  {
    var candidates := Filter(filtered, HasThreeWines);
    FilterMembers(filtered, HasThreeWines);
    match GetRandomItem(candidates, d.first)
    case None => None
    case Some(main) =>
      var mainWines := GetRandomItems(main.wines, 3, d.sample);
      var otherStyles := Filter(filtered, OtherStyle(main.id));
      FilterMembers(filtered, OtherStyle(main.id));
      match GetRandomItem(otherStyles, d.second)
      case None => None
      case Some(oddStyle) =>
        match GetRandomItem(oddStyle.wines, d.third)
        case None => None
        case Some(odd) =>
          InSubMultiset(mainWines, main.wines);
          Some(BuildOddOneOut(main, mainWines, oddStyle, odd, d.order))
  }

  /** Only the two guards of the source, or an odd style without wines (where
      the source would throw), leave odd-one-out without a question. */
  lemma OddOneOutNone(filtered: seq<Style>, d: Draws)
    requires GenerateOddOneOut(filtered, d).None?
    ensures || (forall s :: s in filtered ==> |s.wines| < 3)
            || (exists s :: s in filtered && |s.wines| >= 3 && forall t :: t in filtered ==> t.id == s.id)
            || (exists t :: t in filtered && |t.wines| == 0)
  {
    var candidates := Filter(filtered, HasThreeWines);
    FilterMembers(filtered, HasThreeWines);
    if |candidates| > 0 {
      var main := GetRandomItem(candidates, d.first).value;
      var otherStyles := Filter(filtered, OtherStyle(main.id));
      FilterMembers(filtered, OtherStyle(main.id));
      if |otherStyles| == 0 {
        assert forall t :: t in filtered ==> t.id == main.id;
      } else {
        var oddStyle := GetRandomItem(otherStyles, d.second).value;
        assert |oddStyle.wines| == 0;
      }
    }
  }

  function NotAmong(xs: seq<string>): string -> bool {
    (o: string) => o !in xs
  }

  function OriginOptions(origins: seq<string>, correct: bool): (r: seq<OriginOption>)
    ensures |r| == |origins|
    ensures forall i :: 0 <= i < |r| ==> r[i] == OriginOption(origins[i], correct)
  {
    seq(|origins|, i requires 0 <= i < |origins| => OriginOption(origins[i], correct))
  }

  /** The unshuffled origin options: every correct place, then the sampled wrong ones. */
  function PlaceOptions(correct: seq<string>, wrong: seq<string>): (r: seq<OriginOption>)
    requires forall o :: o in wrong ==> o !in correct
    ensures |r| == |correct| + |wrong|
    ensures forall o :: o in r ==> (o.isCorrect <==> o.origin in correct)
    ensures forall o :: o in r ==> o.origin in correct || o.origin in wrong
    ensures forall c :: c in correct ==> OriginOption(c, true) in r
  {
    var r := OriginOptions(correct, true) + OriginOptions(wrong, false);
    forall c | c in correct ensures OriginOption(c, true) in r {
      var i :| 0 <= i < |correct| && correct[i] == c;
      assert r[i] == OriginOption(c, true);
    }
    r
  }

  /** `shuffleArray(options).slice(0, optionCount)`: at most `optionCount`
      of the options, all of them when they fit. */
  function ShuffleAndCut<T>(all: seq<T>, optionCount: nat, order: seq<nat>): (r: seq<T>)
    ensures |r| <= optionCount
    ensures forall o :: o in r ==> o in all
    ensures |all| <= optionCount ==> forall o :: o in all ==> o in r
    ensures |r| == if |all| < optionCount then |all| else optionCount
  {
    var shuffled := Shuffle(all, order);
    ShuffleMembers(all, order);
    var r := SliceTo(shuffled, optionCount);
    assert forall o :: o in r ==> o in shuffled;
    assert |all| <= optionCount ==> r == shuffled;
    r
  }

  /** The unshuffled options of an origin question about `wine`: its places
      as correct options, then `optionCount - |places|` other places of the
      filtered wines. With more places than options that count is negative
      and, as in the source, the `slice` then drops that many from the end of
      the shuffled distractors. */
  function OriginPool(wine: TaggedWine, allWines: seq<TaggedWine>, optionCount: OptionCount, d: Draws)
    : (all: seq<OriginOption>)
    requires wine in allWines
    ensures forall o :: o in all ==> (o.isCorrect <==> o.origin in OriginParts(wine.origin))
    ensures forall o :: o in all ==> o.origin in AllOriginParts(allWines)
    ensures forall c :: c in OriginParts(wine.origin) ==> OriginOption(c, true) in all
    ensures |all| >= |OriginParts(wine.origin)|
    ensures var places := |OriginParts(wine.origin)|;
            var pool := |OtherPlaces(allWines, OriginParts(wine.origin))|;
            places <= optionCount ==>
              |all| == places + (if optionCount - places < pool then optionCount - places else pool)
  {
    var allOrigins := Dedup(AllOriginParts(allWines));
    var correct := OriginParts(wine.origin);
    var incorrect := OtherPlaces(allWines, correct);
    FilterMembers(allOrigins, NotAmong(correct));
    var wrong := GetRandomItems(incorrect, optionCount - |correct|, d.sample);
    InSubMultiset(wrong, incorrect);
    assert forall c :: c in correct ==> c in AllOriginParts(allWines);
    PlaceOptions(correct, wrong)
  }

  /** The options of an origin question about `wine`: its pool shuffled and
      cut to `optionCount`. */
  function OriginChoices(wine: TaggedWine, allWines: seq<TaggedWine>, optionCount: OptionCount, d: Draws)
    : (options: seq<OriginOption>)
    requires wine in allWines
    ensures |options| <= optionCount
    ensures forall o :: o in options ==> (o.isCorrect <==> o.origin in OriginParts(wine.origin))
    ensures forall o :: o in options ==> o.origin in AllOriginParts(allWines)
    ensures |OriginParts(wine.origin)| <= optionCount ==>
              forall c :: c in OriginParts(wine.origin) ==> OriginOption(c, true) in options
    ensures |OriginParts(wine.origin)| >= optionCount ==> |options| == optionCount
    ensures |OriginParts(wine.origin)| <= optionCount ==>
              var total := |OriginParts(wine.origin)| + |OtherPlaces(allWines, OriginParts(wine.origin))|;
              |options| == if total < optionCount then total else optionCount
  {
    var all := OriginPool(wine, allWines, optionCount, d);
    ShuffleAndCut(all, optionCount, d.order)
  }

  /** `generateOriginMatchQuestion`: a random wine, its `/`-separated places
      as the correct answers, and its shuffled options. */
  function GenerateOriginMatch(allWines: seq<TaggedWine>, optionCount: OptionCount, d: Draws): (r: Option<Question>)
    ensures r.None? <==> |allWines| == 0
    ensures r.Some? ==> r.value.OriginMatchQ?
    ensures r.Some? ==> var q := r.value;
              && q.wine in allWines
              && q.correctOrigins == OriginParts(q.wine.origin)
              && |q.originOptions| <= optionCount
              && (forall o :: o in q.originOptions ==> (o.isCorrect <==> o.origin in q.correctOrigins))
              && (forall o :: o in q.originOptions ==> o.origin in AllOriginParts(allWines))
              && (|q.correctOrigins| <= optionCount ==>
                    forall c :: c in q.correctOrigins ==> OriginOption(c, true) in q.originOptions)
              && (|q.correctOrigins| >= optionCount ==> |q.originOptions| == optionCount)
              && q.hint == "This is a " + Lower(q.wine.styleName) + "."
    ensures r.Some? ==> r.value.originOptions == OriginChoices(r.value.wine, allWines, optionCount, d)
  {
    match GetRandomItem(allWines, d.first)
    case None => None
    case Some(wine) =>
      Some(OriginMatchQ(wine, OriginChoices(wine, allWines, optionCount, d), OriginParts(wine.origin),
                        "This is a " + Lower(wine.styleName) + "."))
  }

  /** The distinct places of the filtered wines that are not among `correct`:
      the distractor pool of an origin question. */
  function OtherPlaces(allWines: seq<TaggedWine>, correct: seq<string>): seq<string> {
    Filter(Dedup(AllOriginParts(allWines)), NotAmong(correct))
  }

  lemma ModeOfTag(q: Question)
    ensures q.CategoryMatchQ? ==> ModeOf(q) == Modes.CategoryMatch
    ensures q.WineSelectionQ? ==> ModeOf(q) == Modes.WineSelection
    ensures q.QuickFireQ? ==> ModeOf(q) == Modes.QuickFire
    ensures q.DescriptionMatchQ? ==> ModeOf(q) == Modes.DescriptionMatch
    ensures q.OddOneOutQ? ==> ModeOf(q) == Modes.OddOneOut
    ensures q.OriginMatchQ? ==> ModeOf(q) == Modes.OriginMatch
  {
  }

  /** `generateQuestion`: dispatch on the mode id; a mode without a generator
      (such as "pronunciation") yields no question. */
  function GenerateQuestion(mode: string, allWines: seq<TaggedWine>, filtered: seq<Style>, allStyles: seq<Style>,
                            optionCount: OptionCount, d: Draws): (r: Option<Question>)
    ensures !Modes.HasGenerator(mode) ==> r.None?
    ensures r.Some? ==> ModeOf(r.value) == mode
  {
    if mode == Modes.CategoryMatch then
      var r := GenerateCategoryMatch(allWines, allStyles, optionCount, d);
      if r.Some? then ModeOfTag(r.value); r else r
    else if mode == Modes.WineSelection then
      var r := GenerateWineSelection(allWines, filtered, allStyles, d);
      if r.Some? then ModeOfTag(r.value); r else r
    else if mode == Modes.QuickFire then
      var r := GenerateQuickFire(allWines, allStyles, d);
      if r.Some? then ModeOfTag(r.value); r else r
    else if mode == Modes.DescriptionMatch then
      var r := GenerateDescriptionMatch(filtered, allStyles, optionCount, d);
      if r.Some? then ModeOfTag(r.value); r else r
    else if mode == Modes.OddOneOut then
      var r := GenerateOddOneOut(filtered, d);
      if r.Some? then ModeOfTag(r.value); r else r
    else if mode == Modes.OriginMatch then
      var r := GenerateOriginMatch(allWines, optionCount, d);
      if r.Some? then ModeOfTag(r.value); r else r
    else None
  }

  /** The draws of slot `i`; slots past the supplied list draw zeros. */
  function DrawAt(draws: seq<Draws>, i: nat): Draws {
    if i < |draws| then draws[i] else NoDraws
  }

  /** `i % modesPool.length`: the round-robin position of slot `i`. */
  function PoolIndex(i: nat, n: nat): (k: nat)
    requires n > 0
    ensures k < n
    ensures i < n ==> k == i
  {
    i % n
  }

  /** The question of slot `i`: the mode `modesPool[i % modesPool.length]`.
      With an empty pool the index is `NaN`, the mode `undefined`, and no
      question comes out. */
  function SlotQuestion(pool: seq<string>, i: nat, allWines: seq<TaggedWine>, filtered: seq<Style>,
                        allStyles: seq<Style>, optionCount: OptionCount, draws: seq<Draws>): (r: Option<Question>)
    ensures r.Some? ==> |pool| > 0 && ModeOf(r.value) == pool[PoolIndex(i, |pool|)]
    ensures |pool| > 0 && !Modes.HasGenerator(pool[PoolIndex(i, |pool|)]) ==> r.None?
  {
    if |pool| == 0 then None
    else GenerateQuestion(pool[PoolIndex(i, |pool|)], allWines, filtered, allStyles, optionCount, DrawAt(draws, i))
  }

  /** The questions of slots `0 .. n-1` in slot order, null ones dropped. */
  function Generated(slot: nat -> Option<Question>, n: nat): (r: seq<Question>)
    ensures |r| <= n
    ensures forall q :: q in r ==> exists i :: 0 <= i < n && slot(i) == Some(q)
    decreases n
  {
    if n == 0 then []
    else
      var before := Generated(slot, n - 1);
      match slot(n - 1)
      case None => before
      case Some(q) => before + [q]
  }

  /** One slot without a question makes the session shorter than asked. */
  lemma {:induction false} NullSlotShortens(slot: nat -> Option<Question>, n: nat, j: nat)
    requires j < n && slot(j).None?
    ensures |Generated(slot, n)| < n
    decreases n
  {
    if j < n - 1 {
      NullSlotShortens(slot, n - 1, j);
    }
  }

  /** The generation loop: slots `0 .. n-1` in order, a null slot skipped. */
  method Collect(slot: nat -> Option<Question>, n: nat) returns (generated: seq<Question>)
    ensures generated == Generated(slot, n)
  {
    generated := [];
    var i := 0;
    while i < n
      invariant 0 <= i <= n
      invariant generated == Generated(slot, i)
    {
      var q := slot(i);
      if q.Some? {
        generated := generated + [q.value];
      }
      i := i + 1;
    }
  }

  /** The slot function of one session. */
  function Slots(pool: seq<string>, allWines: seq<TaggedWine>, filtered: seq<Style>, allStyles: seq<Style>,
                 optionCount: OptionCount, draws: seq<Draws>): nat -> Option<Question> {
    (i: nat) => SlotQuestion(pool, i, allWines, filtered, allStyles, optionCount, draws)
  }

  /** The session's question count: `questionCount`, or no slots when it is not positive. */
  function SlotCount(questionCount: int): nat {
    if questionCount > 0 then questionCount else 0
  }

  /** Session assembly: shuffle the selected modes into a pool, fill
      `questionCount` slots round-robin from it, drop the slots without a
      question and shuffle the rest. Nothing is generated before the catalog
      loads or when the selected categories hold no wine. */
  method BuildSession(data: Option<Catalog>, selectedModes: seq<string>, selectedCategories: seq<string>,
                      questionCount: int, difficulty: string, poolOrder: seq<nat>, draws: seq<Draws>,
                      finalOrder: seq<nat>) returns (questions: seq<Question>)
    ensures data.None? || |Flatten(FilteredStyles(data, selectedCategories))| == 0 ==> questions == []
    ensures |questions| <= SlotCount(questionCount)
    ensures forall q :: q in questions ==> ModeOf(q) in selectedModes
    ensures data.Some? && |Flatten(FilteredStyles(data, selectedCategories))| > 0 ==>
              var filtered := FilteredStyles(data, selectedCategories);
              var generated := Generated(Slots(Shuffle(selectedModes, poolOrder), Flatten(filtered), filtered,
                                               data.value.styles, GetOptionCount(difficulty), draws),
                                         SlotCount(questionCount));
              multiset(questions) == multiset(generated) && |questions| == |generated|
  {
    var filtered := FilteredStyles(data, selectedCategories);
    var allWines := Flatten(filtered);
    if data.None? || |allWines| == 0 {
      return [];
    }
    var pool := Shuffle(selectedModes, poolOrder);
    ShuffleMembers(selectedModes, poolOrder);
    var slot := Slots(pool, allWines, filtered, data.value.styles, GetOptionCount(difficulty), draws);
    var n := SlotCount(questionCount);
    var generated := Collect(slot, n);
    questions := Shuffle(generated, finalOrder);
    ShuffleMembers(generated, finalOrder);
    GeneratedModes(pool, allWines, filtered, data.value.styles, GetOptionCount(difficulty), draws, n);
  }

  /** Every generated question has the mode of its slot, which is in the pool. */
  lemma GeneratedModes(pool: seq<string>, allWines: seq<TaggedWine>, filtered: seq<Style>, allStyles: seq<Style>,
                       optionCount: OptionCount, draws: seq<Draws>, n: nat)
    ensures forall q :: q in Generated(Slots(pool, allWines, filtered, allStyles, optionCount, draws), n) ==>
              ModeOf(q) in pool
  {
    var slot := Slots(pool, allWines, filtered, allStyles, optionCount, draws);
    forall q | q in Generated(slot, n) ensures ModeOf(q) in pool {
      var i :| 0 <= i < n && slot(i) == Some(q);
      SlotMode(pool, i, allWines, filtered, allStyles, optionCount, draws, q);
    }
  }

  lemma SlotMode(pool: seq<string>, i: nat, allWines: seq<TaggedWine>, filtered: seq<Style>, allStyles: seq<Style>,
                 optionCount: OptionCount, draws: seq<Draws>, q: Question)
    requires Slots(pool, allWines, filtered, allStyles, optionCount, draws)(i) == Some(q)
    ensures ModeOf(q) in pool
  {
    assert SlotQuestion(pool, i, allWines, filtered, allStyles, optionCount, draws) == Some(q);
  }

  lemma PronunciationHasNoGenerator()
    ensures !Modes.HasGenerator(Modes.Pronunciation)
  {
  }

  /** With "pronunciation" selected and at least as many slots as selected
      modes, some slot draws it and the session comes out short. */
  lemma PronunciationShortensSession(selectedModes: seq<string>, poolOrder: seq<nat>, n: nat,
                                     allWines: seq<TaggedWine>, filtered: seq<Style>, allStyles: seq<Style>,
                                     optionCount: OptionCount, draws: seq<Draws>)
    requires Modes.Pronunciation in selectedModes
    requires |selectedModes| <= n
    ensures |Generated(Slots(Shuffle(selectedModes, poolOrder), allWines, filtered, allStyles, optionCount, draws), n)| < n
  {
    var pool := Shuffle(selectedModes, poolOrder);
    ShuffleMembers(selectedModes, poolOrder);
    var j :| 0 <= j < |pool| && pool[j] == Modes.Pronunciation;
    PronunciationHasNoGenerator();
    var slot := Slots(pool, allWines, filtered, allStyles, optionCount, draws);
    assert slot(j).None?;
    NullSlotShortens(slot, n, j);
  }
}
