/** The study browser of src/components/StudyMode.jsx: the search that
    narrows the catalog, and the progress shown for a wine. */
module StudyView {
  import opened Wrappers
  import opened Seqs
  import opened Text
  import opened Catalog
  import opened ProgressStore
  import Dict

  /** A wine matches a lower-cased query when its lower-cased name or origin
      contains it. */
  function WineMatches(query: string): Wine -> bool {
    (w: Wine) => Contains(Lower(w.name), query) || Contains(Lower(w.origin), query)
  }

  /** A style cut down to its matching wines. */
  function Narrow(s: Style, query: string): (t: Style)
    ensures t == s.(wines := t.wines)
    ensures forall w :: w in t.wines <==> w in s.wines && WineMatches(query)(w)
  {
    FilterMembers(s.wines, WineMatches(query));
    s.(wines := Filter(s.wines, WineMatches(query)))
  }

  /** Every style cut down to its matching wines, in catalog order, the
      styles left without wines dropped. */
  function SearchIn(styles: seq<Style>, query: string): (r: seq<Style>)
    ensures |r| <= |styles|
    ensures forall t :: t in r ==> |t.wines| > 0 && exists s :: s in styles && t == Narrow(s, query)
    decreases |styles|
  {
    if |styles| == 0 then []
    else
      var t := Narrow(styles[0], query);
      var rest := SearchIn(styles[1..], query);
      if |t.wines| > 0 then [t] + rest else rest
  }

  /** Every matching wine is kept, under a style with its own style's id. */
  lemma {:induction false} SearchComplete(styles: seq<Style>, query: string, s: Style, w: Wine)
    requires s in styles && w in s.wines && WineMatches(query)(w)
    ensures exists t :: t in SearchIn(styles, query) && t.id == s.id && w in t.wines
    decreases |styles|
  {
    var t := Narrow(styles[0], query);
    var rest := SearchIn(styles[1..], query);
    if s == styles[0] {
      assert w in t.wines;
      assert t in SearchIn(styles, query);
    } else {
      SearchComplete(styles[1..], query, s, w);
      var t' :| t' in rest && t'.id == s.id && w in t'.wines;
      assert t' in SearchIn(styles, query);
    }
  }

  function HasWines(s: Style): bool { |s.wines| > 0 }

  /** `styles.map(...)`: every style narrowed, position by position. */
  function NarrowAll(styles: seq<Style>, query: string): (r: seq<Style>)
    ensures |r| == |styles|
    ensures forall i :: 0 <= i < |styles| ==> r[i] == Narrow(styles[i], query)
    decreases |styles|
  {
    if |styles| == 0 then [] else [Narrow(styles[0], query)] + NarrowAll(styles[1..], query)
  }

  /** The search is the source's own two steps, in catalog order: narrow
      every style, then keep those left with wines. */
  lemma {:induction false} SearchIsMapThenFilter(styles: seq<Style>, query: string)
    ensures SearchIn(styles, query) == Filter(NarrowAll(styles, query), HasWines)
    decreases |styles|
  {
    if |styles| > 0 {
      var mapped := NarrowAll(styles, query);
      SearchIsMapThenFilter(styles[1..], query);
      assert mapped[1..] == NarrowAll(styles[1..], query);
      FilterCons(mapped, HasWines);
    }
  }

  /** The `filteredStyles` memo: nothing before the catalog loads, the whole
      catalog for an empty query, otherwise the search. */
  function SearchStyles(data: Option<Catalog>, searchQuery: string): (r: seq<Style>)
    ensures data.None? ==> r == []
    ensures data.Some? && searchQuery == "" ==> r == data.value.styles
    ensures data.Some? && searchQuery != "" ==> r == SearchIn(data.value.styles, Lower(searchQuery))
  {
    match data
    case None => []
    case Some(c) => if searchQuery == "" then c.styles else SearchIn(c.styles, Lower(searchQuery))
  }

  /** What a search keeps: only matching wines, each under a style of the
      catalog with the same id that holds it, and no style left empty. */
  lemma {:induction false} SearchSound(c: Catalog, searchQuery: string)
    requires searchQuery != ""
    ensures var r := SearchStyles(Some(c), searchQuery);
            forall t, w :: t in r && w in t.wines ==>
              && WineMatches(Lower(searchQuery))(w)
              && exists s :: s in c.styles && s.id == t.id && w in s.wines
  {
    var query := Lower(searchQuery);
    var r := SearchIn(c.styles, query);
    forall t, w | t in r && w in t.wines
      ensures WineMatches(query)(w) && exists s :: s in c.styles && s.id == t.id && w in s.wines
    {
      var s :| s in c.styles && t == Narrow(s, query);
      assert s.id == t.id && w in s.wines;
    }
  }

  /** A search drops no matching wine: each stays under its own style's id. */
  lemma SearchKeepsMatches(c: Catalog, searchQuery: string)
    requires searchQuery != ""
    ensures var r := SearchStyles(Some(c), searchQuery);
            forall s, w :: s in c.styles && w in s.wines && WineMatches(Lower(searchQuery))(w) ==>
              exists t :: t in r && t.id == s.id && w in t.wines
  {
    forall s, w | s in c.styles && w in s.wines && WineMatches(Lower(searchQuery))(w)
      ensures exists t :: t in SearchIn(c.styles, Lower(searchQuery)) && t.id == s.id && w in t.wines
    {
      SearchComplete(c.styles, Lower(searchQuery), s, w);
    }
  }

  /** The counters and study mark shown for a wine. */
  datatype StudyRecord = StudyRecord(timesCorrect: nat, timesIncorrect: nat, studyStatus: Option<StudyStatus>)

  /** `getWineProgress`: the stored record, or zero counters and no mark. */
  function GetWineProgress(p: Progress, name: string): (r: StudyRecord)
    ensures Dict.Get(p.wineProgress, name).None? ==> r == StudyRecord(0, 0, None)
    ensures Dict.Get(p.wineProgress, name).Some? ==>
              var w := Dict.Get(p.wineProgress, name).value;
              r == StudyRecord(w.timesCorrect, w.timesIncorrect, w.studyStatus)
  {
    match Dict.Get(p.wineProgress, name)
    case None => StudyRecord(0, 0, None)
    case Some(w) => StudyRecord(w.timesCorrect, w.timesIncorrect, w.studyStatus)
  }

  /** Marking a wine from the study screen shows the mark, with the counters
      it had before. */
  lemma MarkShows(p: Progress, name: string, status: StudyStatus)
    ensures var before := GetWineProgress(p, name);
            GetWineProgress(MarkWineStudyStatus(p, name, status), name)
              == before.(studyStatus := Some(status))
  {
  }
}
