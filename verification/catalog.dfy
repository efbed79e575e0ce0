/** The wine catalog and the pure selectors of src/hooks/useWineData.js.
    Fetching, caching and the offline fallback are not modelled: the loaded
    document arrives as an `Option<Catalog>`, `None` before anything loaded. */
module Catalog {
  import opened Wrappers
  import opened Text
  import Dict

  datatype Wine = Wine(name: string, origin: string)

  datatype Style = Style(id: string, name: string, color: string, description: string, wines: seq<Wine>)

  datatype Catalog = Catalog(styles: seq<Style>, lastUpdated: string)

  /** A wine tagged with its style's id, name, color and description, as
      `getAllWines` and the quiz engine produce it. */
  datatype TaggedWine = TaggedWine(
    name: string,
    origin: string,
    styleId: string,
    styleName: string,
    styleColor: string,
    styleDescription: string)

  /** An entry of the pronunciation table. */
  datatype Pronunciation = Pronunciation(simple: Option<string>)

  function Tag(w: Wine, s: Style): TaggedWine {
    TaggedWine(w.name, w.origin, s.id, s.name, s.color, s.description)
  }

  /** The wines of one style, tagged with that style. */
  function TagStyle(s: Style): (r: seq<TaggedWine>)
    ensures |r| == |s.wines|
    ensures forall i :: 0 <= i < |r| ==> r[i] == Tag(s.wines[i], s)
  {
    seq(|s.wines|, i requires 0 <= i < |s.wines| => Tag(s.wines[i], s))
  }

  /** Total number of wines over the styles. */
  function WineCount(styles: seq<Style>): nat {
    if |styles| == 0 then 0 else |styles[0].wines| + WineCount(styles[1..])
  }

  /** `styles.flatMap(style => style.wines.map(tag))`: style order, then wine order. */
  function Flatten(styles: seq<Style>): (r: seq<TaggedWine>)
    ensures |r| == WineCount(styles)
    ensures forall w :: w in r ==> exists s :: s in styles && w.styleId == s.id && w in TagStyle(s)
    ensures InCatalogOrder(styles, r)
  {
    if |styles| == 0 then []
    else
      var rest := Flatten(styles[1..]);
      OrderStep(styles, rest);
      TagStyle(styles[0]) + rest
  }

  /** The number of wines held by the styles before style `i`. */
  function WinesBefore(styles: seq<Style>, i: nat): nat
    requires i <= |styles|
  {
    if i == 0 then 0 else |styles[0].wines| + WinesBefore(styles[1..], i - 1)
  }

  /** Wine `j` of style `i` sits right after the wines of the styles before
      it: style order first, then wine order within a style. */
  predicate InCatalogOrder(styles: seq<Style>, r: seq<TaggedWine>) {
    forall i, j :: 0 <= i < |styles| && 0 <= j < |styles[i].wines| ==> PlacedAt(styles, r, i, j)
  }

  /** Wine `j` of style `i` is at its catalog-order position in `r`. */
  predicate PlacedAt(styles: seq<Style>, r: seq<TaggedWine>, i: nat, j: nat)
    requires i < |styles| && j < |styles[i].wines|
  {
    WinesBefore(styles, i) + j < |r| && r[WinesBefore(styles, i) + j] == Tag(styles[i].wines[j], styles[i])
  }

  /** Putting the first style's wines in front of a flattening of the other
      styles that is in catalog order gives one in catalog order. */
  lemma OrderStep(styles: seq<Style>, rest: seq<TaggedWine>)
    requires |styles| > 0 && InCatalogOrder(styles[1..], rest)
    ensures InCatalogOrder(styles, TagStyle(styles[0]) + rest)
  {
    var head := TagStyle(styles[0]);
    var r := head + rest;
    var t := styles[1..];
    forall i, j | 0 <= i < |styles| && 0 <= j < |styles[i].wines|
      ensures PlacedAt(styles, r, i, j)
    {
      if i > 0 {
        assert t[i - 1] == styles[i];
        assert PlacedAt(t, rest, i - 1, j);
        var k := WinesBefore(t, i - 1) + j;
        assert WinesBefore(styles, i) + j == |head| + k;
        assert r[|head| + k] == rest[k];
      } else {
        assert WinesBefore(styles, i) == 0;
        assert r[j] == head[j];
      }
    }
  }

  /** Every wine of every style appears in the flattening, tagged with its style. */
  lemma {:induction false} FlattenComplete(styles: seq<Style>, i: nat, j: nat)
    requires i < |styles| && j < |styles[i].wines|
    ensures Tag(styles[i].wines[j], styles[i]) in Flatten(styles)
    decreases i
  {
    if i > 0 {
      FlattenComplete(styles[1..], i - 1, j);
    } else {
      assert TagStyle(styles[0])[j] == Tag(styles[i].wines[j], styles[i]);
    }
  }

  /** `getAllWines`. */
  function GetAllWines(data: Option<Catalog>): (r: seq<TaggedWine>)
    ensures data.None? ==> r == []
    ensures data.Some? ==> |r| == WineCount(data.value.styles)
    ensures data.Some? ==> forall w :: w in r ==>
              exists s :: s in data.value.styles && w.styleId == s.id && w.styleName == s.name
                && w.styleColor == s.color && w.styleDescription == s.description
                && Wine(w.name, w.origin) in s.wines
    ensures data.Some? ==> InCatalogOrder(data.value.styles, r)
  {
    match data
    case None => []
    case Some(c) => Flatten(c.styles)
  }

  /** `styles.find(s => s.id === id)`: the first style with that id. */
  function FindStyle(styles: seq<Style>, id: string): (r: Option<Style>)
    ensures r.None? <==> forall s :: s in styles ==> s.id != id
    ensures r.Some? ==> r.value in styles && r.value.id == id
    ensures r.Some? ==> exists i :: 0 <= i < |styles| && styles[i] == r.value &&
                          forall k :: 0 <= k < i ==> styles[k].id != id
  {
    if |styles| == 0 then None
    else if styles[0].id == id then Some(styles[0])
    else
      var r := FindStyle(styles[1..], id);
      if r.Some? then
        var i :| 0 <= i < |styles[1..]| && styles[1..][i] == r.value
                 && forall k :: 0 <= k < i ==> styles[1..][k].id != id;
        assert styles[i + 1] == r.value;
        r
      else r
  }

  /** `getWinesByStyle`: the first matching style's wines, `[]` when none matches or nothing loaded. */
  function GetWinesByStyle(data: Option<Catalog>, id: string): (r: seq<Wine>)
    ensures data.None? ==> r == []
    ensures data.Some? && (forall s :: s in data.value.styles ==> s.id != id) ==> r == []
    ensures data.Some? && FindStyle(data.value.styles, id).Some? ==> r == FindStyle(data.value.styles, id).value.wines
  {
    match data
    case None => []
    case Some(c) =>
      match FindStyle(c.styles, id)
      case None => []
      case Some(s) => s.wines
  }

  /** `getStyle`: both `null` (nothing loaded) and `undefined` (no match) are `None`. */
  function GetStyle(data: Option<Catalog>, id: string): (r: Option<Style>)
    ensures data.None? ==> r.None?
    ensures r.Some? ==> r.value in data.value.styles && r.value.id == id
    ensures data.Some? && (exists s :: s in data.value.styles && s.id == id) ==> r.Some?
  {
    match data
    case None => None
    case Some(c) => FindStyle(c.styles, id)
  }

  /** `getAllStyles`. */
  function GetAllStyles(data: Option<Catalog>): (r: seq<Style>)
    ensures data.None? ==> r == []
    ensures data.Some? ==> r == data.value.styles
  {
    match data
    case None => []
    case Some(c) => c.styles
  }

  /** `getPronunciation`: `pronunciations[name]?.simple || null`. */
  function GetPronunciation(table: Option<Dict.Dict<Pronunciation>>, name: string): (r: Option<string>)
    ensures r.Some? ==> r.value != ""
    ensures r.Some? <==> table.Some? && Dict.Get(table.value, name).Some?
                         && Dict.Get(table.value, name).value.simple.Some?
                         && Dict.Get(table.value, name).value.simple.value != ""
  {
    match table
    case None => None
    case Some(t) =>
      match Dict.Get(t, name)
      case None => None
      case Some(p) => if p.simple.Some? && p.simple.value != "" then p.simple else None
  }

  /** `origin.split('/').map(o => o.trim())`: the places of a possibly multi-origin wine. */
  function OriginParts(origin: string): (r: seq<string>)
    ensures |r| >= 1
  {
    var pieces := Split(origin, '/');
    seq(|pieces|, i requires 0 <= i < |pieces| => Trim(pieces[i]))
  }

  /** Every origin part of every wine, in catalog order, repetitions kept. */
  function AllOriginParts(wines: seq<TaggedWine>): (r: seq<string>)
    ensures forall o :: o in r <==> exists w :: w in wines && o in OriginParts(w.origin)
  {
    if |wines| == 0 then []
    else
      var rest := AllOriginParts(wines[1..]);
      assert forall w :: w in wines <==> w == wines[0] || w in wines[1..];
      OriginParts(wines[0].origin) + rest
  }

  /** The distinct elements of `parts`, in code-unit order. */
  function SortedDistinct(parts: seq<string>): (r: seq<string>)
    ensures StrictlySorted(r)
    ensures forall o :: o in r <==> o in parts
  {
    if |parts| == 0 then [] else InsertSorted(parts[0], SortedDistinct(parts[1..]))
  }

  /** `getAllOrigins`: every trimmed origin part, sorted, each once. */
  function GetAllOrigins(data: Option<Catalog>): (r: seq<string>)
    ensures data.None? ==> r == []
    ensures StrictlySorted(r)
    ensures data.Some? ==> forall o :: o in r <==>
              exists w :: w in Flatten(data.value.styles) && o in OriginParts(w.origin)
  {
    match data
    case None => []
    case Some(c) => SortedDistinct(AllOriginParts(Flatten(c.styles)))
  }

  /** Sorted strictly means no origin is listed twice. */
  lemma OriginsDistinct(data: Option<Catalog>, i: nat, j: nat)
    requires i < j < |GetAllOrigins(data)|
    ensures GetAllOrigins(data)[i] != GetAllOrigins(data)[j]
  {
    LessIrreflexive(GetAllOrigins(data)[i]);
  }
}
