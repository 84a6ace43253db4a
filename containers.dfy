/** The menu and gallery builders of app/containers.py, with the Dash components
    replaced by small descriptors. */
module Containers {
  import opened Common
  import opened ColorSchemes
  import opened Frames
  import opened Helper

  /** A `dbc.DropdownMenuItem`: a clickable entry (its pattern-matching id value,
      None for the `False` id of the "None" entry), a divider or a header. */
  datatype MenuItem = Entry(text: string, key: Option<string>) | Divider | Header(text: string)

  /** `Path(folder).joinpath(file)`, kept as its two parts. */
  datatype ImageSrc = ImageSrc(folder: string, file: string)

  /** One gallery tile: `html.Img(src, id={'image': ...}, className, borderColor)`. */
  datatype Tile = Tile(src: ImageSrc, id: string, className: string, borderColor: string)

  /** The children `create_color_by_children` returns. */
  datatype ColorByPanel = ColorByPanel(
    items: seq<MenuItem>,        // the colour-by dropdown's items
    caption: string,             // the colour-by dropdown's label
    colorByStore: string,        // dcc.Store 'color-by-column'
    schemeItems: seq<MenuItem>,  // the colour-scheme dropdown's items
    schemeLabel: string,         // the colour-scheme dropdown's label
    schemeStore: string)         // dcc.Store 'color-scheme'

  /** The children `create_sort_by_children` returns. */
  datatype SortByPanel = SortByPanel(
    items: seq<MenuItem>,
    caption: string,
    sortByStore: string,         // dcc.Store 'sort-by-column'
    ascendingStore: bool,        // dcc.Store 'sort-ascending'
    icon: string)                // class of the direction button's icon

  /** The entry offered for one catalogued parameter. */
  function ParamEntry(p: Param): MenuItem
  {
    Entry(p.displayName, Some(p.column))
  }

  /** The entries of the parameters of type `kind`, in catalog order. */
  function MenuEntries(params: map<string, Param>, ks: seq<string>, kind: string): seq<MenuItem>
    requires forall k :: k in ks ==> k in params
  {
    if ks == [] then [] else
      var p := params[ks[|ks| - 1]];
      MenuEntries(params, ks[..|ks| - 1], kind) + (if p.kind == kind then [ParamEntry(p)] else [])
  }

  /** The entries are exactly the parameters of type `kind`, each once per catalog
      position, labelled with its display name; no other parameter gets one. */
  lemma {:induction false} MenuEntriesAre(params: map<string, Param>, ks: seq<string>, kind: string)
    requires forall k :: k in ks ==> k in params
    requires forall k :: k in params ==> params[k].column == k
    ensures forall i :: 0 <= i < |MenuEntries(params, ks, kind)| ==>
      var e := MenuEntries(params, ks, kind)[i];
      e.Entry? && e.key.Some? && e.key.value in ks && params[e.key.value].kind == kind
      && e.text == params[e.key.value].displayName
    ensures forall k :: k in ks && params[k].kind == kind ==> Entry(params[k].displayName, Some(k)) in MenuEntries(params, ks, kind)
    ensures |MenuEntries(params, ks, kind)| <= |ks|
  {
    if ks != [] {
      var init := ks[..|ks| - 1];
      assert forall k :: k in init ==> k in ks;
      MenuEntriesAre(params, init, kind);
      assert ks == init + [ks[|ks| - 1]];
    }
  }

  lemma MenuEntriesExtend(params: map<string, Param>, ks: seq<string>, i: nat, kind: string)
    requires i < |ks| && forall k :: k in ks ==> k in params
    ensures forall k :: k in ks[..i + 1] ==> k in params
    ensures MenuEntries(params, ks[..i + 1], kind)
         == MenuEntries(params, ks[..i], kind)
            + (if params[ks[i]].kind == kind then [ParamEntry(params[ks[i]])] else [])
  {
    assert ks[..i + 1][..i] == ks[..i];
  }

  /** The colour-scheme menu of lines 265-271. */
  function SchemeMenu(): seq<MenuItem>
  {
    [Entry("Original", Some("Original")), Entry("Nuanced", Some("Nuanced")),
     Entry("Multi-Colored", Some("Multi-Colored")), Entry("Parula", Some("Parula"))]
  }

  /** Every scheme the menu offers is in the table, filed under the entry's text. */
  lemma SchemeMenuInTable()
    ensures forall i :: 0 <= i < |SchemeMenu()| ==>
      SchemeMenu()[i].Entry? && SchemeMenu()[i].key == Some(SchemeMenu()[i].text)
      && SchemeMenu()[i].text in Schemes()
    ensures |SchemeMenu()| == |Schemes()|
  {
    SchemesWellFormed();
  }

  /** `create_color_by_children(parameters, color_by)`. */
  method CreateColorByChildren(parameters: OMap<Param>, colorBy: string) returns (r: Result<ColorByPanel>)
    requires parameters.Valid()
    ensures r.Err? <==> colorBy !in parameters.vals
    ensures r.Err? ==> r.error == KeyError(colorBy)
    ensures r.Ok? ==>
      && r.value.items
         == [Entry("None", None), Divider, Header("Output")]
            + MenuEntries(parameters.vals, parameters.keys, "out")
            + [Divider, Header("Input")]
            + MenuEntries(parameters.vals, parameters.keys, "in")
      && r.value.caption == parameters.vals[colorBy].displayName
      && r.value.colorByStore == colorBy
      && r.value.schemeItems == SchemeMenu()
      && r.value.schemeLabel == "Original" && r.value.schemeStore == "Original"
  {
    var childrenInput: seq<MenuItem> := [];
    var childrenOutput: seq<MenuItem> := [];
    var ks := parameters.keys;
    var i := 0;
    while i < |ks|
      invariant 0 <= i <= |ks|
      invariant childrenInput == MenuEntries(parameters.vals, ks[..i], "in")
      invariant childrenOutput == MenuEntries(parameters.vals, ks[..i], "out")
    {
      var value := parameters.vals[ks[i]];
      MenuEntriesExtend(parameters.vals, ks, i, "in");
      MenuEntriesExtend(parameters.vals, ks, i, "out");
      if value.kind == "in" {
        childrenInput := childrenInput + [Entry(value.displayName, Some(value.column))];
      }
      if value.kind == "out" {
        childrenOutput := childrenOutput + [Entry(value.displayName, Some(value.column))];
      }
      i := i + 1;
    }
    assert ks[..i] == ks;
    var children := [Entry("None", None), Divider, Header("Output")] + childrenOutput
                    + [Divider, Header("Input")] + childrenInput;
    var selected := Lookup(parameters.vals, colorBy);
    if selected.Err? {
      return Err(selected.error);
    }
    r := Ok(ColorByPanel(children, selected.value.displayName, colorBy, SchemeMenu(), "Original", "Original"));
  }

  /** `create_sort_by_children(parameters, sort_by)`. */
  method CreateSortByChildren(parameters: OMap<Param>, sortBy: string) returns (r: Result<SortByPanel>)
    requires parameters.Valid()
    ensures r.Err? <==> sortBy !in parameters.vals
    ensures r.Err? ==> r.error == KeyError(sortBy)
    ensures r.Ok? ==>
      && r.value.items
         == [Header("Output")] + MenuEntries(parameters.vals, parameters.keys, "out")
            + [Divider, Header("Input")] + MenuEntries(parameters.vals, parameters.keys, "in")
      && r.value.caption == parameters.vals[sortBy].displayName
      && r.value.sortByStore == sortBy
      && !r.value.ascendingStore
      && r.value.icon == "bi bi-sort-down"
  {
    var childrenInput: seq<MenuItem> := [];
    var childrenOutput: seq<MenuItem> := [];
    var ks := parameters.keys;
    var i := 0;
    while i < |ks|
      invariant 0 <= i <= |ks|
      invariant childrenInput == MenuEntries(parameters.vals, ks[..i], "in")
      invariant childrenOutput == MenuEntries(parameters.vals, ks[..i], "out")
    {
      var value := parameters.vals[ks[i]];
      MenuEntriesExtend(parameters.vals, ks, i, "in");
      MenuEntriesExtend(parameters.vals, ks, i, "out");
      if value.kind == "in" {
        childrenInput := childrenInput + [Entry(value.displayName, Some(value.column))];
      }
      if value.kind == "out" {
        childrenOutput := childrenOutput + [Entry(value.displayName, Some(value.column))];
      }
      i := i + 1;
    }
    assert ks[..i] == ks;
    var children := [Header("Output")] + childrenOutput + [Divider, Header("Input")] + childrenInput;
    var selected := Lookup(parameters.vals, sortBy);
    if selected.Err? {
      return Err(selected.error);
    }
    r := Ok(SortByPanel(children, selected.value.displayName, sortBy, false, "bi bi-sort-down"));
  }

  /** `color_schemes.get(name, color_schemes['Original'])`: the named scheme, or the
      default one for a name the table does not hold. */
  function ResolveScheme(name: string): (s: Scheme)
    ensures name in Schemes() ==> s == Schemes()[name]
    ensures name !in Schemes() ==> s == Schemes()[DefaultColorScheme()]
    ensures |s.colors| > 0
  {
    SchemesWellFormed();
    if name in Schemes() then Schemes()[name] else Schemes()["Original"]
  }

  /** The tile of one record: its image, the given class and border colour. */
  function MakeTile(folder: string, r: Record, imgColumn: string, className: string, border: string): (t: Tile)
    requires imgColumn in r && r[imgColumn].Text?
  {
    Tile(ImageSrc(folder, r[imgColumn].t), r[imgColumn].t, className, border)
  }

  /** The tile `create_images_grid_children` builds for one record. */
  function ColoredTile(folder: string, r: Record, imgColumn: string, colorBy: string,
                       scheme: Scheme, minimum: real, maximum: real): (t: Tile)
    requires imgColumn in r && r[imgColumn].Text? && colorBy in r && r[colorBy].Num?
    requires |scheme.colors| > 0
    ensures t.id == r[imgColumn].t && t.src == ImageSrc(folder, r[imgColumn].t)
    ensures t.className == "image-grid"
    ensures t.borderColor == SampleColorScheme(scheme, Key(r, colorBy), minimum, maximum)
  {
    MakeTile(folder, r, imgColumn, "image-grid", SampleColorScheme(scheme, Key(r, colorBy), minimum, maximum))
  }

  /** The tiles of the records, in order. */
  function ColoredTiles(folder: string, rs: seq<Record>, imgColumn: string, colorBy: string,
                        scheme: Scheme, minimum: real, maximum: real): (tiles: seq<Tile>)
    requires HasNum(rs, colorBy) && HasText(rs, imgColumn) && |scheme.colors| > 0
    ensures |tiles| == |rs|
    ensures forall i :: 0 <= i < |rs| ==>
      tiles[i] == ColoredTile(folder, rs[i], imgColumn, colorBy, scheme, minimum, maximum)
  {
    seq(|rs|, j requires 0 <= j < |rs| => ColoredTile(folder, rs[j], imgColumn, colorBy, scheme, minimum, maximum))
  }

  lemma ColoredTilesExtend(folder: string, rs: seq<Record>, i: nat, imgColumn: string, colorBy: string,
                           scheme: Scheme, minimum: real, maximum: real)
    requires i < |rs| && HasNum(rs, colorBy) && HasText(rs, imgColumn) && |scheme.colors| > 0
    ensures HasNum(rs[..i + 1], colorBy) && HasText(rs[..i + 1], imgColumn)
    ensures ColoredTiles(folder, rs[..i + 1], imgColumn, colorBy, scheme, minimum, maximum)
         == ColoredTiles(folder, rs[..i], imgColumn, colorBy, scheme, minimum, maximum)
            + [ColoredTile(folder, rs[i], imgColumn, colorBy, scheme, minimum, maximum)]
  {
    assert rs[..i + 1][..i] == rs[..i];
  }

  /** `create_images_grid_children`: one tile per record, in the given order, each
      bordered by the colour of its `color_by` value in the named scheme (or in the
      default scheme when the name is unknown). */
  method CreateImagesGridChildren(sortedRecords: seq<Record>, colorBy: string, minimum: real, maximum: real,
                                  imgColumn: string, folder: string, schemeName: string)
    returns (children: seq<Tile>)
    requires HasNum(sortedRecords, colorBy) && HasText(sortedRecords, imgColumn)
    ensures children == ColoredTiles(folder, sortedRecords, imgColumn, colorBy, ResolveScheme(schemeName), minimum, maximum)
  {
    var scheme := ResolveScheme(schemeName);
    children := [];
    for i := 0 to |sortedRecords|
      invariant children == ColoredTiles(folder, sortedRecords[..i], imgColumn, colorBy, scheme, minimum, maximum)
    {
      ColoredTilesExtend(folder, sortedRecords, i, imgColumn, colorBy, scheme, minimum, maximum);
      children := children + [ColoredTile(folder, sortedRecords[i], imgColumn, colorBy, scheme, minimum, maximum)];
    }
    assert sortedRecords[..|sortedRecords|] == sortedRecords;
  }

  /** Each child shows its own record's image, bordered by an anchor of the scheme;
      on a proper range the minimum gets the first anchor and the maximum the last. */
  lemma GridChildrenBorders(folder: string, rs: seq<Record>, imgColumn: string, colorBy: string,
                            scheme: Scheme, minimum: real, maximum: real, i: nat)
    requires HasNum(rs, colorBy) && HasText(rs, imgColumn) && |scheme.colors| > 0 && i < |rs|
    ensures var t := ColoredTiles(folder, rs, imgColumn, colorBy, scheme, minimum, maximum)[i];
            && t.id == rs[i][imgColumn].t && t.src == ImageSrc(folder, rs[i][imgColumn].t)
            && (exists k :: 0 <= k < |scheme.colors| && t.borderColor == RgbToHex(scheme.colors[k]))
            && (minimum < maximum && Key(rs[i], colorBy) == minimum ==> t.borderColor == RgbToHex(scheme.colors[0]))
            && (minimum < maximum && Key(rs[i], colorBy) == maximum
                ==> t.borderColor == RgbToHex(scheme.colors[|scheme.colors| - 1]))
  {
    if minimum < maximum {
      EndpointsGiveEndAnchors(scheme, minimum, maximum);
    }
  }
}
