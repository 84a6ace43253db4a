/** The gallery callbacks of app/callbacks/image.py: building the image grid,
    showing the selected image, and the two clicks that select and clear it. */
module ImageCallbacks {
  import opened Common
  import opened ColorSchemes
  import opened Frames
  import opened Helper
  import opened Containers

  /** Line 52: the border of every tile when no colour column is chosen. */
  const DefaultBorder: string := "#636EFA"

  /** One line of the selected-image details: `<display name>: <value>`. */
  datatype InfoLine = InfoLine(name: string, value: Value)

  /** The three outputs of `update_selected_image_table`. */
  datatype SelectedView = SelectedView(src: ImageSrc, containerStyle: Style, gridStyle: Style)

  /** What `update_click_selected_image` returns: the six-output reset, or a bare
      Python `None` when the click count is None. */
  datatype ClickReply = ClearAll(containerStyle: Style, gridStyle: Style) | ReturnsNone

  /** Lines 123-130: the layout while an image is selected. */
  function SelectedContainerStyle(): Style
  {
    map["width" := "75%"]
  }

  function SelectedGridStyle(): Style
  {
    map["grid-template-columns" := "repeat(auto-fill, minmax(10%, 1fr))", "width" := "25%"]
  }

  /* ---------- update_images_grid ---------- */

  /** Lines 55-57: the image value of the first selected record, if there is one. */
  function SelectedImage(sel: Option<seq<Record>>, img: string): (v: Option<Value>)
    ensures v.Some? <==> sel.Some? && |sel.value| > 0 && img in sel.value[0]
    ensures v.Some? ==> v.value == sel.value[0][img]
  {
    if sel.Some? && |sel.value| > 0 && img in sel.value[0] then Some(sel.value[0][img]) else None
  }

  /** Line 78. */
  function TileClass(selected: Option<Value>, v: Value): string
  {
    if selected == Some(v) then "image-grid selected" else "image-grid"
  }

  /** Lines 48-50: the colour domain, taken over all records. */
  function Extremes(df: seq<Record>, colorBy: Option<string>): (e: (real, real))
    requires Truthy(colorBy) ==> HasNum(df, colorBy.value)
    ensures e.0 <= e.1
    ensures Truthy(colorBy) ==> forall i :: 0 <= i < |df| ==> e.0 <= Key(df[i], colorBy.value) <= e.1
  {
    if Truthy(colorBy) && df != [] then (ColumnMin(df, colorBy.value), ColumnMax(df, colorBy.value))
    else (0.0, 0.0)
  }

  /** Lines 52 and 70-72. */
  function BorderColor(scheme: Scheme, colorBy: Option<string>, r: Record, lo: real, hi: real): string
    requires |scheme.colors| > 0
    requires Truthy(colorBy) ==> colorBy.value in r && r[colorBy.value].Num?
  {
    if Truthy(colorBy) then SampleColorScheme(scheme, Key(r, colorBy.value), lo, hi) else DefaultBorder
  }

  /** Lines 69-96: one tile per record, in the order given. */
  function GridTiles(rs: seq<Record>, img: string, folder: string, selected: Option<Value>,
                     scheme: Scheme, colorBy: Option<string>, lo: real, hi: real): (tiles: seq<Tile>)
    requires HasText(rs, img) && |scheme.colors| > 0
    requires Truthy(colorBy) ==> HasNum(rs, colorBy.value)
    ensures |tiles| == |rs|
    ensures forall i :: 0 <= i < |rs| ==>
      tiles[i] == MakeTile(folder, rs[i], img, TileClass(selected, rs[i][img]),
                           BorderColor(scheme, colorBy, rs[i], lo, hi))
  {
    if rs == [] then [] else
      [MakeTile(folder, rs[0], img, TileClass(selected, rs[0][img]), BorderColor(scheme, colorBy, rs[0], lo, hi))]
      + GridTiles(rs[1..], img, folder, selected, scheme, colorBy, lo, hi)
  }

  /** Lines 59-63: the active records, sorted when a sort column is chosen. */
  function Ordered(active: seq<Record>, sortBy: Option<string>, ascending: bool): (rs: seq<Record>)
    requires Truthy(sortBy) ==> HasNum(active, sortBy.value)
    ensures multiset(rs) == multiset(active)
    ensures forall c :: HasNum(active, c) ==> HasNum(rs, c)
    ensures forall c :: HasText(active, c) ==> HasText(rs, c)
  {
    if Truthy(sortBy) then
      SortOnProperties(active, sortBy.value, ascending);
      PermutationKeepsColumns(active, SortOn(active, sortBy.value, ascending));
      SortOn(active, sortBy.value, ascending)
    else active
  }

  /** The gallery order: sorted on the chosen column in the chosen direction, and
      otherwise the order of the active records. */
  lemma OrderedIsSortedOrUnchanged(active: seq<Record>, sortBy: Option<string>, ascending: bool)
    requires Truthy(sortBy) ==> HasNum(active, sortBy.value)
    ensures Truthy(sortBy) ==> SortedOn(Ordered(active, sortBy, ascending), sortBy.value, ascending)
    ensures !Truthy(sortBy) ==> Ordered(active, sortBy, ascending) == active
  {
    if Truthy(sortBy) {
      SortOnProperties(active, sortBy.value, ascending);
    }
  }

  /** `update_images_grid` as written: line 67 evaluates `color_schemes['Original Ladybug']`
      before `get` is called, so it fails whenever that key is missing from `table`. */
  function UpdateImagesGridAsWritten(table: map<string, Scheme>, active: seq<Record>, df: seq<Record>,
                                     colorBy: Option<string>, sortBy: Option<string>, ascending: bool,
                                     colorScheme: string, imgColumn: Option<string>, folder: string,
                                     selectedData: Option<seq<Record>>): (out: Outcome<seq<Tile>>)
    requires forall k :: k in table ==> |table[k].colors| > 0
    requires imgColumn.Some? ==> HasText(active, imgColumn.value)
    requires Truthy(colorBy) ==> HasNum(df, colorBy.value) && HasNum(active, colorBy.value)
    requires Truthy(sortBy) ==> HasNum(active, sortBy.value)
    ensures imgColumn.None? ==> out == Updated([])
    ensures imgColumn.Some? && "Original Ladybug" !in table ==> out.Raised?
  {
    if imgColumn.None? then Updated([])
    else if Truthy(colorBy) && df == [] then Raised(KeyError(colorBy.value))
    else if Truthy(sortBy) && active == [] then Raised(KeyError(sortBy.value))
    else if "Original Ladybug" !in table then Raised(KeyError("Original Ladybug"))
    else
      var scheme := if colorScheme in table then table[colorScheme] else table["Original Ladybug"];
      var (lo, hi) := Extremes(df, colorBy);
      Updated(GridTiles(Ordered(active, sortBy, ascending), imgColumn.value, folder,
                        SelectedImage(selectedData, imgColumn.value), scheme, colorBy, lo, hi))
  }

  /** The fallback key of line 67 is not in the palette table. */
  lemma OriginalLadybugMissing()
    ensures "Original Ladybug" !in Schemes()
    ensures forall k :: k in Schemes() ==> |Schemes()[k].colors| > 0
  {
    SchemesWellFormed();
  }

  /** With the real table, every call that has an image column fails: the gallery
      is never drawn. */
  lemma AsWrittenNeverRenders(active: seq<Record>, df: seq<Record>, colorBy: Option<string>,
                              sortBy: Option<string>, ascending: bool, colorScheme: string,
                              img: string, folder: string, selectedData: Option<seq<Record>>)
    requires HasText(active, img)
    requires Truthy(colorBy) ==> HasNum(df, colorBy.value) && HasNum(active, colorBy.value)
    requires Truthy(sortBy) ==> HasNum(active, sortBy.value)
    ensures UpdateImagesGridAsWritten(Schemes(), active, df, colorBy, sortBy, ascending, colorScheme,
                                      Some(img), folder, selectedData).Raised?
    ensures !(Truthy(colorBy) && df == []) && !(Truthy(sortBy) && active == []) ==>
              UpdateImagesGridAsWritten(Schemes(), active, df, colorBy, sortBy, ascending, colorScheme,
                                        Some(img), folder, selectedData)
              == Raised(KeyError("Original Ladybug"))
  {
    OriginalLadybugMissing();
  }

  /** `update_images_grid`, with the fallback scheme of line 67 read as the default
      `'Original'`, the way app/containers.py:351 does it. An empty `df_records` holds
      no columns, so `dff[color_by_column]` raises; empty active records hold none
      either, so `sort_values(by=sort_by_column)` raises. */
  method UpdateImagesGrid(active: seq<Record>, df: seq<Record>, colorBy: Option<string>,
                          sortBy: Option<string>, ascending: bool, colorScheme: string,
                          imgColumn: Option<string>, folder: string, selectedData: Option<seq<Record>>)
    returns (out: Outcome<seq<Tile>>)
    requires imgColumn.Some? ==> HasText(active, imgColumn.value)
    requires Truthy(colorBy) ==> HasNum(df, colorBy.value) && HasNum(active, colorBy.value)
    requires Truthy(sortBy) ==> HasNum(active, sortBy.value)
    ensures imgColumn.None? ==> out == Updated([])
    ensures imgColumn.Some? && Truthy(colorBy) && df == [] ==> out == Raised(KeyError(colorBy.value))
    ensures imgColumn.Some? && !(Truthy(colorBy) && df == []) && Truthy(sortBy) && active == []
            ==> out == Raised(KeyError(sortBy.value))
    ensures imgColumn.Some? && !(Truthy(colorBy) && df == []) && !(Truthy(sortBy) && active == []) ==>
      out == Updated(GridTiles(Ordered(active, sortBy, ascending), imgColumn.value, folder,
                               SelectedImage(selectedData, imgColumn.value), ResolveScheme(colorScheme),
                               colorBy, Extremes(df, colorBy).0, Extremes(df, colorBy).1))
  {
    if imgColumn.None? {
      return Updated([]);
    }
    var img := imgColumn.value;
    var lo, hi := 0.0, 0.0;
    if Truthy(colorBy) {
      if df == [] {
        return Raised(KeyError(colorBy.value));
      }
      lo, hi := ColumnMin(df, colorBy.value), ColumnMax(df, colorBy.value);
    }
    var selected := SelectedImage(selectedData, img);
    var records := active;
    if Truthy(sortBy) {
      if active == [] {
        return Raised(KeyError(sortBy.value));
      }
      records := SortOn(active, sortBy.value, ascending);
    }
    assert records == Ordered(active, sortBy, ascending);
    var tiles := BuildGridTiles(records, img, folder, selected, ResolveScheme(colorScheme), colorBy, lo, hi);
    return Updated(tiles);
  }

  /** Lines 52 and 69-96: the loop over the ordered records. */
  method BuildGridTiles(records: seq<Record>, img: string, folder: string, selected: Option<Value>,
                        scheme: Scheme, colorBy: Option<string>, lo: real, hi: real)
    returns (tiles: seq<Tile>)
    requires HasText(records, img) && |scheme.colors| > 0
    requires Truthy(colorBy) ==> HasNum(records, colorBy.value)
    ensures tiles == GridTiles(records, img, folder, selected, scheme, colorBy, lo, hi)
  {
    var borderColor := DefaultBorder;
    tiles := [];
    for i := 0 to |records|
      invariant |tiles| == i
      invariant !Truthy(colorBy) ==> borderColor == DefaultBorder
      invariant forall j :: 0 <= j < i ==>
        tiles[j] == MakeTile(folder, records[j], img, TileClass(selected, records[j][img]),
                             BorderColor(scheme, colorBy, records[j], lo, hi))
    {
      var d := records[i];
      if Truthy(colorBy) {
        borderColor := SampleColorScheme(scheme, Key(d, colorBy.value), lo, hi);
      }
      var imageClass := if selected == Some(d[img]) then "image-grid selected" else "image-grid";
      tiles := tiles + [MakeTile(folder, d, img, imageClass, borderColor)];
    }
    assert tiles == GridTiles(records, img, folder, selected, scheme, colorBy, lo, hi);
  }

  /** The image names of the records, in order. */
  function ImageNames(rs: seq<Record>, img: string): (names: seq<string>)
    requires HasText(rs, img)
    ensures |names| == |rs|
    ensures forall i :: 0 <= i < |rs| ==> names[i] == rs[i][img].t
  {
    if rs == [] then [] else [rs[0][img].t] + ImageNames(rs[1..], img)
  }

  /** The image names of the tiles, in order. */
  function TileIds(tiles: seq<Tile>): (ids: seq<string>)
    ensures |ids| == |tiles|
    ensures forall i :: 0 <= i < |tiles| ==> ids[i] == tiles[i].id
  {
    if tiles == [] then [] else [tiles[0].id] + TileIds(tiles[1..])
  }

  lemma {:induction false} ImageNamesPermutation(a: seq<Record>, b: seq<Record>, img: string)
    requires multiset(a) == multiset(b) && HasText(a, img)
    ensures HasText(b, img)
    ensures multiset(ImageNames(a, img)) == multiset(ImageNames(b, img))
  {
    PermutationKeepsColumns(a, b);
    if a != [] {
      assert a[0] in multiset(b);
      var j :| 0 <= j < |b| && b[j] == a[0];
      RemoveMatching(a, b, j);
      ImageNamesPermutation(a[1..], b[..j] + b[j + 1..], img);
      ImageNamesSplit(b, j, img);
    }
  }

  lemma ImageNamesConcat(a: seq<Record>, b: seq<Record>, img: string)
    requires HasText(a, img) && HasText(b, img)
    ensures HasText(a + b, img)
    ensures ImageNames(a + b, img) == ImageNames(a, img) + ImageNames(b, img)
  {
    var n := ImageNames(a + b, img);
    var m := ImageNames(a, img) + ImageNames(b, img);
    forall i | 0 <= i < |n|
      ensures n[i] == m[i]
    {
      if i >= |a| {
        assert (a + b)[i] == b[i - |a|];
      }
    }
  }

  lemma ImageNamesSplit(b: seq<Record>, j: nat, img: string)
    requires j < |b| && HasText(b, img)
    ensures HasText(b[..j] + b[j + 1..], img)
    ensures multiset(ImageNames(b, img)) == multiset(ImageNames(b[..j] + b[j + 1..], img)) + multiset{b[j][img].t}
  {
    var pre, post := b[..j], b[j + 1..];
    assert HasText(pre, img) && HasText(post, img);
    var names := ImageNames(b, img);
    assert names == names[..j] + [names[j]] + names[j + 1..];
    assert names[..j] == ImageNames(pre, img);
    assert names[j + 1..] == ImageNames(post, img);
    ImageNamesConcat(pre, post, img);
  }

  /** The gallery shows exactly the active records' images: sorting only reorders. */
  lemma GridShowsActiveImages(active: seq<Record>, sortBy: Option<string>, ascending: bool, img: string,
                              folder: string, selected: Option<Value>, scheme: Scheme,
                              colorBy: Option<string>, lo: real, hi: real)
    requires HasText(active, img) && |scheme.colors| > 0
    requires Truthy(colorBy) ==> HasNum(active, colorBy.value)
    requires Truthy(sortBy) ==> HasNum(active, sortBy.value)
    ensures multiset(TileIds(GridTiles(Ordered(active, sortBy, ascending), img, folder, selected, scheme, colorBy, lo, hi)))
         == multiset(ImageNames(active, img))
  {
    var rs := Ordered(active, sortBy, ascending);
    var tiles := GridTiles(rs, img, folder, selected, scheme, colorBy, lo, hi);
    assert TileIds(tiles) == ImageNames(rs, img);
    ImageNamesPermutation(active, rs, img);
  }

  /** A tile is marked iff its image is the first selected record's image; with no
      (or an empty) selection no tile is marked. */
  lemma SelectedTileIffSameImage(rs: seq<Record>, img: string, folder: string, sel: Option<seq<Record>>,
                                 scheme: Scheme, colorBy: Option<string>, lo: real, hi: real, i: nat)
    requires HasText(rs, img) && |scheme.colors| > 0
    requires Truthy(colorBy) ==> HasNum(rs, colorBy.value)
    requires i < |rs|
    ensures var t := GridTiles(rs, img, folder, SelectedImage(sel, img), scheme, colorBy, lo, hi)[i];
            (t.className == "image-grid selected" <==> SelectedImage(sel, img) == Some(Text(t.id)))
            && t.className in {"image-grid selected", "image-grid"}
    ensures (sel.None? || sel.value == []) ==>
            GridTiles(rs, img, folder, SelectedImage(sel, img), scheme, colorBy, lo, hi)[i].className == "image-grid"
  {
    assert rs[i][img] == Text(rs[i][img].t);
  }

  /** Without a colour column every border is the default blue; with one, each border
      is an anchor of the scheme, the records at the whole frame's minimum and maximum
      take the first and last anchor. */
  lemma GridBorders(rs: seq<Record>, df: seq<Record>, img: string, folder: string, selected: Option<Value>,
                    scheme: Scheme, colorBy: Option<string>, i: nat)
    requires HasText(rs, img) && |scheme.colors| > 0
    requires Truthy(colorBy) ==> HasNum(rs, colorBy.value) && HasNum(df, colorBy.value)
    requires i < |rs|
    ensures var (lo, hi) := Extremes(df, colorBy);
            var b := GridTiles(rs, img, folder, selected, scheme, colorBy, lo, hi)[i].borderColor;
            && (!Truthy(colorBy) ==> b == DefaultBorder)
            && (Truthy(colorBy) ==> exists k :: 0 <= k < |scheme.colors| && b == RgbToHex(scheme.colors[k]))
            && (Truthy(colorBy) && df != [] && lo < hi && Key(rs[i], colorBy.value) == lo ==> b == RgbToHex(scheme.colors[0]))
            && (Truthy(colorBy) && df != [] && lo < hi && Key(rs[i], colorBy.value) == hi
                ==> b == RgbToHex(scheme.colors[|scheme.colors| - 1]))
  {
    var (lo, hi) := Extremes(df, colorBy);
    if Truthy(colorBy) && df != [] && lo < hi {
      EndpointsGiveEndAnchors(scheme, lo, hi);
    }
  }

  /* ---------- update_selected_image_table ---------- */

  /** `update_selected_image_table`: no selection leaves the three outputs alone;
      otherwise the first selected record's image is shown beside a narrowed grid. */
  function UpdateSelectedImageTable(sel: Option<seq<Record>>, img: string, folder: string): (out: Outcome<SelectedView>)
    requires sel.Some? && |sel.value| > 0 && img in sel.value[0] ==> sel.value[0][img].Text?
    ensures sel.None? <==> out.NoUpdate?
    ensures sel == Some([]) ==> out == Raised(IndexError)
    ensures sel.Some? && sel.value != [] && img !in sel.value[0] ==> out == Raised(KeyError(img))
    ensures out.Updated? <==> sel.Some? && sel.value != [] && img in sel.value[0]
    ensures out.Updated? ==>
      out.value == SelectedView(ImageSrc(folder, sel.value[0][img].t), SelectedContainerStyle(), SelectedGridStyle())
  {
    if sel.None? then NoUpdate
    else if sel.value == [] then Raised(IndexError)
    else if img !in sel.value[0] then Raised(KeyError(img))
    else Updated(SelectedView(ImageSrc(folder, sel.value[0][img].t), SelectedContainerStyle(), SelectedGridStyle()))
  }

  /* ---------- update_click_selected_image ---------- */

  /** `update_click_selected_image`: a click clears the selection and resets both
      layout styles; a None click count falls off the end of the function. */
  function UpdateClickSelectedImage(nClicks: Option<int>): (r: ClickReply)
    ensures r.ClearAll? <==> nClicks.Some?
    ensures r.ClearAll? ==> r.containerStyle == map[] && r.gridStyle == map[]
  {
    if nClicks.Some? then ClearAll(map[], map[]) else ReturnsNone
  }

  /* ---------- update_clicked_image_grid ---------- */

  /** Line 176: the records whose image is the clicked one, in frame order. */
  function Matching(df: seq<Record>, img: string, id: string): (m: seq<Record>)
    requires HasText(df, img)
    ensures HasText(m, img)
  {
    if df == [] then [] else
      (if df[0][img] == Text(id) then [df[0]] else []) + Matching(df[1..], img, id)
  }

  /** Exactly the records showing the clicked image are selected. */
  lemma {:induction false} MatchingExactly(df: seq<Record>, img: string, id: string)
    requires HasText(df, img)
    ensures forall r :: r in Matching(df, img, id) <==> r in df && img in r && r[img] == Text(id)
    ensures |Matching(df, img, id)| <= |df|
  {
    if df != [] {
      MatchingExactly(df[1..], img, id);
      assert df == [df[0]] + df[1..];
    }
  }

  /** A label the details can show: catalogued, and held by the first selected record. */
  predicate LabelShown(lbl: string, params: map<string, Param>, recs: seq<Record>)
  {
    lbl in params && recs != [] && lbl in recs[0]
  }

  /** Lines 179-185 as a fold over the labels; the first label that fails decides
      the exception (`parameters[label]` is evaluated before `record[0][label]`). */
  function InfoLines(labels: seq<string>, params: map<string, Param>, recs: seq<Record>): (r: Result<seq<InfoLine>>)
    ensures r.Ok? ==> |r.value| == |labels|
    ensures r.Ok? && labels != [] ==> recs != []
  {
    if labels == [] then Ok([]) else
      var prefix := InfoLines(labels[..|labels| - 1], params, recs);
      var lbl := labels[|labels| - 1];
      if prefix.Err? then prefix
      else if lbl !in params then Err(KeyError(lbl))
      else if recs == [] then Err(IndexError)
      else if lbl !in recs[0] then Err(KeyError(lbl))
      else Ok(prefix.value + [InfoLine(params[lbl].displayName, recs[0][lbl])])
  }

  /** The details succeed iff every label can be shown; then there is one line per
      label, in label order, naming its display name and the selected record's value. */
  lemma {:induction false} InfoLinesProperties(labels: seq<string>, params: map<string, Param>, recs: seq<Record>)
    ensures InfoLines(labels, params, recs).Ok?
        <==> forall i :: 0 <= i < |labels| ==> LabelShown(labels[i], params, recs)
    ensures InfoLines(labels, params, recs).Ok? ==>
      var lines := InfoLines(labels, params, recs).value;
      |lines| == |labels|
      && forall i :: 0 <= i < |labels| ==>
           lines[i] == InfoLine(params[labels[i]].displayName, recs[0][labels[i]])
    ensures InfoLines(labels, params, recs) == Err(IndexError) ==> recs == []
  {
    if labels != [] {
      var init := labels[..|labels| - 1];
      InfoLinesProperties(init, params, recs);
      assert forall i :: 0 <= i < |init| ==> init[i] == labels[i];
    }
  }

  /** `update_clicked_image_grid` as a function of its inputs. */
  function ClickedImageGrid(clicks: seq<Option<int>>, id: string, df: seq<Record>, labels: seq<string>,
                            img: string, params: map<string, Param>): (out: Outcome<(seq<Record>, seq<InfoLine>)>)
    requires HasText(df, img)
    ensures AllNone(clicks) <==> out.NoUpdate?
    ensures !AllNone(clicks) && df == [] ==> out == Raised(KeyError(img))
    ensures out.Updated? ==> out.value.0 == Matching(df, img, id)
  {
    if AllNone(clicks) then NoUpdate
    else if df == [] then Raised(KeyError(img))
    else
      var recs := Matching(df, img, id);
      match InfoLines(labels, params, recs)
      case Ok(lines) => Updated((recs, lines))
      case Err(e) => Raised(e)
  }

  /** `update_clicked_image_grid`, its label loop appending one line at a time. */
  method UpdateClickedImageGrid(clicks: seq<Option<int>>, id: string, df: seq<Record>, labels: seq<string>,
                                img: string, params: map<string, Param>)
    returns (out: Outcome<(seq<Record>, seq<InfoLine>)>)
    requires HasText(df, img)
    ensures out == ClickedImageGrid(clicks, id, df, labels, img, params)
  {
    var i := 0;
    while i < |clicks|
      invariant 0 <= i <= |clicks|
      invariant forall j :: 0 <= j < i ==> clicks[j].None?
    {
      if clicks[i].Some? {
        break;
      }
      i := i + 1;
    }
    if i == |clicks| {
      return NoUpdate;
    }
    if df == [] {
      return Raised(KeyError(img));
    }
    var recs := Matching(df, img, id);
    var info: seq<InfoLine> := [];
    var k := 0;
    while k < |labels|
      invariant 0 <= k <= |labels|
      invariant InfoLines(labels[..k], params, recs) == Ok(info)
    {
      var lbl := labels[k];
      assert labels[..k + 1][..k] == labels[..k];
      var p := Lookup(params, lbl);
      if p.Err? {
        InfoLinesFailureSticks(labels, params, recs, k + 1);
        return Raised(p.error);
      }
      if recs == [] {
        InfoLinesFailureSticks(labels, params, recs, k + 1);
        return Raised(IndexError);
      }
      var v := Lookup(recs[0], lbl);
      if v.Err? {
        InfoLinesFailureSticks(labels, params, recs, k + 1);
        return Raised(v.error);
      }
      info := info + [InfoLine(p.value.displayName, v.value)];
      k := k + 1;
    }
    assert labels[..k] == labels;
    return Updated((recs, info));
  }

  /** Once a prefix of the labels fails, the whole fold fails the same way. */
  lemma {:induction false} InfoLinesFailureSticks(labels: seq<string>, params: map<string, Param>, recs: seq<Record>, n: nat)
    requires n <= |labels|
    requires InfoLines(labels[..n], params, recs).Err?
    ensures InfoLines(labels, params, recs) == InfoLines(labels[..n], params, recs)
    decreases |labels| - n
  {
    if n < |labels| {
      assert labels[..n + 1][..n] == labels[..n];
      InfoLinesFailureSticks(labels, params, recs, n + 1);
    } else {
      assert labels[..n] == labels;
    }
  }

  /* ---------- update_images_grid_div_display ---------- */

  /** The images container is hidden iff there is no image column. */
  function UpdateImagesGridDivDisplay(imgColumn: Option<string>): (s: Style)
    ensures imgColumn.None? <==> "display" in s && s["display"] == "none"
    ensures imgColumn.None? ==> s == map["display" := "none"]
    ensures imgColumn.Some? ==> s == map[]
  {
    if imgColumn.None? then map["display" := "none"] else map[]
  }
}
