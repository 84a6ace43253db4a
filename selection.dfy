/** The two-state selection of the gallery: the stores and properties that the
    callbacks of app/callbacks/image.py write when a grid image or the detail
    image is clicked, with each callback's outcome applied to them. */
module Selection {
  import opened Common
  import opened Frames
  import opened Helper
  import opened Containers
  import opened ImageCallbacks

  /** What the selection callbacks write. */
  datatype Gallery = Gallery(
    data: Option<seq<Record>>,    // store 'selected-image-data'
    info: Option<seq<InfoLine>>,  // 'selected-image-info' children
    src: Option<ImageSrc>,        // 'selected-image' src
    nClicks: Option<int>,         // 'selected-image' n_clicks
    containerStyle: Style,        // 'selected-image-container' style
    gridStyle: Style)             // 'images-grid' style

  /** Nothing selected: no record, no image, default layout. */
  predicate Unselected(g: Gallery)
  {
    g.data.None? && g.info.None? && g.src.None? && g.containerStyle == map[] && g.gridStyle == map[]
  }

  /** A record selected: its image shown beside the narrowed grid. */
  predicate Selected(g: Gallery, img: string, folder: string)
  {
    && g.data.Some? && g.data.value != [] && img in g.data.value[0] && g.data.value[0][img].Text?
    && g.src == Some(ImageSrc(folder, g.data.value[0][img].t))
    && g.containerStyle == SelectedContainerStyle() && g.gridStyle == SelectedGridStyle()
  }

  /** The layout always matches the selection. */
  predicate Consistent(g: Gallery, img: string, folder: string)
  {
    Unselected(g) || Selected(g, img, folder)
  }

  /** A selection that holds an image name wherever its first record has the column. */
  predicate ImagesAreText(data: Option<seq<Record>>, img: string)
  {
    data.Some? && |data.value| > 0 && img in data.value[0] ==> data.value[0][img].Text?
  }

  /** `update_selected_image_table` fires on every change of the selection store. */
  function ShowSelection(g: Gallery, img: string, folder: string): (g': Gallery)
    requires ImagesAreText(g.data, img)
    ensures g'.data == g.data && g'.info == g.info && g'.nClicks == g.nClicks
  {
    match UpdateSelectedImageTable(g.data, img, folder)
    case Updated(v) => g.(src := Some(v.src), containerStyle := v.containerStyle, gridStyle := v.gridStyle)
    case _ => g
  }

  /** A click on a grid image: `update_clicked_image_grid`, then the display update
      its new selection triggers. An exception or no update leaves everything as it was. */
  function ClickGridImage(g: Gallery, clicks: seq<Option<int>>, id: string, df: seq<Record>,
                          labels: seq<string>, img: string, params: map<string, Param>, folder: string): (h: Gallery)
    requires HasText(df, img)
    ensures h.nClicks == g.nClicks
    ensures !ClickedImageGrid(clicks, id, df, labels, img, params).Updated? ==> h == g
  {
    match ClickedImageGrid(clicks, id, df, labels, img, params)
    case Updated((recs, lines)) => ShowSelection(g.(data := Some(recs), info := Some(lines)), img, folder)
    case _ => g
  }

  /** A click on the detail image: `update_click_selected_image`, whose reset of the
      selection store triggers `update_selected_image_table` with None (no update). */
  function ClickDetailImage(g: Gallery, nClicks: Option<int>, img: string, folder: string): (h: Gallery)
    ensures nClicks.None? ==> h == g
    ensures nClicks.Some? ==> Unselected(h) && h.nClicks.None?
  {
    match UpdateClickSelectedImage(nClicks)
    case ClearAll(cs, gs) => ShowSelection(Gallery(None, None, None, None, cs, gs), img, folder)
    case ReturnsNone => g
  }

  /** The clicked id is the image of some record, as it is for every grid tile. */
  predicate ImageOfSomeRecord(df: seq<Record>, img: string, id: string)
    requires HasText(df, img)
  {
    exists i :: 0 <= i < |df| && df[i][img] == Text(id)
  }

  /** Every label is catalogued and is a column of every record. */
  predicate LabelsAreColumns(df: seq<Record>, labels: seq<string>, params: map<string, Param>)
  {
    forall k :: 0 <= k < |labels| ==> labels[k] in params && forall i :: 0 <= i < |df| ==> labels[k] in df[i]
  }

  /** A real click on a tile selects exactly the records showing that image, lists
      one detail line per label in label order, and shows the image beside the
      narrowed grid. */
  lemma ClickGridImageSelects(g: Gallery, clicks: seq<Option<int>>, id: string, df: seq<Record>,
                              labels: seq<string>, img: string, params: map<string, Param>, folder: string)
    requires HasText(df, img) && !AllNone(clicks)
    requires ImageOfSomeRecord(df, img, id) && LabelsAreColumns(df, labels, params)
    ensures var g' := ClickGridImage(g, clicks, id, df, labels, img, params, folder);
            && Selected(g', img, folder)
            && g'.data == Some(Matching(df, img, id))
            && g'.info.Some? && |g'.info.value| == |labels|
            && g'.src == Some(ImageSrc(folder, id))
            && (forall k :: 0 <= k < |labels| ==>
                  labels[k] in params && labels[k] in g'.data.value[0] &&
                  g'.info.value[k] == InfoLine(params[labels[k]].displayName, g'.data.value[0][labels[k]]))
  {
    var i :| 0 <= i < |df| && df[i][img] == Text(id);
    MatchingExactly(df, img, id);
    var recs := Matching(df, img, id);
    assert df[i] in recs;
    assert recs[0] in df;
    InfoLinesProperties(labels, params, recs);
  }

  /** Clicking the detail image always ends unselected. */
  lemma ClickDetailImageClears(g: Gallery, n: int, img: string, folder: string)
    ensures Unselected(ClickDetailImage(g, Some(n), img, folder))
    ensures ClickDetailImage(g, Some(n), img, folder).nClicks.None?
  {
  }

  /** Clicks keep the layout in step with the selection. */
  lemma {:induction false} ClicksPreserveConsistency(g: Gallery, clicks: seq<Option<int>>, id: string, df: seq<Record>,
                                                     labels: seq<string>, img: string, params: map<string, Param>,
                                                     folder: string, n: Option<int>)
    requires Consistent(g, img, folder)
    requires HasText(df, img) && ImageOfSomeRecord(df, img, id)
    ensures Consistent(ClickGridImage(g, clicks, id, df, labels, img, params, folder), img, folder)
    ensures Consistent(ClickDetailImage(g, n, img, folder), img, folder)
  {
    var out := ClickedImageGrid(clicks, id, df, labels, img, params);
    if out.Updated? {
      var i :| 0 <= i < |df| && df[i][img] == Text(id);
      MatchingExactly(df, img, id);
      assert df[i] in Matching(df, img, id);
    }
  }

  /** After a successful click, what is selected and shown depends on that click
      alone, not on what was selected before. */
  lemma LatestClickWins(g1: Gallery, g2: Gallery, clicks: seq<Option<int>>, id: string, df: seq<Record>,
                        labels: seq<string>, img: string, params: map<string, Param>, folder: string)
    requires HasText(df, img)
    requires ClickedImageGrid(clicks, id, df, labels, img, params).Updated?
    requires ImageOfSomeRecord(df, img, id)
    ensures var a := ClickGridImage(g1, clicks, id, df, labels, img, params, folder);
            var b := ClickGridImage(g2, clicks, id, df, labels, img, params, folder);
            a.data == b.data && a.info == b.info && a.src == b.src
            && a.containerStyle == b.containerStyle && a.gridStyle == b.gridStyle
  {
    var i :| 0 <= i < |df| && df[i][img] == Text(id);
    MatchingExactly(df, img, id);
    assert df[i] in Matching(df, img, id);
  }

  /** The gallery as laid out (app/containers.py:388-401): no data, no image, no styles. */
  function Initial(): (g: Gallery)
    ensures Unselected(g)
  {
    Gallery(None, None, None, None, map[], map[])
  }

  /** Loading a project as app/callbacks/upload.py:191-203 writes it: the details and
      both layout styles are reset, but 'selected-image-data' and the shown image are
      not among the outputs and keep their values. */
  function LoadProjectAsWritten(g: Gallery): (g': Gallery)
    ensures g'.data == g.data && g'.src == g.src
    ensures g'.info.None? && g'.containerStyle == map[] && g'.gridStyle == map[]
  {
    g.(info := None, containerStyle := map[], gridStyle := map[])
  }

  /** Switching projects while an image is selected leaves a selection whose layout
      no longer matches it: the gallery is neither selected nor unselected. */
  lemma LoadAsWrittenKeepsStaleSelection(g: Gallery, img: string, folder: string)
    requires Selected(g, img, folder)
    ensures LoadProjectAsWritten(g).data == g.data && LoadProjectAsWritten(g).data.Some?
    ensures !Consistent(LoadProjectAsWritten(g), img, folder)
  {
    assert "width" in SelectedContainerStyle();
  }

  /** Loading a project with the selection cleared as well. */
  function LoadProject(g: Gallery): (g': Gallery)
    ensures g'.nClicks == g.nClicks
  {
    g.(data := None, info := None, src := None, containerStyle := map[], gridStyle := map[])
  }

  /** A load always ends unselected, and so consistent, whatever was selected before. */
  lemma LoadProjectUnselects(g: Gallery, img: string, folder: string)
    ensures Unselected(LoadProject(g)) && Consistent(LoadProject(g), img, folder)
    ensures LoadProject(LoadProject(g)) == LoadProject(g)
  {
  }
}
