/** The colour-by and colour-scheme callbacks of app/callbacks/color.py. The
    Plotly figure is reduced to what the callbacks decide about it: which column's
    values colour the lines, and which palette a rebuilt figure uses. */
module ColorCallbacks {
  import opened Common
  import opened ColorSchemes
  import opened Frames
  import opened Helper
  import opened Containers

  /** Every record of the frame has the same columns, as `to_dict('records')` gives. */
  predicate Uniform(df: seq<Record>)
  {
    forall i :: 0 <= i < |df| ==> df[i].Keys == df[0].Keys
  }

  /** `dff[col]`: the column's values in record order; an empty frame has no columns. */
  function Column(df: seq<Record>, col: string): (r: Result<seq<Value>>)
    requires Uniform(df)
    ensures r.Ok? <==> df != [] && col in df[0]
    ensures r.Err? ==> r.error == KeyError(col)
    ensures r.Ok? ==> |r.value| == |df| && forall i :: 0 <= i < |df| ==> r.value[i] == df[i][col]
  {
    if df != [] && col in df[0] then
      assert forall i :: 0 <= i < |df| ==> col in df[i];
      Ok(seq(|df|, i requires 0 <= i < |df| => df[i][col]))
    else Err(KeyError(col))
  }

  /** What `update_color_by` writes into the figure's line colour. */
  datatype LineColor = ColoredBy(values: seq<Value>) | Uncolored

  /** The three outputs of `update_color_by`. */
  datatype ColorByReply = ColorByReply(line: LineColor, store: Option<string>, caption: string)

  /** `update_color_by`. `colorBy` is the clicked item's id: a column name, or
      None for the "None" item (its id is `False`). */
  function UpdateColorBy(clicks: seq<Option<int>>, colorBy: Option<string>, df: seq<Record>,
                         labels: map<string, string>): (out: Outcome<ColorByReply>)
    requires Uniform(df)
    ensures AllNone(clicks) <==> out.NoUpdate?
    ensures !AllNone(clicks) && !Truthy(colorBy) ==> out == Updated(ColorByReply(Uncolored, colorBy, "None"))
    ensures !AllNone(clicks) && Truthy(colorBy) ==>
      match Column(df, colorBy.value)
      case Err(e) => out == Raised(e)
      case Ok(values) =>
        out == (if colorBy.value in labels
                then Updated(ColorByReply(ColoredBy(values), colorBy, labels[colorBy.value]))
                else Raised(KeyError(colorBy.value)))
  {
    if AllNone(clicks) then NoUpdate
    else if Truthy(colorBy) then
      match Column(df, colorBy.value)
      case Err(e) => Raised(e)
      case Ok(values) =>
        match Lookup(labels, colorBy.value)
        case Err(e) => Raised(e)
        case Ok(caption) => Updated(ColorByReply(ColoredBy(values), colorBy, caption))
    else Updated(ColorByReply(Uncolored, colorBy, "None"))
  }

  /** Choosing a catalogued column from the menu colours the lines by that column's
      values and captions the dropdown with the column's id. */
  lemma ColorByMenuClick(cols: seq<string>, c: Catalog, clicks: seq<Option<int>>, k: string, df: seq<Record>)
    requires CatalogOf(cols, c) && k in c.parameters.vals && k != ""
    requires Uniform(df) && df != [] && k in df[0] && !AllNone(clicks)
    ensures UpdateColorBy(clicks, Some(k), df, c.labels.vals)
         == Updated(ColorByReply(ColoredBy(Column(df, k).value), Some(k), Id(k)))
  {
    assert k in c.labels.keys;
  }

  /** The palette handed to a rebuilt figure: `rgb_to_hex` of each anchor, in order. */
  function HexPalette(s: Scheme): (hexes: seq<string>)
    ensures |hexes| == |s.colors|
    ensures forall i :: 0 <= i < |hexes| ==> hexes[i] == RgbToHex(s.colors[i])
  {
    seq(|s.colors|, i requires 0 <= i < |s.colors| => RgbToHex(s.colors[i]))
  }

  /** The palette loses nothing: each entry reads back as its anchor, so two schemes
      with the same palette have the same anchors. */
  lemma HexPaletteFaithful(a: Scheme, b: Scheme)
    ensures forall i :: 0 <= i < |a.colors| ==> ParseHex(HexPalette(a)[i]) == Some(a.colors[i])
    ensures HexPalette(a) == HexPalette(b) ==> a.colors == b.colors
  {
    forall i | 0 <= i < |a.colors|
      ensures ParseHex(HexPalette(a)[i]) == Some(a.colors[i])
    {
      HexRoundTrip(a.colors[i]);
    }
    if HexPalette(a) == HexPalette(b) {
      forall i | 0 <= i < |a.colors|
        ensures a.colors[i] == b.colors[i]
      {
        RgbToHexInjective(a.colors[i], b.colors[i]);
      }
    }
  }

  /** A rebuilt parallel-coordinates figure: coloured by a column with a palette. */
  datatype Figure = Figure(colorColumn: string, palette: seq<string>)

  /** The three outputs of `update_color_scheme`. */
  datatype SchemeReply = SchemeReply(store: string, caption: string, figure: Write<Figure>)

  /** `update_color_scheme`. `scheme` is the clicked item's id; `hasFigure` is the
      truthiness of the current figure. */
  function UpdateColorScheme(clicks: seq<Option<int>>, scheme: string, df: seq<Record>,
                             colorByColumn: Option<string>, hasFigure: bool): (out: Outcome<SchemeReply>)
    ensures AllNone(clicks) <==> out.NoUpdate?
    ensures out.Updated? ==> out.value.store == scheme && out.value.caption == scheme
    ensures !AllNone(clicks) && !(Truthy(colorByColumn) && df != [] && hasFigure)
            ==> out == Updated(SchemeReply(scheme, scheme, Keep))
    ensures out.Raised? <==> !AllNone(clicks) && Truthy(colorByColumn) && df != [] && hasFigure
                             && scheme !in Schemes()
    ensures out.Raised? ==> out.error == KeyError(scheme)
    ensures out.Updated? && out.value.figure.Put? ==>
      out.value.figure.value == Figure(colorByColumn.value, HexPalette(Schemes()[scheme]))
  {
    if AllNone(clicks) then NoUpdate
    else if Truthy(colorByColumn) && df != [] && hasFigure then
      match Lookup(Schemes(), scheme)
      case Err(e) => Raised(e)
      case Ok(s) => Updated(SchemeReply(scheme, scheme, Put(Figure(colorByColumn.value, HexPalette(s)))))
    else Updated(SchemeReply(scheme, scheme, Keep))
  }

  /** Every scheme the menu offers can be picked: the click never raises, and a
      rebuilt figure gets a palette as long as the scheme. */
  lemma SchemeMenuClicksSucceed(clicks: seq<Option<int>>, i: nat, df: seq<Record>,
                                colorByColumn: Option<string>, hasFigure: bool)
    requires i < |SchemeMenu()| && !AllNone(clicks)
    ensures SchemeMenu()[i].Entry? && SchemeMenu()[i].key.Some?
    ensures var name := SchemeMenu()[i].key.value;
            var out := UpdateColorScheme(clicks, name, df, colorByColumn, hasFigure);
            out.Updated? && out.value.store == name
            && (out.value.figure.Put? ==> |out.value.figure.value.palette| == |Schemes()[name].colors| > 0)
  {
    SchemeMenuInTable();
  }
}
