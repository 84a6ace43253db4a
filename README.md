# Design Explorer: a Dafny model of the gallery, menus and project loading

Design Explorer is a Dash application. It shows a parametric design study as a
parallel-coordinates plot beside a gallery of images, one image per design. A study
is a CSV file whose column names have the form `type:id`:

- `in:` columns are inputs;
- `out:` columns are outputs;
- `img:` columns hold image file names.

This project models the decision logic of the application in Dafny and proves
properties of it. The modelled code is:

- **app/helper.py**: `process_dataframe`, which reads the column names into the
  parameter catalog.
- **app/color_schemes.py**: the four palettes, `rgb_to_hex`, the quantised
  `sample_color_scheme` and the default scheme name.
- **app/containers.py**: the colour-by and sort-by menu builders, the
  images-grid builder, and the layout of the gallery's initial state.
- **app/callbacks/image.py**:
  - the grid callback;
  - the selected-image display;
  - the two click callbacks that select and clear an image;
  - the grid container's display toggle.
- **app/callbacks/color.py**: the colour-by and colour-scheme callbacks.
- **app/callbacks/upload.py**:
  - the sample/ZIP toggle;
  - the uploaded-project list;
  - loading an uploaded project.

## Model of the data and the callbacks

- **Records.** A `dcc.Store` holds `DataFrame.to_dict('records')`. This is a
  sequence of `map<string, Value>`, where `Value` is a number or a string.
- **Dicts.** Python dicts whose order matters are an `OMap`: the keys in insertion
  order over a finite map.
- **Callback outcomes.** A callback either does not update (`PreventUpdate` or an
  all-`no_update` tuple), raises (`KeyError`, `IndexError` or `ValueError`), or
  returns new values. This is the `Outcome` datatype.
- **Dash components.** Components are reduced to small descriptors:
  - a menu entry with its pattern-matching id, a divider or a header;
  - a tile with its image source, id, class and border colour.
- **Code that changes state.** Where the code builds its result step by step, the
  model is a `method` with the same loop. Its contract ties the result to a
  specification function, and the properties of that function are lemmas:
  - `process_dataframe`;
  - both menu builders;
  - `create_images_grid_children`;
  - `update_images_grid`;
  - `update_clicked_image_grid`;
  - the table-column loop and the two upload callbacks.
- **Selection.** The `Selection` module puts the stores and styles that the
  selection callbacks write into one `Gallery` value, and applies each callback's
  outcome to it. Clicks on a tile or on the detail image keep the layout matching
  the selection; a project switch as written does not (see the Findings).

Python's semantics are written out where they matter:

- `int()` truncates toward zero;
- `max(0, min(i, n - 1))` clamps;
- `str.split(':')` fails to unpack unless there is exactly one `:`;
- `PurePath.stem` drops only the final suffix;
- `dict.get(k, d)` evaluates `d` before the call;
- `all()` of an empty sequence is true.

Where the code departs from what its own outputs evidently intend, the model
follows the code:

- **Switching projects.** A load resets the details and both layout styles, so the
  selected-image store evidently should be reset too. The code does not reset it.
  See the Findings.
- **Ingestion errors.** A contents string that does not split into two parts at one
  `,` (line 51), or a payload that does not decode as base64 (line 52), raises an
  exception. Both steps are outside the `try`, so the failure is not silently
  ignored.
- **Empty and duplicate catalogs.** A study with neither input nor output columns
  raises `IndexError` at `input_columns[0]`. Duplicate parameter ids cannot occur,
  because a frame's column names are distinct.

## Model

| member | source | states |
|---|---|---|
| Common.Lookup | app/containers.py:250 | a dict lookup succeeds exactly when the key is present and then yields its value; otherwise it raises KeyError |
| Common.OMap.Set | app/helper.py:15-20 | assigning a new key appends it in insertion order, an existing key keeps its place, and the map then holds the new value |
| Common.OMap.Values | app/containers.py:228 | `values()` lists the values in key insertion order |
| Common.Count | app/callbacks/upload.py:51 | the number of occurrences is 0 exactly when the character is absent, and never more than the length |
| ColorSchemes.Schemes | app/color_schemes.py:4-66 | every palette of the table has at least one anchor colour |
| ColorSchemes.SchemesWellFormed | app/color_schemes.py:4-66 | the table holds exactly the four schemes Original, Nuanced, Multi-Colored and Parula, each named after its key and with a non-empty palette |
| ColorSchemes.DefaultColorScheme | app/color_schemes.py:92-94 | the default scheme name is a key of the table |
| ColorSchemes.RgbToHex | app/color_schemes.py:69-71 | the hex string is `#` followed by six lower-case hex digits, two per channel |
| ColorSchemes.HexRoundTrip | app/color_schemes.py:69-71 | parsing the hex string of a colour gives the colour back |
| ColorSchemes.RgbToHexInjective | app/color_schemes.py:69-71 | two colours with the same hex string are equal |
| ColorSchemes.Normalized | app/color_schemes.py:77 | the normalised value is 0 on a degenerate domain (max not above min) and at the minimum, and lies in [0, 1] for a value inside the domain |
| ColorSchemes.TruncateTowardZero | app/color_schemes.py:84 | `int()` gives the integer between 0 and the number that is less than 1 away from it: the floor for a non-negative number and the ceiling for a negative one |
| ColorSchemes.Clamp | app/color_schemes.py:86 | the clamped index lies in `[0, n)`, leaves an in-range index alone, and sends underflow to 0 and overflow to n - 1 |
| ColorSchemes.AnchorIndex | app/color_schemes.py:77-86 | the chosen index is a valid anchor position |
| ColorSchemes.SampleColorScheme | app/color_schemes.py:74-89 | the sampled colour is always one of the scheme's anchors, never a blend |
| ColorSchemes.TruncationAgreesWithFloor | app/color_schemes.py:84-86 | after the clamp, truncating toward zero and taking the floor give the same index |
| ColorSchemes.DegenerateDomainGivesFirstAnchor | app/color_schemes.py:77 | when max is not greater than min, every value gets the first anchor |
| ColorSchemes.AnchorIndexAtMin | app/color_schemes.py:77-86 | on a proper domain the minimum gets index 0 |
| ColorSchemes.AnchorIndexAtMax | app/color_schemes.py:77-86 | on a proper domain the maximum gets index n - 1 |
| ColorSchemes.EndpointsGiveEndAnchors | app/color_schemes.py:74-89 | on a proper domain the minimum is coloured with the first anchor and the maximum with the last |
| ColorSchemes.AnchorIndexMonotone | app/color_schemes.py:77-86 | on a proper domain a larger value never gets an earlier anchor |
| ColorSchemes.AnchorIndexIsFloor | app/color_schemes.py:84-86 | inside the domain the index k satisfies k <= normalized * (n - 1) < k + 1 |
| Frames.ColumnMin | app/callbacks/image.py:50 | the minimum is at most every value of the column and is attained by some record |
| Frames.ColumnMax | app/callbacks/image.py:50 | the maximum is at least every value of the column and is attained by some record |
| Frames.PermutationKeepsColumns | app/callbacks/image.py:59-63 | reordering records keeps every numeric and every text column present in all of them |
| Frames.Insert | app/callbacks/image.py:61-62 | inserting a record keeps the column numeric and adds exactly that record to the multiset |
| Frames.InsertSorted | app/callbacks/image.py:61-62 | inserting into records ordered on the column keeps them ordered |
| Frames.SortOn | app/callbacks/image.py:61-62 | the sorted records keep the column numeric and are a permutation of the input |
| Frames.SortOnProperties | app/callbacks/image.py:61-62 | `sort_values` returns a permutation of the records, ordered on the column in the requested direction |
| Frames.SortOnSortedIsIdentity | app/callbacks/image.py:61-62 | sorting records that are already in order returns them unchanged; this holds for the model's fixed tie order, not for every order an unstable sort may give |
| Frames.SortOnIdempotent | app/callbacks/image.py:61-62 | sorting again on the same column and direction changes nothing; this holds for the model's fixed tie order, not for every order an unstable sort may give |
| Frames.Keys | app/callbacks/image.py:61-62 | the column's values, one per record, in record order |
| Frames.KeysPermutation | app/callbacks/image.py:61-62 | reordering records reorders the column's values and loses none |
| Frames.MonotoneArrangementUnique | app/callbacks/image.py:61-62 | two arrangements of the same numbers that are both ordered in one direction are the same sequence |
| Frames.SortedPermutationsShareKeys | app/callbacks/image.py:61-62 | two permutations of the same records that are both ordered on the column have the same sequence of column values |
| Frames.AnySortAgreesOnKeys | app/callbacks/image.py:61-62 | every correct sort, whatever order it gives ties, yields the same column values as SortOn; on records already in order it keeps their column values, so sorting again changes no column value |
| Helper.SplitColumn | app/helper.py:13 | the name unpacks exactly when it holds one `:`, and the two halves then hold every other character of the name |
| Helper.SplitColumnSound | app/helper.py:13 | a name that unpacks is `type + ":" + id`, and neither half holds a `:` |
| Helper.SplitColumnComplete | app/helper.py:13 | every colon-free type and id are read back from `type:id` |
| Helper.ColumnsOfKindMembers | app/helper.py:21-26 | the input, output and image lists hold exactly the columns of that type |
| Helper.AddColumn | app/helper.py:13-26 | one loop step keeps the labels and the parameters keyed alike and in column order |
| Helper.CatalogSpecIsCatalog | app/helper.py:12-28 | the catalog folded over the columns labels exactly the non-image columns with their ids, records each parameter's column, display name and type, and lists the columns of each type in order |
| Helper.ProcessDataframe | app/helper.py:6-28 | `process_dataframe` raises ValueError exactly when some column name does not split into two parts; otherwise its result is the catalog described by CatalogOf |
| Helper.CatalogPlacesEachColumn | app/helper.py:14-26 | an image column is listed only as an image; every other column is labelled and catalogued and goes to the input or output list by its type |
| Containers.MenuEntriesAre | app/containers.py:228-239 | the menu entries are exactly the catalogued parameters of the given type, each labelled with its display name and keyed by its column, never more than the catalog holds |
| Containers.SchemeMenuInTable | app/containers.py:263-271 | every scheme the menu offers is a key of the palette table, filed under the entry's text, and the menu offers every scheme |
| Containers.CreateColorByChildren | app/containers.py:222-279 | raises KeyError exactly when the colour column is not catalogued; otherwise the items are None, a divider, the output entries, a divider and the input entries with their headers; the caption is the column's display name and the store holds the column; the scheme menu, its label and its store start at Original |
| Containers.CreateSortByChildren | app/containers.py:296-342 | raises KeyError exactly when the sort column is not catalogued; otherwise the output entries come before the input entries with their headers, the caption is the column's display name, the store holds the column, the direction store starts descending and the icon is `bi bi-sort-down` |
| Containers.ResolveScheme | app/containers.py:351 | a known scheme name gives its palette and an unknown one gives the default Original palette, which is never empty |
| Containers.ColoredTile | app/containers.py:355-362 | a tile shows its record's image from the project folder, has class `image-grid`, and has the sampled colour of its colour value as border |
| Containers.CreateImagesGridChildren | app/containers.py:345-375 | one tile per record in the given order, each tile as ColoredTile describes, coloured with the resolved scheme |
| Containers.GridChildrenBorders | app/containers.py:353-373 | each child shows its own record's image; its border is an anchor of the scheme; on a proper range the minimum gets the first anchor and the maximum the last |
| ImageCallbacks.SelectedImage | app/callbacks/image.py:55-57 | there is a selected image exactly when the selection holds a first record with the image column, and it is that record's value |
| ImageCallbacks.GridTiles | app/callbacks/image.py:69-96 | one tile per record in order; a tile is marked selected exactly when its image is the selected one; the border is the default colour, or the sampled colour when a colour column is chosen |
| ImageCallbacks.Ordered | app/callbacks/image.py:59-63 | the gallery order is a permutation of the active records and keeps every column |
| ImageCallbacks.OrderedIsSortedOrUnchanged | app/callbacks/image.py:59-63 | with a sort column the records are ordered on it in the chosen direction; without one they keep the order of the active records |
| ImageCallbacks.Extremes | app/callbacks/image.py:48-50 | the colour domain is an interval, and with a colour column it holds every record's colour value |
| ImageCallbacks.UpdateImagesGridAsWritten | app/callbacks/image.py:41-98 | as written: no image column gives an empty grid; a colour column over an empty frame raises KeyError on it, and so does a sort column over empty active records; with a table that lacks `Original Ladybug` every call with an image column raises |
| ImageCallbacks.OriginalLadybugMissing | app/callbacks/image.py:66-67 | the fallback key of line 67 is not in the palette table |
| ImageCallbacks.AsWrittenNeverRenders | app/callbacks/image.py:66-67 | with the real table, every call with an image column raises; and unless the colour column meets an empty frame or the sort column meets empty active records, it raises KeyError('Original Ladybug') |
| ImageCallbacks.UpdateImagesGrid | app/callbacks/image.py:26-98 | no image column gives an empty grid; a colour column over an empty frame raises KeyError on the colour column; otherwise a sort column over empty active records raises KeyError on the sort column; otherwise the grid has the sorted-or-unchanged active records as tiles, with the resolved scheme and the colour domain taken over all records |
| ImageCallbacks.BuildGridTiles | app/callbacks/image.py:69-96 | the loop over the ordered records builds exactly GridTiles |
| ImageCallbacks.ImageNamesPermutation | app/callbacks/image.py:59-63 | reordering records reorders their image names and loses none |
| ImageCallbacks.GridShowsActiveImages | app/callbacks/image.py:59-96 | the gallery shows exactly the active records' images, each as often as it occurs; sorting only reorders them |
| ImageCallbacks.SelectedTileIffSameImage | app/callbacks/image.py:55-57 | a tile is marked exactly when its image is the first selected record's image; with no selection no tile is marked |
| ImageCallbacks.GridBorders | app/callbacks/image.py:48-72 | without a colour column every border is `#636EFA`; with one every border is an anchor of the scheme, and on a proper range the minimum gets the first anchor and the maximum the last |
| ImageCallbacks.UpdateSelectedImageTable | app/callbacks/image.py:110-132 | no selection means no update; an empty selection raises IndexError and a first record without the image column raises KeyError; otherwise the image is shown at 75% beside a 25% grid of tenth-width columns |
| ImageCallbacks.UpdateClickSelectedImage | app/callbacks/image.py:145-153 | a click clears both styles; a None click count returns a bare None |
| ImageCallbacks.Matching | app/callbacks/image.py:175-178 | the matching records keep the image column, in frame order |
| ImageCallbacks.MatchingExactly | app/callbacks/image.py:176 | a record is selected exactly when it is in the frame and its image equals the clicked id |
| ImageCallbacks.InfoLines | app/callbacks/image.py:179-185 | a detail listing that succeeds has one line per label, and a non-empty one needs a selected record |
| ImageCallbacks.InfoLinesProperties | app/callbacks/image.py:179-185 | the detail lines succeed exactly when every label is catalogued and a column of the first record; they then hold one line per label, in label order, with the display name and the value |
| ImageCallbacks.ClickedImageGrid | app/callbacks/image.py:166-186 | no click means no update; an empty frame raises KeyError on the image column; otherwise the selection is the matching records and the detail lines, or the first error of the label loop |
| ImageCallbacks.UpdateClickedImageGrid | app/callbacks/image.py:166-186 | the loops compute exactly ClickedImageGrid |
| ImageCallbacks.InfoLinesFailureSticks | app/callbacks/image.py:179-185 | once a label fails, the whole detail listing fails with that label's error |
| ImageCallbacks.UpdateImagesGridDivDisplay | app/callbacks/image.py:194-199 | the gallery is hidden exactly when there is no image column: `{display: none}` then, `{}` otherwise |
| Selection.ShowSelection | app/callbacks/image.py:110-132 | showing a selection never changes the selected data, the details or the click count |
| Selection.ClickGridImage | app/callbacks/image.py:166-186 | a grid click never changes the detail image's click count, and a click without an update (no click, or an exception) leaves the gallery as it was |
| Selection.ClickDetailImage | app/callbacks/image.py:145-153 | a None click count leaves the gallery as it was; a real click ends unselected with no click count |
| Selection.ClickGridImageSelects | app/callbacks/image.py:166-186 | a real click on a tile selects exactly the records showing that image, shows it beside the narrowed grid, and lists one detail line per label, in order |
| Selection.ClickDetailImageClears | app/callbacks/image.py:145-153 | clicking the detail image always ends unselected with no click count |
| Selection.ClicksPreserveConsistency | app/callbacks/image.py:110-186 | after either click the layout matches the selection: the gallery is either unselected or selected with the narrowed layout |
| Selection.LatestClickWins | app/callbacks/image.py:166-186 | after a successful click what is selected and shown depends only on that click |
| Selection.Initial | app/containers.py:387-402 | the initial gallery layout is unselected |
| Selection.LoadProjectAsWritten | app/callbacks/upload.py:190-203 | as written: a load resets the details and the layout styles but keeps the selected-image store and the shown image |
| Selection.LoadAsWrittenKeepsStaleSelection | app/callbacks/upload.py:190-203 | a load while an image is selected leaves a gallery that is neither selected nor unselected |
| Selection.LoadProject | app/callbacks/upload.py:190-203 | the corrected load also clears the selected-image store and the shown image, and keeps the click count |
| Selection.LoadProjectUnselects | app/callbacks/upload.py:190-203 | the corrected load always ends unselected, hence consistent, and loading twice is loading once |
| Upload.ToggleInputMethod | app/callbacks/upload.py:24-31 | exactly one of the two selectors is shown: the uploader when loading from ZIP, the sample list otherwise |
| Upload.BaseName | app/callbacks/upload.py:58 | a path's name holds no `/` |
| Upload.Stem | app/callbacks/upload.py:60 | the stem is a prefix of the name; when it is shorter, it is non-empty and is followed by a dot and a suffix that holds no dot |
| Upload.StemOfName | app/callbacks/upload.py:60 | the stem drops exactly the final suffix |
| Upload.BaseNameOfPath | app/callbacks/upload.py:58 | the name drops every directory |
| Upload.ProjectId | app/callbacks/upload.py:58-60 | the project id holds no `/` |
| Upload.ProjectIdOfFile | app/callbacks/upload.py:58-60 | the project id drops the directories and exactly the final suffix of the uploaded file's name |
| Upload.ProjectIdWithoutSuffix | app/callbacks/upload.py:58-60 | a name without a dot, or whose only dot leads it, is its own project id |
| Upload.WithProject | app/callbacks/upload.py:88-89 | the list then has an option with the id; an id already present leaves the list as it was, and a new one is appended as a label/value pair |
| Upload.WithProjectIdempotent | app/callbacks/upload.py:88-89 | uploading the same archive again leaves the project list unchanged |
| Upload.ProcessUpload | app/callbacks/upload.py:44-101 | no contents means no update; contents that do not split at exactly one comma, or do not decode, raise ValueError; an unusable archive means no update; otherwise the list gains the project, the options are the list, the project is selected and the dropdown is shown |
| Upload.TableColumns | app/callbacks/upload.py:175-185 | there is one table column per parameter |
| Upload.TableColumnsAre | app/callbacks/upload.py:175-185 | over a catalog without image parameters, as `process_dataframe` builds it, there is one visible table column per parameter, in order, with its column as id and its display name |
| Upload.BuildTableColumns | app/callbacks/upload.py:175-185 | the loop builds exactly TableColumns over the parameters in insertion order |
| Upload.FirstImageColumn | app/callbacks/upload.py:169-173 | the image column is one of the columns and starts with `img:`, and there is none exactly when no column starts so |
| Upload.ImagePrefixIsImageKind | app/callbacks/upload.py:169-173 | for a name that splits, starting with `img:` is having type `img` |
| Upload.FirstImageColumnIsFirstImage | app/callbacks/upload.py:169-173 | once every column splits, the image column is the first entry of the image list |
| Upload.DefaultColumn | app/callbacks/upload.py:160-165 | there is no default column exactly when there are neither outputs nor inputs; with outputs it is the first output, and it is always one of the given columns |
| Upload.DefaultColumnIsParameter | app/callbacks/upload.py:159-165 | the colour and sort column picked by a load is catalogued, and it has type `out` when there are output columns and type `in` otherwise |
| Upload.LoadUploadedProjectData | app/callbacks/upload.py:124-203 | an empty id means no update; an unsplittable column raises ValueError; a study with neither inputs nor outputs raises IndexError; otherwise the stores, catalog, defaults, table, image column, cleared details and styles hold as the load writes them, and both menus hold their entries (None, the output entries and the input entries under their headers for colour; the output then input entries for sort), the scheme menu starts at Original and the sort icon is `bi bi-sort-down` |
| Upload.LoadedTableAndImageColumn | app/callbacks/upload.py:169-185 | after a load the table shows one visible column per non-image column in column order, and the image column is the first image column |
| ColorCallbacks.Column | app/callbacks/color.py:35 | `dff[col]` gives the column's values in record order, and raises KeyError when the frame is empty or lacks the column |
| ColorCallbacks.UpdateColorBy | app/callbacks/color.py:22-41 | no click means no update; a falsy id uncolours the lines with caption None; otherwise the lines are coloured by the column, captioned with its label, or the first KeyError of the column or the label |
| ColorCallbacks.ColorByMenuClick | app/callbacks/color.py:32-36 | choosing a catalogued column from the menu colours the lines by its values and captions the menu with the column's id |
| ColorCallbacks.HexPalette | app/callbacks/color.py:71 | the palette has one hex string per anchor, in order |
| ColorCallbacks.HexPaletteFaithful | app/callbacks/color.py:71 | each palette entry reads back as its anchor, so two schemes with the same palette have the same anchors |
| ColorCallbacks.UpdateColorScheme | app/callbacks/color.py:55-93 | no click means no update; the store and caption become the clicked scheme; the figure is rebuilt with the scheme's palette only when there is a colour column, a frame and a figure, and an unknown scheme then raises KeyError; otherwise the figure is left alone |
| ColorCallbacks.SchemeMenuClicksSucceed | app/callbacks/color.py:55-93 | every scheme the menu offers can be picked without an error, and a rebuilt figure gets a palette as long as the scheme |

## Left out

- File system work is left out, as are base64 decoding, ZIP extraction, the search
  for `data.csv` and `pd.read_csv`. They are I/O. They become parameters:
  - whether the payload decodes;
  - whether the archive is usable;
  - the relative folder, column names and records that were read.
- A project whose folder holds no `data.csv` (app/callbacks/upload.py:133-139) is
  file system work and is not modelled.
- The Plotly figures are reduced to what the callbacks decide about them: which
  column colours the lines, and which palette a rebuilt figure gets. Left out are
  the `Patch` of the figure's dimensions, the copying of layout keys
  (app/callbacks/color.py:86-89) and the `px.parallel_coordinates` figure of a
  load.
- The `html.Div` wrappers and their fixed styles are left out. So are the labels of
  the menus and the `select-sample` container. They are constant layout.
- `Path` handling is reduced. `Path(folder).joinpath(file)` is kept as the pair of
  its parts, without normalisation. `PurePath.stem` is modelled by the rule "only
  the final suffix, a leading or trailing dot does not start one". A path is split
  at `/` only.
- Frames.SortOn: pandas' default sort is not stable. The model fixes one order,
  that of a stable insertion sort. Frames.SortOnSortedIsIdentity and
  Frames.SortOnIdempotent therefore hold only for that fixed tie order: pandas may
  reorder records with equal values. What holds for any correct sort is stated by
  Frames.AnySortAgreesOnKeys: the column's values come out the same, and sorting
  sorted records changes no column value.
- Numbers are exact reals. Floating-point rounding is left out, as are NaN cells in
  a CSV and pandas' NaN results. In particular, the model does not capture that a
  NaN value fails every comparison.
- Records are assumed to share their columns. Colour and sort columns are assumed
  numeric, and image columns strings. These are preconditions, because the stores
  come from one `to_dict('records')`.
- The clicked tile's id and the menu item that triggered a callback
  (`ctx.triggered_id`) are parameters.
- Upload.LoadUploadedProjectData: the `active-filters` store is stated to be
  empty. The filter callbacks that read it are not part of this model.
- The filter callbacks, app/app.py, app/build.py, app/download_assets.py,
  app/config.py and `find_free_port` are not part of this model. They are layout,
  start-up and network code.
- The exception handler of `process_upload` (app/callbacks/upload.py:99-101) is
  left out. Its console message is I/O. The model keeps what it decides: an
  archive failure becomes no update.

## Findings

| source | as written | input that shows it | evidently intended | confidence | as-written member | corrected member |
|---|---|---|---|---|---|---|
| app/callbacks/image.py:67 | `color_schemes.get(color_scheme, color_schemes['Original Ladybug'])` evaluates its default before the lookup, and the table has no `Original Ladybug` key | any call with an image column that gets past the colour and sort steps, e.g. colour scheme `Original`, no colour or sort column | fall back to the default `Original` scheme, as app/containers.py:351 does | not executed | ImageCallbacks.UpdateImagesGridAsWritten, ImageCallbacks.AsWrittenNeverRenders | ImageCallbacks.UpdateImagesGrid |
| app/callbacks/upload.py:190-203 | loading a project resets the details and both layout styles but not `selected-image-data` or the shown image | select an image, then load another project: the store still holds the old record while the layout is the unselected one | switching projects leaves nothing selected | not executed | Selection.LoadProjectAsWritten, Selection.LoadAsWrittenKeepsStaleSelection | Selection.LoadProject, Selection.LoadProjectUnselects |
