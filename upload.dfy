/** The decision logic of app/callbacks/upload.py: the sample/ZIP toggle, the
    uploaded-project list, and the reset performed when a project is loaded. The
    file system work (decoding, extraction, locating and reading `data.csv`) is
    represented by its results, passed in as parameters. */
module Upload {
  import opened Common
  import opened Frames
  import opened Helper
  import opened Containers
  import opened ImageCallbacks

  /* ---------- toggle_input_method ---------- */

  predicate Shown(s: Style)
  {
    "display" in s && s["display"] == "block"
  }

  predicate Hidden(s: Style)
  {
    "display" in s && s["display"] == "none"
  }

  /** `toggle_input_method`: the styles of the sample selector and of the uploader. */
  function ToggleInputMethod(loadFromZip: bool): (r: (Style, Style))
    ensures Shown(r.0) != Shown(r.1) && Hidden(r.0) != Hidden(r.1)
    ensures loadFromZip <==> Shown(r.1) && Hidden(r.0)
    ensures !loadFromZip <==> Shown(r.0) && Hidden(r.1)
    ensures r.0 == map["display" := if loadFromZip then "none" else "block"]
    ensures r.1 == map["display" := if loadFromZip then "block" else "none"]
  {
    if loadFromZip then (map["display" := "none"], map["display" := "block"])
    else (map["display" := "block"], map["display" := "none"])
  }

  /* ---------- process_upload ---------- */

  /** One option of the uploaded-project dropdown, `{'label': ..., 'value': ...}`. */
  datatype ProjectOption = ProjectOption(text: string, value: string)

  /** The four outputs of `process_upload`. */
  datatype UploadReply = UploadReply(projects: seq<ProjectOption>, options: seq<ProjectOption>,
                                     selected: string, dropdownStyle: Style)

  /** Index of the last `c` in `s`, or -1. */
  function LastIndexOf(s: string, c: char): (i: int)
    ensures -1 <= i < |s|
    ensures i == -1 <==> c !in s
    ensures i >= 0 ==> s[i] == c && c !in s[i + 1..]
  {
    if s == [] then -1
    else if s[|s| - 1] == c then |s| - 1
    else
      var init := s[..|s| - 1];
      var i := LastIndexOf(init, c);
      assert s == init + [s[|s| - 1]];
      assert i >= 0 ==> s[i + 1..] == init[i + 1..] + [s[|s| - 1]];
      i
  }

  /** The last `c` of `s + [c] + t`, when `t` has none, is the one between them. */
  lemma {:induction false} LastIndexOfAfter(s: string, t: string, c: char)
    requires c !in t
    ensures LastIndexOf(s + [c] + t, c) == |s|
  {
    if t == [] {
      assert s + [c] + t == s + [c];
    } else {
      var u := s + [c] + t;
      var t' := t[..|t| - 1];
      assert u[..|u| - 1] == s + [c] + t';
      assert u[|u| - 1] == t[|t| - 1];
      LastIndexOfAfter(s, t', c);
    }
  }

  /** `PurePath.name`: the part after the last '/'. */
  function BaseName(path: string): (name: string)
    ensures '/' !in name
    ensures |name| <= |path| && name == path[|path| - |name|..]
  {
    path[LastIndexOf(path, '/') + 1..]
  }

  /** `PurePath.stem`: the name without its final suffix; a leading dot or a
      trailing dot does not start a suffix. */
  function Stem(name: string): (stem: string)
    ensures stem <= name
    ensures stem != name ==>
      && 0 < |stem| < |name| - 1
      && name[|stem|] == '.'
      && '.' !in name[|stem| + 1..]
  {
    var i := LastIndexOf(name, '.');
    if 0 < i < |name| - 1 then name[..i] else name
  }

  /** Lines 58-60: the project id is the stem of the uploaded file's name. */
  function ProjectId(filename: string): (id: string)
    ensures '/' !in id
  {
    Stem(BaseName(filename))
  }

  /** The stem drops exactly the final suffix. */
  lemma StemOfName(stem: string, ext: string)
    requires '.' !in ext && |stem| > 0 && |ext| > 0
    ensures Stem(stem + "." + ext) == stem
  {
    LastIndexOfAfter(stem, ext, '.');
    assert (stem + "." + ext)[..|stem|] == stem;
  }

  /** The name drops every directory. */
  lemma BaseNameOfPath(dir: string, name: string)
    requires '/' !in name
    ensures BaseName(dir + "/" + name) == name
    ensures BaseName(name) == name
  {
    LastIndexOfAfter(dir, name, '/');
    assert dir + "/" + name == dir + ['/'] + name;
  }

  /** The id drops the directories and exactly the final suffix of the file name. */
  lemma ProjectIdOfFile(dir: string, stem: string, ext: string)
    requires '/' !in stem && '/' !in ext && '.' !in ext && |stem| > 0 && |ext| > 0
    ensures ProjectId(stem + "." + ext) == stem
    ensures ProjectId(dir + "/" + stem + "." + ext) == stem
  {
    var name := stem + "." + ext;
    assert '/' !in name;
    BaseNameOfPath(dir, name);
    assert dir + "/" + stem + "." + ext == dir + "/" + name;
    StemOfName(stem, ext);
  }

  /** A name without a dot, or whose only dot leads it, is its own id. */
  lemma ProjectIdWithoutSuffix(name: string)
    requires '/' !in name && |name| > 0
    requires '.' !in name[1..]
    ensures ProjectId(name) == name
  {
    assert name == [name[0]] + name[1..];
  }

  predicate HasValue(projects: seq<ProjectOption>, id: string)
  {
    exists i :: 0 <= i < |projects| && projects[i].value == id
  }

  predicate DistinctValues(projects: seq<ProjectOption>)
  {
    forall i, j :: 0 <= i < j < |projects| ==> projects[i].value != projects[j].value
  }

  /** Lines 88-89: the list gains the project only if no option has its value. */
  function WithProject(projects: seq<ProjectOption>, id: string): (r: seq<ProjectOption>)
    ensures HasValue(r, id)
    ensures |projects| <= |r| <= |projects| + 1 && r[..|projects|] == projects
    ensures HasValue(projects, id) <==> r == projects
    ensures !HasValue(projects, id) ==> r[|projects|] == ProjectOption(id, id)
    ensures DistinctValues(projects) ==> DistinctValues(r)
  {
    if HasValue(projects, id) then projects
    else
      var r := projects + [ProjectOption(id, id)];
      assert r[|projects|].value == id;
      r
  }

  /** Uploading the same archive again leaves the list as it is. */
  lemma WithProjectIdempotent(projects: seq<ProjectOption>, id: string)
    ensures WithProject(WithProject(projects, id), id) == WithProject(projects, id)
  {
  }

  /** `process_upload`. `decodes` says whether the base64 payload decodes (line 52,
      outside the `try`); `archiveOk` whether the archive extracts and holds a
      `data.csv` (lines 68-85, where any failure becomes PreventUpdate). */
  method ProcessUpload(contents: Option<string>, filename: string, existing: Option<seq<ProjectOption>>,
                       decodes: bool, archiveOk: bool)
    returns (out: Outcome<UploadReply>)
    ensures contents.None? ==> out == NoUpdate
    ensures contents.Some? && (Count(contents.value, ',') != 1 || !decodes) ==> out == Raised(ValueError)
    ensures contents.Some? && Count(contents.value, ',') == 1 && decodes && !archiveOk ==> out == NoUpdate
    ensures out.Updated? <==> contents.Some? && Count(contents.value, ',') == 1 && decodes && archiveOk
    ensures out.Updated? ==>
      var old_ := if existing.Some? then existing.value else [];
      && out.value.projects == WithProject(old_, ProjectId(filename))
      && out.value.options == out.value.projects
      && out.value.selected == ProjectId(filename)
      && out.value.dropdownStyle == map["display" := "block", "width" := "100%"]
  {
    if contents.None? {
      return NoUpdate;
    }
    var projects := if existing.Some? then existing.value else [];
    if Count(contents.value, ',') != 1 || !decodes {
      return Raised(ValueError);
    }
    var projectId := ProjectId(filename);
    if !archiveOk {
      return NoUpdate;
    }
    if !HasValue(projects, projectId) {
      projects := projects + [ProjectOption(projectId, projectId)];
    }
    var style := map["display" := "block", "width" := "100%"];
    return Updated(UploadReply(projects, projects, projectId, style));
  }

  /* ---------- load_uploaded_project_data ---------- */

  /** One entry of the data table's `columns`. */
  datatype TableColumn = TableColumn(id: string, name: string, hidden: bool)

  /** Lines 177-185. */
  function TableColumnOf(p: Param): TableColumn
  {
    TableColumn(p.column, p.displayName, p.kind == "img")
  }

  /** Lines 175-185 as a fold over the catalogued parameters. */
  function TableColumns(params: map<string, Param>, ks: seq<string>): (cs: seq<TableColumn>)
    requires forall k :: k in ks ==> k in params
    ensures |cs| == |ks|
  {
    if ks == [] then [] else
      TableColumns(params, ks[..|ks| - 1]) + [TableColumnOf(params[ks[|ks| - 1]])]
  }

  /** One visible table column per parameter, in catalog order. */
  lemma {:induction false} TableColumnsAre(params: map<string, Param>, ks: seq<string>)
    requires forall k :: k in ks ==> k in params
    requires forall k :: k in params ==> params[k].column == k && params[k].kind != "img"
    ensures |TableColumns(params, ks)| == |ks|
    ensures forall i :: 0 <= i < |ks| ==>
      TableColumns(params, ks)[i] == TableColumn(ks[i], params[ks[i]].displayName, false)
  {
    if ks != [] {
      var init := ks[..|ks| - 1];
      assert forall k :: k in init ==> k in ks;
      TableColumnsAre(params, init);
      assert forall i :: 0 <= i < |init| ==> init[i] == ks[i];
    }
  }

  /** Lines 175-185: one table column per catalogued parameter, hidden for images. */
  method BuildTableColumns(parameters: OMap<Param>) returns (columns: seq<TableColumn>)
    requires parameters.Valid()
    ensures columns == TableColumns(parameters.vals, parameters.keys)
  {
    columns := [];
    var ks := parameters.keys;
    var i := 0;
    while i < |ks|
      invariant 0 <= i <= |ks|
      invariant columns == TableColumns(parameters.vals, ks[..i])
    {
      var value := parameters.vals[ks[i]];
      assert ks[..i + 1][..i] == ks[..i];
      if value.kind != "img" {
        columns := columns + [TableColumn(value.column, value.displayName, false)];
      } else {
        columns := columns + [TableColumn(value.column, value.displayName, true)];
      }
      i := i + 1;
    }
    assert ks[..i] == ks;
  }

  predicate IsImageColumnName(col: string)
  {
    |col| >= 4 && col[..4] == "img:"
  }

  /** Lines 169-173: the first column matching `^img:`. */
  function FirstImageColumn(cols: seq<string>): (r: Option<string>)
    ensures r.Some? ==> r.value in cols && IsImageColumnName(r.value)
    ensures r.None? <==> forall k :: k in cols ==> !IsImageColumnName(k)
  {
    if cols == [] then None
    else match FirstImageColumn(cols[..|cols| - 1])
      case Some(c) => Some(c)
      case None =>
        assert cols == cols[..|cols| - 1] + [cols[|cols| - 1]];
        if IsImageColumnName(cols[|cols| - 1]) then Some(cols[|cols| - 1]) else None
  }

  /** For a column name that splits, matching `^img:` is having type `img`. */
  lemma ImagePrefixIsImageKind(col: string)
    requires Splittable(col)
    ensures IsImageColumnName(col) <==> Kind(col) == "img"
  {
    SplitColumnSound(col);
    var (t, id) := SplitColumn(col).value;
    assert col == t + ":" + id;
    if IsImageColumnName(col) {
      assert col[..4] == "img:";
      assert col[|t|] == ':';
      assert forall j :: 0 <= j < |t| ==> col[j] == t[j];
      assert col[0] == 'i' && col[1] == 'm' && col[2] == 'g' && col[3] == ':';
      assert forall j :: 0 <= j < |t| ==> t[j] != ':';
      assert |t| == 3;
      assert t == col[..3];
    }
  }

  /** Once every column splits, the image column is the first catalogued image column. */
  lemma {:induction false} FirstImageColumnIsFirstImage(cols: seq<string>)
    requires AllSplittable(cols)
    ensures FirstImageColumn(cols)
         == (if ColumnsOfKind(cols, "img") == [] then None else Some(ColumnsOfKind(cols, "img")[0]))
  {
    if cols != [] {
      var init := cols[..|cols| - 1];
      var last := cols[|cols| - 1];
      FirstImageColumnIsFirstImage(init);
      ImagePrefixIsImageKind(last);
    }
  }

  /** Lines 160-165: the first output column, else the first input column. */
  function DefaultColumn(inputs: seq<string>, outputs: seq<string>): (r: Result<string>)
    ensures r.Err? <==> inputs == [] && outputs == []
    ensures outputs != [] ==> r == Ok(outputs[0])
    ensures r.Ok? ==> r.value in outputs || r.value in inputs
  {
    if outputs != [] then Ok(outputs[0])
    else if inputs != [] then Ok(inputs[0])
    else Err(IndexError)
  }

  /** The colour and sort column a load picks is catalogued, of type `out` when
      there are outputs and `in` otherwise. */
  lemma DefaultColumnIsParameter(cols: seq<string>, c: Catalog)
    requires CatalogOf(cols, c)
    requires DefaultColumn(c.inputs, c.outputs).Ok?
    ensures var col := DefaultColumn(c.inputs, c.outputs).value;
            col in c.parameters.vals
            && Kind(col) == (if c.outputs != [] then "out" else "in")
  {
    var col := DefaultColumn(c.inputs, c.outputs).value;
    ColumnsOfKindMembers(cols, "in");
    ColumnsOfKindMembers(cols, "out");
    assert col in cols;
    CatalogPlacesEachColumn(cols, c, col);
  }

  /** The outputs of `load_uploaded_project_data`, less the figure. */
  datatype Loaded = Loaded(
    projectFolder: string,             // 'project-folder'
    df: seq<Record>,                   // 'df'
    active: seq<Record>,               // 'active-records'
    activeFilters: map<string, string>,// 'active-filters' (only its emptiness is modelled)
    dfColumns: seq<string>,            // 'df-columns'
    labels: OMap<string>,              // 'labels'
    imgColumn: Option<string>,         // 'img-column'
    parameters: OMap<Param>,           // 'parameters'
    sortBy: SortByPanel,               // 'sort-by' children
    colorBy: ColorByPanel,             // 'color-by' children
    table: seq<TableColumn>,           // 'table' columns
    selectedImageInfo: Option<seq<InfoLine>>,  // 'selected-image-info' children
    selectedContainerStyle: Style,     // 'selected-image-container' style
    mainImagesStyle: Style,            // 'main-images-container' style
    imagesGridStyle: Style)            // 'images-grid' style

  /** `load_uploaded_project_data` once `data.csv` has been found and read: its
      folder relative to the upload root, its columns and its records. */
  method LoadUploadedProjectData(projectId: Option<string>, relFolder: string,
                                 columns: seq<string>, records: seq<Record>)
    returns (out: Outcome<Loaded>)
    requires Distinct(columns)
    ensures !Truthy(projectId) ==> out == NoUpdate
    ensures Truthy(projectId) && (exists i :: 0 <= i < |columns| && !Splittable(columns[i]))
            ==> out == Raised(ValueError)
    ensures Truthy(projectId) && (forall i :: 0 <= i < |columns| ==> Splittable(columns[i]))
            ==> (out == Raised(IndexError)
                 <==> ColumnsOfKind(columns, "in") == [] && ColumnsOfKind(columns, "out") == [])
    ensures out.Updated? ==>
      var l := out.value;
      var c := Catalog(l.labels, l.parameters, ColumnsOfKind(columns, "in"),
                       ColumnsOfKind(columns, "out"), ColumnsOfKind(columns, "img"));
      var chosen := DefaultColumn(c.inputs, c.outputs);
      && Truthy(projectId)
      && l.projectFolder == "uploaded/" + relFolder
      && l.df == records && l.active == records && l.activeFilters == map[]
      && l.dfColumns == columns
      && CatalogOf(columns, c)
      && chosen.Ok?
      && l.colorBy.colorByStore == chosen.value && l.sortBy.sortByStore == chosen.value
      && chosen.value in l.parameters.vals
      && l.colorBy.caption == l.parameters.vals[chosen.value].displayName
      && l.sortBy.caption == l.parameters.vals[chosen.value].displayName
      && l.colorBy.schemeStore == "Original" && !l.sortBy.ascendingStore
      && l.imgColumn == FirstImageColumn(columns)
      && l.table == TableColumns(l.parameters.vals, l.parameters.keys)
      && l.colorBy.items
         == [Entry("None", None), Divider, Header("Output")]
            + MenuEntries(l.parameters.vals, l.parameters.keys, "out")
            + [Divider, Header("Input")] + MenuEntries(l.parameters.vals, l.parameters.keys, "in")
      && l.colorBy.schemeItems == SchemeMenu() && l.colorBy.schemeLabel == "Original"
      && l.sortBy.items
         == [Header("Output")] + MenuEntries(l.parameters.vals, l.parameters.keys, "out")
            + [Divider, Header("Input")] + MenuEntries(l.parameters.vals, l.parameters.keys, "in")
      && l.sortBy.icon == "bi bi-sort-down"
      && l.selectedImageInfo.None?
      && l.selectedContainerStyle == map[] && l.imagesGridStyle == map[]
      && l.mainImagesStyle == (if l.imgColumn.None? then map["display" := "none"] else map[])
  {
    if !Truthy(projectId) {
      return NoUpdate;
    }
    var projectFolder := "uploaded/" + relFolder;
    var dfRecords := records;
    var processed := ProcessDataframe(columns);
    if processed.Err? {
      return Raised(processed.error);
    }
    var cat := processed.value;
    AllSplittableMeansEach(columns);
    var colorBy: string, sortBy: string;
    if cat.outputs != [] {
      colorBy := cat.outputs[0];
      sortBy := cat.outputs[0];
    } else if cat.inputs != [] {
      colorBy := cat.inputs[0];
      sortBy := cat.inputs[0];
    } else {
      return Raised(IndexError);
    }
    DefaultColumnIsParameter(columns, cat);
    var imgColumn := FirstImageColumn(columns);

    var table := BuildTableColumns(cat.parameters);

    var sortByChildren := CreateSortByChildren(cat.parameters, sortBy);
    var colorByChildren := CreateColorByChildren(cat.parameters, colorBy);
    assert sortByChildren.Ok? && colorByChildren.Ok?;

    var activeFilters: map<string, string> := map[];
    var selectedImageInfo: Option<seq<InfoLine>> := None;
    var selectedImageContainerStyle: Style := map[];
    var mainImagesContainerStyle: Style := map[];
    var imagesGridStyle: Style := map[];
    if imgColumn.None? {
      mainImagesContainerStyle := map["display" := "none"];
    }
    return Updated(Loaded(projectFolder, dfRecords, dfRecords, activeFilters, columns, cat.labels,
                          imgColumn, cat.parameters, sortByChildren.value, colorByChildren.value, table,
                          selectedImageInfo, selectedImageContainerStyle, mainImagesContainerStyle,
                          imagesGridStyle));
  }

  /** After a load the table shows one visible column per non-image column, in
      column order, and the image column is the first image column. */
  lemma LoadedTableAndImageColumn(columns: seq<string>, c: Catalog)
    requires Distinct(columns) && CatalogOf(columns, c) && AllSplittable(columns)
    ensures |TableColumns(c.parameters.vals, c.parameters.keys)| == |ColumnsNotOfKind(columns, "img")|
    ensures forall i :: 0 <= i < |c.parameters.keys| ==>
      TableColumns(c.parameters.vals, c.parameters.keys)[i]
      == TableColumn(ColumnsNotOfKind(columns, "img")[i], Id(ColumnsNotOfKind(columns, "img")[i]), false)
    ensures FirstImageColumn(columns) == (if c.images == [] then None else Some(c.images[0]))
  {
    TableColumnsAre(c.parameters.vals, c.parameters.keys);
    FirstImageColumnIsFirstImage(columns);
  }
}
