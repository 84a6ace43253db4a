/** `process_dataframe` of app/helper.py: reading each `type:id` column name into
    the parameter catalog. */
module Helper {
  import opened Common

  /** One catalog entry, `{'label': col, 'display_name': id, 'type': type}`. */
  datatype Param = Param(column: string, displayName: string, kind: string)

  /** The five values `process_dataframe` returns. */
  datatype Catalog = Catalog(
    labels: OMap<string>,
    parameters: OMap<Param>,
    inputs: seq<string>,
    outputs: seq<string>,
    images: seq<string>)

  /** Position of the first `c` in `s`. */
  function IndexOf(s: string, c: char): (i: nat)
    requires c in s
    ensures i < |s| && s[i] == c
  {
    if s[0] == c then 0 else
      assert s == [s[0]] + s[1..];
      1 + IndexOf(s[1..], c)
  }

  /** `col_type, col_id = col_name.split(':')`: the two halves, or None when the
      split does not give exactly two parts (the unpacking raises ValueError). */
  function SplitColumn(name: string): (r: Option<(string, string)>)
    ensures r.Some? <==> Count(name, ':') == 1
    ensures r.Some? ==> |r.value.0| + 1 + |r.value.1| == |name|
  {
    if Count(name, ':') == 1 then
      var i := IndexOf(name, ':');
      Some((name[..i], name[i + 1..]))
    else None
  }

  lemma {:induction false} CountSplit(a: string, b: string, c: char)
    ensures Count(a + b, c) == Count(a, c) + Count(b, c)
  {
    if a == [] {
      assert a + b == b;
    } else {
      assert (a + b)[1..] == a[1..] + b;
      CountSplit(a[1..], b, c);
    }
  }

  /** A split name puts its halves back together around one ':', and neither half holds a ':'. */
  lemma SplitColumnSound(name: string)
    requires SplitColumn(name).Some?
    ensures var (t, id) := SplitColumn(name).value;
            t + ":" + id == name && ':' !in t && ':' !in id
  {
    var i := IndexOf(name, ':');
    assert name == name[..i] + ([name[i]] + name[i + 1..]);
    CountSplit(name[..i], [name[i]] + name[i + 1..], ':');
    CountSplit([name[i]], name[i + 1..], ':');
    assert name[..i] + ":" + name[i + 1..] == name;
  }

  /** Any colon-free type and id read back from `type:id`. */
  lemma SplitColumnComplete(t: string, id: string)
    requires ':' !in t && ':' !in id
    ensures SplitColumn(t + ":" + id) == Some((t, id))
  {
    var name := t + ":" + id;
    assert name == t + ([':'] + id);
    CountSplit(t, [':'] + id, ':');
    CountSplit([':'], id, ':');
    IndexPastPrefix(t, id);
    assert name[..|t|] == t;
    assert name[|t| + 1..] == id;
  }

  lemma {:induction false} IndexPastPrefix(t: string, id: string)
    requires ':' !in t
    ensures ':' in t + ":" + id && IndexOf(t + ":" + id, ':') == |t|
  {
    var name := t + ":" + id;
    assert name[|t|] == ':';
    if t != [] {
      assert name[1..] == t[1..] + ":" + id;
      IndexPastPrefix(t[1..], id);
    }
  }

  predicate Splittable(col: string)
  {
    SplitColumn(col).Some?
  }

  /** The `type` half of a column name ("" when it does not split). */
  function Kind(col: string): string
  {
    match SplitColumn(col)
    case Some(p) => p.0
    case None => ""
  }

  /** The `id` half of a column name ("" when it does not split). */
  function Id(col: string): string
  {
    match SplitColumn(col)
    case Some(p) => p.1
    case None => ""
  }

  /** The columns of type `kind`, in column order. */
  function ColumnsOfKind(cols: seq<string>, kind: string): (r: seq<string>)
  {
    if cols == [] then [] else
      var last := cols[|cols| - 1];
      ColumnsOfKind(cols[..|cols| - 1], kind) + (if Kind(last) == kind then [last] else [])
  }

  /** The columns whose type is not `kind`, in column order. */
  function ColumnsNotOfKind(cols: seq<string>, kind: string): (r: seq<string>)
  {
    if cols == [] then [] else
      var last := cols[|cols| - 1];
      ColumnsNotOfKind(cols[..|cols| - 1], kind) + (if Kind(last) != kind then [last] else [])
  }

  /** The two dicts are well formed and share their keys, in order. */
  ghost predicate DictsShape(labels: OMap<string>, parameters: OMap<Param>)
  {
    labels.Valid() && parameters.Valid() && labels.keys == parameters.keys
  }

  /** Exactly the non-image columns are labelled, each with its id and catalog entry. */
  ghost predicate DictsContent(cols: seq<string>, labels: OMap<string>, parameters: OMap<Param>)
  {
    && (forall k :: k in labels.vals <==> k in cols && Kind(k) != "img")
    && (forall k :: k in labels.vals ==>
          labels.vals[k] == Id(k) && k in parameters.vals
          && parameters.vals[k] == Param(k, Id(k), Kind(k)))
  }

  /** The filtered lists hold exactly the columns of (or not of) the given type. */
  lemma {:induction false} ColumnsOfKindMembers(cols: seq<string>, kind: string)
    ensures forall c :: c in ColumnsOfKind(cols, kind) <==> c in cols && Kind(c) == kind
    ensures forall c :: c in ColumnsNotOfKind(cols, kind) <==> c in cols && Kind(c) != kind
  {
    if cols != [] {
      var init := cols[..|cols| - 1];
      ColumnsOfKindMembers(init, kind);
      assert cols == init + [cols[|cols| - 1]];
    }
  }

  /** What `process_dataframe` promises of the two dicts. */
  ghost predicate DictsOf(cols: seq<string>, labels: OMap<string>, parameters: OMap<Param>)
  {
    && DictsShape(labels, parameters)
    && DictsContent(cols, labels, parameters)
    && (Distinct(cols) ==> labels.keys == ColumnsNotOfKind(cols, "img"))
  }

  /** What `process_dataframe` promises of a successful catalog. */
  ghost predicate CatalogOf(cols: seq<string>, c: Catalog)
  {
    && DictsOf(cols, c.labels, c.parameters)
    && c.inputs == ColumnsOfKind(cols, "in")
    && c.outputs == ColumnsOfKind(cols, "out")
    && c.images == ColumnsOfKind(cols, "img")
  }

  lemma ColumnsOfKindExtends(cols: seq<string>, col: string, kind: string)
    ensures ColumnsOfKind(cols + [col], kind)
         == ColumnsOfKind(cols, kind) + (if Kind(col) == kind then [col] else [])
    ensures ColumnsNotOfKind(cols + [col], kind)
         == ColumnsNotOfKind(cols, kind) + (if Kind(col) != kind then [col] else [])
  {
    assert (cols + [col])[..|cols|] == cols;
  }

  /** The update performed for one column of the loop. */
  ghost predicate DictsStep(col: string, labels: OMap<string>, parameters: OMap<Param>,
                            labels': OMap<string>, parameters': OMap<Param>)
    requires DictsShape(labels, parameters)
  {
    if Kind(col) != "img" then
      labels' == labels.Set(col, Id(col)) && parameters' == parameters.Set(col, Param(col, Id(col), Kind(col)))
    else labels' == labels && parameters' == parameters
  }

  lemma DictsShapeExtend(col: string, labels: OMap<string>, parameters: OMap<Param>,
                         labels': OMap<string>, parameters': OMap<Param>)
    requires DictsShape(labels, parameters)
    requires DictsStep(col, labels, parameters, labels', parameters')
    ensures DictsShape(labels', parameters')
  {
  }

  lemma DictsContentExtend(cols: seq<string>, col: string, labels: OMap<string>, parameters: OMap<Param>,
                           labels': OMap<string>, parameters': OMap<Param>)
    requires DictsShape(labels, parameters) && DictsContent(cols, labels, parameters)
    requires DictsStep(col, labels, parameters, labels', parameters')
    ensures DictsContent(cols + [col], labels', parameters')
  {
    var cols' := cols + [col];
    assert forall k :: k in cols' <==> k in cols || k == col;
    if Kind(col) != "img" {
      assert labels'.vals == labels.vals[col := Id(col)];
      assert parameters'.vals == parameters.vals[col := Param(col, Id(col), Kind(col))];
      forall k | k in labels'.vals
        ensures labels'.vals[k] == Id(k) && k in parameters'.vals
             && parameters'.vals[k] == Param(k, Id(k), Kind(k))
      {
        if k != col {
          assert k in labels.vals;
        }
      }
    }
  }

  lemma DictsOrderExtend(cols: seq<string>, col: string, labels: OMap<string>, parameters: OMap<Param>,
                         labels': OMap<string>, parameters': OMap<Param>)
    requires DictsOf(cols, labels, parameters)
    requires DictsStep(col, labels, parameters, labels', parameters')
    requires Distinct(cols + [col])
    ensures labels'.keys == ColumnsNotOfKind(cols + [col], "img")
  {
    var cols' := cols + [col];
    ColumnsOfKindExtends(cols, col, "img");
    assert cols'[..|cols|] == cols;
    assert Distinct(cols);
    assert cols'[|cols|] == col;
    assert col !in cols;
  }

  /** One more non-image column is added to both dicts, an image column to neither. */
  lemma DictsExtend(cols: seq<string>, col: string, labels: OMap<string>, parameters: OMap<Param>,
                    labels': OMap<string>, parameters': OMap<Param>)
    requires DictsOf(cols, labels, parameters)
    requires DictsStep(col, labels, parameters, labels', parameters')
    ensures DictsOf(cols + [col], labels', parameters')
  {
    DictsShapeExtend(col, labels, parameters, labels', parameters');
    DictsContentExtend(cols, col, labels, parameters, labels', parameters');
    if Distinct(cols + [col]) {
      DictsOrderExtend(cols, col, labels, parameters, labels', parameters');
    }
  }

  /** The catalog after reading one more column: the body of the loop. */
  function AddColumn(c: Catalog, col: string): (r: Catalog)
    requires DictsShape(c.labels, c.parameters)
    ensures DictsShape(r.labels, r.parameters)
    ensures DictsStep(col, c.labels, c.parameters, r.labels, r.parameters)
  {
    var t := Kind(col);
    if t != "img" then
      Catalog(c.labels.Set(col, Id(col)), c.parameters.Set(col, Param(col, Id(col), t)),
              c.inputs + (if t == "in" then [col] else []),
              c.outputs + (if t == "out" then [col] else []),
              c.images)
    else
      Catalog(c.labels, c.parameters, c.inputs, c.outputs, c.images + [col])
  }

  /** The catalog built from the columns read so far, folded from the left. */
  ghost function CatalogSpec(cols: seq<string>): (r: Catalog)
    ensures DictsShape(r.labels, r.parameters)
  {
    if cols == [] then Catalog(EmptyOMap(), EmptyOMap(), [], [], [])
    else AddColumn(CatalogSpec(cols[..|cols| - 1]), cols[|cols| - 1])
  }

  /** The folded catalog has every property `process_dataframe` promises. */
  lemma {:induction false} CatalogSpecIsCatalog(cols: seq<string>)
    ensures CatalogOf(cols, CatalogSpec(cols))
  {
    if cols != [] {
      var init, col := cols[..|cols| - 1], cols[|cols| - 1];
      assert cols == init + [col];
      CatalogSpecIsCatalog(init);
      var c := CatalogSpec(init);
      DictsExtend(init, col, c.labels, c.parameters, CatalogSpec(cols).labels, CatalogSpec(cols).parameters);
      ColumnsOfKindExtends(init, col, "in");
      ColumnsOfKindExtends(init, col, "out");
      ColumnsOfKindExtends(init, col, "img");
    }
  }

  /** Every column name splits into exactly two parts. */
  predicate AllSplittable(cols: seq<string>)
  {
    cols == [] || (AllSplittable(cols[..|cols| - 1]) && Splittable(cols[|cols| - 1]))
  }

  lemma {:induction false} AllSplittableMeansEach(cols: seq<string>)
    ensures AllSplittable(cols) <==> forall i :: 0 <= i < |cols| ==> Splittable(cols[i])
  {
    if cols != [] {
      var init := cols[..|cols| - 1];
      AllSplittableMeansEach(init);
      assert forall i :: 0 <= i < |init| ==> init[i] == cols[i];
    }
  }

  /** `process_dataframe(df)` over the frame's column names, in order. */
  method ProcessDataframe(columns: seq<string>) returns (r: Result<Catalog>)
    ensures r.Err? <==> exists i :: 0 <= i < |columns| && !Splittable(columns[i])
    ensures r.Err? ==> r.error == ValueError
    ensures r.Ok? ==> CatalogOf(columns, r.value)
  {
    var labels := EmptyOMap<string>();
    var parameters := EmptyOMap<Param>();
    var inputs, outputs, images := [], [], [];
    var i := 0;
    while i < |columns|
      invariant 0 <= i <= |columns|
      invariant AllSplittable(columns[..i])
      invariant Catalog(labels, parameters, inputs, outputs, images) == CatalogSpec(columns[..i])
    {
      var col := columns[i];
      var split := SplitColumn(col);
      if split.None? {
        AllSplittableMeansEach(columns);
        return Err(ValueError);
      }
      assert AllSplittable(columns[..i + 1]) by {
        assert columns[..i + 1][..i] == columns[..i];
      }
      var (colType, colId) := split.value;
      assert colType == Kind(col) && colId == Id(col);
      if colType != "img" {
        labels := labels.Set(col, colId);
        parameters := parameters.Set(col, Param(col, colId, colType));
        if colType == "in" {
          inputs := inputs + [col];
        } else if colType == "out" {
          outputs := outputs + [col];
        }
      } else {
        images := images + [col];
      }
      assert columns[..i + 1][..i] == columns[..i];
      i := i + 1;
    }
    assert columns[..i] == columns;
    AllSplittableMeansEach(columns);
    CatalogSpecIsCatalog(columns);
    r := Ok(Catalog(labels, parameters, inputs, outputs, images));
  }

  /** An image column is only ever listed as an image; every other column is
      labelled and catalogued and, unless it is `in` or `out`, in neither list. */
  lemma CatalogPlacesEachColumn(cols: seq<string>, c: Catalog, k: string)
    requires CatalogOf(cols, c) && k in cols
    ensures Kind(k) == "img" ==> k in c.images && k !in c.labels.vals && k !in c.parameters.vals
                                 && k !in c.inputs && k !in c.outputs
    ensures Kind(k) != "img" ==> k in c.labels.vals && k in c.parameters.vals && k !in c.images
    ensures Kind(k) !in {"in", "out", "img"} ==> k !in c.inputs && k !in c.outputs
  {
    ColumnsOfKindMembers(cols, "in");
    ColumnsOfKindMembers(cols, "out");
    ColumnsOfKindMembers(cols, "img");
  }
}
