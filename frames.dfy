/** The DataFrame operations the callbacks rely on, over the records that a
    `dcc.Store` holds (`DataFrame.to_dict('records')`): column min/max and
    `sort_values` on one numeric column. */
module Frames {
  import opened Common

  /** A cell: a number (parameter columns) or a string (image file names). */
  datatype Value = Num(n: real) | Text(t: string)

  /** One row, keyed by column name. */
  type Record = map<string, Value>

  /** Every record holds a number under `col`. */
  predicate HasNum(rs: seq<Record>, col: string)
  {
    forall i :: 0 <= i < |rs| ==> col in rs[i] && rs[i][col].Num?
  }

  /** Every record holds a string under `col`. */
  predicate HasText(rs: seq<Record>, col: string)
  {
    forall i :: 0 <= i < |rs| ==> col in rs[i] && rs[i][col].Text?
  }

  /** The numeric value of `col` in `r`. */
  function Key(r: Record, col: string): real
    requires col in r && r[col].Num?
  {
    r[col].n
  }

  /** `dff[col].min()` over a non-empty frame. */
  function ColumnMin(rs: seq<Record>, col: string): (m: real)
    requires |rs| > 0 && HasNum(rs, col)
    ensures forall i :: 0 <= i < |rs| ==> m <= Key(rs[i], col)
    ensures exists i :: 0 <= i < |rs| && m == Key(rs[i], col)
  {
    if |rs| == 1 then Key(rs[0], col)
    else
      var rest := ColumnMin(rs[1..], col);
      assert forall i :: 1 <= i < |rs| ==> rs[i] == rs[1..][i - 1];
      if Key(rs[0], col) <= rest then Key(rs[0], col) else rest
  }

  /** `dff[col].max()` over a non-empty frame. */
  function ColumnMax(rs: seq<Record>, col: string): (m: real)
    requires |rs| > 0 && HasNum(rs, col)
    ensures forall i :: 0 <= i < |rs| ==> Key(rs[i], col) <= m
    ensures exists i :: 0 <= i < |rs| && m == Key(rs[i], col)
  {
    if |rs| == 1 then Key(rs[0], col)
    else
      var rest := ColumnMax(rs[1..], col);
      assert forall i :: 1 <= i < |rs| ==> rs[i] == rs[1..][i - 1];
      if Key(rs[0], col) >= rest then Key(rs[0], col) else rest
  }

  /** Reordering records keeps every column each record holds. */
  lemma PermutationKeepsColumns(a: seq<Record>, b: seq<Record>)
    requires multiset(a) == multiset(b)
    ensures forall c :: HasNum(a, c) ==> HasNum(b, c)
    ensures forall c :: HasText(a, c) ==> HasText(b, c)
  {
    forall i | 0 <= i < |b|
      ensures b[i] in a
    {
      assert b[i] in multiset(b);
    }
  }

  /** `x` may come before `y` when sorting on `col` in the given direction. */
  predicate InOrder(x: Record, y: Record, col: string, ascending: bool)
    requires col in x && x[col].Num? && col in y && y[col].Num?
  {
    if ascending then Key(x, col) <= Key(y, col) else Key(x, col) >= Key(y, col)
  }

  /** Non-decreasing (ascending) or non-increasing (descending) on `col`. */
  predicate SortedOn(rs: seq<Record>, col: string, ascending: bool)
    requires HasNum(rs, col)
  {
    forall i, j :: 0 <= i < j < |rs| ==> InOrder(rs[i], rs[j], col, ascending)
  }

  /** Places `r` in front of the first element it may precede. */
  function Insert(r: Record, rs: seq<Record>, col: string, ascending: bool): (out: seq<Record>)
    requires col in r && r[col].Num? && HasNum(rs, col)
    ensures HasNum(out, col)
    ensures multiset(out) == multiset(rs) + multiset{r}
  {
    if rs == [] then [r]
    else if InOrder(r, rs[0], col, ascending) then [r] + rs
    else
      assert rs == [rs[0]] + rs[1..];
      [rs[0]] + Insert(r, rs[1..], col, ascending)
  }

  /** A record that may precede `r` and all of `rs` may precede all of their insertion. */
  lemma InsertKeepsLowerBound(y: Record, r: Record, rs: seq<Record>, col: string, ascending: bool)
    requires col in y && y[col].Num? && col in r && r[col].Num? && HasNum(rs, col)
    requires InOrder(y, r, col, ascending)
    requires forall k :: 0 <= k < |rs| ==> InOrder(y, rs[k], col, ascending)
    ensures forall k :: 0 <= k < |Insert(r, rs, col, ascending)| ==> InOrder(y, Insert(r, rs, col, ascending)[k], col, ascending)
  {
    var out := Insert(r, rs, col, ascending);
    forall k | 0 <= k < |out|
      ensures InOrder(y, out[k], col, ascending)
    {
      assert out[k] in multiset(rs) + multiset{r};
      if out[k] != r {
        assert out[k] in rs;
      }
    }
  }

  /** Inserting into ordered records keeps them ordered. */
  lemma {:induction false} InsertSorted(r: Record, rs: seq<Record>, col: string, ascending: bool)
    requires col in r && r[col].Num? && HasNum(rs, col)
    requires SortedOn(rs, col, ascending)
    ensures SortedOn(Insert(r, rs, col, ascending), col, ascending)
  {
    if rs != [] && !InOrder(r, rs[0], col, ascending) {
      var tail := Insert(r, rs[1..], col, ascending);
      assert SortedOn(rs[1..], col, ascending);
      InsertSorted(r, rs[1..], col, ascending);
      InsertKeepsLowerBound(rs[0], r, rs[1..], col, ascending);
      assert Insert(r, rs, col, ascending) == [rs[0]] + tail;
    }
  }

  /** `sort_values(by=col, ascending=ascending)`. pandas' default sort kind is not
      stable; this insertion sort fixes one of the orders pandas may return, and only
      what pandas guarantees (a permutation, ordered on `col`) is stated about it. */
  function SortOn(rs: seq<Record>, col: string, ascending: bool): (out: seq<Record>)
    requires HasNum(rs, col)
    ensures HasNum(out, col)
    ensures multiset(out) == multiset(rs)
  {
    if rs == [] then [] else
      assert rs == [rs[0]] + rs[1..];
      Insert(rs[0], SortOn(rs[1..], col, ascending), col, ascending)
  }

  /** The sorted records are a permutation of the input, ordered on `col`. */
  lemma {:induction false} SortOnProperties(rs: seq<Record>, col: string, ascending: bool)
    requires HasNum(rs, col)
    ensures multiset(SortOn(rs, col, ascending)) == multiset(rs)
    ensures SortedOn(SortOn(rs, col, ascending), col, ascending)
  {
    if rs != [] {
      SortOnProperties(rs[1..], col, ascending);
      InsertSorted(rs[0], SortOn(rs[1..], col, ascending), col, ascending);
      assert rs == [rs[0]] + rs[1..];
    }
  }

  /** Ordered records stay ordered without their first one. */
  lemma SortedTail(rs: seq<Record>, col: string, ascending: bool)
    requires rs != [] && HasNum(rs, col) && SortedOn(rs, col, ascending)
    ensures HasNum(rs[1..], col) && SortedOn(rs[1..], col, ascending)
    ensures |rs| > 1 ==> InOrder(rs[0], rs[1], col, ascending)
  {
  }

  /** Sorting records that are already in order leaves them as they are. */
  lemma {:induction false} SortOnSortedIsIdentity(rs: seq<Record>, col: string, ascending: bool)
    requires HasNum(rs, col) && SortedOn(rs, col, ascending)
    ensures SortOn(rs, col, ascending) == rs
  {
    if rs != [] {
      SortedTail(rs, col, ascending);
      SortOnSortedIsIdentity(rs[1..], col, ascending);
      assert rs == [rs[0]] + rs[1..];
    }
  }

  /** Sorting twice is sorting once. */
  lemma SortOnIdempotent(rs: seq<Record>, col: string, ascending: bool)
    requires HasNum(rs, col)
    ensures SortOn(SortOn(rs, col, ascending), col, ascending) == SortOn(rs, col, ascending)
  {
    SortOnProperties(rs, col, ascending);
    SortOnSortedIsIdentity(SortOn(rs, col, ascending), col, ascending);
  }

  /** Taking the same record out of two permutations leaves permutations. */
  lemma RemoveMatching(a: seq<Record>, b: seq<Record>, j: nat)
    requires multiset(a) == multiset(b) && a != [] && j < |b| && b[j] == a[0]
    ensures multiset(a[1..]) == multiset(b[..j] + b[j + 1..])
  {
    assert a == [a[0]] + a[1..];
    assert b == b[..j] + [b[j]] + b[j + 1..];
    assert multiset(a[1..]) == multiset(a) - multiset{a[0]};
    assert multiset(b[..j] + b[j + 1..]) == multiset(b) - multiset{a[0]};
  }

  /** The values of `col`, in record order. */
  function Keys(rs: seq<Record>, col: string): (ks: seq<real>)
    requires HasNum(rs, col)
    ensures |ks| == |rs|
    ensures forall i :: 0 <= i < |rs| ==> ks[i] == Key(rs[i], col)
  {
    if rs == [] then [] else [Key(rs[0], col)] + Keys(rs[1..], col)
  }

  lemma KeysConcat(a: seq<Record>, b: seq<Record>, col: string)
    requires HasNum(a, col) && HasNum(b, col)
    ensures HasNum(a + b, col)
    ensures Keys(a + b, col) == Keys(a, col) + Keys(b, col)
  {
    var n := Keys(a + b, col);
    var m := Keys(a, col) + Keys(b, col);
    forall i | 0 <= i < |n|
      ensures n[i] == m[i]
    {
      if i >= |a| {
        assert (a + b)[i] == b[i - |a|];
      }
    }
  }

  lemma KeysAround(b: seq<Record>, j: nat, col: string)
    requires j < |b| && HasNum(b, col)
    ensures HasNum(b[..j], col) && HasNum(b[j + 1..], col)
    ensures Keys(b, col) == Keys(b[..j], col) + [Key(b[j], col)] + Keys(b[j + 1..], col)
  {
    var ks := Keys(b, col);
    assert ks == ks[..j] + [ks[j]] + ks[j + 1..];
    assert ks[..j] == Keys(b[..j], col);
    assert ks[j + 1..] == Keys(b[j + 1..], col);
  }

  lemma KeysSplit(b: seq<Record>, j: nat, col: string)
    requires j < |b| && HasNum(b, col)
    ensures HasNum(b[..j] + b[j + 1..], col)
    ensures multiset(Keys(b, col)) == multiset(Keys(b[..j] + b[j + 1..], col)) + multiset{Key(b[j], col)}
  {
    KeysAround(b, j, col);
    KeysConcat(b[..j], b[j + 1..], col);
  }

  /** Reordering records reorders the column's values and loses none. */
  lemma {:induction false} KeysPermutation(a: seq<Record>, b: seq<Record>, col: string)
    requires multiset(a) == multiset(b) && HasNum(a, col)
    ensures HasNum(b, col)
    ensures multiset(Keys(a, col)) == multiset(Keys(b, col))
  {
    PermutationKeepsColumns(a, b);
    if a != [] {
      assert a[0] in multiset(b);
      var j :| 0 <= j < |b| && b[j] == a[0];
      RemoveMatching(a, b, j);
      KeysPermutation(a[1..], b[..j] + b[j + 1..], col);
      KeysSplit(b, j, col);
    }
  }

  /** Non-decreasing (ascending) or non-increasing (descending) numbers. */
  predicate Monotone(xs: seq<real>, ascending: bool)
  {
    forall i, j :: 0 <= i < j < |xs| ==> if ascending then xs[i] <= xs[j] else xs[i] >= xs[j]
  }

  lemma MonotoneTail(xs: seq<real>, ascending: bool)
    requires xs != [] && Monotone(xs, ascending)
    ensures Monotone(xs[1..], ascending)
  {
    forall i, j | 0 <= i < j < |xs[1..]|
      ensures if ascending then xs[1..][i] <= xs[1..][j] else xs[1..][i] >= xs[1..][j]
    {
      assert xs[1..][i] == xs[i + 1] && xs[1..][j] == xs[j + 1];
    }
  }

  lemma TailMultiset(xs: seq<real>)
    requires xs != []
    ensures multiset(xs[1..]) == multiset(xs) - multiset{xs[0]}
  {
    assert xs == [xs[0]] + xs[1..];
  }

  /** Two ordered arrangements of the same numbers start with the same number. */
  lemma HeadsEqual(xs: seq<real>, ys: seq<real>, ascending: bool)
    requires xs != [] && multiset(xs) == multiset(ys) && Monotone(xs, ascending) && Monotone(ys, ascending)
    ensures ys != [] && xs[0] == ys[0]
  {
    assert xs[0] in multiset(ys);
    var j :| 0 <= j < |ys| && ys[j] == xs[0];
    assert ys[0] in multiset(xs);
    var k :| 0 <= k < |xs| && xs[k] == ys[0];
    if j > 0 {
      assert if ascending then ys[0] <= ys[j] else ys[0] >= ys[j];
    }
    if k > 0 {
      assert if ascending then xs[0] <= xs[k] else xs[0] >= xs[k];
    }
  }

  /** Two ordered arrangements of the same numbers are the same sequence. */
  lemma {:induction false} MonotoneArrangementUnique(xs: seq<real>, ys: seq<real>, ascending: bool)
    requires multiset(xs) == multiset(ys) && Monotone(xs, ascending) && Monotone(ys, ascending)
    ensures xs == ys
  {
    if xs == [] {
      assert |ys| == |multiset(ys)| == 0;
    } else {
      HeadsEqual(xs, ys, ascending);
      TailMultiset(xs);
      TailMultiset(ys);
      MonotoneTail(xs, ascending);
      MonotoneTail(ys, ascending);
      MonotoneArrangementUnique(xs[1..], ys[1..], ascending);
      assert xs == [xs[0]] + xs[1..];
      assert ys == [ys[0]] + ys[1..];
    }
  }

  /** Whatever order a sort gives records with equal values, every result that is a
      permutation ordered on `col` has the same sequence of `col` values. */
  lemma SortedPermutationsShareKeys(a: seq<Record>, b: seq<Record>, col: string, ascending: bool)
    requires HasNum(a, col) && HasNum(b, col) && multiset(a) == multiset(b)
    requires SortedOn(a, col, ascending) && SortedOn(b, col, ascending)
    ensures Keys(a, col) == Keys(b, col)
  {
    KeysPermutation(a, b, col);
    assert Monotone(Keys(a, col), ascending);
    assert Monotone(Keys(b, col), ascending);
    MonotoneArrangementUnique(Keys(a, col), Keys(b, col), ascending);
  }

  /** Any correct `sort_values` agrees with SortOn on the column's values, and on
      records already in order it leaves the column's values as they are. */
  lemma AnySortAgreesOnKeys(rs: seq<Record>, out: seq<Record>, col: string, ascending: bool)
    requires HasNum(rs, col) && HasNum(out, col) && multiset(out) == multiset(rs)
    requires SortedOn(out, col, ascending)
    ensures Keys(out, col) == Keys(SortOn(rs, col, ascending), col)
    ensures SortedOn(rs, col, ascending) ==> Keys(out, col) == Keys(rs, col)
  {
    SortOnProperties(rs, col, ascending);
    SortedPermutationsShareKeys(out, SortOn(rs, col, ascending), col, ascending);
    if SortedOn(rs, col, ascending) {
      SortedPermutationsShareKeys(out, rs, col, ascending);
    }
  }
}
