/** Shared vocabulary: optional values, Python-style errors, the outcome of a
    Dash callback, CSS style dictionaries and insertion-ordered dictionaries. */
module Common {

  datatype Option<T> = None | Some(value: T)

  /** The Python exceptions the modelled code can raise. */
  datatype Error =
    | KeyError(key: string)     // dict or DataFrame lookup of a missing key
    | IndexError                // `xs[0]` on an empty list
    | ValueError                // tuple unpacking with the wrong arity

  datatype Result<T> = Ok(value: T) | Err(error: Error)

  /** What a Dash callback hands back: `raise PreventUpdate` or an all-`no_update`
      tuple (nothing changes), an exception (nothing changes either), or new values. */
  datatype Outcome<T> = NoUpdate | Raised(error: Error) | Updated(value: T)

  /** A single output that is either rewritten or left alone (`dash.no_update`). */
  datatype Write<T> = Keep | Put(value: T)

  /** A CSS style dictionary. */
  type Style = map<string, string>

  /** Truthiness of a store value that is either absent (None/False) or a string. */
  predicate Truthy(o: Option<string>)
  {
    o.Some? && o.value != ""
  }

  /** `all(v is None for v in n_clicks)`. */
  predicate AllNone(clicks: seq<Option<int>>)
  {
    forall i :: 0 <= i < |clicks| ==> clicks[i].None?
  }

  /** Number of occurrences of `c` in `s`. */
  function Count(s: string, c: char): (n: nat)
    ensures n <= |s|
    ensures n == 0 <==> c !in s
  {
    if s == [] then 0 else (if s[0] == c then 1 else 0) + Count(s[1..], c)
  }

  predicate Distinct<T(==)>(s: seq<T>)
  {
    forall i, j :: 0 <= i < j < |s| ==> s[i] != s[j]
  }

  /** A Python dict: insertion-ordered keys over a finite map. */
  datatype OMap<V> = OMap(keys: seq<string>, vals: map<string, V>)
  {
    ghost predicate Valid()
    {
      Distinct(keys) && (forall k :: k in vals <==> k in keys)
    }

    /** `d[k] = v`: a new key goes to the end, an existing key keeps its place. */
    function Set(k: string, v: V): (r: OMap<V>)
      requires Valid()
      ensures r.Valid()
      ensures r.vals == vals[k := v]
      ensures k in vals ==> r.keys == keys
      ensures k !in vals ==> r.keys == keys + [k]
    {
      if k in vals then OMap(keys, vals[k := v]) else OMap(keys + [k], vals[k := v])
    }

    /** `list(d.values())`. */
    function Values(): (r: seq<V>)
      requires Valid()
      ensures |r| == |keys|
      ensures forall i :: 0 <= i < |keys| ==> r[i] == vals[keys[i]]
    {
      ValuesOf(keys, vals)
    }
  }

  function EmptyOMap<V>(): (r: OMap<V>)
    ensures r.Valid() && r.keys == [] && r.vals == map[]
  {
    OMap([], map[])
  }

  function ValuesOf<V>(ks: seq<string>, m: map<string, V>): (r: seq<V>)
    requires forall k :: k in ks ==> k in m
    ensures |r| == |ks|
    ensures forall i :: 0 <= i < |ks| ==> r[i] == m[ks[i]]
  {
    if ks == [] then [] else [m[ks[0]]] + ValuesOf(ks[1..], m)
  }

  /** `d[k]` on a dict: the value, or KeyError. */
  function Lookup<V>(m: map<string, V>, k: string): (r: Result<V>)
    ensures r.Ok? <==> k in m
    ensures r.Ok? ==> r.value == m[k]
    ensures r.Err? ==> r.error == KeyError(k)
  {
    if k in m then Ok(m[k]) else Err(KeyError(k))
  }
}
