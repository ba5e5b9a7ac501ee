/**
 * Python dictionaries as the converter uses them: insertion-ordered maps from
 * string keys to values of mixed type.
 */
module Dicts {
  import opened Wrappers
  import opened Text

  /**
   * A metadata value. Strings and integers are distinguished because the
   * converter treats them differently; any other value (a list, a date, a
   * float, a boolean from front matter) carries the text Python's `str()`
   * gives it.
   */
  datatype Value = Str(s: string) | Int(i: int) | Other(text: string)

  /** `str(v)`, as used inside an f-string. */
  function Render(v: Value): string {
    match v
    case Str(s) => s
    case Int(i) => IntToString(i)
    case Other(t) => t
  }

  /** An insertion-ordered dictionary. */
  type Dict = seq<(string, Value)>

  function Keys(d: Dict): (ks: seq<string>)
    ensures |ks| == |d|
    ensures forall i :: 0 <= i < |d| ==> ks[i] == d[i].0
  {
    if d == [] then [] else [d[0].0] + Keys(d[1..])
  }

  /** A Python dict never holds a key twice. */
  predicate UniqueKeys(d: Dict) {
    forall i, j :: 0 <= i < j < |d| ==> d[i].0 != d[j].0
  }

  /** `d.get(k)` */
  function Get(d: Dict, k: string): (r: Option<Value>)
    ensures r.Some? <==> k in Keys(d)
  {
    if d == [] then None else if d[0].0 == k then Some(d[0].1) else Get(d[1..], k)
  }

  /** `d[k] = v`: replaces the value in place if `k` is present, else appends. */
  function Put(d: Dict, k: string, v: Value): Dict {
    if d == [] then [(k, v)]
    else if d[0].0 == k then [(k, v)] + d[1..]
    else [d[0]] + Put(d[1..], k, v)
  }

  /** `d.update(e)`: every entry of `e`, in order, is put into `d`. */
  function Update(d: Dict, e: Dict): Dict
    decreases |e|
  {
    if e == [] then d else Update(Put(d, e[0].0, e[0].1), e[1..])
  }

  /** The keys of `es` that are not in `ks`, in their order. */
  function NewKeys(ks: seq<string>, es: seq<string>): seq<string> {
    if es == [] then [] else (if es[0] in ks then [] else [es[0]]) + NewKeys(ks, es[1..])
  }

  lemma {:induction false} PutGet(d: Dict, k: string, v: Value, k': string)
    ensures Get(Put(d, k, v), k') == if k' == k then Some(v) else Get(d, k')
  {
    if d != [] && d[0].0 != k {
      PutGet(d[1..], k, v, k');
    }
  }

  lemma {:induction false} PutKeys(d: Dict, k: string, v: Value)
    ensures Keys(Put(d, k, v)) == if k in Keys(d) then Keys(d) else Keys(d) + [k]
  {
    if d != [] && d[0].0 != k {
      PutKeys(d[1..], k, v);
      assert Keys(d) == [d[0].0] + Keys(d[1..]);
    }
  }

  lemma PutUnique(d: Dict, k: string, v: Value)
    requires UniqueKeys(d)
    ensures UniqueKeys(Put(d, k, v))
  {
    PutKeys(d, k, v);
    var p := Put(d, k, v);
    forall i, j | 0 <= i < j < |p| ensures p[i].0 != p[j].0 {
      assert p[i].0 == Keys(p)[i] && p[j].0 == Keys(p)[j];
      if j < |d| {
        assert Keys(p)[i] == Keys(d)[i] && Keys(p)[j] == Keys(d)[j];
      } else {
        assert Keys(p)[i] == Keys(d)[i];
      }
    }
  }

  /** After `d.update(e)`, a key of `e` maps to its value in `e`, any other key to its value in `d`. */
  lemma {:induction false} UpdateGet(d: Dict, e: Dict, k: string)
    requires UniqueKeys(e)
    ensures Get(Update(d, e), k) == if k in Keys(e) then Get(e, k) else Get(d, k)
    decreases |e|
  {
    if e != [] {
      var (k0, v0) := e[0];
      UpdateGet(Put(d, k0, v0), e[1..], k);
      PutGet(d, k0, v0, k);
      assert Keys(e) == [k0] + Keys(e[1..]);
      if k == k0 {
        UniqueTail(e);
      }
    }
  }

  lemma {:induction false} NewKeysSkip(ks: seq<string>, k: string, es: seq<string>)
    requires k !in es
    ensures NewKeys(ks + [k], es) == NewKeys(ks, es)
  {
    if es != [] {
      NewKeysSkip(ks, k, es[1..]);
    }
  }

  lemma UniqueTail(e: Dict)
    requires UniqueKeys(e) && e != []
    ensures UniqueKeys(e[1..])
    ensures e[0].0 !in Keys(e[1..])
  {
    var t := e[1..];
    forall i, j | 0 <= i < j < |t| ensures t[i].0 != t[j].0 {
      assert t[i] == e[i + 1] && t[j] == e[j + 1];
    }
    forall j | 0 <= j < |t| ensures Keys(t)[j] != e[0].0 {
      assert t[j] == e[j + 1];
    }
  }

  /**
   * `d.update(e)` keeps the keys of `d` in their order and appends the keys of
   * `e` that `d` lacks, in the order of `e`.
   */
  lemma {:induction false} UpdateKeys(d: Dict, e: Dict)
    requires UniqueKeys(e)
    ensures Keys(Update(d, e)) == Keys(d) + NewKeys(Keys(d), Keys(e))
    decreases |e|
  {
    if e != [] {
      UniqueTail(e);
      UpdateKeys(Put(d, e[0].0, e[0].1), e[1..]);
      NewKeysCons(Keys(d), e);
      PutKeys(d, e[0].0, e[0].1);
      if e[0].0 !in Keys(d) {
        NewKeysSkip(Keys(d), e[0].0, Keys(e[1..]));
        AppendAssociates(Keys(d), [e[0].0], NewKeys(Keys(d), Keys(e[1..])));
      }
    }
  }

  /** The new keys of a non-empty dictionary: its first key unless already present, then the new keys of the rest. */
  lemma NewKeysCons(ks: seq<string>, e: Dict)
    requires e != []
    ensures e[0].0 in ks ==> NewKeys(ks, Keys(e)) == NewKeys(ks, Keys(e[1..]))
    ensures e[0].0 !in ks ==> NewKeys(ks, Keys(e)) == [e[0].0] + NewKeys(ks, Keys(e[1..]))
  {
    var ke := Keys(e);
    assert ke[0] == e[0].0 && ke[1..] == Keys(e[1..]);
    if e[0].0 in ks {
      assert [] + NewKeys(ks, ke[1..]) == NewKeys(ks, ke[1..]);
    }
  }

  /** Updating with a dictionary of unique keys keeps the keys unique. */
  lemma {:induction false} UpdateUnique(d: Dict, e: Dict)
    requires UniqueKeys(d)
    ensures UniqueKeys(Update(d, e))
    decreases |e|
  {
    if e != [] {
      PutUnique(d, e[0].0, e[0].1);
      UpdateUnique(Put(d, e[0].0, e[0].1), e[1..]);
    }
  }
}
