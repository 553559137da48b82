/**
 * A plain JavaScript object whose property values are strings, as an ordered list of entries.
 * `Object.entries` enumerates string keys in insertion order, assigning to a key that is already
 * present keeps its position, and a spread `{...o}` assigns o's entries one after another.
 */
module JsObject {
  import opened Outcomes

  type Entries = seq<(string, string)>

  function Keys(o: Entries): (ks: seq<string>)
    ensures |ks| == |o| && forall i :: 0 <= i < |o| ==> ks[i] == o[i].0
  {
    if o == [] then [] else [o[0].0] + Keys(o[1..])
  }

  predicate DistinctKeys(o: Entries) {
    forall i, j :: 0 <= i < j < |o| ==> o[i].0 != o[j].0
  }

  /** `o[k]`, with `None` for `undefined`. */
  function Get(o: Entries, k: string): Option<string> {
    if o == [] then None else if o[0].0 == k then Some(o[0].1) else Get(o[1..], k)
  }

  /** A key reads as defined exactly when it is one of the object's keys. */
  lemma {:induction false} GetDefined(o: Entries, k: string)
    ensures Get(o, k).Some? <==> k in Keys(o)
  {
    if o != [] {
      GetDefined(o[1..], k);
      assert Keys(o) == [o[0].0] + Keys(o[1..]);
    }
  }

  /** `o[k] = v` on a copy of `o`: an existing key keeps its place, a new one goes last. */
  function Put(o: Entries, k: string, v: string): (r: Entries)
    ensures Get(r, k) == Some(v)
  {
    if o == [] then [(k, v)]
    else if o[0].0 == k then [(k, v)] + o[1..]
    else
      var r := [o[0]] + Put(o[1..], k, v);
      assert r[1..] == Put(o[1..], k, v);
      r
  }

  /** After the assignment, reading `k` gives `v` and every other key reads as before. */
  lemma {:induction false} GetPut(o: Entries, k: string, v: string, j: string)
    ensures Get(Put(o, k, v), j) == if j == k then Some(v) else Get(o, j)
  {
    if o != [] && o[0].0 != k {
      GetPut(o[1..], k, v, j);
      assert Put(o, k, v)[1..] == Put(o[1..], k, v);
    }
  }

  /** Reading a two-entry object literal `{ [a]: x, [b]: y }`. */
  lemma GetPair(a: string, x: string, b: string, y: string, k: string)
    ensures Get([(a, x), (b, y)], k) == if k == a then Some(x) else if k == b then Some(y) else None
  {
    var o := [(a, x), (b, y)];
    assert o[1..] == [(b, y)] && o[1..][1..] == [];
    if k != a {
      assert Get(o, k) == Get([(b, y)], k);
      if k != b {
        assert Get([(b, y)], k) == Get([], k);
      }
    }
  }

  /** Assigning keeps the key order, adding the key at the end when it is new. */
  lemma {:induction false} PutKeys(o: Entries, k: string, v: string)
    ensures Keys(Put(o, k, v)) == if k in Keys(o) then Keys(o) else Keys(o) + [k]
  {
    if o != [] && o[0].0 != k {
      PutKeys(o[1..], k, v);
      assert Put(o, k, v)[1..] == Put(o[1..], k, v);
    }
  }

  /** Assigning never creates a second entry for a key. */
  lemma PutDistinct(o: Entries, k: string, v: string)
    requires DistinctKeys(o)
    ensures DistinctKeys(Put(o, k, v))
  {
    PutKeys(o, k, v);
    var r := Put(o, k, v);
    forall i, j | 0 <= i < j < |r| ensures r[i].0 != r[j].0 {
      assert Keys(r)[i] == r[i].0 && Keys(r)[j] == r[j].0;
    }
  }

  /** `{...o, ...p}`: the entries of `p` assigned onto `o` in order. */
  function Spread(o: Entries, p: Entries): Entries
    decreases |p|
  {
    if p == [] then o else Spread(Put(o, p[0].0, p[0].1), p[1..])
  }

  /** The object `rest` of a destructuring `{ a, b, ...rest } = o` with `ks == {a, b}`. */
  function Without(o: Entries, ks: set<string>): (r: Entries)
    ensures forall j :: Get(r, j) == if j in ks then None else Get(o, j)
  {
    if o == [] then []
    else if o[0].0 in ks then Without(o[1..], ks)
    else [o[0]] + Without(o[1..], ks)
  }

  /** Spreading keeps every key of the target and takes the source's value for each key it has. */
  lemma {:induction false} SpreadGet(o: Entries, p: Entries, j: string)
    requires DistinctKeys(p)
    ensures Get(Spread(o, p), j) == if j in Keys(p) then Get(p, j) else Get(o, j)
    decreases |p|
  {
    if p != [] {
      var o' := Put(o, p[0].0, p[0].1);
      SpreadGet(o', p[1..], j);
      GetPut(o, p[0].0, p[0].1, j);
      assert Keys(p) == [p[0].0] + Keys(p[1..]);
      if j in Keys(p[1..]) {
        var i :| 0 <= i < |p[1..]| && Keys(p[1..])[i] == j;
        assert p[i + 1].0 == j;
      }
    }
  }
}
