/**
 * A `BTreeMap<String, Vec<X>>` as an association list of keyed lists.
 *
 * The children of an extension node are kept this way (rather than as a Dafny `map`)
 * so that a child node sits structurally below its parent, which is what lets the
 * conversions recurse on it. Keys of a real `BTreeMap` are unique; `DistinctKeys`
 * states that, and `Insert` models `BTreeMap::insert`.
 */
module KeyedLists {
  import opened Options

  datatype Keyed<X> = Keyed(key: string, values: seq<X>)

  /** The key set of the map. */
  function Keys<X>(kl: seq<Keyed<X>>): (ks: set<string>)
    ensures forall j :: 0 <= j < |kl| ==> kl[j].key in ks
  {
    if |kl| == 0 then {} else {kl[0].key} + Keys(kl[1..])
  }

  /** Every key in the key set is the key of some entry. */
  lemma {:induction false} KeyHasEntry<X>(kl: seq<Keyed<X>>, k: string)
    requires k in Keys(kl)
    ensures exists j :: 0 <= j < |kl| && kl[j].key == k
  {
    if kl[0].key != k {
      KeyHasEntry(kl[1..], k);
      var j :| 0 <= j < |kl[1..]| && kl[1..][j].key == k;
      assert kl[j + 1].key == k;
    }
  }

  ghost predicate DistinctKeys<X>(kl: seq<Keyed<X>>) {
    forall a, b :: 0 <= a < b < |kl| ==> kl[a].key != kl[b].key
  }

  /** `BTreeMap::get`: the list stored under `k`, if any. */
  function Get<X>(kl: seq<Keyed<X>>, k: string): (r: Option<seq<X>>)
    ensures r.Some? <==> k in Keys(kl)
  {
    if |kl| == 0 then None
    else if kl[0].key == k then Some(kl[0].values)
    else Get(kl[1..], k)
  }

  /**
   * `BTreeMap::insert`: afterwards `k` maps to `vs` and every other key keeps its list;
   * an existing entry for `k` is replaced in place, a new key is added at the end.
   */
  function Insert<X>(kl: seq<Keyed<X>>, k: string, vs: seq<X>): (r: seq<Keyed<X>>)
    ensures Keys(r) == Keys(kl) + {k}
    ensures Get(r, k) == Some(vs)
    ensures forall k' :: k' != k ==> Get(r, k') == Get(kl, k')
    ensures k !in Keys(kl) ==> r == kl + [Keyed(k, vs)]
  {
    if |kl| == 0 then [Keyed(k, vs)]
    else if kl[0].key == k then [Keyed(k, vs)] + kl[1..]
    else [kl[0]] + Insert(kl[1..], k, vs)
  }

  /** Inserting into a map with unique keys keeps the keys unique. */
  lemma {:induction false} InsertKeepsDistinct<X>(kl: seq<Keyed<X>>, k: string, vs: seq<X>)
    requires DistinctKeys(kl)
    ensures DistinctKeys(Insert(kl, k, vs))
  {
    if |kl| > 0 && kl[0].key != k {
      var tail := kl[1..];
      assert DistinctKeys(tail) by {
        forall a, b | 0 <= a < b < |tail| ensures tail[a].key != tail[b].key {
          assert tail[a] == kl[a + 1] && tail[b] == kl[b + 1];
        }
      }
      InsertKeepsDistinct(tail, k, vs);
      var rest := Insert(tail, k, vs);
      var r := Insert(kl, k, vs);
      assert kl[0].key !in Keys(tail) by {
        if kl[0].key in Keys(tail) {
          KeyHasEntry(tail, kl[0].key);
          assert false;
        }
      }
      forall a, b | 0 <= a < b < |r| ensures r[a].key != r[b].key {
        assert r[b] == rest[b - 1];
        if a > 0 {
          assert r[a] == rest[a - 1];
        }
      }
    }
  }
}
