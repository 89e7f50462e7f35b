/**
 * The unified extension tree and its conversions to and from the RSS and Atom
 * extension trees (src/abstractions/extension.rs).
 *
 * Each conversion is written twice: as a recursive function that says what the converted
 * tree is, and as the method that builds it the way the source does, with one loop over
 * the children map filling a fresh map by `insert`, and one loop per child list pushing
 * each converted child onto a fresh list.
 */
module Extensions {
  import opened Options
  import opened KeyedLists
  import Rss
  import Atom = AtomSyndication

  datatype Extension = Extension(
    name: string,
    value: Option<string>,
    attrs: map<string, string>,
    children: seq<Keyed<Extension>>)

  /** Namespace to tag name to the extensions carrying that tag. */
  type ExtensionMap = map<string, map<string, seq<Extension>>>

  /** The children maps at every level of the tree have unique keys, as a `BTreeMap` does. */
  ghost predicate WellFormed(e: Extension) {
    && DistinctKeys(e.children)
    && forall j, i :: 0 <= j < |e.children| && 0 <= i < |e.children[j].values| ==>
         WellFormed(e.children[j].values[i])
  }

  // ---- What each conversion produces ----

  /**
   * The RSS tree for `e`: name, value and attributes copied, and the children map with the
   * same keys in the same order, each list converted element by element.
   */
  function ConvertToRss(e: Extension): (r: Rss.Extension)
    ensures r.name == e.name && r.value == e.value && r.attrs == e.attrs
    ensures |r.children| == |e.children|
    ensures forall j :: 0 <= j < |e.children| ==>
      r.children[j].key == e.children[j].key && |r.children[j].values| == |e.children[j].values|
  {
    Rss.Extension(e.name, e.value, e.attrs,
      seq(|e.children|, j requires 0 <= j < |e.children| =>
        Keyed(e.children[j].key,
          seq(|e.children[j].values|, i requires 0 <= i < |e.children[j].values| =>
            ConvertToRss(e.children[j].values[i])))))
  }

  /** The unified tree for an RSS tree, with the same shape. */
  function ConvertFromRss(x: Rss.Extension): (r: Extension)
    ensures r.name == x.name && r.value == x.value && r.attrs == x.attrs
    ensures |r.children| == |x.children|
    ensures forall j :: 0 <= j < |x.children| ==>
      r.children[j].key == x.children[j].key && |r.children[j].values| == |x.children[j].values|
  {
    Extension(x.name, x.value, x.attrs,
      seq(|x.children|, j requires 0 <= j < |x.children| =>
        Keyed(x.children[j].key,
          seq(|x.children[j].values|, i requires 0 <= i < |x.children[j].values| =>
            ConvertFromRss(x.children[j].values[i])))))
  }

  /** The Atom tree for `e`, with the same shape. */
  function ConvertToAtom(e: Extension): (r: Atom.Extension)
    ensures r.name == e.name && r.value == e.value && r.attrs == e.attrs
    ensures |r.children| == |e.children|
    ensures forall j :: 0 <= j < |e.children| ==>
      r.children[j].key == e.children[j].key && |r.children[j].values| == |e.children[j].values|
  {
    Atom.Extension(e.name, e.value, e.attrs,
      seq(|e.children|, j requires 0 <= j < |e.children| =>
        Keyed(e.children[j].key,
          seq(|e.children[j].values|, i requires 0 <= i < |e.children[j].values| =>
            ConvertToAtom(e.children[j].values[i])))))
  }

  /** The unified tree for an Atom tree, with the same shape. */
  function ConvertFromAtom(x: Atom.Extension): (r: Extension)
    ensures r.name == x.name && r.value == x.value && r.attrs == x.attrs
    ensures |r.children| == |x.children|
    ensures forall j :: 0 <= j < |x.children| ==>
      r.children[j].key == x.children[j].key && |r.children[j].values| == |x.children[j].values|
  {
    Extension(x.name, x.value, x.attrs,
      seq(|x.children|, j requires 0 <= j < |x.children| =>
        Keyed(x.children[j].key,
          seq(|x.children[j].values|, i requires 0 <= i < |x.children[j].values| =>
            ConvertFromAtom(x.children[j].values[i])))))
  }

  // ---- The conversions as the source performs them ----

  /** `RssExtension::from(extension)`. */
  method ToRss(e: Extension) returns (r: Rss.Extension)
    requires WellFormed(e)
    ensures r == ConvertToRss(e)
    decreases e
  {
    ghost var target := ConvertToRss(e);
    var bt: seq<Keyed<Rss.Extension>> := [];
    var j := 0;
    while j < |e.children|
      invariant 0 <= j <= |e.children|
      invariant bt == target.children[..j]
    {
      var key, value := e.children[j].key, e.children[j].values;
      var chExtensions: seq<Rss.Extension> := [];
      var i := 0;
      while i < |value|
        invariant 0 <= i <= |value|
        invariant chExtensions == target.children[j].values[..i]
      {
        var v := ToRss(value[i]);
        chExtensions := chExtensions + [v];
        i := i + 1;
      }
      assert key !in Keys(bt) by {
        if key in Keys(bt) {
          KeyHasEntry(bt, key);
          assert false;
        }
      }
      assert chExtensions == target.children[j].values;
      assert target.children[..j + 1] == target.children[..j] + [Keyed(key, chExtensions)];
      bt := Insert(bt, key, chExtensions);
      j := j + 1;
    }
    r := Rss.Extension(e.name, e.value, e.attrs, bt);
  }
  /** `Extension::from(rss_extension)`. */
  method FromRss(e: Rss.Extension) returns (r: Extension)
    requires Rss.WellFormed(e)
    ensures r == ConvertFromRss(e)
    decreases e
  {
    ghost var target := ConvertFromRss(e);
    var bt: seq<Keyed<Extension>> := [];
    var j := 0;
    while j < |e.children|
      invariant 0 <= j <= |e.children|
      invariant bt == target.children[..j]
    {
      var key, value := e.children[j].key, e.children[j].values;
      var chExtensions: seq<Extension> := [];
      var i := 0;
      while i < |value|
        invariant 0 <= i <= |value|
        invariant chExtensions == target.children[j].values[..i]
      {
        var v := FromRss(value[i]);
        chExtensions := chExtensions + [v];
        i := i + 1;
      }
      assert key !in Keys(bt) by {
        if key in Keys(bt) {
          KeyHasEntry(bt, key);
          assert false;
        }
      }
      assert chExtensions == target.children[j].values;
      assert target.children[..j + 1] == target.children[..j] + [Keyed(key, chExtensions)];
      bt := Insert(bt, key, chExtensions);
      j := j + 1;
    }
    r := Extension(e.name, e.value, e.attrs, bt);
  }
  /** `AtomExtension::from(extension)`. */
  method ToAtom(e: Extension) returns (r: Atom.Extension)
    requires WellFormed(e)
    ensures r == ConvertToAtom(e)
    decreases e
  {
    ghost var target := ConvertToAtom(e);
    var bt: seq<Keyed<Atom.Extension>> := [];
    var j := 0;
    while j < |e.children|
      invariant 0 <= j <= |e.children|
      invariant bt == target.children[..j]
    {
      var key, value := e.children[j].key, e.children[j].values;
      var chExtensions: seq<Atom.Extension> := [];
      var i := 0;
      while i < |value|
        invariant 0 <= i <= |value|
        invariant chExtensions == target.children[j].values[..i]
      {
        var v := ToAtom(value[i]);
        chExtensions := chExtensions + [v];
        i := i + 1;
      }
      assert key !in Keys(bt) by {
        if key in Keys(bt) {
          KeyHasEntry(bt, key);
          assert false;
        }
      }
      assert chExtensions == target.children[j].values;
      assert target.children[..j + 1] == target.children[..j] + [Keyed(key, chExtensions)];
      bt := Insert(bt, key, chExtensions);
      j := j + 1;
    }
    r := Atom.Extension(e.name, e.value, e.attrs, bt);
  }
  /** `Extension::from(atom_extension)`. */
  method FromAtom(e: Atom.Extension) returns (r: Extension)
    requires Atom.WellFormed(e)
    ensures r == ConvertFromAtom(e)
    decreases e
  {
    ghost var target := ConvertFromAtom(e);
    var bt: seq<Keyed<Extension>> := [];
    var j := 0;
    while j < |e.children|
      invariant 0 <= j <= |e.children|
      invariant bt == target.children[..j]
    {
      var key, value := e.children[j].key, e.children[j].values;
      var chExtensions: seq<Extension> := [];
      var i := 0;
      while i < |value|
        invariant 0 <= i <= |value|
        invariant chExtensions == target.children[j].values[..i]
      {
        var v := FromAtom(value[i]);
        chExtensions := chExtensions + [v];
        i := i + 1;
      }
      assert key !in Keys(bt) by {
        if key in Keys(bt) {
          KeyHasEntry(bt, key);
          assert false;
        }
      }
      assert chExtensions == target.children[j].values;
      assert target.children[..j + 1] == target.children[..j] + [Keyed(key, chExtensions)];
      bt := Insert(bt, key, chExtensions);
      j := j + 1;
    }
    r := Extension(e.name, e.value, e.attrs, bt);
  }

  // ---- Unique keys are kept ----

  /** Converting to RSS keeps the children keys unique at every level. */
  lemma {:induction false} ToRssKeepsWellFormed(x: Extension)
    requires WellFormed(x)
    ensures Rss.WellFormed(ConvertToRss(x))
  {
    forall j, i | 0 <= j < |x.children| && 0 <= i < |x.children[j].values|
      ensures Rss.WellFormed(ConvertToRss(x.children[j].values[i]))
    {
      ToRssKeepsWellFormed(x.children[j].values[i]);
    }
    var r := ConvertToRss(x);
    assert DistinctKeys(r.children) by {
      forall a, b | 0 <= a < b < |r.children| ensures r.children[a].key != r.children[b].key {
        assert r.children[a].key == x.children[a].key && r.children[b].key == x.children[b].key;
      }
    }
    forall j, i | 0 <= j < |r.children| && 0 <= i < |r.children[j].values|
      ensures Rss.WellFormed(r.children[j].values[i])
    {
      assert r.children[j].values[i] == ConvertToRss(x.children[j].values[i]);
    }
  }

  /** Converting from RSS keeps the children keys unique at every level. */
  lemma {:induction false} FromRssKeepsWellFormed(x: Rss.Extension)
    requires Rss.WellFormed(x)
    ensures WellFormed(ConvertFromRss(x))
  {
    forall j, i | 0 <= j < |x.children| && 0 <= i < |x.children[j].values|
      ensures WellFormed(ConvertFromRss(x.children[j].values[i]))
    {
      FromRssKeepsWellFormed(x.children[j].values[i]);
    }
    var r := ConvertFromRss(x);
    assert DistinctKeys(r.children) by {
      forall a, b | 0 <= a < b < |r.children| ensures r.children[a].key != r.children[b].key {
        assert r.children[a].key == x.children[a].key && r.children[b].key == x.children[b].key;
      }
    }
    forall j, i | 0 <= j < |r.children| && 0 <= i < |r.children[j].values|
      ensures WellFormed(r.children[j].values[i])
    {
      assert r.children[j].values[i] == ConvertFromRss(x.children[j].values[i]);
    }
  }

  /** Converting to Atom keeps the children keys unique at every level. */
  lemma {:induction false} ToAtomKeepsWellFormed(x: Extension)
    requires WellFormed(x)
    ensures Atom.WellFormed(ConvertToAtom(x))
  {
    forall j, i | 0 <= j < |x.children| && 0 <= i < |x.children[j].values|
      ensures Atom.WellFormed(ConvertToAtom(x.children[j].values[i]))
    {
      ToAtomKeepsWellFormed(x.children[j].values[i]);
    }
    var r := ConvertToAtom(x);
    assert DistinctKeys(r.children) by {
      forall a, b | 0 <= a < b < |r.children| ensures r.children[a].key != r.children[b].key {
        assert r.children[a].key == x.children[a].key && r.children[b].key == x.children[b].key;
      }
    }
    forall j, i | 0 <= j < |r.children| && 0 <= i < |r.children[j].values|
      ensures Atom.WellFormed(r.children[j].values[i])
    {
      assert r.children[j].values[i] == ConvertToAtom(x.children[j].values[i]);
    }
  }

  /** Converting from Atom keeps the children keys unique at every level. */
  lemma {:induction false} FromAtomKeepsWellFormed(x: Atom.Extension)
    requires Atom.WellFormed(x)
    ensures WellFormed(ConvertFromAtom(x))
  {
    forall j, i | 0 <= j < |x.children| && 0 <= i < |x.children[j].values|
      ensures WellFormed(ConvertFromAtom(x.children[j].values[i]))
    {
      FromAtomKeepsWellFormed(x.children[j].values[i]);
    }
    var r := ConvertFromAtom(x);
    assert DistinctKeys(r.children) by {
      forall a, b | 0 <= a < b < |r.children| ensures r.children[a].key != r.children[b].key {
        assert r.children[a].key == x.children[a].key && r.children[b].key == x.children[b].key;
      }
    }
    forall j, i | 0 <= j < |r.children| && 0 <= i < |r.children[j].values|
      ensures WellFormed(r.children[j].values[i])
    {
      assert r.children[j].values[i] == ConvertFromAtom(x.children[j].values[i]);
    }
  }

  // ---- Round trips ----

  /** An RSS tree converted to the unified tree converts back to itself. */
  lemma {:induction false} RssTreeRoundTrip(x: Rss.Extension)
    ensures ConvertToRss(ConvertFromRss(x)) == x
  {
    forall j, i | 0 <= j < |x.children| && 0 <= i < |x.children[j].values|
      ensures ConvertToRss(ConvertFromRss(x.children[j].values[i])) == x.children[j].values[i]
    {
      RssTreeRoundTrip(x.children[j].values[i]);
    }
    var y := ConvertToRss(ConvertFromRss(x));
    forall j | 0 <= j < |x.children| ensures y.children[j] == x.children[j] {
      assert y.children[j].values == x.children[j].values;
    }
  }

  /** A unified tree converted to an RSS tree converts back to itself. */
  lemma {:induction false} RssRoundTrip(x: Extension)
    ensures ConvertFromRss(ConvertToRss(x)) == x
  {
    forall j, i | 0 <= j < |x.children| && 0 <= i < |x.children[j].values|
      ensures ConvertFromRss(ConvertToRss(x.children[j].values[i])) == x.children[j].values[i]
    {
      RssRoundTrip(x.children[j].values[i]);
    }
    var y := ConvertFromRss(ConvertToRss(x));
    forall j | 0 <= j < |x.children| ensures y.children[j] == x.children[j] {
      assert y.children[j].values == x.children[j].values;
    }
  }

  /** An Atom tree converted to the unified tree converts back to itself. */
  lemma {:induction false} AtomTreeRoundTrip(x: Atom.Extension)
    ensures ConvertToAtom(ConvertFromAtom(x)) == x
  {
    forall j, i | 0 <= j < |x.children| && 0 <= i < |x.children[j].values|
      ensures ConvertToAtom(ConvertFromAtom(x.children[j].values[i])) == x.children[j].values[i]
    {
      AtomTreeRoundTrip(x.children[j].values[i]);
    }
    var y := ConvertToAtom(ConvertFromAtom(x));
    forall j | 0 <= j < |x.children| ensures y.children[j] == x.children[j] {
      assert y.children[j].values == x.children[j].values;
    }
  }

  /** A unified tree converted to an Atom tree converts back to itself. */
  lemma {:induction false} AtomRoundTrip(x: Extension)
    ensures ConvertFromAtom(ConvertToAtom(x)) == x
  {
    forall j, i | 0 <= j < |x.children| && 0 <= i < |x.children[j].values|
      ensures ConvertFromAtom(ConvertToAtom(x.children[j].values[i])) == x.children[j].values[i]
    {
      AtomRoundTrip(x.children[j].values[i]);
    }
    var y := ConvertFromAtom(ConvertToAtom(x));
    forall j | 0 <= j < |x.children| ensures y.children[j] == x.children[j] {
      assert y.children[j].values == x.children[j].values;
    }
  }
}
