/** The unified category and its conversions (src/abstractions/category.rs). */
module Categories {
  import opened Options
  import Rss
  import Atom = AtomSyndication

  /** `scheme` is RSS's `domain`; `label_` is the Rust field `label` (a Dafny keyword). */
  datatype Category = Category(name: string, scheme: Option<string>, label_: Option<string>)

  /** Unified to RSS category: the name and the domain; RSS has no label. */
  function ToRss(c: Category): Rss.Category {
    Rss.Category(c.name, c.scheme)
  }

  /**
   * RSS to unified category. The label is always a copy of the name, also when the
   * name is empty, and the RSS category survives the round trip.
   */
  function FromRss(r: Rss.Category): (c: Category)
    ensures ToRss(c) == r
    ensures c.label_ == Some(r.name)
  {
    Category(r.name, r.domain, Some(r.name))
  }

  /** The label plays no part in the RSS category. */
  lemma ToRssIgnoresLabel(c: Category, l: Option<string>)
    ensures ToRss(c.(label_ := l)) == ToRss(c)
  {
  }

  /** A unified category survives the RSS round trip exactly when its label is its name. */
  lemma RssRoundTrip(c: Category)
    ensures FromRss(ToRss(c)) == c <==> c.label_ == Some(c.name)
  {
  }

  /** An RSS category with an empty name gets the empty label, not no label. */
  lemma EmptyNameKeepsLabel()
    ensures FromRss(Rss.Category("", None)).label_ == Some("")
  {
  }

  /** Unified to Atom category: the name becomes the term. */
  function ToAtom(c: Category): Atom.Category {
    Atom.Category(c.name, c.scheme, c.label_)
  }

  /** An Atom category converted to the unified category converts back to itself. */
  function FromAtom(a: Atom.Category): (c: Category)
    ensures ToAtom(c) == a
    ensures c.name == a.term
  {
    Category(a.term, a.scheme, a.label_)
  }

  /** A unified category converted to Atom converts back to itself. */
  lemma AtomRoundTrip(c: Category)
    ensures FromAtom(ToAtom(c)) == c
  {
  }
}
