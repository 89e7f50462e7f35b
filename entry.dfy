/**
 * The unified entry and its four conversions: RSS item to entry, entry to RSS item,
 * Atom entry to entry and entry to Atom entry (src/abstractions/entry.rs).
 */
module Entries {
  import opened Options
  import opened Seqs
  import Rss
  import Atom = AtomSyndication
  import Texts
  import Links
  import Categories
  import Authors
  import Guids
  import Enclosures
  import AuthorField

  datatype Entry = Entry(
    title: Texts.Text,
    guid: Guids.Guid,
    links: seq<Links.Link>,
    summary: Option<Texts.Text>,
    authors: seq<Authors.Author>,
    feed_authors: Option<seq<Authors.Author>>,
    categories: seq<Categories.Category>,
    comments: Option<string>,
    enclosure: Option<Enclosures.Enclosure>)

  // ---- RSS ----

  /**
   * `Entry::from(rss_item)`. The entry always has exactly one link, the item's link or
   * the default one; its authors are the item's author field cut at each "; ", one bare
   * name per piece; it has no feed authors.
   */
  function FromRss(item: Rss.Item): (e: Entry)
    ensures Texts.ToString(e.title) == item.title.GetOr("")
    ensures e.title.base.None? && e.title.lang.None? && e.title.text_type == Texts.TextType.Text
    ensures item.guid.None? ==> e.guid == Guids.Default()
    ensures item.guid.Some? ==> Guids.ToRss(e.guid) == item.guid.value
    ensures |e.links| == 1
    ensures e.links[0] == if item.link.Some? then Links.FromString(item.link.value) else Links.Default()
    ensures MapOption(Texts.ToString, e.summary) == item.description
    ensures e.summary.Some? ==>
      e.summary.value.base.None? && e.summary.value.lang.None? && e.summary.value.text_type == Texts.TextType.Text
    ensures item.author.None? ==> e.authors == []
    ensures item.author.Some? ==>
      var pieces := AuthorField.Split(item.author.value);
      && |e.authors| == |pieces|
      && forall k :: 0 <= k < |pieces| ==> e.authors[k] == Authors.Author(pieces[k], None, None)
    ensures e.feed_authors.None?
    ensures |e.categories| == |item.categories|
    ensures forall k :: 0 <= k < |item.categories| ==>
      Categories.ToRss(e.categories[k]) == item.categories[k] &&
      e.categories[k].label_ == Some(item.categories[k].name)
    ensures e.comments == item.comments
    ensures MapOption(Enclosures.ToRss, e.enclosure) == item.enclosure
  {
    var title := match item.title
      case Some(text) => Texts.FromString(text)
      case None => Texts.Default();
    var guid := match item.guid
      case Some(id) => Guids.FromRss(id)
      case None => Guids.Default();
    var links := match item.link
      case Some(link) => [Links.FromString(link)]
      case None => [Links.Default()];
    var authors := match item.author
      case Some(text) => Map(Authors.FromString, AuthorField.Split(text))
      case None => [];
    Entry(
      title,
      guid,
      links,
      MapOption(Texts.FromString, item.description),
      authors,
      None,
      Map(Categories.FromRss, item.categories),
      item.comments,
      MapOption(Enclosures.FromRss, item.enclosure))
  }

  /**
   * `RssItem::from(entry)`. An empty title or identifier is left out; only the first link
   * is kept; the authors are collapsed to strings and joined with "; ", and no authors
   * means no author field. Summary and feed authors are dropped, and every other field
   * of the item stays at its default.
   */
  function ToRss(e: Entry): (r: Rss.Item)
    ensures r.title.None? <==> e.title.value == ""
    ensures r.title.Some? ==> r.title.value == e.title.value
    ensures r.guid.None? <==> e.guid.value == ""
    ensures r.guid.Some? ==> Guids.FromRss(r.guid.value) == e.guid
    ensures r.link.None? <==> |e.links| == 0
    ensures r.link.Some? ==> r.link.value == e.links[0].href
    ensures r.author.None? <==> |e.authors| == 0
    ensures r.author.Some? ==> r.author.value == AuthorField.Join(Map(Authors.ToString, e.authors))
    ensures |r.categories| == |e.categories|
    ensures forall k :: 0 <= k < |e.categories| ==>
      r.categories[k] == Rss.Category(e.categories[k].name, e.categories[k].scheme)
    ensures r.comments == e.comments
    ensures MapOption(Enclosures.FromRss, r.enclosure) == e.enclosure
    ensures r.description.None? && r.others == Rss.AllDefault
  {
    Rss.Item(
      if e.title.value == "" then None else Some(Texts.ToString(e.title)),
      if |e.links| == 0 then None else Some(Links.ToString(e.links[0])),
      None,
      if |e.authors| == 0 then None else Some(AuthorField.Join(Map(Authors.ToString, e.authors))),
      Map(Categories.ToRss, e.categories),
      if e.guid.value == "" then None else Some(Guids.ToRss(e.guid)),
      e.comments,
      MapOption(Enclosures.ToRss, e.enclosure),
      Rss.AllDefault)
  }

  /** Summary, feed authors and every link after the first play no part in the RSS item. */
  lemma ToRssIgnores(e: Entry, summary: Option<Texts.Text>, feedAuthors: Option<seq<Authors.Author>>,
                     extraLinks: seq<Links.Link>)
    requires |e.links| >= 1
    ensures ToRss(e.(summary := summary, feed_authors := feedAuthors)) == ToRss(e)
    ensures ToRss(e.(links := [e.links[0]] + extraLinks)) == ToRss(e)
  {
  }

  /** The author field of an RSS item survives the trip through an entry unchanged. */
  lemma {:induction false} AuthorRoundTrip(item: Rss.Item)
    ensures ToRss(FromRss(item)).author == item.author
  {
    if item.author.Some? {
      var s := item.author.value;
      var pieces := AuthorField.Split(s);
      MapLeftInverse(Authors.FromString, Authors.ToString, pieces);
      AuthorField.JoinSplit(s);
    }
  }

  /**
   * What an RSS item becomes after the trip through an entry: an empty title or an
   * identifier with an empty value disappears, a missing link comes back as the empty
   * link, the description and the other fields are reset, and everything else is kept.
   */
  lemma {:induction false} RssRoundTrip(item: Rss.Item)
    ensures ToRss(FromRss(item)) == Rss.Item(
      if item.title == Some("") then None else item.title,
      Some(item.link.GetOr("")),
      None,
      item.author,
      item.categories,
      if item.guid.Some? && item.guid.value.value == "" then None else item.guid,
      item.comments,
      item.enclosure,
      Rss.AllDefault)
  {
    AuthorRoundTrip(item);
    var r := ToRss(FromRss(item));
    assert r.categories == item.categories;
    assert r.enclosure == item.enclosure;
  }

  /** Exactly the RSS items described here come back unchanged from the trip through an entry. */
  lemma RssRoundTripExact(item: Rss.Item)
    ensures ToRss(FromRss(item)) == item <==>
      && item.title != Some("")
      && (item.guid.Some? ==> item.guid.value.value != "")
      && item.link.Some?
      && item.description.None?
      && item.others == Rss.AllDefault
  {
    RssRoundTrip(item);
  }

  /** Two e-mail addresses in the author field become two bare-name authors, and join back. */
  lemma AuthorSplitExample(item: Rss.Item)
    requires item.author == Some("a@x.com; b@y.com")
    ensures FromRss(item).authors == [Authors.Author("a@x.com", None, None), Authors.Author("b@y.com", None, None)]
    ensures ToRss(FromRss(item)).author == Some("a@x.com; b@y.com")
  {
    assert "a@x.com; b@y.com" == "a@x.com" + AuthorField.Separator + "b@y.com";
    assert !AuthorField.HasSeparator("a@x.com");
    assert !AuthorField.HasSeparator("b@y.com");
    AuthorField.SplitAtFirst("a@x.com", "b@y.com");
    AuthorField.SplitWithoutSeparator("b@y.com");
    AuthorRoundTrip(item);
  }

  // ---- Atom ----

  function ToAtom(e: Entry): (a: Atom.Entry)
    ensures a.others == Atom.AllDefault
  {
    Atom.Entry(
      Texts.ToAtom(e.title),
      Guids.ToString(e.guid),
      match e.feed_authors
        case Some(feedAuthors) => Map(Authors.ToAtom, feedAuthors)
        case None => [],
      Map(Categories.ToAtom, e.categories),
      Map(Authors.ToAtom, e.authors),
      Map(Links.ToAtom, e.links),
      MapOption(Texts.ToAtom, e.summary),
      Atom.AllDefault)
  }

  /**
   * `Entry::from(atom_entry)`. Atom contributors become the entry's authors and Atom
   * authors its feed authors, absent when there are none; Atom has no comments and no
   * enclosure. Converting back gives the Atom entry again, except that the fields not
   * modelled (among them `updated`) return to their defaults.
   */
  function FromAtom(a: Atom.Entry): (e: Entry)
    ensures ToAtom(e) == a.(others := Atom.AllDefault)
    ensures e.feed_authors.None? <==> |a.authors| == 0
    ensures e.guid.value == a.id && !e.guid.permalink
    ensures e.comments.None? && e.enclosure.None?
  {
    var feedAuthors := if |a.authors| == 0 then None else Some(Map(Authors.FromAtom, a.authors));
    var e := Entry(
      Texts.FromAtom(a.title),
      Guids.FromString(a.id),
      Map(Links.FromAtom, a.links),
      MapOption(Texts.FromAtom, a.summary),
      Map(Authors.FromAtom, a.contributors),
      feedAuthors,
      Map(Categories.FromAtom, a.categories),
      None,
      None);
    assert Map(Links.ToAtom, e.links) == a.links;
    assert Map(Categories.ToAtom, e.categories) == a.categories;
    assert Map(Authors.ToAtom, e.authors) == a.contributors;
    assert match e.feed_authors
        case Some(fa) => Map(Authors.ToAtom, fa) == a.authors
        case None => a.authors == [];
    e
  }

  /**
   * What an entry becomes after the trip through Atom: the identifier loses its permalink
   * flag, an empty feed-author list becomes none, comments and enclosure are dropped, and
   * everything else is kept.
   */
  lemma {:induction false} AtomRoundTrip(e: Entry)
    ensures FromAtom(ToAtom(e)) == e.(
      guid := Guids.Guid(e.guid.value, false),
      feed_authors := if e.feed_authors == Some([]) then None else e.feed_authors,
      comments := None,
      enclosure := None)
  {
    Texts.AtomRoundTrip(e.title);
    forall l: Links.Link ensures Links.FromAtom(Links.ToAtom(l)) == l {
      Links.AtomRoundTrip(l);
    }
    forall c: Categories.Category ensures Categories.FromAtom(Categories.ToAtom(c)) == c {
      Categories.AtomRoundTrip(c);
    }
    forall p: Authors.Author ensures Authors.FromAtom(Authors.ToAtom(p)) == p {
      Authors.AtomRoundTrip(p);
    }
    forall t: Texts.Text ensures Texts.FromAtom(Texts.ToAtom(t)) == t {
      Texts.AtomRoundTrip(t);
    }
    MapLeftInverse(Links.ToAtom, Links.FromAtom, e.links);
    MapLeftInverse(Categories.ToAtom, Categories.FromAtom, e.categories);
    MapLeftInverse(Authors.ToAtom, Authors.FromAtom, e.authors);
    if e.feed_authors.Some? {
      MapLeftInverse(Authors.ToAtom, Authors.FromAtom, e.feed_authors.value);
    }
  }

  /** Exactly the entries described here come back unchanged from the trip through Atom. */
  lemma AtomRoundTripExact(e: Entry)
    ensures FromAtom(ToAtom(e)) == e <==>
      && !e.guid.permalink
      && e.feed_authors != Some([])
      && e.comments.None?
      && e.enclosure.None?
  {
    AtomRoundTrip(e);
  }
}
