/**
 * The records of the `rss` crate (RSS 2.0) that the conversion layer reads or writes,
 * with only the fields it touches. Parsing and serialization are not part of this model.
 */
module Rss {
  import opened Options
  import opened KeyedLists

  /** `rss::Category`: the text of a `<category>` and its `domain` attribute. */
  datatype Category = Category(name: string, domain: Option<string>)

  /** `rss::Guid`: the identifier and its `isPermaLink` attribute. */
  datatype Guid = Guid(value: string, permalink: bool)

  /** `rss::Enclosure`: an attached media object. */
  datatype Enclosure = Enclosure(url: string, length: string, mime_type: string)

  /** `rss::extension::Extension`: a namespaced element with its attributes and children. */
  datatype Extension = Extension(
    name: string,
    value: Option<string>,
    attrs: map<string, string>,
    children: seq<Keyed<Extension>>)

  /** The children maps at every level of the tree have unique keys, as a `BTreeMap` does. */
  ghost predicate WellFormed(x: Extension) {
    && DistinctKeys(x.children)
    && forall j, i :: 0 <= j < |x.children| && 0 <= i < |x.children[j].values| ==>
         WellFormed(x.children[j].values[i])
  }

  /**
   * The fields of `rss::Item` that are not listed (publication date, source, content,
   * extensions, the iTunes and Dublin Core blocks) as one marker: either all of them
   * hold their `Default` value or at least one does not.
   */
  datatype OtherFields = AllDefault | NotAllDefault

  /** `rss::Item`. */
  datatype Item = Item(
    title: Option<string>,
    link: Option<string>,
    description: Option<string>,
    author: Option<string>,
    categories: seq<Category>,
    guid: Option<Guid>,
    comments: Option<string>,
    enclosure: Option<Enclosure>,
    others: OtherFields)
}
