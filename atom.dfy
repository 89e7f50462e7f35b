/**
 * The records of the `atom_syndication` crate (Atom 1.0, RFC 4287) that the conversion
 * layer reads or writes, with only the fields it touches.
 */
module AtomSyndication {
  import opened Options
  import opened KeyedLists

  /** `atom_syndication::TextType`: the `type` attribute of a text construct. */
  datatype TextType = Text | Html | Xhtml

  /** `atom_syndication::Text`; the crate's field `r#type` is called `text_type` here. */
  datatype Text = Text(value: string, base: Option<string>, lang: Option<string>, text_type: TextType)

  /** `atom_syndication::Link`. */
  datatype Link = Link(
    href: string,
    rel: string,
    hreflang: Option<string>,
    mime_type: Option<string>,
    title: Option<string>,
    length: Option<string>)

  /** `atom_syndication::Content`. */
  datatype Content = Content(
    base: Option<string>,
    lang: Option<string>,
    value: Option<string>,
    src: Option<string>,
    content_type: Option<string>)

  /** `atom_syndication::Category`; its field `label` (a Dafny keyword) is called `label_` here. */
  datatype Category = Category(term: string, scheme: Option<string>, label_: Option<string>)

  /** `atom_syndication::Person`. */
  datatype Person = Person(name: string, email: Option<string>, uri: Option<string>)

  /** `atom_syndication::Generator`. */
  datatype Generator = Generator(value: string, uri: Option<string>, version: Option<string>)

  /** `atom_syndication::extension::Extension`. */
  datatype Extension = Extension(
    name: string,
    value: Option<string>,
    attrs: map<string, string>,
    children: seq<Keyed<Extension>>)

  /** The children maps at every level of the tree have unique keys, as a `BTreeMap` does. */
  ghost predicate WellFormed(x: Extension) {
    && DistinctKeys(x.children)
    && forall j, i :: 0 <= j < |x.children| && 0 <= i < |x.children[j].values| ==>
         WellFormed(x.children[j].values[i])
  }

  /**
   * The fields of `atom_syndication::Entry` that are not listed (updated, published,
   * rights, source, content, extensions) as one marker: either all of them hold their
   * `Default` value or at least one does not.
   */
  datatype OtherFields = AllDefault | NotAllDefault

  /** `atom_syndication::Entry`. */
  datatype Entry = Entry(
    title: Text,
    id: string,
    authors: seq<Person>,
    categories: seq<Category>,
    contributors: seq<Person>,
    links: seq<Link>,
    summary: Option<Text>,
    others: OtherFields)
}
