# Feed abstraction: the RSS / Atom conversion layer in Dafny

This project models the conversion layer of a syndication-feed library. The layer defines a
format-neutral entry (title, identifier, links, summary, authors, feed authors, categories,
comments, enclosure) and its parts (text, link, content, category, person/author, guid,
generator, enclosure, extension tree). It converts RSS 2.0 items and Atom 1.0 (RFC 4287)
entries into those records and converts them back into either format.

Every conversion is total and deterministic. All but the extension conversions are
field-by-field mappings of plain records. The model writes them as Dafny datatypes and
functions. The native records of the `rss` and `atom_syndication` crates are datatypes too,
in modules `Rss` and `AtomSyndication`, holding only the fields these conversions read or
write. The other fields of an RSS item or an Atom entry are collapsed into one marker,
`OtherFields`, which is `AllDefault` whenever the source fills them with `..Default::default()`.

The extension conversions are the one imperative part. In the source, each of the four builds
a fresh `BTreeMap` with an outer `for` loop and inserts into it a fresh `Vec` that an inner
`for` loop fills by `push`, recursing into each child. Here each one is a recursive `method`
with those two `while` loops. It is proved equal to a recursive specification function
(`ConvertToRss`, `ConvertFromRss`, `ConvertToAtom`, `ConvertFromAtom`), and the round trips
are proved about those functions.

Module layout, one module per source file:
`Texts`, `Links`, `Contents`, `Categories`, `People`, `Authors`, `Guids`, `Generators`,
`Enclosures`, `Extensions`, `Entries`. Beside them sit the native records (`Rss`,
`AtomSyndication`) and small helpers: `Options` (Rust's `Option`), `Seqs` (`map`/`collect`),
`KeyedLists` (the `BTreeMap` of extension children) and `AuthorField` (`split("; ")` and
`join("; ")` on the RSS author string).

Policies the model pins down:
- A link's relation defaults to `"alternate"` (section 4.2.7.2 of RFC 4287).
- A person or author collapses to `"email (name)"` when it has an email, and to the bare
  name otherwise. Reading a string back always yields a bare name.
- A category built from RSS gets its label copied from its name, even when the name is empty.
- A guid built from a bare string is not a permalink. The derived default guid is not a
  permalink either.
- Reading an RSS item always yields exactly one link. The item's author string is cut at each
  `"; "`. Writing an RSS item drops an empty title or identifier, keeps only the first link,
  and joins the authors' strings with `"; "`. Because of that, the author string comes back
  unchanged from an RSS → entry → RSS trip.
- Atom `contributors` map to the entry's `authors`. Atom `authors` map to `feed_authors`,
  which is absent exactly when Atom has none.

Points where the code departs from what a reader of the formats might expect, modelled as
the code has them:
- `Guid::from(String)` and the derived `Guid::default()` give `permalink = false`
  (src/abstractions/guid.rs:3-16), although RSS 2.0 defaults `isPermaLink` to true.
- An RSS category with an empty name gets `label = Some("")` (src/abstractions/category.rs:17).
- `Entry` (src/abstractions/entry.rs:11-21) has no published, updated, content, source, rights
  or extensions fields, though an Atom entry carries them.

## Model

| member | source | states |
|---|---|---|
| `Texts.FromAtomType` | src/abstractions/text.rs:11-19 | converting an Atom type tag to the unified tag and back gives the Atom tag |
| `Texts.ToAtomType` | src/abstractions/text.rs:21-29 | no contract of its own; `FromAtomType`'s ensures and `TypeRoundTrip` make it the inverse of `FromAtomType` |
| `Texts.DefaultType` | src/abstractions/text.rs:3-9 | no contract of its own; `DefaultTypeIsText` states it is plain text |
| `Texts.Default` | src/abstractions/text.rs:31-37 | no contract of its own; `DefaultIsEmptyString` states it equals the text built from `""` |
| `Texts.ToString` | src/abstractions/text.rs:50-54 | no contract of its own; `FromString`'s ensures make it a left inverse of `FromString` |
| `Texts.ToAtom` | src/abstractions/text.rs:67-76 | no contract of its own; `FromAtom`'s ensures and `AtomRoundTrip` make it the inverse of `FromAtom` |
| `Texts.TypeRoundTrip` | src/abstractions/text.rs:11-29 | converting a unified type tag to Atom and back gives the same tag, so the two enumerations are in bijection |
| `Texts.DefaultTypeIsText` | src/abstractions/text.rs:3-9 | the default type tag is plain text, and it maps to Atom's plain text |
| `Texts.FromString` | src/abstractions/text.rs:39-54 | a text built from `s` gives `s` back as its string, and has no base, no language and type plain text |
| `Texts.DefaultIsEmptyString` | src/abstractions/text.rs:31-48 | the default text equals the text built from the empty string |
| `Texts.FromAtom` | src/abstractions/text.rs:56-76 | Atom text → unified text → Atom text is the identity |
| `Texts.AtomRoundTrip` | src/abstractions/text.rs:56-76 | unified text → Atom text → unified text is the identity |
| `Links.DefaultIsAlternate` | src/abstractions/link.rs:13-25 | the default link has href `""`, rel `"alternate"` and every optional field absent |
| `Links.Default` | src/abstractions/link.rs:13-25 | no contract of its own; `DefaultIsAlternate` states every field |
| `Links.ToString` | src/abstractions/link.rs:36-40 | no contract of its own; `FromString`'s ensures make it a left inverse of `FromString` |
| `Links.ToAtom` | src/abstractions/link.rs:55-66 | no contract of its own; `FromAtom`'s ensures and `AtomRoundTrip` make it the inverse of `FromAtom`, with `href_lang` carried into `hreflang` |
| `Links.FromString` | src/abstractions/link.rs:27-40 | a link built from `s` gives `s` back as its string, and equals the default link with href `s` |
| `Links.FromStringIsAlternate` | src/abstractions/link.rs:13-34 | a link built from any string has rel `"alternate"`; the one built from `""` is the default |
| `Links.FromAtom` | src/abstractions/link.rs:42-66 | Atom link → link → Atom link is the identity, with `hreflang` carried into `href_lang` |
| `Links.AtomRoundTrip` | src/abstractions/link.rs:42-66 | link → Atom link → link is the identity |
| `Contents.ToString` | src/abstractions/content.rs:18-25 | the string of a content is its value, or `""` when it has none |
| `Contents.Default` | src/abstractions/content.rs:3-10 | no contract of its own; `DefaultIsNoValue` states it is the content built from no value |
| `Contents.ToOption` | src/abstractions/content.rs:12-16 | no contract of its own; `FromOption`'s ensures make it a left inverse of `FromOption` |
| `Contents.ToAtom` | src/abstractions/content.rs:57-67 | no contract of its own; `FromAtom`'s ensures and `AtomRoundTrip` make it the inverse of `FromAtom` |
| `Contents.FromOption` | src/abstractions/content.rs:12-34 | content built from an optional string gives it back as its value, with base, language, src and content type absent |
| `Contents.FromString` | src/abstractions/content.rs:18-43 | content built from `s` gives `s` back as its string and equals the content built from `Some(s)` |
| `Contents.DefaultIsNoValue` | src/abstractions/content.rs:3-34 | the content built from no value is the default content, whose string is `""` |
| `Contents.FromAtom` | src/abstractions/content.rs:45-67 | Atom content → content → Atom content is the identity |
| `Contents.AtomRoundTrip` | src/abstractions/content.rs:45-67 | content → Atom content → content is the identity |
| `Categories.FromRss` | src/abstractions/category.rs:12-29 | RSS category → category → RSS category is the identity, and the label is always `Some(name)` |
| `Categories.ToRss` | src/abstractions/category.rs:22-29 | no contract of its own; `FromRss`'s ensures, `ToRssIgnoresLabel` and `RssRoundTrip` pin it down: it inverts `FromRss` and drops the label |
| `Categories.ToAtom` | src/abstractions/category.rs:41-49 | no contract of its own; `FromAtom`'s ensures and `AtomRoundTrip` make it the inverse of `FromAtom` |
| `Categories.ToRssIgnoresLabel` | src/abstractions/category.rs:22-29 | the RSS category does not depend on the label |
| `Categories.RssRoundTrip` | src/abstractions/category.rs:12-29 | category → RSS → category is the identity exactly when the label is `Some(name)` |
| `Categories.EmptyNameKeepsLabel` | src/abstractions/category.rs:12-20 | an RSS category with an empty name gets the label `Some("")` |
| `Categories.FromAtom` | src/abstractions/category.rs:31-49 | Atom category → category → Atom category is the identity; the term becomes the name |
| `Categories.AtomRoundTrip` | src/abstractions/category.rs:31-49 | category → Atom category → category is the identity |
| `People.ToString` | src/abstractions/person.rs:19-26 | the string form is `email + " (" + name + ")"` with an email and the bare name without |
| `People.ToAtom` | src/abstractions/person.rs:38-46 | no contract of its own; `FromAtom`'s ensures and `AtomRoundTrip` make it the inverse of `FromAtom` |
| `People.FromString` | src/abstractions/person.rs:10-26 | a person built from `s` gives `s` back as its string, with no email and no URI |
| `People.CollapseNotInvertible` | src/abstractions/person.rs:10-26 | for a person with an email, reading back its string gives a bare name holding the whole string, not the person |
| `People.CollapseIgnoresUri` | src/abstractions/person.rs:19-26 | the URI never affects the string form |
| `People.CollapseExample` | src/abstractions/person.rs:10-26 | John with `john@lenon.com` collapses to `"john@lenon.com (John)"`, which reads back as a bare name |
| `People.FromAtom` | src/abstractions/person.rs:28-46 | Atom person → person → Atom person is the identity |
| `People.AtomRoundTrip` | src/abstractions/person.rs:28-46 | person → Atom person → person is the identity |
| `Authors.ToString` | src/abstractions/author.rs:19-26 | the string form is `email + " (" + name + ")"` with an email and the bare name without |
| `Authors.ToAtom` | src/abstractions/author.rs:38-46 | no contract of its own; `FromAtom`'s ensures and `AtomRoundTrip` make it the inverse of `FromAtom` |
| `Authors.FromString` | src/abstractions/author.rs:10-26 | an author built from `s` gives `s` back as its string, with no email and no URI |
| `Authors.CollapseNotInvertible` | src/abstractions/author.rs:10-26 | for an author with an email, reading back its string gives a bare name holding the whole string, not the author |
| `Authors.CollapseIgnoresUri` | src/abstractions/author.rs:19-26 | the URI never affects the string form |
| `Authors.CollapseExample` | src/abstractions/author.rs:10-26 | John with `john@lenon.com` collapses to `"john@lenon.com (John)"`, which reads back as a bare name |
| `Authors.FromAtom` | src/abstractions/author.rs:28-46 | Atom person → author → Atom person is the identity |
| `Authors.AtomRoundTrip` | src/abstractions/author.rs:28-46 | author → Atom person → author is the identity |
| `Guids.FromString` | src/abstractions/guid.rs:9-22 | a guid built from `s` gives `s` back as its string and is not a permalink |
| `Guids.Default` | src/abstractions/guid.rs:3-7 | no contract of its own; `DefaultIsEmptyString` states its value is `""` and it is not a permalink |
| `Guids.ToString` | src/abstractions/guid.rs:18-22 | no contract of its own; `FromString`'s ensures and `StringRoundTrip` pin it down |
| `Guids.ToRss` | src/abstractions/guid.rs:33-40 | no contract of its own; `FromRss`'s ensures and `RssRoundTrip` make it the inverse of `FromRss` |
| `Guids.DefaultIsEmptyString` | src/abstractions/guid.rs:3-16 | the derived default guid has value `""` and is not a permalink; it is the guid built from `""` |
| `Guids.StringRoundTrip` | src/abstractions/guid.rs:9-22 | guid → string → guid is the identity exactly when the guid is not a permalink |
| `Guids.FromRss` | src/abstractions/guid.rs:24-40 | RSS guid → guid → RSS guid is the identity |
| `Guids.RssRoundTrip` | src/abstractions/guid.rs:24-40 | guid → RSS guid → guid is the identity |
| `Generators.DefaultIsEmpty` | src/abstractions/generator.rs:3-8 | the default generator has value `""` and neither URI nor version |
| `Generators.Default` | src/abstractions/generator.rs:3-8 | no contract of its own; `DefaultIsEmpty` states every field |
| `Generators.ToAtom` | src/abstractions/generator.rs:20-28 | no contract of its own; `FromAtom`'s ensures and `AtomRoundTrip` make it the inverse of `FromAtom` |
| `Generators.FromAtom` | src/abstractions/generator.rs:10-28 | Atom generator → generator → Atom generator is the identity (value, URI and version copied) |
| `Generators.AtomRoundTrip` | src/abstractions/generator.rs:10-28 | generator → Atom generator → generator is the identity |
| `Enclosures.DefaultIsEmpty` | src/abstractions/enclosure.rs:3-8 | the default enclosure has url, length and type all `""` |
| `Enclosures.Default` | src/abstractions/enclosure.rs:3-8 | no contract of its own; `DefaultIsEmpty` states every field |
| `Enclosures.ToRss` | src/abstractions/enclosure.rs:20-28 | no contract of its own; `FromRss`'s ensures and `RssRoundTrip` make it the inverse of `FromRss` |
| `Enclosures.FromRss` | src/abstractions/enclosure.rs:10-28 | RSS enclosure → enclosure → RSS enclosure is the identity (url, length and type copied) |
| `Enclosures.RssRoundTrip` | src/abstractions/enclosure.rs:10-28 | enclosure → RSS enclosure → enclosure is the identity |
| `KeyedLists.Insert` | src/abstractions/extension.rs:15-21 | `BTreeMap::insert`: the key set gains the key, the key maps to the new list, every other key keeps its list, and a new key goes at the end |
| `KeyedLists.InsertKeepsDistinct` | src/abstractions/extension.rs:15-21 | inserting into a map with unique keys keeps the keys unique |
| `Extensions.ConvertToRss` | src/abstractions/extension.rs:13-30 | the RSS tree has the same name, value and attributes, the same children keys in the same order, and child lists of the same lengths |
| `Extensions.ConvertFromRss` | src/abstractions/extension.rs:32-49 | the unified tree has the same name, value, attributes, children keys and child-list lengths as the RSS tree |
| `Extensions.ConvertToAtom` | src/abstractions/extension.rs:51-68 | the Atom tree has the same name, value, attributes, children keys and child-list lengths |
| `Extensions.ConvertFromAtom` | src/abstractions/extension.rs:70-87 | the unified tree has the same name, value, attributes, children keys and child-list lengths as the Atom tree |
| `Extensions.ToRss` | src/abstractions/extension.rs:13-30 | the loop-built RSS tree (a fresh map filled by insert, each list filled by push, recursing into each child) equals `ConvertToRss` |
| `Extensions.FromRss` | src/abstractions/extension.rs:32-49 | the loop-built unified tree equals `ConvertFromRss` |
| `Extensions.ToAtom` | src/abstractions/extension.rs:51-68 | the loop-built Atom tree equals `ConvertToAtom` |
| `Extensions.FromAtom` | src/abstractions/extension.rs:70-87 | the loop-built unified tree equals `ConvertFromAtom` |
| `Extensions.ToRssKeepsWellFormed` | src/abstractions/extension.rs:13-30 | unique children keys at every level stay unique in the RSS tree |
| `Extensions.FromRssKeepsWellFormed` | src/abstractions/extension.rs:32-49 | unique children keys at every level stay unique in the unified tree |
| `Extensions.ToAtomKeepsWellFormed` | src/abstractions/extension.rs:51-68 | unique children keys at every level stay unique in the Atom tree |
| `Extensions.FromAtomKeepsWellFormed` | src/abstractions/extension.rs:70-87 | unique children keys at every level stay unique in the unified tree |
| `Extensions.RssTreeRoundTrip` | src/abstractions/extension.rs:13-49 | RSS tree → unified tree → RSS tree is the identity, at every depth |
| `Extensions.RssRoundTrip` | src/abstractions/extension.rs:13-49 | unified tree → RSS tree → unified tree is the identity, at every depth |
| `Extensions.AtomTreeRoundTrip` | src/abstractions/extension.rs:51-87 | Atom tree → unified tree → Atom tree is the identity, at every depth |
| `Extensions.AtomRoundTrip` | src/abstractions/extension.rs:51-87 | unified tree → Atom tree → unified tree is the identity, at every depth |
| `AuthorField.Split` | src/abstractions/entry.rs:40-43 | `split("; ")` yields at least one piece (`[""]` for `""`), the first piece is a prefix of the input, and no piece holds the separator |
| `AuthorField.Join` | src/abstractions/entry.rs:82 | no contract of its own; `JoinSplit` states it undoes `Split` on every string and `SplitJoin` that `Split` undoes it on non-empty lists of separator-free names |
| `AuthorField.JoinSplit` | src/abstractions/entry.rs:40-83 | joining the pieces of a split with `"; "` gives back the original string |
| `AuthorField.SplitJoin` | src/abstractions/entry.rs:40-83 | splitting the join of a non-empty list of separator-free names gives the names back, in order |
| `Entries.FromRss` | src/abstractions/entry.rs:23-59 | exactly one link (from the item's link, else the default); title text is the item's title or `""`, as plain text; a missing guid becomes the default guid; one bare-name author per `"; "` piece, in order, or none; no feed authors; categories labelled with their names; comments copied |
| `Entries.ToRss` | src/abstractions/entry.rs:61-97 | title and guid absent exactly when their value is `""`; link absent exactly when there are no links, otherwise the first href; author absent exactly when there are no authors, otherwise their strings joined by `"; "`; description absent and every other item field default |
| `Entries.ToRssIgnores` | src/abstractions/entry.rs:73-95 | summary, feed authors and every link after the first have no effect on the RSS item |
| `Entries.AuthorRoundTrip` | src/abstractions/entry.rs:40-83 | RSS → entry → RSS reproduces the author field exactly |
| `Entries.RssRoundTrip` | src/abstractions/entry.rs:23-97 | RSS → entry → RSS: an empty title or guid disappears, a missing link becomes `Some("")`, description and other fields reset, the rest kept |
| `Entries.RssRoundTripExact` | src/abstractions/entry.rs:23-97 | an RSS item survives RSS → entry → RSS exactly when title is not `Some("")`, guid value is not `""`, link is present, description is absent and other fields are default |
| `Entries.AuthorSplitExample` | src/abstractions/entry.rs:40-83 | `"a@x.com; b@y.com"` becomes two bare-name authors and joins back to the same string |
| `Entries.ToAtom` | src/abstractions/entry.rs:125-147 | every Atom field not set by the conversion (among them `updated`) stays default |
| `Entries.FromAtom` | src/abstractions/entry.rs:99-147 | Atom → entry → Atom keeps title, id, links, summary, authors, contributors and categories; feed authors absent exactly when Atom has no authors; no comments or enclosure; the guid is not a permalink |
| `Entries.AtomRoundTrip` | src/abstractions/entry.rs:99-147 | entry → Atom → entry: the permalink flag is cleared, `Some([])` feed authors become none, comments and enclosure are dropped, the rest kept |
| `Entries.AtomRoundTripExact` | src/abstractions/entry.rs:99-147 | an entry survives entry → Atom → entry exactly when its guid is not a permalink, its feed authors are not `Some([])` and it has no comments and no enclosure |

## Left out

- XML parsing and serialization, and the format dispatch `Feed::read_from` (src/models.rs:25-36), are left out. They are I/O handled by the `rss` and `atom_syndication` crates; the model starts from their parsed records.
- The article and feed aggregation types in src/models.rs (lines 39-138) are left out. They are private, unused and unfinished.
- `Source` (src/abstractions/source.rs) is left out. It is a bare record with no conversions, and no entry conversion uses it.
- Fields of the native records that these files neither read nor write are left out. This covers the RSS publication date, source, content, extensions and iTunes / Dublin Core blocks, and the Atom `updated`, `published`, `rights`, `source`, `content` and `extensions`. Each record collapses them into its `OtherFields` marker, so the model only records whether they are all at their defaults.
- The `Default` values of the native crate records are left out, because their source is not part of this model. So the model does not state that converting a unified default gives the native default. For example, whether the `rss` crate's default `Guid` is a permalink is not modelled.
- The key order of `BTreeMap` is left out. Extension children are an association list whose keys are kept unique, not kept sorted. The methods keep the input's key order, and for sorted input that is the order a `BTreeMap` would produce. Lookups by key, which are all the source relies on, are unaffected.
- Extensions.ToRss: requires unique children keys at every level (`WellFormed`). A `BTreeMap` guarantees this by its type; the association-list model states it as a precondition. The same holds for `Extensions.FromRss`, `Extensions.ToAtom` and `Extensions.FromAtom`.
- `Extensions.ExtensionMap` (namespace → tag → extensions, src/abstractions/extension.rs:89) appears only as a type synonym. No conversion in the core uses it.
- Rust ownership, moves and clones (`into_iter`, `clone`) have no observable effect on values, so the model leaves them out.
- `Entry::default` is never used by a conversion and is left out. The `Person` and `Author` defaults are used only through `..Default::default()` in `from(String)` (src/abstractions/person.rs:14, src/abstractions/author.rs:14), where they are written out inline. The other defaults the conversions use (text, guid, link, content) are modelled as `Default` functions.
