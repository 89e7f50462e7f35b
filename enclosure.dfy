/** The unified enclosure and its conversions (src/abstractions/enclosure.rs). */
module Enclosures {
  import Rss

  datatype Enclosure = Enclosure(url: string, length: string, mime_type: string)

  /** The derived `Enclosure::default()`. */
  function Default(): Enclosure {
    Enclosure("", "", "")
  }

  /** The default enclosure has all three fields empty. */
  lemma DefaultIsEmpty()
    ensures Default().url == "" && Default().length == "" && Default().mime_type == ""
  {
  }

  function ToRss(e: Enclosure): Rss.Enclosure {
    Rss.Enclosure(e.url, e.length, e.mime_type)
  }

  /** An RSS enclosure converted to the unified enclosure converts back to itself. */
  function FromRss(r: Rss.Enclosure): (e: Enclosure)
    ensures ToRss(e) == r
  {
    Enclosure(r.url, r.length, r.mime_type)
  }

  /** A unified enclosure converted to RSS converts back to itself. */
  lemma RssRoundTrip(e: Enclosure)
    ensures FromRss(ToRss(e)) == e
  {
  }
}
