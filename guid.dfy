/** The unified entry identifier and its conversions (src/abstractions/guid.rs). */
module Guids {
  import Rss

  datatype Guid = Guid(value: string, permalink: bool)

  /** The derived `Guid::default()`. */
  function Default(): Guid {
    Guid("", false)
  }

  /** `String::from(guid)`: the identifier only. */
  function ToString(g: Guid): string {
    g.value
  }

  /** `Guid::from(string)`: the identifier `s`, not marked as a permalink. */
  function FromString(s: string): (g: Guid)
    ensures ToString(g) == s
    ensures !g.permalink
  {
    Guid(s, false)
  }

  /** The default identifier is empty and not a permalink: the one built from "". */
  lemma DefaultIsEmptyString()
    ensures Default().value == "" && !Default().permalink
    ensures Default() == FromString("")
  {
  }

  function ToRss(g: Guid): Rss.Guid {
    Rss.Guid(g.value, g.permalink)
  }

  /** An RSS guid converted to the unified guid converts back to itself. */
  function FromRss(r: Rss.Guid): (g: Guid)
    ensures ToRss(g) == r
  {
    Guid(r.value, r.permalink)
  }

  /** A unified guid converted to RSS converts back to itself. */
  lemma RssRoundTrip(g: Guid)
    ensures FromRss(ToRss(g)) == g
  {
  }

  /** The string round trip keeps the identifier and forgets the permalink flag. */
  lemma StringRoundTrip(g: Guid)
    ensures FromString(ToString(g)) == g <==> !g.permalink
  {
  }
}
