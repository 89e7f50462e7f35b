/** The unified link and its conversions (src/abstractions/link.rs). */
module Links {
  import opened Options
  import Atom = AtomSyndication

  datatype Link = Link(
    href: string,
    rel: string,
    href_lang: Option<string>,
    mime_type: Option<string>,
    title: Option<string>,
    length: Option<string>)

  /** The relation a link has when none is given (section 4.2.7.2 of RFC 4287). */
  const AlternateRel: string := "alternate"

  /** `Link::default()`. */
  function Default(): Link {
    Link("", AlternateRel, None, None, None, None)
  }

  /** The default link has an empty target, the "alternate" relation and nothing else. */
  lemma DefaultIsAlternate()
    ensures Default().href == "" && Default().rel == "alternate"
    ensures Default().href_lang.None? && Default().mime_type.None?
    ensures Default().title.None? && Default().length.None?
  {
  }

  /** `String::from(link)`: the target only. */
  function ToString(l: Link): string {
    l.href
  }

  /** `Link::from(string)`: the default link pointing at `s`. */
  function FromString(s: string): (l: Link)
    ensures ToString(l) == s
    ensures l == Default().(href := s)
  {
    Default().(href := s)
  }

  /** A link built from a string differs from the default in its target alone. */
  lemma FromStringIsAlternate(s: string)
    ensures FromString(s).rel == "alternate"
    ensures FromString("") == Default()
  {
  }

  /** Unified to Atom link; `href_lang` becomes Atom's `hreflang`. */
  function ToAtom(l: Link): Atom.Link {
    Atom.Link(l.href, l.rel, l.href_lang, l.mime_type, l.title, l.length)
  }

  /** An Atom link converted to the unified link converts back to itself. */
  function FromAtom(a: Atom.Link): (l: Link)
    ensures ToAtom(l) == a
    ensures l.href_lang == a.hreflang
  {
    Link(a.href, a.rel, a.hreflang, a.mime_type, a.title, a.length)
  }

  /** A unified link converted to Atom converts back to itself. */
  lemma AtomRoundTrip(l: Link)
    ensures FromAtom(ToAtom(l)) == l
  {
  }
}
