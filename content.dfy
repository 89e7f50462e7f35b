/** The unified content and its conversions (src/abstractions/content.rs). */
module Contents {
  import opened Options
  import Atom = AtomSyndication

  datatype Content = Content(
    base: Option<string>,
    lang: Option<string>,
    value: Option<string>,
    src: Option<string>,
    content_type: Option<string>)

  /** `Content::default()`: every field absent. */
  function Default(): Content {
    Content(None, None, None, None, None)
  }

  /** `Option::<String>::from(content)`: the value only. */
  function ToOption(c: Content): Option<string> {
    c.value
  }

  /** `String::from(content)`: the value, or the empty string when there is none. */
  function ToString(c: Content): (s: string)
    ensures c.value.None? ==> s == ""
    ensures c.value.Some? ==> s == c.value.value
  {
    match c.value
    case Some(text) => text
    case None => ""
  }

  /** `Content::from(Option<String>)`: the default content carrying `o` as its value. */
  function FromOption(o: Option<string>): (c: Content)
    ensures ToOption(c) == o
    ensures c.base.None? && c.lang.None? && c.src.None? && c.content_type.None?
  {
    Default().(value := o)
  }

  /** `Content::from(String)`: the default content carrying `s` as its value. */
  function FromString(s: string): (c: Content)
    ensures ToString(c) == s
    ensures c == FromOption(Some(s))
  {
    Default().(value := Some(s))
  }

  /** No value and the default content are the same thing. */
  lemma DefaultIsNoValue()
    ensures FromOption(None) == Default()
    ensures ToString(Default()) == ""
  {
  }

  function ToAtom(c: Content): Atom.Content {
    Atom.Content(c.base, c.lang, c.value, c.src, c.content_type)
  }

  /** An Atom content converted to the unified content converts back to itself. */
  function FromAtom(a: Atom.Content): (c: Content)
    ensures ToAtom(c) == a
  {
    Content(a.base, a.lang, a.value, a.src, a.content_type)
  }

  /** A unified content converted to Atom converts back to itself. */
  lemma AtomRoundTrip(c: Content)
    ensures FromAtom(ToAtom(c)) == c
  {
  }
}
