/** The unified text construct and its conversions (src/abstractions/text.rs). */
module Texts {
  import opened Options
  import Atom = AtomSyndication

  /** How a text value is to be read; `Text` is the derived default. */
  datatype TextType = Text | Html | Xhtml

  datatype Text = Text(value: string, base: Option<string>, lang: Option<string>, text_type: TextType)

  /** `TextType::default()`. */
  function DefaultType(): TextType {
    TextType.Text
  }

  /** `Text::default()`: every field at its default. */
  function Default(): Text {
    Text.Text("", None, None, DefaultType())
  }

  function ToAtomType(t: TextType): Atom.TextType {
    match t
    case Text => Atom.TextType.Text
    case Html => Atom.TextType.Html
    case Xhtml => Atom.TextType.Xhtml
  }

  /** Atom's type tag to the unified one; converting back gives the Atom tag again. */
  function FromAtomType(t: Atom.TextType): (r: TextType)
    ensures ToAtomType(r) == t
  {
    match t
    case Text => TextType.Text
    case Html => TextType.Html
    case Xhtml => TextType.Xhtml
  }

  /** The two type enumerations are in bijection: the unified tag survives the Atom round trip. */
  lemma TypeRoundTrip(t: TextType)
    ensures FromAtomType(ToAtomType(t)) == t
  {
  }

  /** The default type is plain text, and it corresponds to Atom's plain text. */
  lemma DefaultTypeIsText()
    ensures DefaultType() == TextType.Text
    ensures ToAtomType(DefaultType()) == Atom.TextType.Text
  {
  }

  /** `String::from(text)`: the bare value; base, language and type are dropped. */
  function ToString(t: Text): string {
    t.value
  }

  /** `Text::from(string)`: plain text with no base and no language, holding `s`. */
  function FromString(s: string): (t: Text)
    ensures ToString(t) == s
    ensures t.base.None? && t.lang.None? && t.text_type == TextType.Text
  {
    Text.Text(s, None, None, TextType.Text)
  }

  /** The default text is the one built from the empty string. */
  lemma DefaultIsEmptyString()
    ensures Default() == FromString("")
  {
  }

  function ToAtom(t: Text): Atom.Text {
    Atom.Text.Text(t.value, t.base, t.lang, ToAtomType(t.text_type))
  }

  /** An Atom text converted to the unified text converts back to itself. */
  function FromAtom(a: Atom.Text): (t: Text)
    ensures ToAtom(t) == a
  {
    Text.Text(a.value, a.base, a.lang, FromAtomType(a.text_type))
  }

  /** A unified text converted to Atom converts back to itself. */
  lemma AtomRoundTrip(t: Text)
    ensures FromAtom(ToAtom(t)) == t
  {
  }
}
