/** The unified generator and its conversions (src/abstractions/generator.rs). */
module Generators {
  import opened Options
  import Atom = AtomSyndication

  datatype Generator = Generator(value: string, uri: Option<string>, version: Option<string>)

  /** The derived `Generator::default()`. */
  function Default(): Generator {
    Generator("", None, None)
  }

  /** The default generator has an empty name and neither URI nor version. */
  lemma DefaultIsEmpty()
    ensures Default().value == "" && Default().uri.None? && Default().version.None?
  {
  }

  function ToAtom(g: Generator): Atom.Generator {
    Atom.Generator(g.value, g.uri, g.version)
  }

  /** An Atom generator converted to the unified generator converts back to itself. */
  function FromAtom(a: Atom.Generator): (g: Generator)
    ensures ToAtom(g) == a
  {
    Generator(a.value, a.uri, a.version)
  }

  /** A unified generator converted to Atom converts back to itself. */
  lemma AtomRoundTrip(g: Generator)
    ensures FromAtom(ToAtom(g)) == g
  {
  }
}
