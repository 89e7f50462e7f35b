/** The unified author and its conversions (src/abstractions/author.rs). */
module Authors {
  import opened Options
  import Atom = AtomSyndication

  datatype Author = Author(name: string, email: Option<string>, uri: Option<string>)

  /**
   * `String::from(author)`: `"<email> (<name>)"` when there is an email address,
   * otherwise just the name; the URI is never part of it.
   */
  function ToString(p: Author): (s: string)
    ensures p.email.None? ==> s == p.name
    ensures p.email.Some? ==> s == p.email.value + " (" + p.name + ")"
  {
    match p.email
    case Some(email) => email + " (" + p.name + ")"
    case None => p.name
  }

  /** `Author::from(string)`: a bare name with no email and no URI. */
  function FromString(s: string): (p: Author)
    ensures ToString(p) == s
    ensures p.email.None? && p.uri.None?
  {
    Author(s, None, None)
  }

  /**
   * The collapse to a string cannot be undone: reading back the string of an author with
   * an email address gives a bare name holding the whole string.
   */
  lemma CollapseNotInvertible(p: Author)
    requires p.email.Some?
    ensures FromString(ToString(p)) == Author(p.email.value + " (" + p.name + ")", None, None)
    ensures FromString(ToString(p)) != p
  {
  }

  /** The URI never shows in the string form. */
  lemma CollapseIgnoresUri(p: Author, u: Option<string>)
    ensures ToString(p.(uri := u)) == ToString(p)
  {
  }

  /** A name with an email address collapses to `"email (name)"`, which reads back as a bare name. */
  lemma CollapseExample()
    ensures ToString(Author("John", Some("john@lenon.com"), None)) == "john@lenon.com (John)"
    ensures FromString("john@lenon.com (John)") == Author("john@lenon.com (John)", None, None)
  {
  }

  function ToAtom(p: Author): Atom.Person {
    Atom.Person(p.name, p.email, p.uri)
  }

  /** An Atom person converted to the unified author converts back to itself. */
  function FromAtom(a: Atom.Person): (p: Author)
    ensures ToAtom(p) == a
  {
    Author(a.name, a.email, a.uri)
  }

  /** A unified author converted to an Atom person converts back to itself. */
  lemma AtomRoundTrip(p: Author)
    ensures FromAtom(ToAtom(p)) == p
  {
  }
}
