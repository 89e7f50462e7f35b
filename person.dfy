/** The unified person and its conversions (src/abstractions/person.rs). */
module People {
  import opened Options
  import Atom = AtomSyndication

  datatype Person = Person(name: string, email: Option<string>, uri: Option<string>)

  /**
   * `String::from(person)`: `"<email> (<name>)"` when there is an email address,
   * otherwise just the name; the URI is never part of it.
   */
  function ToString(p: Person): (s: string)
    ensures p.email.None? ==> s == p.name
    ensures p.email.Some? ==> s == p.email.value + " (" + p.name + ")"
  {
    match p.email
    case Some(email) => email + " (" + p.name + ")"
    case None => p.name
  }

  /** `Person::from(string)`: a bare name with no email and no URI. */
  function FromString(s: string): (p: Person)
    ensures ToString(p) == s
    ensures p.email.None? && p.uri.None?
  {
    Person(s, None, None)
  }

  /**
   * The collapse to a string cannot be undone: reading back the string of a person with
   * an email address gives a bare name holding the whole string.
   */
  lemma CollapseNotInvertible(p: Person)
    requires p.email.Some?
    ensures FromString(ToString(p)) == Person(p.email.value + " (" + p.name + ")", None, None)
    ensures FromString(ToString(p)) != p
  {
  }

  /** The URI never shows in the string form. */
  lemma CollapseIgnoresUri(p: Person, u: Option<string>)
    ensures ToString(p.(uri := u)) == ToString(p)
  {
  }

  /** A name with an email address collapses to `"email (name)"`, which reads back as a bare name. */
  lemma CollapseExample()
    ensures ToString(Person("John", Some("john@lenon.com"), None)) == "john@lenon.com (John)"
    ensures FromString("john@lenon.com (John)") == Person("john@lenon.com (John)", None, None)
  {
  }

  function ToAtom(p: Person): Atom.Person {
    Atom.Person(p.name, p.email, p.uri)
  }

  /** An Atom person converted to the unified person converts back to itself. */
  function FromAtom(a: Atom.Person): (p: Person)
    ensures ToAtom(p) == a
  {
    Person(a.name, a.email, a.uri)
  }

  /** A unified person converted to an Atom person converts back to itself. */
  lemma AtomRoundTrip(p: Person)
    ensures FromAtom(ToAtom(p)) == p
  {
  }
}
