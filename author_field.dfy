/**
 * The free-text RSS author field as a list of names: `str::split("; ")` and
 * `join("; ")` as entry.rs uses them on it (src/abstractions/entry.rs).
 */
module AuthorField {

  /** The separator written between two authors. */
  const Separator: string := "; "

  /** `s` holds the separator somewhere. */
  ghost predicate HasSeparator(s: string) {
    exists i :: 0 <= i < |s| - 1 && s[i] == ';' && s[i + 1] == ' '
  }

  /**
   * `s.split("; ")`: the pieces of `s` between the occurrences of the separator, found
   * left to right. There is always at least one piece (the empty string gives `[""]`),
   * the first piece is a prefix of `s`, and no piece holds the separator.
   */
  function Split(s: string): (parts: seq<string>)
    ensures |parts| >= 1
    ensures parts[0] <= s
    ensures forall k :: 0 <= k < |parts| ==> !HasSeparator(parts[k])
  {
    if |s| < 2 then [s]
    else if s[..2] == Separator then [""] + Split(s[2..])
    else
      var rest := Split(s[1..]);
      assert !HasSeparator([s[0]] + rest[0]) by {
        var p := [s[0]] + rest[0];
        forall i | 0 <= i < |p| - 1 ensures !(p[i] == ';' && p[i + 1] == ' ') {
          if i == 0 {
            assert p[1] == rest[0][0] == s[1];
          } else {
            assert p[i] == rest[0][i - 1] && p[i + 1] == rest[0][i];
          }
        }
      }
      [[s[0]] + rest[0]] + rest[1..]
  }

  /** `parts.join("; ")`. */
  function Join(parts: seq<string>): string {
    if |parts| == 0 then ""
    else if |parts| == 1 then parts[0]
    else parts[0] + Separator + Join(parts[1..])
  }

  /** Adding a prefix to the first piece adds it to the joined string. */
  lemma {:induction false} JoinPrefix(c: string, parts: seq<string>)
    requires |parts| >= 1
    ensures Join([c + parts[0]] + parts[1..]) == c + Join(parts)
  {
  }

  /** Joining the pieces of a split gives back the original string. */
  lemma {:induction false} JoinSplit(s: string)
    ensures Join(Split(s)) == s
  {
    if |s| >= 2 {
      if s[..2] == Separator {
        JoinSplit(s[2..]);
        var ps := [""] + Split(s[2..]);
        assert ps[1..] == Split(s[2..]);
        assert s == Separator + s[2..];
      } else {
        var rest := Split(s[1..]);
        JoinSplit(s[1..]);
        JoinPrefix([s[0]], rest);
        assert s == [s[0]] + s[1..];
      }
    }
  }

  /** A string without the separator splits into itself alone. */
  lemma {:induction false} SplitWithoutSeparator(p: string)
    requires !HasSeparator(p)
    ensures Split(p) == [p]
  {
    if |p| >= 2 {
      assert p[..2] != Separator by {
        assert !(p[0] == ';' && p[1] == ' ');
        assert p[..2][0] == p[0] && p[..2][1] == p[1];
      }
      assert !HasSeparator(p[1..]) by {
        forall i | 0 <= i < |p[1..]| - 1 ensures !(p[1..][i] == ';' && p[1..][i + 1] == ' ') {
          assert p[1..][i] == p[i + 1] && p[1..][i + 1] == p[i + 2];
        }
      }
      SplitWithoutSeparator(p[1..]);
      assert [p[0]] + p[1..] == p;
    }
  }

  /** Splitting stops at the first separator when the text before it has none. */
  lemma {:induction false} SplitAtFirst(p: string, t: string)
    requires !HasSeparator(p)
    ensures Split(p + Separator + t) == [p] + Split(t)
  {
    var s := p + Separator + t;
    if |p| == 0 {
      assert s[..2] == Separator && s[2..] == t;
    } else {
      assert s[..2] != Separator by {
        if |p| == 1 {
          assert s[1] == ';';
        } else {
          assert s[0] == p[0] && s[1] == p[1];
          assert !(p[0] == ';' && p[1] == ' ');
        }
      }
      assert !HasSeparator(p[1..]) by {
        forall i | 0 <= i < |p[1..]| - 1 ensures !(p[1..][i] == ';' && p[1..][i + 1] == ' ') {
          assert p[1..][i] == p[i + 1] && p[1..][i + 1] == p[i + 2];
        }
      }
      assert s[1..] == p[1..] + Separator + t;
      SplitAtFirst(p[1..], t);
      assert [p[0]] + p[1..] == p;
    }
  }

  /** Splitting a join of separator-free names gives the names back, in order. */
  lemma {:induction false} SplitJoin(parts: seq<string>)
    requires |parts| >= 1
    requires forall k :: 0 <= k < |parts| ==> !HasSeparator(parts[k])
    ensures Split(Join(parts)) == parts
  {
    if |parts| == 1 {
      SplitWithoutSeparator(parts[0]);
    } else {
      SplitJoin(parts[1..]);
      SplitAtFirst(parts[0], Join(parts[1..]));
      assert parts == [parts[0]] + parts[1..];
    }
  }
}
