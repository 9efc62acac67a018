/** Go's strings: their order, and what counts as blank. */
module Strings {
  predicate Blank(s: string) { forall i | 0 <= i < |s| :: s[i] == ' ' || '\t' <= s[i] <= '\r' }

  /** Space, tab, line feed, vertical tab, form feed, carriage return. */
  const BLANKS: set<char> := {' ', '\t', '\n', 11 as char, 12 as char, '\r'}

  lemma BlankIff(s: string)
    ensures Blank(s) <==> forall c | c in s :: c in BLANKS
  {
    if forall c | c in s :: c in BLANKS {
      forall i | 0 <= i < |s| ensures s[i] == ' ' || '\t' <= s[i] <= '\r' { assert s[i] in s; }
    }
  }

  predicate Before(a: string, b: string) {
    b != "" && (a == "" || a[0] < b[0] || (a[0] == b[0] && Before(a[1..], b[1..])))
  }

  lemma {:induction false} SharedPrefix(p: string, a: string, b: string)
    ensures Before(p + a, p + b) <==> Before(a, b)
  {
    if p == "" {
      assert p + a == a && p + b == b;
    } else {
      assert (p + a)[1..] == p[1..] + a && (p + b)[1..] == p[1..] + b;
      SharedPrefix(p[1..], a, b);
    }
  }

  lemma {:induction false} BeforeIsTotal(a: string, b: string)
    ensures a == b || Before(a, b) || Before(b, a)
    ensures !(Before(a, b) && Before(b, a)) && !Before(a, a)
  {
    if a != "" {
      BeforeIsTotal(a[1..], a[1..]);
      if b != "" && a[0] == b[0] {
        assert a == [a[0]] + a[1..] && b == [b[0]] + b[1..];
        BeforeIsTotal(a[1..], b[1..]);
      }
    }
  }

  lemma {:induction false} BeforeIsTransitive(a: string, b: string, c: string)
    requires Before(a, b) && Before(b, c)
    ensures Before(a, c)
  {
    if a != "" && a[0] == b[0] == c[0] { BeforeIsTransitive(a[1..], b[1..], c[1..]); }
  }
}
