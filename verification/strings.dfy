/** String predicates used by the query scopes, the sort orders and the validation rules. */
module Strings {

  /** `hay LIKE '%needle%'`, read as plain substring containment. */
  predicate Contains(hay: string, needle: string)
    decreases |hay|
  {
    needle <= hay || (|hay| > 0 && Contains(hay[1..], needle))
  }

  /** The empty pattern `'%%'` matches every value. */
  lemma {:induction false} ContainsEmpty(hay: string)
    ensures Contains(hay, "")
  {
  }

  /** A string contains itself. */
  lemma ContainsSelf(s: string)
    ensures Contains(s, s)
  {
  }

  /** A needle longer than the haystack never matches. */
  lemma {:induction false} ShorterNeverContains(hay: string, needle: string)
    requires |hay| < |needle|
    ensures !Contains(hay, needle)
    decreases |hay|
  {
    if |hay| > 0 {
      ShorterNeverContains(hay[1..], needle);
    }
  }

  /** When both strings have the same length, containment is equality. */
  lemma {:induction false} SameLengthContainsIsEquality(hay: string, needle: string)
    requires |hay| == |needle|
    ensures Contains(hay, needle) <==> hay == needle
  {
    if |hay| > 0 {
      ShorterNeverContains(hay[1..], needle);
    }
  }

  /** Code-point lexicographic order, the order a database sorts strings by. */
  predicate LexLe(a: string, b: string)
    decreases |a|
  {
    a == [] || (b != [] && (a[0] < b[0] || (a[0] == b[0] && LexLe(a[1..], b[1..]))))
  }

  lemma {:induction false} LexLeTotal(a: string, b: string)
    ensures LexLe(a, b) || LexLe(b, a)
    decreases |a|
  {
    if a != [] && b != [] && a[0] == b[0] {
      LexLeTotal(a[1..], b[1..]);
    }
  }

  lemma {:induction false} LexLeTransitive(a: string, b: string, c: string)
    requires LexLe(a, b) && LexLe(b, c)
    ensures LexLe(a, c)
    decreases |a|
  {
    if a != [] && a[0] == b[0] && b[0] == c[0] {
      LexLeTransitive(a[1..], b[1..], c[1..]);
    }
  }

  /** The characters PHP's `trim` strips: space, tab, newline, carriage return, NUL, vertical tab. */
  predicate IsTrimmed(c: char)
  {
    c == ' ' || c == '\t' || c == '\n' || c == '\r' || c == '\0' || c == '\U{B}'
  }

  /** `trim($s) === ''`. */
  predicate IsBlank(s: string)
  {
    forall i :: 0 <= i < |s| ==> IsTrimmed(s[i])
  }
}
