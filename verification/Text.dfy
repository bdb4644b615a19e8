/** White space. */
module Text {
  /** The characters with the Unicode property White_Space. */
  predicate IsSpace(c: char) {
    || '\t' <= c <= '\r' || c == ' ' || c == '\U{0085}' || c == '\U{00A0}' || c == '\U{1680}'
    || '\U{2000}' <= c <= '\U{200A}' || c == '\U{2028}' || c == '\U{2029}' || c == '\U{202F}'
    || c == '\U{205F}' || c == '\U{3000}'
  }

  /** The same characters, one by one. */
  predicate Separator(c: char) {
    c in {
      ' ', '\t', '\n', '\U{000B}', '\U{000C}', '\r', '\U{0085}', '\U{00A0}', '\U{1680}',
      '\U{2000}', '\U{2001}', '\U{2002}', '\U{2003}', '\U{2004}', '\U{2005}', '\U{2006}', '\U{2007}',
      '\U{2008}', '\U{2009}', '\U{200A}', '\U{2028}', '\U{2029}', '\U{202F}', '\U{205F}', '\U{3000}'}
  }

  predicate Separates(s: string) { forall i :: 0 <= i < |s| ==> Separator(s[i]) }

  lemma {:induction false} SeparatorsAre(c: char)
    ensures IsSpace(c) <==> Separator(c)
  {
  }
}
