/** White space and stripping, as Python's strings have them. */
module Text {
  /** Python's `str.isspace` for one character. */
  predicate IsSpace(c: char) {
    c == ' ' || ('\t' <= c <= '\r') || ('\U{1c}' <= c <= '\U{1f}') || c == '\U{85}' || c == '\U{a0}' || c == '\U{1680}' ||
    ('\U{2000}' <= c <= '\U{200a}') || c == '\U{2028}' || c == '\U{2029}' || c == '\U{202f}' || c == '\U{205f}' || c == '\U{3000}'
  }

  const SPACES := "\t\n\U{b}\U{c}\r\U{1c}\U{1d}\U{1e}\U{1f} \U{85}\U{a0}\U{1680}\U{2000}\U{2001}\U{2002}\U{2003}\U{2004}\U{2005}\U{2006}\U{2007}\U{2008}\U{2009}\U{200a}\U{2028}\U{2029}\U{202f}\U{205f}\U{3000}"

  /** The 29 characters of white space. */
  lemma SpacesAre(c: char)
    ensures IsSpace(c) <==> c in SPACES
  {
  }

  function StripLeft(s: string, drop: char -> bool): string {
    if s != [] && drop(s[0]) then StripLeft(s[1..], drop) else s
  }

  function StripRight(s: string, drop: char -> bool): string {
    if s != [] && drop(s[|s| - 1]) then StripRight(s[..|s| - 1], drop) else s
  }

  function Strip(s: string, drop: char -> bool): string {
    StripRight(StripLeft(s, drop), drop)
  }

  /** `str.strip()` */
  function Trim(s: string): string {
    Strip(s, IsSpace)
  }

  predicate Bare(s: string, drop: char -> bool) {
    s != [] ==> !drop(s[0]) && !drop(s[|s| - 1])
  }

  lemma {:induction false} StripRightKeeps(s: string, drop: char -> bool)
    requires s != [] ==> !drop(s[0])
    ensures var r := StripRight(s, drop); Bare(r, drop) && (s != [] ==> r != [] && r[0] == s[0])
  {
    if s != [] && drop(s[|s| - 1]) {
      StripRightKeeps(s[..|s| - 1], drop);
    }
  }

  lemma {:induction false} StripLeftBares(s: string, drop: char -> bool)
    ensures var r := StripLeft(s, drop); r != [] ==> !drop(r[0])
  {
    if s != [] && drop(s[0]) {
      StripLeftBares(s[1..], drop);
    }
  }

  lemma StripBares(s: string, drop: char -> bool)
    ensures Bare(Strip(s, drop), drop)
  {
    StripLeftBares(s, drop);
    StripRightKeeps(StripLeft(s, drop), drop);
  }

}
