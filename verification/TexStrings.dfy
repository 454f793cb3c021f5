/** Strings as the documentation generator's Python code handles them. */
module TexStrings {
  import opened Text

  /** str.isspace, which str.strip and \s go by. */
  predicate IsPySpace(c: char) {
    IsSpace(c) || '\U{1C}' <= c <= '\U{1F}'
  }

  function LStrip(s: string): string {
    s[RunLen(s, IsPySpace)..]
  }

  function RStrip(s: string): string {
    if s != "" && IsPySpace(s[|s| - 1]) then RStrip(s[..|s| - 1]) else s
  }

  /** str.strip() */
  function Strip(s: string): string {
    RStrip(LStrip(s))
  }

  function StripLeft(s: string): string {
    if s != "" && s[0] == '\n' then StripLeft(s[1..]) else s
  }

  function StripRight(s: string): string {
    if s != "" && s[|s| - 1] == '\n' then StripRight(s[..|s| - 1]) else s
  }

  /** body.strip("\n") */
  function StripNewlines(s: string): string {
    StripRight(StripLeft(s))
  }

  predicate Escaped(text: string, i: nat)
    requires i <= |text|
  {
    i > 0 && text[i - 1] == '\\'
  }

  /** Beside the white space of Unicode there are four separators. */
  lemma PySpaceCodes(c: char)
    ensures IsPySpace(c) <==> IsSpace(c) || c as int == 28 || c as int == 29 || c as int == 30 || c as int == 31
  {}
}
