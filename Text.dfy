/** The string test the store applies to every key and path it is given. */
module Text {

  /** The characters .NET's `char.IsWhiteSpace` accepts: the controls U+0009 to U+000D,
      U+0085, and the space, line and paragraph separators of Unicode. */
  predicate IsWhiteSpace(c: char)
  {
    || ('\U{0009}' <= c <= '\U{000D}')
    || c == ' '
    || c == '\U{0085}'
    || c == '\U{00A0}'
    || c == '\U{1680}'
    || ('\U{2000}' <= c <= '\U{200A}')
    || c == '\U{2028}'
    || c == '\U{2029}'
    || c == '\U{202F}'
    || c == '\U{205F}'
    || c == '\U{3000}'
  }

  /** `string.IsNullOrWhiteSpace`: the empty string, or one made of white space only.
      A C# `null` is represented by the empty string, which this test treats alike. */
  predicate IsBlank(s: string)
  {
    forall i | 0 <= i < |s| :: IsWhiteSpace(s[i])
  }
}
