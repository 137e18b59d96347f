/** The part of ActiveSupport the core relies on: `blank?` and `present?` on strings and nil. */
module Support {
  import opened Wrappers

  /** Ruby's `[[:space:]]` character class on a Unicode string. */
  predicate IsSpace(c: char)
  {
    || c == ' ' || c == '\t' || c == '\n' || c == '\U{0B}' || c == '\U{0C}' || c == '\r'
    || c == '\U{85}' || c == '\U{A0}' || c == '\U{1680}'
    || ('\U{2000}' <= c <= '\U{200A}')
    || c == '\U{2028}' || c == '\U{2029}' || c == '\U{202F}' || c == '\U{205F}' || c == '\U{3000}'
  }

  /** `String#blank?`: empty or made of whitespace only. */
  predicate Blank(s: string)
  {
    forall i :: 0 <= i < |s| ==> IsSpace(s[i])
  }

  /** `blank?` on a value that may be nil: nil is blank. */
  predicate BlankValue(v: Option<string>)
  {
    v.None? || Blank(v.value)
  }

  /** `present?`, the negation of `blank?`; it is what `validates ..., presence: true` checks. */
  predicate Present(v: Option<string>)
  {
    !BlankValue(v)
  }
}
