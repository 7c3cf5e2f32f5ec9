/** What several parts of the shell use. */
module NshBasics {

  datatype Option<T> = None | Some(value: T)

  predicate IsQuote(c: char)
  {
    c == '\'' || c == '"'
  }
}
