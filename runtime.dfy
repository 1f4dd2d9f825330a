/** The few pieces of the .NET runtime the program's logic depends on. */
module Runtime {
  import opened Wrappers

  /** Exceptions that the modelled code can raise and never catches. */
  datatype Exception =
    | ArgumentNull      // int.Parse(null)
    | Format            // int.Parse of text that is not an integer
    | Overflow          // int.Parse of an integer outside the 32-bit range
    | IndexOutOfRange   // items[0] of an empty array

  /** `string.IsNullOrEmpty`, with `None` for a null string. */
  predicate IsNullOrEmpty(s: Option<string>) {
    s.None? || s.value == ""
  }
}
