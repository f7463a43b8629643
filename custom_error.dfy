/** The error record of the library (src/custom_error.rs) and the ways in
    which a call of the library ends in a panic. */
module CustomError {
  import opened Wrappers
  import opened Strings

  /** `Error { error_type, message }`: a category and a human-readable detail. */
  datatype Error = Error(error_type: string, message: string)

  /** `Error::new(message, error_type)`: the message is the FIRST argument,
      although the record lists the category first. */
  function New(message: string, error_type: string): (e: Error)
    ensures e.message == message
    ensures e.error_type == error_type
  {
    Error(error_type, message)
  }

  /** `Display for Error`: the category, a colon and a space, then the message. */
  function Display(e: Error): (s: string)
    ensures |s| == |e.error_type| + 2 + |e.message|
    ensures s[..|e.error_type|] == e.error_type
    ensures s[|e.error_type|..|e.error_type| + 2] == ": "
    ensures s[|e.error_type| + 2..] == e.message
  {
    e.error_type + ": " + e.message
  }

  /** Reads a rendered error back, cutting at the first colon. */
  function ParseDisplay(s: string): Option<Error>
  {
    match IndexOf(s, ':')
    case None => None
    case Some(k) => if k + 2 <= |s| && s[k + 1] == ' ' then Some(Error(s[..k], s[k + 2..])) else None
  }

  /** A category without a colon can be read back from the rendering, so
      the rendering keeps both fields apart. */
  lemma DisplayRoundTrip(e: Error)
    requires ':' !in e.error_type
    ensures ParseDisplay(Display(e)) == Some(e)
  {
    var s := Display(e);
    var t := |e.error_type|;
    assert s[t] == ':' && s[t + 1] == ' ';
    assert s[..t] == e.error_type;
  }

  /** Without that condition the rendering is ambiguous: two different
      errors display the same. */
  lemma DisplayAmbiguous()
    ensures Error("a", "b: c") != Error("a: b", "c")
    ensures Display(Error("a", "b: c")) == Display(Error("a: b", "c"))
  {
  }

  /** How a failing call of the library ends. */
  datatype Panic =
    | Raised(error: Error)                    // panic! carrying an error category and message
    | ParseFailed                             // a token that is not a number (`expect` on the parse)
    | IndexOutOfBounds(index: nat, len: nat)  // Rust's bounds check on a vector index

  const DimensionError: string := "DimensionError"

  /** The panic every shape check of the library raises. */
  function DimensionFailure(message: string): (p: Panic)
    ensures p.Raised? && p.error.error_type == DimensionError && p.error.message == message
    ensures Display(p.error) == "DimensionError: " + message
  {
    Raised(New(message, DimensionError))
  }
}
