/** Values shared by the whole model: optional values, the error kinds the
    pom model raises, and the two results an operation can have. */
module Base {

  datatype Option<+T> = None | Some(value: T)

  /** The exceptions the pom model can raise:
      Arg is IllegalArgumentException (a reference that cannot be found),
      State is IllegalStateException (the descriptor lacks the field the operation needs),
      Unsupported is UnsupportedOperationException (read-only modules),
      NullRef is the NullPointerException a missing element or a null getter result causes. */
  datatype Error = Arg | State | Unsupported | NullRef

  /** The result of an operation that returns nothing (a Java `void` method). */
  datatype Outcome = Pass | Fail(error: Error)

  /** The result of an operation that returns a value. */
  datatype Result<+T> = Ok(value: T) | Err(error: Error)

  /** What Java's string concatenation writes for a possibly-null string. */
  function JavaString(s: Option<string>): string
  {
    match s
    case Some(v) => v
    case None => "null"
  }

  /** Java's String.startsWith. */
  predicate StartsWith(s: string, prefix: string)
  {
    |prefix| <= |s| && s[..|prefix|] == prefix
  }

  /** Java's String.endsWith. */
  predicate EndsWith(s: string, suffix: string)
  {
    |suffix| <= |s| && s[|s| - |suffix|..] == suffix
  }

  lemma StartsWithAppend(a: string, b: string, prefix: string)
    requires StartsWith(a, prefix)
    ensures StartsWith(a + b, prefix)
  {
    assert (a + b)[..|prefix|] == a[..|prefix|];
  }

  lemma EndsWithAppend(a: string, b: string, suffix: string)
    requires EndsWith(b, suffix)
    ensures EndsWith(a + b, suffix)
  {
    assert (a + b)[|a + b| - |suffix|..] == b[|b| - |suffix|..];
  }

  /** A line ending in ";\n" followed by a newline ends in ";\n\n". */
  lemma EndsWithNewline(s: string)
    requires EndsWith(s, ";\n")
    ensures EndsWith(s + "\n", ";\n\n")
  {
    var t := s + "\n";
    assert t[|t| - 3] == s[|s| - 2] == ';';
    assert t[|t| - 2] == s[|s| - 1] == '\n';
    assert t[|t| - 3..] == [t[|t| - 3], t[|t| - 2], t[|t| - 1]];
  }
}
