/** The exceptions the kit throws, by class and message. */
module Exceptions {
  import opened Text

  /** The exception classes that reach the kit's callers. */
  datatype Kind =
    | IllegalArgument  // java.lang.IllegalArgumentException, from the null and text checks
    | IllegalState     // java.lang.IllegalStateException
    | Gradle           // org.gradle.api.GradleException
    | MissingConfig    // the lookup library's exception for a required value that is absent

  datatype Exception = Exception(kind: Kind, message: Text)

  function Thrown(kind: Kind, message: string): Exception {
    Exception(kind, Ascii(message))
  }
}
