/**
 The part of a checker's `@BugPattern` descriptor that has behaviour (its name,
 used to label diagnostics, and its severity), and the diagnostics checkers emit.
 The descriptor's prose fields (summary, explanation, category, maturity, alternate
 names) are static configuration and are not modelled.
 */
module BugPattern {
  import opened Wrappers

  datatype Severity = Error | Warning

  datatype Descriptor = Descriptor(name: string, severity: Severity)

  /**
   A finding against user code. `message` is None when the checker reports its
   descriptor's default text rather than a computed one.
   */
  datatype Diagnostic = Diagnostic(checker: string, severity: Severity, message: Option<string>)

  /** A diagnostic produced on behalf of `d`: it carries `d`'s name and severity. */
  function Report(d: Descriptor, message: Option<string>): Diagnostic
  {
    Diagnostic(d.name, d.severity, message)
  }
}
