/** The program's own errors and how they reach the runtime (src/error.rs). */
module StudentIntroErrors {
  import opened Host

  datatype StudentIntroError = InvalidDataLength | InvalidPda

  /** The variants in declaration order: `e as u32` is a variant's index here. */
  const DECLARATION_ORDER: seq<StudentIntroError> := [InvalidDataLength, InvalidPda]

  /**
   * `From<StudentIntroError> for ProgramError`: every variant becomes a
   * custom error whose code is the variant's discriminant.
   */
  function ToProgramError(e: StudentIntroError): (r: ProgramError)
    ensures r.Custom? && (r.code as int) < |DECLARATION_ORDER|
    ensures DECLARATION_ORDER[r.code] == e
  {
    match e
    case InvalidDataLength => Custom(0)
    case InvalidPda => Custom(1)
  }

  /** Distinct variants reach the caller as distinct codes. */
  lemma ToProgramErrorInjective(a: StudentIntroError, b: StudentIntroError)
    ensures ToProgramError(a) == ToProgramError(b) ==> a == b
  {
  }
}
