/** `StudentService`: checks a student id against the registered ids. */
module Students {
  import opened Wrappers
  import opened Registry

  /** Exact membership: no trimming, no case folding; a null id is never valid. */
  function ValidateStudentId(sys: CinemaSystem, studentId: Option<string>): (valid: bool)
    reads sys
    ensures valid <==> exists id :: id in sys.validStudentIds && studentId == Some(id)
  {
    studentId.Some? && studentId.value in sys.validStudentIds
  }
}
