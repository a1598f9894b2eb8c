/** Vocabulary shared by every part of the model: the status codes the program
    distinguishes, the C integer widths it stores counts in, and an optional value. */
module Platform {

  /** The status codes of platform calls, reduced to the four cases the program
      tells apart. `SFalse` is a success code; the two last ones are failures. */
  datatype HResult = SOk | SFalse | UnsupportedFormat | OtherFailure

  /** The FAILED macro: a status is a failure exactly when its severity bit is set. */
  predicate Failed(hr: HResult) {
    hr.UnsupportedFormat? || hr.OtherFailure?
  }

  const UINT16_LIMIT: int := 0x1_0000
  const UINT32_LIMIT: int := 0x1_0000_0000

  /** WORD and UINT32/DWORD fields of the platform structures. */
  type uint16 = x: int | 0 <= x < 0x1_0000
  type uint32 = x: int | 0 <= x < 0x1_0000_0000

  /** A value that may be absent (a null interface pointer, a missing match). */
  datatype Option<+T> = None | Some(value: T)
}
