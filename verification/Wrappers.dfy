/** Small value types shared by every module. */
module Wrappers {

  datatype Option<+T> = None | Some(value: T)

  /** What one remote call did. `Lost` took effect although the caller was told it failed. */
  datatype Outcome = Applied | Rejected | Lost {
    predicate TookEffect() { !Rejected? }
    predicate ReportedOk() { Applied? }
  }
}
