/** Types shared by every module of the model. */
module Wrappers {
  datatype Option<+T> = None | Some(value: T) {
    function GetOr(default: T): T {
      match this
      case Some(v) => v
      case None => default
    }
  }

  /** What happens to a statement sent to the database: executed and answered,
      executed with the answer lost on the way back, or never executed. */
  datatype Fate = Answered | AnswerLost | NotExecuted
}
