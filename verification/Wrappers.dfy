/** Small result types shared by the other modules. */
module Wrappers {

  datatype Option<+T> = None | Some(value: T)

  /** What a script that moves a task answers: a new value, or the error of a task that is
  not where the caller expected it. */
  datatype Result<+T> = Ok(value: T) | TaskNotFound
}
