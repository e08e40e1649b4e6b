/** Vocabulary shared by the models. */
module Prelude {

  /** A value that may be missing: an absent argument, a free lock, a wait that has nothing to report. */
  datatype Option<+T> = None | Some(value: T)
}
