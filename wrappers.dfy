/** A nullable value: `None` stands for SQL NULL or Python `None`. */
module Wrappers {
  datatype Option<+T> = None | Some(value: T)
}
