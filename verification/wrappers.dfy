/** The optional value used for the controller's nullable result slots. */
module Wrappers {

  /** `None` stands for App.tsx's `null`; `Some` for a present record. */
  datatype Option<+T> = None | Some(value: T)
}
