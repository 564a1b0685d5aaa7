/** The optional value used for the lookup link, which the component keeps as `null` or a link. */
module Wrappers {
  datatype Option<+T> = None | Some(value: T)
}
