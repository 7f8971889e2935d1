/** The optional value used wherever the site may find nothing: a stored
    preference that is absent, a section id that is not on the page. */
module Wrappers {
  datatype Option<+T> = None | Some(value: T)
}
