/** The optional value used for "the regex found nothing" (Python's None). */
module Wrappers {

  datatype Option<+T> = None | Some(value: T)
}
