/** The optional value used for the library searches that may report "not found"
    (std::string::npos) and for environment lookups that may fail. */
module Wrappers {
  datatype Option<+T> = None | Some(value: T)
}
