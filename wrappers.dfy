/** The nullable values of the handler (a missing cache hit, a null content, an absent member). */
module Wrappers {
  datatype Option<+T> = None | Some(value: T)
}
